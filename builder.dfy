/** `PazckagerCoreBuilder` and `BuilderError` (pazckager_core/src/models/mod.rs): collects a
    store and installers, then builds the core only when at least one installer is
    registered. */
module Builder {
  import opened Wrappers
  import opened Models
  import opened Traits
  import opened Errors
  import opened LocalDb
  import opened Core

  datatype BuilderError = NoPackageInstaller | PazckagerCore(coreError: Error)

  /** Display text of a builder error (the Rust text's spelling is kept). */
  function BuilderMessage(e: BuilderError): string
  {
    match e
    case NoPackageInstaller => "Colud not find a package installer"
    case PazckagerCore(inner) => "Pazckager core error: " + Message(inner)
  }

  /** Distinct builder errors show distinct texts; a core error's text follows the prefix
      "Pazckager core error: ". */
  lemma BuilderMessageInjective(a: BuilderError, b: BuilderError)
    requires BuilderMessage(a) == BuilderMessage(b)
    ensures a == b
  {
    var ma, mb := BuilderMessage(a), BuilderMessage(b);
    assert ma[0] == if a.NoPackageInstaller? then 'C' else 'P';
    assert mb[0] == if b.NoPackageInstaller? then 'C' else 'P';
    if a.PazckagerCore? && b.PazckagerCore? {
      assert ma[22..] == Message(a.coreError);
      assert mb[22..] == Message(b.coreError);
      MessageInjective(a.coreError, b.coreError);
    }
  }

  class PazckagerCoreBuilder {
    const store: JsonStorage
    var installers: Installers

    ghost predicate Valid()
      reads this
    {
      KeyedByKind(installers)
    }

    /** A builder over `store` with no installer registered. */
    constructor (store: JsonStorage)
      ensures Valid() && this.store == store && installers == map[]
    {
      this.store := store;
      installers := map[];
    }

    /** Registers `installer` under its own type, replacing an earlier one of that type;
        the other entries stay. */
    method WithInstaller(installer: InstallationTool)
      requires Valid()
      modifies this`installers
      ensures Valid()
      ensures installers == old(installers)[installer.kind := installer]
    {
      installers := installers[installer.kind := installer];
    }

    /** Fails with `NoPackageInstaller` on an empty registry; otherwise builds the core,
        wrapping a failure of `PazckagerCore::new` as `BuilderError::PazckagerCore`. A built
        core holds this store and registry, and the "default" category exists. */
    method Build() returns (r: Result<PazckagerCore, BuilderError>)
      requires Valid() && store.Valid()
      modifies store
      ensures installers == map[] ==> r == Err(NoPackageInstaller) && unchanged(store)
      ensures installers != map[] ==> r != Err(NoPackageInstaller)
      ensures installers != map[] && "default" in old(store.categories) ==> r.Ok?
      ensures installers != map[] && r.Err? ==>
        "default" !in old(store.categories) && store.SaveResult().Err? && r.error == PazckagerCore(Store(store.SaveResult().error))
      ensures r.Ok? ==> fresh(r.value) && r.value.Valid()
      ensures r.Ok? ==> r.value.store == store && r.value.installers == installers
      ensures r.Ok? ==> "default" in store.categories
      ensures store.packages == old(store.packages)
      ensures installers != map[] ==>
        store.categories == (if "default" in old(store.categories) then old(store.categories)
                             else old(store.categories)["default" := Category("default", None)])
    {
      if installers == map[] {
        return Err(NoPackageInstaller);
      }
      var built := PazckagerCore.New(store, installers);
      match built
      case Ok(core) => r := Ok(core);
      case Err(e) => r := Err(PazckagerCore(e));
    }
  }
}
