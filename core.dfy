/** The orchestration core (pazckager_core/src/lib.rs): a catalog store and a registry from
    tool type to installer, with the package operations and their checks. */
module Core {
  import opened Wrappers
  import opened Models
  import opened Traits
  import opened Errors
  import opened LocalDb

  type Installers = map<InstallationTools, InstallationTool>
  type Packages = map<string, PackageData>

  /** `order` lists the keys of the registry, each once: an iteration order of the map. */
  ghost predicate IsEnumeration(order: seq<InstallationTools>, keys: set<InstallationTools>)
  {
    && (forall k :: k in order <==> k in keys)
    && (forall i, j | 0 <= i < j < |order| :: order[i] != order[j])
  }

  /** The category a new package goes to: the given one, or "default" when none or an
      empty one is given. */
  function ResolveCategory(category: Option<string>): (c: string)
    ensures c != ""
    ensures c == "default" <==> category == None || category == Some("") || category == Some("default")
    ensures category.Some? && category.value != "" ==> c == category.value
  {
    match category
    case Some(c) => if c == "" then "default" else c
    case None => "default"
  }

  /** An installer's report, completed with `installed == true`. */
  function Completed(raws: seq<RawPackageData>): seq<PackageData>
  {
    seq(|raws|, i requires 0 <= i < |raws| => ToPackageData(raws[i], true))
  }

  /** The first loop of `sync_packages`: the reports of the installers, in iteration order. */
  function Reported(installers: Installers, order: seq<InstallationTools>): seq<PackageData>
    requires forall i | 0 <= i < |order| :: order[i] in installers
  {
    if order == [] then []
    else Reported(installers, order[..|order| - 1]) + Completed(installers[order[|order| - 1]].packages)
  }

  /** The record sync stores for a reported package: filed under "default". */
  function Tracked(p: PackageData): PackageData
  {
    p.(categoryName := "default")
  }

  function TrackedAll(ps: seq<PackageData>): seq<PackageData>
  {
    seq(|ps|, i requires 0 <= i < |ps| => Tracked(ps[i]))
  }

  function Names(ps: seq<PackageData>): set<string>
  {
    set i | 0 <= i < |ps| :: ps[i].packageName
  }

  /** The second loop of `sync_packages`: each reported package whose name is absent is
      stored; the first failing save ends the loop with its error. */
  function SyncEffect(packages: Packages, toAdd: seq<PackageData>, fault: Option<string>): (CoreResult<()>, Packages)
    decreases |toAdd|
  {
    if toAdd == [] then (Ok(()), packages)
    else
      var p := Tracked(toAdd[0]);
      if p.packageName in packages then SyncEffect(packages, toAdd[1..], fault)
      else
        var packages' := packages[p.packageName := p];
        match fault
        case Some(msg) => (Err(Store(InternalStoreError(msg))), packages')
        case None => SyncEffect(packages', toAdd[1..], fault)
  }

  /** The catalog after a sync whose saves all succeed. */
  function SyncInsert(packages: Packages, toAdd: seq<PackageData>): Packages
  {
    SyncEffect(packages, toAdd, None).1
  }

  // ---------------------------------------------------------------------------------
  // Properties of sync

  lemma {:induction false} SyncSucceeds(packages: Packages, toAdd: seq<PackageData>)
    ensures SyncEffect(packages, toAdd, None).0 == Ok(())
    decreases |toAdd|
  {
    if toAdd != [] {
      var p := Tracked(toAdd[0]);
      SyncSucceeds(if p.packageName in packages then packages else packages[p.packageName := p], toAdd[1..]);
    }
  }

  lemma NamesCons(ps: seq<PackageData>)
    requires ps != []
    ensures Names(ps) == {ps[0].packageName} + Names(ps[1..])
  {
    forall n | n in Names(ps) ensures n in {ps[0].packageName} + Names(ps[1..]) {
      var i :| 0 <= i < |ps| && ps[i].packageName == n;
      if i > 0 { assert ps[1..][i - 1] == ps[i]; }
    }
    forall n | n in Names(ps[1..]) ensures n in Names(ps) {
      var i :| 0 <= i < |ps[1..]| && ps[1..][i].packageName == n;
      assert ps[i + 1].packageName == n;
    }
  }

  lemma TrackedAllCons(ps: seq<PackageData>)
    requires ps != []
    ensures TrackedAll(ps) == [Tracked(ps[0])] + TrackedAll(ps[1..])
  {
  }

  /** Sync never changes an entry that is already there, and adds exactly the reported
      names that were missing, each filed under "default" as one of the reported records. */
  lemma {:induction false} SyncInsertSpec(packages: Packages, toAdd: seq<PackageData>)
    ensures var r := SyncInsert(packages, toAdd);
      && r.Keys == packages.Keys + Names(toAdd)
      && (forall n | n in packages :: r[n] == packages[n])
      && (forall n | n in r && n !in packages :: r[n] in TrackedAll(toAdd) && r[n].categoryName == "default")
    decreases |toAdd|
  {
    if toAdd != [] {
      var p := Tracked(toAdd[0]);
      var next := if p.packageName in packages then packages else packages[p.packageName := p];
      SyncInsertSpec(next, toAdd[1..]);
      NamesCons(toAdd);
      TrackedAllCons(toAdd);
    }
  }

  /** Whether or not the save fails, sync never changes or drops an entry that is already
      there, and every entry it adds is one of the reported records filed under "default". */
  lemma {:induction false} SyncKeepsExisting(packages: Packages, toAdd: seq<PackageData>, fault: Option<string>)
    ensures var r := SyncEffect(packages, toAdd, fault).1;
      && packages.Keys <= r.Keys
      && (forall n | n in packages :: r[n] == packages[n])
      && (forall n | n in r && n !in packages :: r[n] in TrackedAll(toAdd) && r[n].categoryName == "default")
    decreases |toAdd|
  {
    if toAdd != [] {
      var p := Tracked(toAdd[0]);
      TrackedAllCons(toAdd);
      if p.packageName in packages {
        SyncKeepsExisting(packages, toAdd[1..], fault);
      } else if fault.None? {
        SyncKeepsExisting(packages[p.packageName := p], toAdd[1..], fault);
      }
    }
  }

  /** Entries sync adds are marked installed when the reports are, whether or not a save
      fails. */
  lemma SyncAddsInstalled(packages: Packages, toAdd: seq<PackageData>, fault: Option<string>)
    requires forall i | 0 <= i < |toAdd| :: toAdd[i].installed
    ensures var r := SyncEffect(packages, toAdd, fault).1;
      forall n | n in r && n !in packages :: r[n].installed && r[n].categoryName == "default"
  {
    SyncKeepsExisting(packages, toAdd, fault);
    var r := SyncEffect(packages, toAdd, fault).1;
    forall n | n in r && n !in packages ensures r[n].installed {
      var i :| 0 <= i < |TrackedAll(toAdd)| && TrackedAll(toAdd)[i] == r[n];
    }
  }

  /** With failing saves, sync fails exactly when some reported name is not tracked yet:
      the first insertion's save reports the store's error. */
  lemma {:induction false} SyncFailsIff(packages: Packages, toAdd: seq<PackageData>, msg: string)
    ensures SyncEffect(packages, toAdd, Some(msg)).0 ==
      if Names(toAdd) <= packages.Keys then Ok(()) else Err(Store(InternalStoreError(msg)))
    decreases |toAdd|
  {
    if toAdd != [] {
      NamesCons(toAdd);
      SyncFailsIff(packages, toAdd[1..], msg);
    }
  }

  /** Sync stores nothing when every reported name is already tracked. */
  lemma {:induction false} SyncNothingNew(packages: Packages, toAdd: seq<PackageData>)
    requires Names(toAdd) <= packages.Keys
    ensures SyncInsert(packages, toAdd) == packages
    decreases |toAdd|
  {
    if toAdd != [] {
      NamesCons(toAdd);
      SyncNothingNew(packages, toAdd[1..]);
    }
  }

  /** A second sync over reports naming no new package leaves the catalog as the first
      left it. */
  lemma SyncIdempotent(packages: Packages, first: seq<PackageData>, second: seq<PackageData>)
    requires Names(second) <= Names(first)
    ensures SyncInsert(SyncInsert(packages, first), second) == SyncInsert(packages, first)
  {
    SyncInsertSpec(packages, first);
    SyncNothingNew(SyncInsert(packages, first), second);
  }

  /** Every record the installers report is completed as installed. */
  lemma {:induction false} ReportedInstalled(installers: Installers, order: seq<InstallationTools>)
    requires forall i | 0 <= i < |order| :: order[i] in installers
    ensures var rep := Reported(installers, order);
      forall i | 0 <= i < |rep| :: rep[i].installed
    decreases |order|
  {
    if order != [] {
      var front := order[..|order| - 1];
      ReportedInstalled(installers, front);
      var rep, c := Reported(installers, order), Completed(installers[order[|order| - 1]].packages);
      assert rep == Reported(installers, front) + c;
      forall i | |Reported(installers, front)| <= i < |rep| ensures rep[i].installed {
        assert rep[i] == c[i - |Reported(installers, front)|];
      }
    }
  }

  function RawNames(raws: seq<RawPackageData>): set<string>
  {
    set i | 0 <= i < |raws| :: raws[i].packageName
  }

  lemma {:induction false} ReportedNames(installers: Installers, order: seq<InstallationTools>, n: string)
    requires forall i | 0 <= i < |order| :: order[i] in installers
    ensures n in Names(Reported(installers, order)) <==>
      exists i | 0 <= i < |order| :: n in RawNames(installers[order[i]].packages)
    decreases |order|
  {
    if order != [] {
      var front, last := order[..|order| - 1], order[|order| - 1];
      ReportedNames(installers, front, n);
      var c := Completed(installers[last].packages);
      var rep := Reported(installers, order);
      assert rep == Reported(installers, front) + c;
      assert n in Names(rep) <==> n in Names(Reported(installers, front)) || n in RawNames(installers[last].packages) by {
        if n in Names(rep) {
          var i :| 0 <= i < |rep| && rep[i].packageName == n;
          if i >= |Reported(installers, front)| {
            assert c[i - |Reported(installers, front)|].packageName == n;
          }
        }
        if n in Names(Reported(installers, front)) {
          var i :| 0 <= i < |Reported(installers, front)| && Reported(installers, front)[i].packageName == n;
          assert rep[i].packageName == n;
        }
        if n in RawNames(installers[last].packages) {
          var i :| 0 <= i < |installers[last].packages| && installers[last].packages[i].packageName == n;
          assert rep[|Reported(installers, front)| + i].packageName == n;
        }
      }
      if exists i | 0 <= i < |order| :: n in RawNames(installers[order[i]].packages) {
        var i :| 0 <= i < |order| && n in RawNames(installers[order[i]].packages);
        if i < |order| - 1 { assert order[i] == front[i]; }
      }
      if exists i | 0 <= i < |front| :: n in RawNames(installers[front[i]].packages) {
        var i :| 0 <= i < |front| && n in RawNames(installers[front[i]].packages);
        assert order[i] == front[i];
      }
    }
  }

  /** Whatever order the registry is iterated in, the reports name the same packages. */
  lemma ReportedNamesAnyOrder(installers: Installers, o1: seq<InstallationTools>, o2: seq<InstallationTools>)
    requires IsEnumeration(o1, installers.Keys) && IsEnumeration(o2, installers.Keys)
    ensures Names(Reported(installers, o1)) == Names(Reported(installers, o2))
  {
    forall n ensures n in Names(Reported(installers, o1)) <==> n in Names(Reported(installers, o2)) {
      ReportedNames(installers, o1, n);
      ReportedNames(installers, o2, n);
      if exists i | 0 <= i < |o1| :: n in RawNames(installers[o1[i]].packages) {
        var i :| 0 <= i < |o1| && n in RawNames(installers[o1[i]].packages);
        assert o1[i] in o2;
        var j :| 0 <= j < |o2| && o2[j] == o1[i];
      }
      if exists j | 0 <= j < |o2| :: n in RawNames(installers[o2[j]].packages) {
        var j :| 0 <= j < |o2| && n in RawNames(installers[o2[j]].packages);
        assert o2[j] in o1;
        var i :| 0 <= i < |o1| && o1[i] == o2[j];
      }
    }
  }

  /** Two fault-free syncs in a row over the same installers leave the catalog as the
      first left it, whatever order each run visits the installers in. */
  lemma SyncTwice(installers: Installers, packages: Packages, o1: seq<InstallationTools>, o2: seq<InstallationTools>)
    requires IsEnumeration(o1, installers.Keys) && IsEnumeration(o2, installers.Keys)
    ensures var once := SyncInsert(packages, Reported(installers, o1));
      SyncInsert(once, Reported(installers, o2)) == once
  {
    ReportedNamesAnyOrder(installers, o1, o2);
    SyncIdempotent(packages, Reported(installers, o1), Reported(installers, o2));
  }

  // ---------------------------------------------------------------------------------
  // The core

  class PazckagerCore {
    const store: JsonStorage
    const installers: Installers

    /** The store is consistent, the "default" category exists, and the registry is
        non-empty with every installer filed under its own type. */
    ghost predicate Valid()
      reads this, store
    {
      && store.Valid()
      && "default" in store.categories
      && installers != map[]
      && KeyedByKind(installers)
    }

    constructor Init(store: JsonStorage, installers: Installers)
      ensures this.store == store && this.installers == installers
    {
      this.store := store;
      this.installers := installers;
    }

    /** `PazckagerCore::new`: seeds the "default" category when it is missing and keeps an
        existing one as it is. Only the builder calls it, with a non-empty registry. */
    static method New(store: JsonStorage, installers: Installers) returns (r: CoreResult<PazckagerCore>)
      requires store.Valid() && installers != map[] && KeyedByKind(installers)
      modifies store
      ensures store.Valid() && store.packages == old(store.packages)
      ensures "default" in old(store.categories) ==> r.Ok? && store.categories == old(store.categories)
      ensures "default" !in old(store.categories) ==>
        && store.categories == old(store.categories)["default" := Category("default", None)]
        && (r.Ok? <==> store.SaveResult().Ok?)
        && (r.Err? ==> r.error == Store(store.SaveResult().error))
      ensures r.Ok? ==> fresh(r.value) && r.value.store == store && r.value.installers == installers
      ensures r.Ok? ==> r.value.Valid()
    {
      if !store.CategoryExists("default") {
        var s := store.StoreCategory(Category("default", None));
        if s.Err? {
          return Err(Store(s.error));
        }
      }
      var core := new PazckagerCore.Init(store, installers);
      r := Ok(core);
    }

    /** Installs a tracked package and then marks it installed. A missing package fails
        in the store's lookup; a package whose tool is not registered fails with
        `PackageDoesNotExists`; an installer failure leaves the catalog unchanged. */
    method InstallPackage(name: string) returns (r: CoreResult<()>)
      requires Valid()
      modifies store
      ensures Valid() && store.categories == old(store.categories)
      ensures name !in old(store.packages) ==>
        r == Err(Store(InternalStoreError("Package not found"))) && store.packages == old(store.packages)
      ensures name in old(store.packages) ==>
        var p := old(store.packages)[name];
        if p.installationTool !in installers then
          r == Err(PackageDoesNotExists) && store.packages == old(store.packages)
        else match installers[p.installationTool].install(name)
          case Err(e) => r == Err(Installer(e)) && store.packages == old(store.packages)
          case Ok(_) =>
            && store.packages == old(store.packages)[name := p.(installed := true)]
            && r == FromStore(store.SaveResult())
    {
      var got := store.GetPackage(name);
      if got.Err? {
        return Err(Store(got.error));
      }
      var package := got.value;
      if package.installationTool !in installers {
        return Err(PackageDoesNotExists);
      }
      var installed := installers[package.installationTool].install(name);
      if installed.Err? {
        return Err(Installer(installed.error));
      }
      var s := store.UpdatePackage(package.(installed := true));
      r := FromStore(s);
    }

    /** Starts tracking a package, not yet installed. Checks run in this order: a named
        tool must be registered, the category (given, or "default") must exist, the name
        must be new. Any failed check leaves the catalog unchanged. */
    method AddPackage(name: string, tool: Option<InstallationTools>, category: Option<string>)
      returns (r: CoreResult<()>)
      requires Valid()
      modifies store
      ensures Valid() && store.categories == old(store.categories)
      ensures tool.Some? && tool.value !in installers ==>
        r == Err(InstallationToolDoesNotExist) && store.packages == old(store.packages)
      ensures (tool.None? || tool.value in installers) && ResolveCategory(category) !in old(store.categories) ==>
        r == Err(CategoryDoesNotExist) && store.packages == old(store.packages)
      ensures (tool.None? || tool.value in installers) && ResolveCategory(category) in old(store.categories)
              && name in old(store.packages) ==>
        r == Err(PackageAlreadyExists) && store.packages == old(store.packages)
      ensures (tool.None? || tool.value in installers) && ResolveCategory(category) in old(store.categories)
              && name !in old(store.packages) ==>
        && r == FromStore(store.SaveResult())
        && name in store.packages
        && store.packages == old(store.packages)[name := store.packages[name]]
        && store.packages[name].categoryName == ResolveCategory(category)
        && !store.packages[name].installed
        && store.packages[name].installationTool in installers
        && (tool.Some? ==> store.packages[name].installationTool == tool.value)
    {
      var kind: InstallationTools;
      if tool.Some? {
        if tool.value !in installers {
          return Err(InstallationToolDoesNotExist);
        }
        kind := installers[tool.value].kind;
      } else {
        // The Rust code takes the first installer the map yields: any registered one.
        var k :| k in installers;
        kind := installers[k].kind;
      }
      var categoryName := ResolveCategory(category);
      if !store.CategoryExists(categoryName) {
        return Err(CategoryDoesNotExist);
      }
      if store.PackageExists(name) {
        return Err(PackageAlreadyExists);
      }
      var s := store.StorePackage(PackageData(name, kind, categoryName, false));
      r := FromStore(s);
    }

    /** Removes a package from the host and then from the catalog. If the tool's delete
        fails, the catalog entry stays. */
    method DeletePackage(name: string) returns (r: CoreResult<()>)
      requires Valid()
      modifies store
      ensures Valid() && store.categories == old(store.categories)
      ensures name !in old(store.packages) ==>
        r == Err(PackageDoesNotExists) && store.packages == old(store.packages)
      ensures name in old(store.packages) ==>
        var p := old(store.packages)[name];
        if p.installationTool !in installers then
          r == Err(InstallationToolDoesNotExist) && store.packages == old(store.packages)
        else match installers[p.installationTool].delete(name)
          case Err(e) => r == Err(Installer(e)) && store.packages == old(store.packages)
          case Ok(_) => store.packages == old(store.packages) - {name} && r == FromStore(store.SaveResult())
    {
      if !store.PackageExists(name) {
        return Err(PackageDoesNotExists);
      }
      // Cannot fail: the package was just found.
      var package := store.GetPackage(name).value;
      if package.installationTool !in installers {
        return Err(InstallationToolDoesNotExist);
      }
      var deleted := installers[package.installationTool].delete(package.packageName);
      if deleted.Err? {
        return Err(Installer(deleted.error));
      }
      var s := store.RemovePackage(name);
      r := FromStore(s);
    }

    /** Removes a package from the host but keeps tracking it. The catalog is not touched:
        in particular `installed` is not reset. */
    method UninstallPackage(name: string) returns (r: CoreResult<()>)
      requires Valid()
      ensures name !in store.packages ==> r == Err(PackageDoesNotExists)
      ensures name in store.packages ==>
        var p := store.packages[name];
        if p.installationTool !in installers then r == Err(InstallationToolDoesNotExist)
        else r == FromTool(installers[p.installationTool].delete(name))
    {
      if !store.PackageExists(name) {
        return Err(PackageDoesNotExists);
      }
      var package := store.GetPackage(name).value;
      if package.installationTool !in installers {
        return Err(InstallationToolDoesNotExist);
      }
      var deleted := installers[package.installationTool].delete(package.packageName);
      r := FromTool(deleted);
    }

    /** Asks the package's tool to update it. The catalog is not touched. */
    method UpdatePackage(name: string) returns (r: CoreResult<()>)
      requires Valid()
      ensures name !in store.packages ==> r == Err(PackageDoesNotExists)
      ensures name in store.packages ==>
        var p := store.packages[name];
        if p.installationTool !in installers then r == Err(InstallationToolDoesNotExist)
        else r == FromTool(installers[p.installationTool].update(name))
    {
      if !store.PackageExists(name) {
        return Err(PackageDoesNotExists);
      }
      var package := store.GetPackage(name).value;
      if package.installationTool !in installers {
        return Err(InstallationToolDoesNotExist);
      }
      var updated := installers[package.installationTool].update(package.packageName);
      r := FromTool(updated);
    }

    /** Collects what every installer reports (visiting them in `order`, the map's iteration
        order), then stores, under "default" and installed, each reported package that is
        not tracked yet. Existing entries are never changed. */
    method SyncPackages() returns (r: CoreResult<()>, ghost order: seq<InstallationTools>)
      requires Valid()
      modifies store
      ensures Valid() && store.categories == old(store.categories)
      ensures IsEnumeration(order, installers.Keys)
      ensures (r, store.packages) == SyncEffect(old(store.packages), Reported(installers, order), store.saveFault)
      ensures forall n | n in old(store.packages) :: n in store.packages && store.packages[n] == old(store.packages)[n]
      ensures forall n | n in store.packages && n !in old(store.packages) ::
        store.packages[n].installed && store.packages[n].categoryName == "default"
    {
      var toAdd;
      toAdd, order := CollectReported();
      ghost var before := store.packages;
      r := StoreAbsent(toAdd);
      SyncAddsInstalled(before, toAdd, store.saveFault);
    }

    /** The first loop of `sync_packages`: the reports of all installers, each visited once,
        completed with `installed == true`. */
    method CollectReported() returns (toAdd: seq<PackageData>, ghost order: seq<InstallationTools>)
      ensures IsEnumeration(order, installers.Keys)
      ensures toAdd == Reported(installers, order)
      ensures forall i | 0 <= i < |toAdd| :: toAdd[i].installed
    {
      toAdd := [];
      var todo := installers.Keys;
      order := [];
      while todo != {}
        invariant todo <= installers.Keys
        invariant forall k :: k in order <==> k in installers.Keys - todo
        invariant forall i | 0 <= i < |order| :: order[i] in installers
        invariant forall i, j | 0 <= i < j < |order| :: order[i] != order[j]
        invariant toAdd == Reported(installers, order)
        invariant forall i | 0 <= i < |toAdd| :: toAdd[i].installed
        decreases |todo|
      {
        var k :| k in todo;
        assert k !in order;
        assert (order + [k])[..|order|] == order;
        toAdd := toAdd + Completed(installers[k].packages);
        order := order + [k];
        todo := todo - {k};
      }
    }

    /** The second loop of `sync_packages`: stores each package whose name is not tracked,
        filed under "default"; the first failed save ends it with that error. */
    method StoreAbsent(toAdd: seq<PackageData>) returns (r: CoreResult<()>)
      requires Valid()
      modifies store
      ensures Valid() && store.categories == old(store.categories)
      ensures (r, store.packages) == SyncEffect(old(store.packages), toAdd, store.saveFault)
      ensures forall n | n in old(store.packages) :: n in store.packages && store.packages[n] == old(store.packages)[n]
    {
      SyncKeepsExisting(store.packages, toAdd, store.saveFault);
      var i := 0;
      while i < |toAdd|
        invariant 0 <= i <= |toAdd|
        invariant Valid() && store.categories == old(store.categories)
        invariant SyncEffect(old(store.packages), toAdd, store.saveFault) == SyncEffect(store.packages, toAdd[i..], store.saveFault)
      {
        var package := toAdd[i];
        assert toAdd[i..][1..] == toAdd[i + 1..];
        if !store.PackageExists(package.packageName) {
          var s := store.StorePackage(PackageData(package.packageName, package.installationTool, "default", package.installed));
          if s.Err? {
            return Err(Store(s.error));
          }
        }
        i := i + 1;
      }
      r := Ok(());
    }

    /** Every tracked package, once each, in no specified order. */
    method GetPackages() returns (r: CoreResult<seq<PackageData>>)
      requires Valid()
      ensures r.Ok? && Enumerates(r.value, store.packages)
    {
      var ps := store.GetPackages();
      r := Ok(ps);
    }

    /** Every category, once each, in no specified order. */
    method GetCategories() returns (r: CoreResult<seq<Category>>)
      requires Valid()
      ensures r.Ok? && Enumerates(r.value, store.categories)
      ensures exists i | 0 <= i < |r.value| :: r.value[i].categoryName == "default"
    {
      var cs := store.GetCategories();
      r := Ok(cs);
      assert store.categories["default"] in cs;
    }

    /** The tracked packages of one category, once each; empty when it has none. */
    method GetPackageByCategory(category: string) returns (r: CoreResult<seq<PackageData>>)
      requires Valid()
      ensures r.Ok?
      ensures forall i | 0 <= i < |r.value| :: r.value[i] in store.packages.Values && r.value[i].categoryName == category
      ensures forall n | n in store.packages && store.packages[n].categoryName == category :: store.packages[n] in r.value
      ensures forall i, j | 0 <= i < j < |r.value| :: r.value[i] != r.value[j]
    {
      var ps := store.GetPackagesByCategory(category);
      r := Ok(ps);
    }
  }
}
