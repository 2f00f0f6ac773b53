/** The in-memory part of the JSON-file storage (local_db/src/lib.rs): two maps keyed by
    name, written through on every change. The file itself is not modelled; whether writing
    it fails is the fixed field `saveFault`. */
module LocalDb {
  import opened Wrappers
  import opened Models
  import opened Traits

  /** `r` lists the values of `m`, each exactly once, in some order. */
  ghost predicate Enumerates<V>(r: seq<V>, m: map<string, V>)
  {
    && |r| == |m|
    && (forall i | 0 <= i < |r| :: r[i] in m.Values)
    && (forall k | k in m :: m[k] in r)
    && (forall i, j | 0 <= i < j < |r| :: r[i] != r[j])
  }

  /** A map with exactly one entry is listed as exactly that entry. */
  lemma EnumeratesSingleton<V>(r: seq<V>, k: string, v: V)
    requires Enumerates(r, map[k := v])
    ensures r == [v]
  {
    assert |r| == 1;
    assert r[0] in map[k := v].Values;
  }

  /** The loop state of ListValues: `r` lists the entries of `m` whose keys are in `done`,
      once each. */
  ghost predicate ListedSoFar<V>(r: seq<V>, m: map<string, V>, done: set<string>, key: V -> string)
  {
    && done <= m.Keys
    && |r| == |done|
    && (forall i | 0 <= i < |r| :: key(r[i]) in done && m[key(r[i])] == r[i])
    && (forall k | k in done :: m[k] in r)
    && (forall i, j | 0 <= i < j < |r| :: r[i] != r[j])
  }

  lemma ListedStep<V>(r: seq<V>, m: map<string, V>, done: set<string>, todo: set<string>, key: V -> string, k: string)
    requires forall n | n in m :: key(m[n]) == n
    requires done + todo == m.Keys && done !! todo && k in todo
    requires ListedSoFar(r, m, done, key)
    ensures (done + {k}) + (todo - {k}) == m.Keys && (done + {k}) !! (todo - {k})
    ensures |todo - {k}| < |todo|
    ensures ListedSoFar(r + [m[k]], m, done + {k}, key)
  {
    var r' := r + [m[k]];
    forall i | 0 <= i < |r| ensures r'[i] != m[k] {
      assert key(r[i]) in done;
    }
  }

  lemma ListedAll<V>(r: seq<V>, m: map<string, V>, key: V -> string)
    requires ListedSoFar(r, m, m.Keys, key)
    ensures Enumerates(r, m)
  {
    assert |m.Keys| == |m|;
  }

  /** Collects the values of a map whose entries are filed under their own key, in an
      order of the method's choosing (the Rust code's `values().cloned().collect()`). */
  method ListValues<V>(m: map<string, V>, ghost key: V -> string) returns (r: seq<V>)
    requires forall n | n in m :: key(m[n]) == n
    ensures Enumerates(r, m)
  {
    var todo := m.Keys;
    ghost var done: set<string> := {};
    r := [];
    while todo != {}
      invariant done + todo == m.Keys && done !! todo
      invariant ListedSoFar(r, m, done, key)
      decreases |todo|
    {
      var n :| n in todo;
      ListedStep(r, m, done, todo, key, n);
      r := r + [m[n]];
      todo := todo - {n};
      done := done + {n};
    }
    ListedAll(r, m, key);
  }

  /** The entries of `packages` whose category is `category`. */
  function InCategory(packages: map<string, PackageData>, category: string): (f: map<string, PackageData>)
    ensures forall n :: n in f <==> n in packages && packages[n].categoryName == category
    ensures forall n | n in f :: f[n] == packages[n]
  {
    map n | n in packages && packages[n].categoryName == category :: packages[n]
  }

  class JsonStorage {
    var categories: map<string, Category>
    var packages: map<string, PackageData>
    /** `Some(msg)` when writing the file fails with `msg`; `None` when it succeeds. */
    const saveFault: Option<string>

    /** Every entry is filed under its own name. */
    ghost predicate Valid()
      reads this
    {
      && (forall n | n in categories :: categories[n].categoryName == n)
      && (forall n | n in packages :: packages[n].packageName == n)
    }

    /** The storage opened on a file holding the given catalog. */
    constructor (categories: map<string, Category>, packages: map<string, PackageData>, saveFault: Option<string>)
      requires forall n | n in categories :: categories[n].categoryName == n
      requires forall n | n in packages :: packages[n].packageName == n
      ensures Valid()
      ensures this.categories == categories && this.packages == packages && this.saveFault == saveFault
    {
      this.categories := categories;
      this.packages := packages;
      this.saveFault := saveFault;
    }

    /** The outcome of `save_to_file`. */
    function SaveResult(): StoreResult<()>
      reads this
    {
      match saveFault
      case None => Ok(())
      case Some(msg) => Err(InternalStoreError(msg))
    }

    /** Upsert by name. The map changes before the save, so a failed save still leaves the
        new entry in memory. */
    method StoreCategory(category: Category) returns (r: StoreResult<()>)
      requires Valid()
      modifies this
      ensures Valid()
      ensures categories == old(categories)[category.categoryName := category]
      ensures packages == old(packages)
      ensures r == SaveResult()
    {
      categories := categories[category.categoryName := category];
      r := SaveResult();
    }

    /** Every stored category, once each, in no specified order. */
    method GetCategories() returns (r: seq<Category>)
      requires Valid()
      ensures Enumerates(r, categories)
    {
      r := ListValues(categories, (c: Category) => c.categoryName);
    }

    predicate CategoryExists(name: string)
      reads this
    {
      name in categories
    }

    /** In a consistent store, a category name exists exactly when some stored category
        carries it. */
    lemma CategoryExistsByName(name: string)
      requires Valid()
      ensures CategoryExists(name) <==> exists c | c in categories.Values :: c.categoryName == name
    {
      if CategoryExists(name) {
        assert categories[name] in categories.Values;
      }
    }

    /** The trait's `remove_category`: takes no key and empties the whole category map. */
    method RemoveCategory() returns (r: StoreResult<()>)
      requires Valid()
      modifies this
      ensures Valid()
      ensures categories == map[] && packages == old(packages)
      ensures r == SaveResult()
    {
      categories := map[];
      r := SaveResult();
    }

    /** Upsert by name, with the same write-then-save order as StoreCategory. */
    method StorePackage(package: PackageData) returns (r: StoreResult<()>)
      requires Valid()
      modifies this
      ensures Valid()
      ensures packages == old(packages)[package.packageName := package]
      ensures categories == old(categories)
      ensures r == SaveResult()
    {
      packages := packages[package.packageName := package];
      r := SaveResult();
    }

    /** The trait's `update_package`, which local_db does not implement: an upsert
        identical to StorePackage. */
    method UpdatePackage(package: PackageData) returns (r: StoreResult<()>)
      requires Valid()
      modifies this
      ensures Valid()
      ensures packages == old(packages)[package.packageName := package]
      ensures categories == old(categories)
      ensures r == SaveResult()
    {
      r := StorePackage(package);
    }

    /** Every stored package, once each, in no specified order. */
    method GetPackages() returns (r: seq<PackageData>)
      requires Valid()
      ensures Enumerates(r, packages)
    {
      r := ListValues(packages, (p: PackageData) => p.packageName);
    }

    predicate PackageExists(name: string)
      reads this
    {
      name in packages
    }

    /** In a consistent store, a package name exists exactly when some stored package
        carries it, which is exactly when looking it up succeeds. */
    lemma PackageExistsByName(name: string)
      requires Valid()
      ensures PackageExists(name) <==> exists p | p in packages.Values :: p.packageName == name
      ensures PackageExists(name) <==> GetPackage(name).Ok?
    {
      if PackageExists(name) {
        assert packages[name] in packages.Values;
      }
    }

    /** Lookup by name; an absent name fails with "Package not found". */
    function GetPackage(name: string): (r: StoreResult<PackageData>)
      reads this
      ensures r.Ok? <==> PackageExists(name)
      ensures r.Ok? ==> r.value == packages[name]
      ensures r.Err? ==> r.error == InternalStoreError("Package not found")
    {
      if name in packages then Ok(packages[name]) else Err(InternalStoreError("Package not found"))
    }

    /** The stored packages whose category is exactly `category`, once each, in no specified
        order; an empty sequence, not an error, when there are none. */
    method GetPackagesByCategory(category: string) returns (r: seq<PackageData>)
      requires Valid()
      ensures forall i | 0 <= i < |r| :: r[i] in packages.Values && r[i].categoryName == category
      ensures forall n | n in packages && packages[n].categoryName == category :: packages[n] in r
      ensures forall i, j | 0 <= i < j < |r| :: r[i] != r[j]
      ensures r == [] <==> forall n | n in packages :: packages[n].categoryName != category
    {
      r := ListValues(InCategory(packages, category), (p: PackageData) => p.packageName);
    }

    /** The trait's keyed `remove_package`: exactly the entry named `name` goes (nothing
        changes in memory when there is none), then the file is saved. */
    method RemovePackage(name: string) returns (r: StoreResult<()>)
      requires Valid()
      modifies this
      ensures Valid()
      ensures packages == old(packages) - {name}
      ensures categories == old(categories)
      ensures r == SaveResult()
    {
      packages := packages - {name};
      r := SaveResult();
    }

    /** local_db's `remove_package` as written: it takes no name and empties the whole
        package map. The core does not call it. */
    method ClearPackages() returns (r: StoreResult<()>)
      requires Valid()
      modifies this
      ensures Valid()
      ensures packages == map[] && categories == old(categories)
      ensures r == SaveResult()
    {
      packages := map[];
      r := SaveResult();
    }
  }
}
