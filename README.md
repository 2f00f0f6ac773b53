# pazckager core in Dafny

A verified model of the core of pazckager, a package-tracking tool for Arch Linux. The core
keeps a catalog of categories and packages in a store, and a registry from tool type
(`Pacman`, `Yay`) to installer. It adds, installs, deletes, uninstalls, updates and syncs
packages. Each operation runs its checks in a fixed order and returns a specific error for
each failure. The catalog changes only after the external tool call succeeds.

Modules, one per source file:

- `Wrappers` (`wrappers.dfy`): `Option` and `Result`, shaped like Rust's.
- `Models` (`models.dfy`): the tool identifier, the `Category`, `PackageData` and
  `RawPackageData` records, and `InstallationTools::from_str`.
- `Traits` (`traits.dfy`): `StoreError` and `ToolError` with their display texts. It also
  holds the installer contract. The `InstallationTool` datatype carries the tool type
  (`get_type`), the outcome of install, delete and update for each package name, and the
  reported packages (`get_packages`, which cannot fail).
- `Errors` (`errors.dfy`): the core's `Error`, the two `From` conversions that `?` applies,
  and the display texts.
- `LocalDb` (`local_db.dfy`): the storage contract, modelled by its one implementation. Class
  `JsonStorage` holds the two maps of local_db's `JsonStore`. Every write updates the map
  first and then saves the file. Whether that save fails is the fixed field `saveFault`.
- `PacmanBindings` (`pacman_bindings.dfy`): maps a pacman process status to a `ToolResult`,
  parses the stdout of `pacman -Qe`, and builds the pacman installer over a host.
- `Core` (`core.dfy`): class `PazckagerCore`, the specification of sync (`SyncEffect`) and the
  lemmas about sync.
- `Builder` (`builder.dfy`): `PazckagerCoreBuilder` and `BuilderError`.

The core's invariant `PazckagerCore.Valid()` has four parts. The store is consistent (every
entry is filed under its own name). The category "default" exists. The registry is non-empty.
Every installer is filed under its own type. Every core method preserves this invariant.

The snapshot's crates disagree on some types. This model makes these choices:

- `PackageData` follows `pazckager_core/src/lib.rs`: it has `installation_tool` and
  `installed`. The struct in `models/mod.rs` and the local_db test lack `installed` and spell
  the tool field `instalation_tool`.
- `RawPackageData` is `{package_name, category_name, installation_tool}`. This is how
  `pacman_bindings` builds it and how `lib.rs` completes it with `to_package_data(true)`.
- The core removes a package through the storage trait's keyed `remove_package(name)`
  (`JsonStorage.RemovePackage`). local_db's own `remove_package` takes no name and empties the
  whole package map. It is modelled as written, as `JsonStorage.ClearPackages`, and the core
  does not call it.
- local_db has no `update_package`. The trait's `update_package` is modelled as an upsert
  identical to `store_package`.
- `from_str("yay")` yields `Pacman`, as written. No input parses to `Yay`.
- `install_package` returns `PackageDoesNotExists` when the package's tool is not registered,
  as written. The other operations return `InstallationToolDoesNotExist` in that case.

Some structural promises of `pazckager_core/src/traits/mod.rs` are carried by the types:

- `StoreError` has one variant.
- `ToolError` has exactly three kinds.
- An installer's package list is a plain sequence, so listing cannot fail.
- `RemoveCategory` takes no key, while `RemovePackage` takes a name.
- `UpdatePackage` is a separate storage operation from `StorePackage`.
- `UninstallPackage` and `UpdatePackage` of the core have no `modifies` clause, so they cannot
  change the catalog. In particular `installed` is not reset.

## Model

| member | source | states |
|---|---|---|
| `Models.FromStr` | pazckager_core/src/models/mod.rs:22-28 | a successful parse always yields `Pacman`; a failure carries "Tool is not supported" |
| `Models.FromStrAccepts` | pazckager_core/src/models/mod.rs:23-26 | the parse succeeds exactly on "pacman" or "yay" up to letter case, and then yields `Pacman` (so "yay" does not yield `Yay`) |
| `Models.FromStrIgnoresCase` | pazckager_core/src/models/mod.rs:23 | two inputs that differ only in letter case parse to the same result |
| `Errors.FromStore` | pazckager_core/src/err.rs:11-12 | `?` on a store error yields `Error::Store` with the same value, and passes a success through |
| `Errors.FromTool` | pazckager_core/src/err.rs:9-10 | `?` on a tool error yields `Error::Installer` with the same value, and passes a success through |
| `Errors.ToolMessageInjective` | pazckager_core/src/traits/mod.rs:52-59 | distinct tool errors display distinct texts (the three prefixes differ and the detail follows them) |
| `Errors.MessageInjective` | pazckager_core/src/err.rs:8-21 | distinct core errors display distinct texts: an installer error shows the tool text unchanged, a store error is prefixed "Store error: ", and the four payload-free variants have fixed, distinct texts |
| `Errors.MessageKeepsDetail` | pazckager_core/src/err.rs:9-12 | a message starts with "Store error: " exactly when it is a store error; store and installer messages end with their detail text |
| `Traits.ToolMessageKeepsDetail` | pazckager_core/src/traits/mod.rs:52-59 | every tool error's text starts with "Error " and ends with the tool's message |
| `Builder.BuilderMessageInjective` | pazckager_core/src/models/mod.rs:74-80 | distinct builder errors display distinct texts; a core error's text follows "Pazckager core error: " |
| `LocalDb.EnumeratesSingleton` | local_db/src/lib.rs:142-146 | listing a store that holds one package yields exactly that package, once |
| `LocalDb.ListValues` | local_db/src/lib.rs:83 | collecting a map's values lists every stored entry exactly once (length equals the map size) |
| `LocalDb.JsonStorage.constructor` | local_db/src/lib.rs:23-38 | the storage opened on a file holds that file's catalog, and its entries are filed under their own names |
| `LocalDb.JsonStorage.StoreCategory` | local_db/src/lib.rs:54-59 | upsert by category name (afterwards the category exists); no other category and no package changes; the result is the save's outcome |
| `LocalDb.JsonStorage.GetCategories` | local_db/src/lib.rs:61-63 | one element per stored category, each stored value exactly once |
| `LocalDb.JsonStorage.CategoryExistsByName` | local_db/src/lib.rs:65-67 | in a consistent store, a category name exists exactly when some stored category carries that name |
| `LocalDb.JsonStorage.RemoveCategory` | local_db/src/lib.rs:69-73 | empties the whole category map and leaves the packages alone |
| `LocalDb.JsonStorage.StorePackage` | local_db/src/lib.rs:75-80 | upsert by package name; no other package and no category changes; the result is the save's outcome |
| `LocalDb.JsonStorage.UpdatePackage` | pazckager_core/src/traits/mod.rs:16 | the same upsert as `StorePackage` |
| `LocalDb.JsonStorage.GetPackages` | local_db/src/lib.rs:82-84 | one element per stored package, each stored value exactly once |
| `LocalDb.JsonStorage.PackageExistsByName` | local_db/src/lib.rs:86-88 | in a consistent store, a package name exists exactly when some stored package carries it, and exactly when `get_package` succeeds |
| `LocalDb.JsonStorage.GetPackage` | local_db/src/lib.rs:90-96 | succeeds exactly when the name is stored, with the stored record; otherwise fails with `InternalStoreError("Package not found")` |
| `LocalDb.JsonStorage.GetPackagesByCategory` | local_db/src/lib.rs:98-106 | exactly the stored packages of that category, each once; empty, not an error, when none match |
| `LocalDb.JsonStorage.RemovePackage` | pazckager_core/src/traits/mod.rs:26 | removes exactly the entry with that name; nothing else changes |
| `LocalDb.JsonStorage.ClearPackages` | local_db/src/lib.rs:108-112 | local_db's `remove_package` as written: empties the whole package map |
| `PacmanBindings.RunResult` | pacman_bindings/src/lib.rs:40-97 | install, delete and update give `Ok` exactly when the process exited with success; otherwise `InstallingPackage`, `DeletingPackage` or `UpdatingPackage` respectively; a failed spawn reports "Failed to execute pacman: " and the reason |
| `PacmanBindings.QueryPackages` | pacman_bindings/src/lib.rs:99-119 | a failed spawn or an unsuccessful status gives no packages; every record has an empty category and tool `Pacman` |
| `PacmanBindings.Lines` | pacman_bindings/src/lib.rs:106 | `str::lines`: no lines exactly for empty output, and no line contains a "\n" |
| `PacmanBindings.ParseQuery` | pacman_bindings/src/lib.rs:106-116 | one record per line; each name is free of whitespace; every record has an empty category and tool `Pacman` |
| `PacmanBindings.PacmanInstaller` | pacman_bindings/src/lib.rs:37-39 | `get_type` is always `Pacman`; each call's result maps that call's process status; the reported packages are the parsed `-Qe` output |
| `PacmanBindings.FirstTokenSpec` | pacman_bindings/src/lib.rs:108-110 | a record's name is the token that starts after the line's leading whitespace: it contains no whitespace and is followed by whitespace or the line's end; it is "" exactly when the line is blank |
| `PacmanBindings.FirstTokenOfEntry` | pacman_bindings/src/lib.rs:108-110 | the first token of a "name version" line is the name |
| `PacmanBindings.ParseRender` | pacman_bindings/src/lib.rs:104-115 | parsing `-Qe` output gives one record per line, in order, named by the line's package, with an empty category and tool `Pacman` |
| `Core.SyncSucceeds` | pazckager_core/src/lib.rs:158-169 | sync returns `Ok` when every save succeeds |
| `Core.SyncInsertSpec` | pazckager_core/src/lib.rs:158-167 | when every save succeeds, sync never changes an existing entry and adds exactly the missing reported names, each as a reported record filed under "default" |
| `Core.SyncKeepsExisting` | pazckager_core/src/lib.rs:158-167 | whether or not a save fails, sync keeps every existing entry unchanged, and every entry it adds is a reported record filed under "default" |
| `Core.SyncAddsInstalled` | pazckager_core/src/lib.rs:149-167 | whether or not a save fails, every entry sync adds from installed reports is installed and filed under "default" |
| `Core.SyncFailsIff` | pazckager_core/src/lib.rs:159-165 | when saves fail, sync fails with the store's error exactly when some reported name is not tracked yet, and succeeds otherwise |
| `Core.SyncNothingNew` | pazckager_core/src/lib.rs:159 | sync stores nothing when every reported name is already tracked |
| `Core.SyncIdempotent` | pazckager_core/src/lib.rs:158-167 | a second sync over reports that name no new package leaves the catalog unchanged |
| `Core.ReportedNamesAnyOrder` | pazckager_core/src/lib.rs:149-156 | the names collected from the installers do not depend on the order the registry is visited in |
| `Core.ReportedInstalled` | pazckager_core/src/lib.rs:149-153 | every record collected from the installers is marked installed |
| `Core.SyncTwice` | pazckager_core/src/lib.rs:146-170 | two fault-free syncs in a row over the same installer output leave the catalog as the first left it, whatever order each run visits the installers in |
| `Core.PazckagerCore.Init` | pazckager_core/src/lib.rs:29-32 | the core holds the given store and registry |
| `Core.ResolveCategory` | pazckager_core/src/lib.rs:66-74 | the resolved category is never empty; it is "default" exactly when none, "" or "default" is given; any other given name is kept |
| `Core.PazckagerCore.New` | pazckager_core/src/lib.rs:18-33 | afterwards "default" exists; an existing "default" is kept as it is (its `additional_info` too); a missing one is stored as `Category("default", None)`, and a failed save is returned as a `Store` error |
| `Core.PazckagerCore.InstallPackage` | pazckager_core/src/lib.rs:35-50 | a missing package fails in the store lookup as a `Store` error; an unregistered tool gives `PackageDoesNotExists`; an installer failure gives `Installer(e)` with the catalog unchanged; success sets only `installed := true` on that entry |
| `Core.PazckagerCore.AddPackage` | pazckager_core/src/lib.rs:52-92 | checks in order: unregistered named tool, then missing category, then existing name, each leaving the catalog unchanged; otherwise stores exactly one new entry, not installed, under the given category or "default" (for none or ""), with the chosen installer's type |
| `Core.PazckagerCore.DeletePackage` | pazckager_core/src/lib.rs:94-110 | absent name gives `PackageDoesNotExists`; an unregistered tool gives `InstallationToolDoesNotExist`; a tool failure keeps the entry; success removes exactly that entry |
| `Core.PazckagerCore.UninstallPackage` | pazckager_core/src/lib.rs:112-127 | the same checks as delete, then the tool's delete result; the catalog is never modified |
| `Core.PazckagerCore.UpdatePackage` | pazckager_core/src/lib.rs:129-144 | the same checks, then the tool's update result; the catalog is never modified |
| `Core.PazckagerCore.SyncPackages` | pazckager_core/src/lib.rs:146-170 | visits every installer once, then inserts only absent names, stopping at the first failed save; existing entries are kept unchanged and every added entry is installed and under "default", even when a save fails; categories are unchanged |
| `Core.PazckagerCore.CollectReported` | pazckager_core/src/lib.rs:147-156 | visits each installer exactly once and collects its report in visiting order, every record marked installed |
| `Core.PazckagerCore.StoreAbsent` | pazckager_core/src/lib.rs:158-167 | stores each not-yet-tracked package under "default" and stops with the store error at the first failed save; existing entries stay unchanged in every case |
| `Core.PazckagerCore.GetPackages` | pazckager_core/src/lib.rs:172-174 | every tracked package exactly once |
| `Core.PazckagerCore.GetCategories` | pazckager_core/src/lib.rs:176-178 | every category exactly once, "default" among them |
| `Core.PazckagerCore.GetPackageByCategory` | pazckager_core/src/lib.rs:180-182 | exactly the tracked packages of that category, each once |
| `Builder.PazckagerCoreBuilder.constructor` | pazckager_core/src/models/mod.rs:51-56 | a new builder has an empty installer registry |
| `Builder.PazckagerCoreBuilder.WithInstaller` | pazckager_core/src/models/mod.rs:58-63 | files the installer under its own type, replacing an earlier one of that type; other entries stay |
| `Builder.PazckagerCoreBuilder.Build` | pazckager_core/src/models/mod.rs:65-71 | an empty registry gives `NoPackageInstaller` and touches nothing; otherwise the core is built, with "default" present, and a failure of `new` is wrapped as `BuilderError::PazckagerCore`; the packages never change, and the categories change only by adding `Category("default", None)` when "default" was missing |

## Left out

- The JSON file itself is not modelled: reading it on open, serde, and `save_to_file`'s remove, create and write steps. A save either always succeeds or always fails with one fixed message (`saveFault`). A store whose saves fail only some of the time is not modelled.
- Starting processes is not modelled: `Command`, the choice of sudo or pkexec, and `.status()`/`.output()`. The process status and stdout are inputs (`PacmanHost`).
- Installers are values. Each one answers every call on a given package name the same way, so state an installer keeps between calls is not modelled. The pacman installer keeps none.
- The storage and installer interfaces are not Dafny traits. The installer interface is a datatype of outcome functions, and the storage interface is modelled by its one implementation, `JsonStorage`.
- Reads of the in-memory store (`category_exists`, `package_exists`, `get_categories`, `get_packages`, `get_packages_by_category`) cannot fail in local_db. They return plain values instead of a `StoreResult` that is always `Ok`. `get_package` keeps its error.
- `HashMap` iteration order is a nondeterministic choice. In `add_package` it picks any registered installer. In `sync_packages` it is the ghost output `order`. Listings promise no order.
- `Models.FromStr`: `to_lowercase` is modelled for ASCII letters only. Other characters are left unchanged. No non-ASCII character lowercases to a letter of "pacman" or "yay", so the parse result is the same.
- `with_installer` and `build` consume the builder in Rust and return it or the core. Here the builder is an object that `WithInstaller` updates in place.
- Catalogs whose map keys differ from their records' names are not modelled. The store opened on a file (`JsonStorage.constructor`) requires every entry to be filed under its own name, but `JsonPazckagerStorage::new` does not check the keys it deserializes. With a mismatched key, `delete_package` would ask the tool to delete the record's name and remove a different key; the model cannot show that.
- The command-line front end (pazckager_cli/src/main.rs) is not part of this model. It calls category operations that the core does not define.
