/** The two collaborator contracts of the core (pazckager_core/src/traits/mod.rs).
    The storage contract is modelled by its one implementation, class LocalDb.JsonStorage;
    the installer contract by the datatype InstallationTool below. */
module Traits {
  import opened Wrappers
  import opened Models

  /** The one way a storage operation fails. */
  datatype StoreError = InternalStoreError(message: string)

  type StoreResult<T> = Result<T, StoreError>

  /** The three ways an installer call fails, one per mutating operation. */
  datatype ToolError =
    | InstallingPackage(message: string)
    | DeletingPackage(message: string)
    | UpdatingPackage(message: string)

  type ToolResult<T> = Result<T, ToolError>

  /** Display text of a store error: the message itself. */
  function StoreErrorMessage(e: StoreError): string
  {
    e.message
  }

  /** Display text of a tool error: a fixed prefix naming the operation, then the detail. */
  function ToolErrorMessage(e: ToolError): string
  {
    match e
    case InstallingPackage(m) => "Error installing package: " + m
    case DeletingPackage(m) => "Error deleting package: " + m
    case UpdatingPackage(m) => "Error updating package: " + m
  }

  /** `suffix` ends `s`. */
  predicate EndsWith(s: string, suffix: string)
  {
    |suffix| <= |s| && s[|s| - |suffix|..] == suffix
  }

  /** Every tool error's text starts with "Error " and ends with the tool's own message. */
  lemma ToolMessageKeepsDetail(e: ToolError)
    ensures "Error " <= ToolErrorMessage(e)
    ensures EndsWith(ToolErrorMessage(e), e.message)
  {
  }

  /** An installer as the core sees it: the tool type it reports (`get_type`), the outcome
      the external tool gives for each package name on install, delete and update, and the
      packages it reports (`get_packages`, which cannot fail). */
  datatype InstallationTool = InstallationTool(
    kind: InstallationTools,
    install: string -> ToolResult<()>,
    delete: string -> ToolResult<()>,
    update: string -> ToolResult<()>,
    packages: seq<RawPackageData>)

  /** A registry in which every installer is filed under its own type, as
      `with_installer` files them. */
  ghost predicate KeyedByKind(installers: map<InstallationTools, InstallationTool>)
  {
    forall k | k in installers :: installers[k].kind == k
  }
}
