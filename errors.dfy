/** The core's error type and the conversions `?` applies (pazckager_core/src/err.rs). */
module Errors {
  import opened Wrappers
  import opened Traits

  datatype Error =
    | Installer(toolError: ToolError)
    | Store(storeError: StoreError)
    | PackageAlreadyExists
    | PackageDoesNotExists
    | InstallationToolDoesNotExist
    | CategoryDoesNotExist

  type CoreResult<T> = Result<T, Error>

  /** `?` on a store result: the error is wrapped in `Store`, carrying the same value. */
  function FromStore<T>(r: StoreResult<T>): (c: CoreResult<T>)
    ensures c.Ok? <==> r.Ok?
    ensures c.Ok? ==> c.value == r.value
    ensures c.Err? ==> c.error == Store(r.error)
  {
    match r
    case Ok(v) => Ok(v)
    case Err(e) => Err(Store(e))
  }

  /** `?` on a tool result: the error is wrapped in `Installer`, carrying the same value. */
  function FromTool<T>(r: ToolResult<T>): (c: CoreResult<T>)
    ensures c.Ok? <==> r.Ok?
    ensures c.Ok? ==> c.value == r.value
    ensures c.Err? ==> c.error == Installer(r.error)
  {
    match r
    case Ok(v) => Ok(v)
    case Err(e) => Err(Installer(e))
  }

  /** Display text of an error. An installer error shows the tool error's own text; a store
      error is prefixed with "Store error: ". */
  function Message(e: Error): string
  {
    match e
    case Installer(t) => ToolErrorMessage(t)
    case Store(s) => "Store error: " + StoreErrorMessage(s)
    case PackageAlreadyExists => "Package already exists"
    case PackageDoesNotExists => "Package does not exists"
    case InstallationToolDoesNotExist => "Installation tool does not exist"
    case CategoryDoesNotExist => "Category does not exists"
  }

  /** A message is a store error's exactly when it starts with "Store error: "; store and
      installer errors both keep their detail message at the end. */
  lemma MessageKeepsDetail(e: Error)
    ensures e.Store? <==> "Store error: " <= Message(e)
    ensures e.Store? ==> EndsWith(Message(e), e.storeError.message)
    ensures e.Installer? ==> EndsWith(Message(e), e.toolError.message)
  {
    if e.Installer? {
      ToolMessageKeepsDetail(e.toolError);
    }
    // Only a store error's text starts with 'S'.
    assert Message(e)[0] == 'S' ==> e.Store?;
  }

  lemma ToolMessageInjective(a: ToolError, b: ToolError)
    requires ToolErrorMessage(a) == ToolErrorMessage(b)
    ensures a == b
  {
    var ma, mb := ToolErrorMessage(a), ToolErrorMessage(b);
    // The three prefixes already differ at index 6 ('i', 'd', 'u').
    assert ma[6] == (match a case InstallingPackage(_) => 'i' case DeletingPackage(_) => 'd' case UpdatingPackage(_) => 'u');
    assert mb[6] == (match b case InstallingPackage(_) => 'i' case DeletingPackage(_) => 'd' case UpdatingPackage(_) => 'u');
    var n := |ma| - |a.message|;
    assert ma[n..] == a.message;
    assert mb[n..] == b.message;
  }

  /** Distinct errors show distinct messages, so the text a user sees identifies the error. */
  lemma MessageInjective(a: Error, b: Error)
    requires Message(a) == Message(b)
    ensures a == b
  {
    var ma := Message(a);
    // The first character separates the groups: 'E' (tool), 'S' (store), 'P', 'I', 'C'.
    assert a.Installer? ==> ma[0] == 'E';
    assert a.Store? ==> ma[0] == 'S';
    assert b.Installer? ==> Message(b)[0] == 'E';
    assert b.Store? ==> Message(b)[0] == 'S';
    if a.Installer? && b.Installer? {
      ToolMessageInjective(a.toolError, b.toolError);
    } else if a.Store? && b.Store? {
      assert ma[13..] == a.storeError.message;
      assert Message(b)[13..] == b.storeError.message;
    }
  }
}
