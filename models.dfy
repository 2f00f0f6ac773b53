/** The records of the catalog and the tool identifier (pazckager_core/src/models/mod.rs).
    The builder, which lives in the same Rust file, is in module Builder. */
module Models {
  import opened Wrappers

  /** Identifier of a supported package manager; the key of the installer registry. */
  datatype InstallationTools = Pacman | Yay

  datatype Category = Category(categoryName: string, additionalInfo: Option<string>)

  /** A tracked package. The field set follows pazckager_core/src/lib.rs, which is the
      version the core is written against (`installation_tool`, `installed`). */
  datatype PackageData = PackageData(
    packageName: string,
    installationTool: InstallationTools,
    categoryName: string,
    installed: bool)

  /** What an installer reports: a package record without the `installed` flag. */
  datatype RawPackageData = RawPackageData(
    packageName: string,
    categoryName: string,
    installationTool: InstallationTools)

  /** The derived `to_package_data(installed)`: completes a raw record with the flag. */
  function ToPackageData(raw: RawPackageData, installed: bool): PackageData
  {
    PackageData(raw.packageName, raw.installationTool, raw.categoryName, installed)
  }

  /** Lower-cases one character. Only ASCII letters change. */
  function LowerChar(c: char): char
  {
    if 'A' <= c <= 'Z' then (c as int + 32) as char else c
  }

  function ToLower(s: string): (r: string)
    ensures |r| == |s|
    ensures forall i | 0 <= i < |s| :: r[i] == LowerChar(s[i])
  {
    seq(|s|, i requires 0 <= i < |s| => LowerChar(s[i]))
  }

  /** Two strings that differ only in the case of their letters. */
  predicate EqualIgnoringCase(s: string, t: string)
  {
    |s| == |t| && forall i | 0 <= i < |s| :: LowerChar(s[i]) == LowerChar(t[i])
  }

  /** `InstallationTools::from_str`: lower-case the input, then match. As written, "yay"
      also yields `Pacman`, so `Yay` is never produced. */
  function FromStr(s: string): (r: Result<InstallationTools, string>)
    ensures r.Ok? ==> r.value == Pacman
    ensures r.Err? ==> r.error == "Tool is not supported"
  {
    match ToLower(s)
    case "pacman" => Ok(Pacman)
    case "yay" => Ok(Pacman)
    case _ => Err("Tool is not supported")
  }

  /** The parser accepts exactly the strings equal to "pacman" or "yay" up to letter case,
      and maps all of them to `Pacman`. */
  lemma FromStrAccepts(s: string)
    ensures FromStr(s).Ok? <==> EqualIgnoringCase(s, "pacman") || EqualIgnoringCase(s, "yay")
    ensures FromStr(s).Ok? ==> FromStr(s) == Ok(Pacman)
  {
    assert ToLower("pacman") == "pacman";
    assert ToLower("yay") == "yay";
    assert EqualIgnoringCase(s, "pacman") <==> ToLower(s) == ToLower("pacman");
    assert EqualIgnoringCase(s, "yay") <==> ToLower(s) == ToLower("yay");
  }

  /** Letter case never changes the outcome of the parse. */
  lemma FromStrIgnoresCase(s: string, t: string)
    requires EqualIgnoringCase(s, t)
    ensures FromStr(s) == FromStr(t)
  {
    assert ToLower(s) == ToLower(t);
  }
}
