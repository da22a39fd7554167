/**
 * The release helper (scripts/bump-version.py): versions are X.Y.Z and a bump increments
 * the patch, carrying into the minor and major components past 9.
 */
module BumpVersion {
  import opened Wrappers
  import opened Strings
  import opened Versions

  /** The two ways `parse_version` raises ValueError. */
  datatype ParseError = InvalidFormat(version: string) | InvalidLiteral(part: string)

  /** `str(e)` for each error. */
  function Message(e: ParseError): string {
    match e
    case InvalidFormat(v) => "Invalid version format: " + v
    case InvalidLiteral(p) => "invalid literal for int() with base 10: '" + p + "'"
  }

  /**
   * `parse_version`: exactly three dot-separated parts, each an integer. The parts are
   * converted left to right, so the first one that is not an integer is the one named.
   */
  function Parse(v: string): (r: Result<Version, ParseError>)
    ensures |SplitOn(v, '.')| != 3 ==> r == Err(InvalidFormat(v))
    ensures var parts := SplitOn(v, '.');
      |parts| == 3 ==> (r.Ok? <==> ParseInt(parts[0]).Some? && ParseInt(parts[1]).Some? && ParseInt(parts[2]).Some?)
    ensures var parts := SplitOn(v, '.');
      |parts| == 3 && ParseInt(parts[0]).None? ==> r == Err(InvalidLiteral(parts[0]))
    ensures var parts := SplitOn(v, '.');
      |parts| == 3 && ParseInt(parts[0]).Some? && ParseInt(parts[1]).None? ==> r == Err(InvalidLiteral(parts[1]))
    ensures var parts := SplitOn(v, '.');
      |parts| == 3 && ParseInt(parts[0]).Some? && ParseInt(parts[1]).Some? && ParseInt(parts[2]).None? ==>
      r == Err(InvalidLiteral(parts[2]))
    ensures r.Ok? ==> var parts := SplitOn(v, '.');
      |parts| == 3 && ParseInt(parts[0]).Some? && ParseInt(parts[1]).Some? && ParseInt(parts[2]).Some?
      && r.value == Version(ParseInt(parts[0]).value, ParseInt(parts[1]).value, ParseInt(parts[2]).value)
  {
    var parts := SplitOn(v, '.');
    if |parts| != 3 then Err(InvalidFormat(v))
    else if ParseInt(parts[0]).None? then Err(InvalidLiteral(parts[0]))
    else if ParseInt(parts[1]).None? then Err(InvalidLiteral(parts[1]))
    else if ParseInt(parts[2]).None? then Err(InvalidLiteral(parts[2]))
    else Ok(Version(ParseInt(parts[0]).value, ParseInt(parts[1]).value, ParseInt(parts[2]).value))
  }

  /** `format_version`. */
  function Format(v: Version): string {
    IntToString(v.major) + "." + IntToString(v.minor) + "." + IntToString(v.patch)
  }

  /** Reading back a formatted version gives the same triple, for all integers. */
  lemma ParseFormat(v: Version)
    ensures Parse(Format(v)) == Ok(v)
  {
    var a, b, c := IntToString(v.major), IntToString(v.minor), IntToString(v.patch);
    assert Join([a, b, c], '.') == Format(v) by {
      assert Join([b, c], '.') == b + "." + c by {
        assert [b, c][1..] == [c];
      }
      assert [a, b, c][1..] == [b, c];
    }
    SplitJoin([a, b, c], '.');
    ParseIntToString(v.major);
    ParseIntToString(v.minor);
    ParseIntToString(v.patch);
  }

  /** The bump of a parsed triple: a forced major bump, a forced minor bump, or a patch bump with carries. */
  function Bump(v: Version, forceMinor: bool, forceMajor: bool): Version {
    if forceMajor then Version(v.major + 1, 0, 0)
    else if forceMinor then
      if v.minor >= 9 then Version(v.major + 1, 0, 0) else Version(v.major, v.minor + 1, 0)
    else
      var patch := v.patch + 1;
      if patch > 9 then
        var minor := v.minor + 1;
        if minor > 9 then Version(v.major + 1, 0, 0) else Version(v.major, minor, 0)
      else Version(v.major, v.minor, patch)
  }

  /** `bump_version`: parse, bump, format; a parse error propagates. */
  function BumpVersion(current: string, forceMinor: bool, forceMajor: bool): (r: Result<string, ParseError>)
    ensures Parse(current).Err? ==> r == Err(Parse(current).error)
    ensures Parse(current).Ok? ==> r == Ok(Format(Bump(Parse(current).value, forceMinor, forceMajor)))
  {
    match Parse(current)
    case Err(e) => Err(e)
    case Ok(v) => Ok(Format(Bump(v, forceMinor, forceMajor)))
  }

  /** A bump always yields a strictly greater version. */
  lemma BumpIncreases(v: Version, forceMinor: bool, forceMajor: bool)
    ensures Newer(Bump(v, forceMinor, forceMajor), v)
  {
  }

  /**
   * A forced major bump wins over a forced minor bump; a forced minor bump on its own raises
   * the minor and zeroes the patch, carrying into the major from a minor of 9 on.
   */
  lemma MajorPrecedence(v: Version, forceMinor: bool)
    ensures Bump(v, forceMinor, true) == Version(v.major + 1, 0, 0)
    ensures Bump(v, true, false) == if v.minor >= 9 then Version(v.major + 1, 0, 0) else Version(v.major, v.minor + 1, 0)
  {
  }

  /** Every bump result read back through the version file parses to the bumped triple. */
  lemma BumpRoundTrip(current: string, forceMinor: bool, forceMajor: bool)
    requires Parse(current).Ok?
    ensures Parse(BumpVersion(current, forceMinor, forceMajor).value) == Ok(Bump(Parse(current).value, forceMinor, forceMajor))
    ensures Newer(Parse(BumpVersion(current, forceMinor, forceMajor).value).value, Parse(current).value)
  {
    var v := Bump(Parse(current).value, forceMinor, forceMajor);
    ParseFormat(v);
    BumpIncreases(Parse(current).value, forceMinor, forceMajor);
  }

  predicate InDigitRange(v: Version) {
    0 <= v.minor <= 9 && 0 <= v.patch <= 9
  }

  /** Minor and patch stay single digits when they start as single digits. */
  lemma BumpKeepsDigits(v: Version, forceMinor: bool, forceMajor: bool)
    requires InDigitRange(v)
    ensures InDigitRange(Bump(v, forceMinor, forceMajor))
  {
  }

  /** The three examples of the script's documentation. */
  lemma DocumentedExamples()
    ensures Bump(Version(1, 1, 0), false, false) == Version(1, 1, 1)
    ensures Bump(Version(1, 1, 9), false, false) == Version(1, 2, 0)
    ensures Bump(Version(1, 9, 9), false, false) == Version(2, 0, 0)
  {
  }
}
