/** Runtime versions: the normalised form, the release tag, and the way back. Text is ASCII. */
module RuntimeVersions {
  import opened Strings
  import opened Wrappers

  const UNSUPPORTED := "runtimebin: unsupported runtime version"
  const TAG_PREFIX := "rust-v"

  predicate IsSpace(c: char) {
    c == ' ' || c == '\t' || c == '\n' || c == '\r' || c as int == 11 || c as int == 12
  }

  predicate Digits(s: string) {
    s != "" && forall i :: 0 <= i < |s| ==> IsDigit(s[i])
  }

  /** Numbers separated by single dots. */
  predicate IsCore(s: string) {
    && s != "" && IsDigit(s[0]) && IsDigit(s[|s| - 1])
    && (forall i :: 0 <= i < |s| ==> IsDigit(s[i]) || s[i] == '.')
    && (forall i :: 0 <= i < |s| - 1 ==> IsDigit(s[i]) || IsDigit(s[i + 1]))
  }

  function TrimLeft(s: string): string {
    if s != "" && IsSpace(s[0]) then TrimLeft(s[1..]) else s
  }

  function TrimRight(s: string): string {
    if s != "" && IsSpace(s[|s| - 1]) then TrimRight(s[..|s| - 1]) else s
  }

  function StripPrefix(s: string): string {
    if TAG_PREFIX <= s then s[|TAG_PREFIX|..] else if "v" <= s then s[1..] else s
  }

  predicate EndsWith(s: string, w: string) {
    |w| <= |s| && s[|s| - |w|..] == w
  }

  /** Where the digits at the end of the text begin. */
  function DigitStart(s: string): (k: nat)
    ensures k <= |s|
  {
    if s != "" && IsDigit(s[|s| - 1]) then DigitStart(s[..|s| - 1]) else |s|
  }

  /** One of the replaced suffixes: a dash, the word, an optional dot, a number, and for a hotfix another one. */
  datatype Replacement = Replacement(word: string, hotfix: bool, short: string)

  const REPLACEMENTS: seq<Replacement> := [
    Replacement("alpha", true, "a"), Replacement("alpha", false, "a"),
    Replacement("beta", false, "b"), Replacement("rc", false, "rc")]

  /** `s` without the dash, the word and the optional dot at its end, if it has them. */
  function WithoutWord(s: string, word: string): Option<string> {
    var t := if EndsWith(s, ".") then s[..|s| - 1] else s;
    if EndsWith(t, "-" + word) then Some(t[..|t| - 1 - |word|]) else None
  }

  /** The regular expression's ReplaceAllString; its match, if any, is at the end of the text. */
  function Replace(r: Replacement, s: string): string {
    var k := DigitStart(s);
    var number := s[k..];
    if number == "" then
      s
    else if !r.hotfix then
      var front := WithoutWord(s[..k], r.word);
      if front.Some? then front.value + r.short + number else s
    else if !EndsWith(s[..k], ".") then
      s
    else
      var t := s[..k - 1];
      var j := DigitStart(t);
      var front := WithoutWord(t[..j], r.word);
      if j < |t| && front.Some? then front.value + r.short + t[j..] + ".post" + number else s
  }

  function ReplaceAll(rs: seq<Replacement>, s: string): string {
    if rs == [] then s else ReplaceAll(rs[1..], Replace(rs[0], s))
  }

  // ---- the normalised form ----

  datatype Version = Version(core: string, pre: string, preNumber: string, post: string)

  /** `pre` is a, b, rc or nothing; `post` is nothing or a number. */
  predicate Valid(v: Version) {
    && IsCore(v.core)
    && (if v.pre == "" then v.preNumber == "" else (v.pre == "a" || v.pre == "b" || v.pre == "rc") && Digits(v.preNumber))
    && (v.post == "" || Digits(v.post))
  }

  function Print(v: Version): string {
    v.core + v.pre + v.preNumber + (if v.post == "" then "" else ".post" + v.post)
  }

  /** A core with an optional prerelease. */
  function ParsePre(s: string, post: string): Version {
    var k := DigitStart(s);
    if EndsWith(s[..k], "rc") then Version(s[..k - 2], "rc", s[k..], post)
    else if EndsWith(s[..k], "a") then Version(s[..k - 1], "a", s[k..], post)
    else if EndsWith(s[..k], "b") then Version(s[..k - 1], "b", s[k..], post)
    else Version(s, "", "", post)
  }

  /** The match of the normalised-version pattern. */
  function Parse(s: string): Option<Version> {
    var k := DigitStart(s);
    var v := if EndsWith(s[..k], ".post") then ParsePre(s[..k - 5], s[k..]) else ParsePre(s, "");
    if Valid(v) && Print(v) == s then Some(v) else None
  }

  function Normalize(version: string): Result<string, string> {
    var s := ReplaceAll(REPLACEMENTS, StripPrefix(TrimRight(TrimLeft(version))));
    if Parse(s).Some? then Ok(s) else Err(UNSUPPORTED)
  }

  /** The name of a prerelease in a release version. */
  function LongName(pre: string): string {
    if pre == "a" then "alpha" else if pre == "b" then "beta" else pre
  }

  function ReleaseOf(v: Version): string {
    if v.pre == "a" && v.post != "" then v.core + "-alpha." + v.preNumber + "." + v.post
    else if v.pre != "" && v.post == "" then v.core + "-" + LongName(v.pre) + "." + v.preNumber
    else Print(v)
  }

  function ReleaseVersion(version: string): Result<string, string> {
    match Normalize(version)
    case Err(error) => Err(error)
    case Ok(normalized) => Ok(ReleaseOf(Parse(normalized).value))
  }

  function ReleaseTag(version: string): Result<string, string> {
    match ReleaseVersion(version)
    case Err(error) => Err(error)
    case Ok(release) => Ok(TAG_PREFIX + release)
  }

  /** NormalizeRuntimeVersion, with its loop over the replacements. */
  method NormalizeRuntimeVersion(version: string) returns (r: Result<string, string>)
    ensures r == Normalize(version)
  {
    hide Replace, Parse, TrimLeft, TrimRight;
    var normalized := StripPrefix(TrimRight(TrimLeft(version)));
    ghost var trimmed := normalized;
    for i := 0 to |REPLACEMENTS|
      invariant ReplaceAll(REPLACEMENTS[i..], normalized) == ReplaceAll(REPLACEMENTS, trimmed)
    {
      assert REPLACEMENTS[i..][1..] == REPLACEMENTS[i + 1..];
      normalized := Replace(REPLACEMENTS[i], normalized);
    }
    if Parse(normalized).None? {
      return Err(UNSUPPORTED);
    }
    return Ok(normalized);
  }
}
