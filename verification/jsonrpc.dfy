/**
 * The JSON-RPC layer of the server (`internal/pkg/jsonrpc`): the user-agent
 * value built from a request's client metadata, and the four standard
 * error responses.
 *
 * The version check follows the grammar of Semantic Versioning 2.0.0
 * (section 2 for the version core, sections 9 and 10 for the pre-release
 * and build parts). Here a version is cut at its first "+" and then at its
 * first "-", and each part is split at its dots; `Format` is the inverse.
 */
module JsonRpc {
  import opened Wrappers
  import Text

  // ---------------------------------------------------------------- versions

  predicate IsDigit(c: char) { '0' <= c <= '9' }

  predicate IsLetter(c: char) { 'a' <= c <= 'z' || 'A' <= c <= 'Z' }

  /** A character of a pre-release or build identifier: [0-9A-Za-z-]. */
  predicate IsIdentifierChar(c: char) { IsDigit(c) || IsLetter(c) || c == '-' }

  /** A numeric identifier: "0", or digits without a leading zero. */
  predicate NumericIdentifier(s: string)
  {
    s == "0" || (|s| >= 1 && '1' <= s[0] <= '9' && forall i :: 0 <= i < |s| ==> IsDigit(s[i]))
  }

  /** An alphanumeric identifier: identifier characters, at least one of them not a digit. */
  predicate AlphanumericIdentifier(s: string)
  {
    (forall i :: 0 <= i < |s| ==> IsIdentifierChar(s[i])) && exists i :: 0 <= i < |s| && !IsDigit(s[i])
  }

  predicate PrereleaseIdentifier(s: string)
  {
    NumericIdentifier(s) || AlphanumericIdentifier(s)
  }

  predicate BuildIdentifier(s: string)
  {
    |s| >= 1 && forall i :: 0 <= i < |s| ==> IsIdentifierChar(s[i])
  }

  /** A version cut into its dot-separated parts; an empty pre-release or build list is an absent part. */
  datatype SemVer = SemVer(core: seq<string>, prerelease: seq<string>, build: seq<string>)

  /** Major, minor and patch, then each pre-release and build identifier, are well formed. */
  predicate WellFormed(v: SemVer)
  {
    && |v.core| == 3
    && (forall i :: 0 <= i < |v.core| ==> NumericIdentifier(v.core[i]))
    && (forall i :: 0 <= i < |v.prerelease| ==> PrereleaseIdentifier(v.prerelease[i]))
    && (forall i :: 0 <= i < |v.build| ==> BuildIdentifier(v.build[i]))
  }

  /** A text cut at the first occurrence of a character: the part before it, and the rest after it if it occurs. */
  datatype Halves = Halves(head: string, tail: Option<string>)

  function CutAt(s: string, c: char): Halves
  {
    var k := Text.IndexOf(s, c);
    if k == |s| then Halves(s, None) else Halves(s[..k], Some(s[k + 1..]))
  }

  /** The inverse of `CutAt`: the head, then the character and the tail when there is one. */
  function Glue(h: Halves, c: char): string
  {
    h.head + (if h.tail.Some? then [c] + h.tail.value else "")
  }

  /** The dot-separated parts of an optional text; an absent text has none. */
  function Parts(t: Option<string>): seq<string>
  {
    if t.None? then [] else Text.Split(t.value, '.')
  }

  /** The inverse of `Parts`: no parts is an absent text. */
  function Unparts(parts: seq<string>): Option<string>
  {
    if parts == [] then None else Some(Text.Join(parts, "."))
  }

  /** The text of a version: "-" before the pre-release and "+" before the build, when present. */
  function Format(v: SemVer): string
  {
    Glue(Halves(Glue(Halves(Text.Join(v.core, "."), Unparts(v.prerelease)), '-'), Unparts(v.build)), '+')
  }

  /** Cutting a text at its first "+" and its first "-", and splitting each part at its dots. */
  function Parse(s: string): SemVer
  {
    var main := CutAt(s, '+');
    var version := CutAt(main.head, '-');
    SemVer(Text.Split(version.head, '.'), Parts(version.tail), Parts(main.tail))
  }

  /** The version pattern of `UserAgentValue`. */
  predicate IsSemVer(s: string)
  {
    WellFormed(Parse(s))
  }

  lemma GlueCut(s: string, c: char)
    ensures Glue(CutAt(s, c), c) == s
  {
    var k := Text.IndexOf(s, c);
    if k < |s| {
      assert s == s[..k] + [c] + s[k + 1..];
    }
  }

  lemma CutGlue(h: Halves, c: char)
    requires c !in h.head
    ensures CutAt(Glue(h, c), c) == h
  {
    var s := Glue(h, c);
    if h.tail.Some? {
      assert s == h.head + [c] + h.tail.value;
      Text.IndexAfterPrefix(h.head, c, h.tail.value);
      assert s[..|h.head|] == h.head;
      assert s[|h.head| + 1..] == h.tail.value;
    } else {
      Text.NoSepIndex(h.head, c);
    }
  }

  lemma UnpartsParts(t: Option<string>)
    ensures Unparts(Parts(t)) == t
  {
    if t.Some? {
      Text.JoinSplit(t.value, '.');
    }
  }

  lemma PartsUnparts(parts: seq<string>)
    requires forall i :: 0 <= i < |parts| ==> '.' !in parts[i]
    ensures Parts(Unparts(parts)) == parts
  {
    if parts != [] {
      Text.SplitJoin(parts, '.');
    }
  }

  /** Every text is the format of its own parse. */
  lemma FormatParse(s: string)
    ensures Format(Parse(s)) == s
  {
    var main := CutAt(s, '+');
    var version := CutAt(main.head, '-');
    Text.JoinSplit(version.head, '.');
    UnpartsParts(version.tail);
    UnpartsParts(main.tail);
    GlueCut(main.head, '-');
    GlueCut(s, '+');
  }

  /** A well-formed version is parsed back into its parts. */
  lemma ParseFormat(v: SemVer)
    requires WellFormed(v)
    ensures Parse(Format(v)) == v
  {
    CoreFree(v);
    PrereleaseFree(v);
    BuildFree(v);
    var c := Text.Join(v.core, ".");
    var version := Halves(c, Unparts(v.prerelease));
    var main := Halves(Glue(version, '-'), Unparts(v.build));
    assert '+' !in Glue(version, '-');
    CutGlue(main, '+');
    CutGlue(version, '-');
    Text.SplitJoin(v.core, '.');
    PartsUnparts(v.prerelease);
    PartsUnparts(v.build);
  }

  /** Exactly the formats of well-formed versions pass the version pattern. */
  lemma SemVerExactly(s: string)
    ensures IsSemVer(s) <==> exists v :: WellFormed(v) && Format(v) == s
  {
    if IsSemVer(s) {
      FormatParse(s);
    }
    if exists v :: WellFormed(v) && Format(v) == s {
      var v :| WellFormed(v) && Format(v) == s;
      ParseFormat(v);
    }
  }

  lemma CoreFree(v: SemVer)
    requires WellFormed(v)
    ensures forall i :: 0 <= i < |v.core| ==> '.' !in v.core[i] && '-' !in v.core[i] && '+' !in v.core[i]
    ensures '-' !in Text.Join(v.core, ".") && '+' !in Text.Join(v.core, ".")
  {
    forall i | 0 <= i < |v.core|
      ensures '.' !in v.core[i] && '-' !in v.core[i] && '+' !in v.core[i]
    {
      var s := v.core[i];
      assert forall k :: 0 <= k < |s| ==> IsDigit(s[k]);
    }
    JoinFree(v.core, ".", '-');
    JoinFree(v.core, ".", '+');
  }

  lemma PrereleaseFree(v: SemVer)
    requires WellFormed(v)
    ensures forall i :: 0 <= i < |v.prerelease| ==> '.' !in v.prerelease[i] && '+' !in v.prerelease[i]
    ensures '+' !in Text.Join(v.prerelease, ".")
  {
    forall i | 0 <= i < |v.prerelease|
      ensures '.' !in v.prerelease[i] && '+' !in v.prerelease[i]
    {
      var s := v.prerelease[i];
      assert forall k :: 0 <= k < |s| ==> IsIdentifierChar(s[k]);
    }
    JoinFree(v.prerelease, ".", '+');
  }

  lemma BuildFree(v: SemVer)
    requires WellFormed(v)
    ensures forall i :: 0 <= i < |v.build| ==> '.' !in v.build[i] && '+' !in v.build[i]
  {
    forall i | 0 <= i < |v.build|
      ensures '.' !in v.build[i] && '+' !in v.build[i]
    {
      var s := v.build[i];
      assert forall k :: 0 <= k < |s| ==> IsIdentifierChar(s[k]);
    }
  }

  /** A character in neither the pieces nor the separator is not in their join. */
  lemma {:induction false} JoinFree(pieces: seq<string>, sep: string, c: char)
    requires c !in sep
    requires forall i :: 0 <= i < |pieces| ==> c !in pieces[i]
    ensures c !in Text.Join(pieces, sep)
    decreases |pieces|
  {
    if |pieces| > 1 {
      JoinFree(pieces[1..], sep, c);
    }
  }

  /** A pre-release version such as 1.0.0-beta passes the version pattern. */
  lemma PrereleaseAccepted(major: string, minor: string, patch: string, tag: string)
    requires NumericIdentifier(major) && NumericIdentifier(minor) && NumericIdentifier(patch)
    requires AlphanumericIdentifier(tag)
    ensures IsSemVer(major + "." + minor + "." + patch + "-" + tag)
  {
    var v := SemVer([major, minor, patch], [tag], []);
    var text := major + "." + minor + "." + patch + "-" + tag;
    FormatCore(major, minor, patch);
    assert Text.Join(v.prerelease, ".") == tag;
    assert Format(v) == text;
    ParseFormat(v);
  }

  lemma FormatCore(major: string, minor: string, patch: string)
    ensures Text.Join([major, minor, patch], ".") == major + "." + minor + "." + patch
  {
    assert [major, minor, patch][1..] == [minor, patch];
    assert [minor, patch][1..] == [patch];
    assert Text.Join([minor, patch], ".") == minor + "." + patch;
  }

  /** Three numeric identifiers separated by dots are a version. */
  lemma CoreAccepted(major: string, minor: string, patch: string)
    requires NumericIdentifier(major) && NumericIdentifier(minor) && NumericIdentifier(patch)
    ensures IsSemVer(major + "." + minor + "." + patch)
  {
    var v := SemVer([major, minor, patch], [], []);
    FormatCore(major, minor, patch);
    assert Format(v) == major + "." + minor + "." + patch;
    ParseFormat(v);
  }

  /** Any three natural numbers, written in decimal, make a version. */
  lemma DecimalCoreAccepted(major: nat, minor: nat, patch: nat)
    ensures IsSemVer(Text.Decimal(major) + "." + Text.Decimal(minor) + "." + Text.Decimal(patch))
  {
    DecimalNumeric(major);
    DecimalNumeric(minor);
    DecimalNumeric(patch);
    CoreAccepted(Text.Decimal(major), Text.Decimal(minor), Text.Decimal(patch));
  }

  /** `strconv.Itoa` of a natural number is a numeric identifier: no leading zero. */
  lemma {:induction false} DecimalNumeric(n: nat)
    ensures NumericIdentifier(Text.Decimal(n))
    decreases n
  {
    if n >= 10 {
      DecimalNumeric(n / 10);
      assert Text.Decimal(n)[0] == Text.Decimal(n / 10)[0];
    }
  }

  // ------------------------------------------------------------- user agent

  /** `Metadata`: what the client says about itself in a request. */
  datatype Metadata = Metadata(client: string, version: string, caller: string, clientVersion: string)

  const Unknown := "unknown"
  const SupportedClients := ["python"]

  /** The caller pattern: a letter or "_", then 1 to 99 letters, digits, "_" or ".". */
  predicate IsCaller(s: string)
  {
    && 2 <= |s| <= 100
    && (IsLetter(s[0]) || s[0] == '_')
    && forall i :: 1 <= i < |s| ==> IsLetter(s[i]) || IsDigit(s[i]) || s[i] == '_' || s[i] == '.'
  }

  /**
   * `UserAgentValue`: "unknown" for an unsupported client, a version
   * outside the pattern or a malformed caller, checked in that order;
   * otherwise the lower-cased client, the client version, the version and
   * the caller, separated by "#".
   */
  function UserAgentValue(m: Metadata): (r: string)
  {
    if Text.ToLower(m.client) !in SupportedClients then Unknown
    else if !IsSemVer(m.version) then Unknown
    else if !IsCaller(m.caller) then Unknown
    else Text.ToLower(m.client) + "#" + m.clientVersion + "#" + m.version + "#" + m.caller
  }

  /** Accepted metadata: a supported client, a version in the pattern and a well-formed caller. */
  predicate Accepted(m: Metadata)
  {
    Text.ToLower(m.client) == "python" && IsSemVer(m.version) && IsCaller(m.caller)
  }

  /** The value is "unknown" exactly when the metadata is not accepted. */
  lemma UserAgentUnknown(m: Metadata)
    ensures UserAgentValue(m) == Unknown <==> !Accepted(m)
  {
    if Accepted(m) {
      var r := UserAgentValue(m);
      assert r == Text.ToLower(m.client) + ("#" + m.clientVersion + "#" + m.version + "#" + m.caller);
      assert r[0] == 'p';
    }
  }

  /**
   * For accepted metadata the "#"-fields of the value give back the
   * client, as "python", and the other three fields, provided the client
   * version, which nothing checks, holds no "#".
   */
  lemma UserAgentFields(m: Metadata)
    requires Accepted(m) && '#' !in m.clientVersion
    ensures Text.Split(UserAgentValue(m), '#') == ["python", m.clientVersion, m.version, m.caller]
  {
    var fields := ["python", m.clientVersion, m.version, m.caller];
    JoinFour("python", m.clientVersion, m.version, m.caller, "#");
    assert UserAgentValue(m) == Text.Join(fields, "#");
    VersionFree(m.version);
    CallerFree(m.caller);
    assert forall i :: 0 <= i < |fields| ==> '#' !in fields[i];
    Text.SplitJoin(fields, '#');
  }

  lemma JoinFour(a: string, b: string, c: string, d: string, sep: string)
    ensures Text.Join([a, b, c, d], sep) == a + sep + b + sep + c + sep + d
  {
    assert [c, d][1..] == [d];
    assert Text.Join([c, d], sep) == c + sep + d;
    assert [b, c, d][1..] == [c, d];
    assert Text.Join([b, c, d], sep) == b + sep + (c + sep + d);
    assert [a, b, c, d][1..] == [b, c, d];
    assert Text.Join([a, b, c, d], sep) == a + sep + (b + sep + (c + sep + d));
  }

  lemma CallerFree(s: string)
    requires IsCaller(s)
    ensures '#' !in s
  {
    assert forall i :: 0 <= i < |s| ==> s[i] != '#';
  }

  /** A version in the pattern holds no "#". */
  lemma VersionFree(s: string)
    requires IsSemVer(s)
    ensures '#' !in s
  {
    var v := Parse(s);
    FormatParse(s);
    PartsHashFree(v);
    var core := Halves(Text.Join(v.core, "."), Unparts(v.prerelease));
    GlueFree(core, '-', '#');
    GlueFree(Halves(Glue(core, '-'), Unparts(v.build)), '+', '#');
  }

  /** No part of a well-formed version holds a "#". */
  lemma PartsHashFree(v: SemVer)
    requires WellFormed(v)
    ensures '#' !in Text.Join(v.core, ".")
    ensures Unparts(v.prerelease).Some? ==> '#' !in Unparts(v.prerelease).value
    ensures Unparts(v.build).Some? ==> '#' !in Unparts(v.build).value
  {
    forall i | 0 <= i < |v.core| ensures '#' !in v.core[i] {
      var p := v.core[i];
      assert forall k :: 0 <= k < |p| ==> IsDigit(p[k]);
    }
    forall i | 0 <= i < |v.prerelease| ensures '#' !in v.prerelease[i] {
      var p := v.prerelease[i];
      assert forall k :: 0 <= k < |p| ==> IsIdentifierChar(p[k]);
    }
    forall i | 0 <= i < |v.build| ensures '#' !in v.build[i] {
      var p := v.build[i];
      assert forall k :: 0 <= k < |p| ==> IsIdentifierChar(p[k]);
    }
    JoinFree(v.core, ".", '#');
    JoinFree(v.prerelease, ".", '#');
    JoinFree(v.build, ".", '#');
  }

  lemma GlueFree(h: Halves, c: char, x: char)
    requires x != c && x !in h.head
    requires h.tail.Some? ==> x !in h.tail.value
    ensures x !in Glue(h, c)
  {
  }

  // ------------------------------------------------------------ error replies

  /** `ErrIatk`: the error object of a response. */
  datatype ErrIatk = ErrIatk(code: int, message: string)

  /** `Response`; `result` is absent in every error response built here. */
  datatype Response = Response(jsonrpc: string, id: Option<string>, result: Option<string>, error: Option<ErrIatk>)

  /** The pre-defined errors of section 5.1 of the JSON-RPC 2.0 specification. */
  const PredefinedErrors: map<int, string> := map[
    -32700 := "Parse error",
    -32600 := "Invalid Request",
    -32601 := "Method not found",
    -32602 := "Invalid params",
    -32603 := "Internal error"
  ]

  /**
   * An error response of JSON-RPC 2.0 (section 5): version "2.0", the
   * request's id, no result, and a pre-defined code with its message.
   */
  predicate IsPredefinedErrorResponse(r: Response, id: Option<string>)
  {
    && r.jsonrpc == "2.0" && r.id == id && r.result.None? && r.error.Some?
    && r.error.value.code in PredefinedErrors
    && PredefinedErrors[r.error.value.code] == r.error.value.message
  }

  function ErrorResponse(id: Option<string>, code: int, message: string): Response
  {
    Response("2.0", id, None, Some(ErrIatk(code, message)))
  }

  /** `ParseError`. */
  function ParseError(id: Option<string>): (r: Response)
    ensures IsPredefinedErrorResponse(r, id) && r.error.value.message == "Parse error"
  {
    ErrorResponse(id, -32700, "Parse error")
  }

  /** `NoMethodFoundError`. */
  function NoMethodFoundError(id: Option<string>): (r: Response)
    ensures IsPredefinedErrorResponse(r, id) && r.error.value.message == "Method not found"
  {
    ErrorResponse(id, -32601, "Method not found")
  }

  /** `InternalServiceError`. */
  function InternalServiceError(id: Option<string>): (r: Response)
    ensures IsPredefinedErrorResponse(r, id) && r.error.value.message == "Internal error"
  {
    ErrorResponse(id, -32603, "Internal error")
  }

  /** `InvalidParamsError`. */
  function InvalidParamsError(id: Option<string>): (r: Response)
    ensures IsPredefinedErrorResponse(r, id) && r.error.value.message == "Invalid params"
  {
    ErrorResponse(id, -32602, "Invalid params")
  }

  /**
   * The four replies carry four distinct codes, all inside the range
   * -32768..-32000 that section 5.1 of the JSON-RPC 2.0 specification
   * reserves for pre-defined errors.
   */
  lemma ErrorCodesDistinct(id: Option<string>)
    ensures var codes := [ParseError(id).error.value.code, NoMethodFoundError(id).error.value.code,
                          InternalServiceError(id).error.value.code, InvalidParamsError(id).error.value.code];
      && (forall i, j :: 0 <= i < j < 4 ==> codes[i] != codes[j])
      && (forall i :: 0 <= i < 4 ==> -32768 <= codes[i] <= -32000)
  {
  }
}
