/** The Porla connection settings and their validator. The host and URL-base
    rules of the application (`ValidHost`, `ValidUrlBase`) are given as
    functions that return the error messages they produce; everything else is
    the validator's own logic. */
module PorlaSettings {
  import opened Common
  import opened PorlaTypes

  datatype Settings = Settings(
    host: Option<string>,
    port: Int32,
    useSsl: bool,
    urlBase: Option<string>,
    token: Option<string>,
    presets: Option<seq<string>>,
    savePath: Option<string>,
    tvCategory: Option<string>,
    tvImportedCategory: Option<string>,
    presetsList: Option<map<string, PorlaPreset>>)

  /** `new PorlaSettings()`: two defaults, every other field zero, false or null. */
  function Default(): (d: Settings)
    ensures d.host == Some("localhost") && d.savePath == Some("/data/downloads")
    ensures d.port == 0 && !d.useSsl
    ensures d.urlBase.None? && d.token.None? && d.presets.None? && d.presetsList.None?
    ensures d.tvCategory.None? && d.tvImportedCategory.None?
  {
    Settings(Some("localhost"), 0, false, None, None, None, Some("/data/downloads"), None, None, None)
  }

  const MinPort := 1
  const MaxPort := 65535
  /** The properties the validator has rules for. */
  const ValidatedProperties := {"Host", "Port", "UrlBase", "TvCategory", "TvImportedCategory"}
  const CategoryMessage := "Can not contain '\\', '//', or start/end with '/'"

  // ---------------------------------------------------------------------------
  // The category pattern ^([^\\\/](\/?[^\\\/])*)?$

  predicate IsSeparator(c: char) { c == '\\' || c == '/' }

  /** The pattern read as a grammar: empty, or one non-separator followed by
      any number of segments, each an optional '/' and one non-separator. */
  predicate MatchesCategoryPattern(s: string) {
    s == [] || (!IsSeparator(s[0]) && MatchesSegments(s[1..]))
  }

  /** `(\/?[^\\\/])*` */
  predicate MatchesSegments(t: string)
    decreases |t|
  {
    || t == []
    || (!IsSeparator(t[0]) && MatchesSegments(t[1..]))
    || (|t| >= 2 && t[0] == '/' && !IsSeparator(t[1]) && MatchesSegments(t[2..]))
  }

  /** .NET's `$` (without RegexOptions.Multiline) also matches just before a
      final line feed, so the regex accepts a string whose body before that
      line feed matches. */
  predicate RegexAccepts(s: string) {
    || MatchesCategoryPattern(s)
    || (|s| > 0 && s[|s| - 1] == '\n' && MatchesCategoryPattern(s[..|s| - 1]))
  }

  /** The rule in the validator's error message. */
  predicate NoDoubleSlash(s: string) {
    forall i :: 0 <= i < |s| - 1 ==> !(s[i] == '/' && s[i + 1] == '/')
  }

  predicate PlainCategoryRule(s: string) {
    && '\\' !in s
    && NoDoubleSlash(s)
    && (|s| > 0 ==> s[0] != '/' && s[|s| - 1] != '/')
  }

  /** What the segment loop accepts after a non-separator character. */
  lemma {:induction false} SegmentsMeanPlainTail(t: string)
    ensures MatchesSegments(t) <==> '\\' !in t && NoDoubleSlash(t) && (|t| > 0 ==> t[|t| - 1] != '/')
    decreases |t|
  {
    if t == [] {
    } else if !IsSeparator(t[0]) {
      SegmentsMeanPlainTail(t[1..]);
      assert t == [t[0]] + t[1..];
      assert NoDoubleSlash(t) <==> NoDoubleSlash(t[1..]) by {
        if NoDoubleSlash(t[1..]) {
          forall i | 0 <= i < |t| - 1 ensures !(t[i] == '/' && t[i + 1] == '/') {
            if i > 0 { assert t[i] == t[1..][i - 1] && t[i + 1] == t[1..][i]; }
          }
        }
        if NoDoubleSlash(t) {
          forall i | 0 <= i < |t[1..]| - 1 ensures !(t[1..][i] == '/' && t[1..][i + 1] == '/') {
            assert t[1..][i] == t[i + 1] && t[1..][i + 1] == t[i + 2];
          }
        }
      }
    } else if t[0] == '\\' {
      assert '\\' in t;
    } else if |t| == 1 {
    } else if IsSeparator(t[1]) {
      if t[1] == '\\' { assert '\\' in t; } else { assert !NoDoubleSlash(t) by { assert t[0] == '/' && t[1] == '/'; } }
    } else {
      var u := t[2..];
      SegmentsMeanPlainTail(u);
      assert t == [t[0], t[1]] + u;
      assert NoDoubleSlash(t) <==> NoDoubleSlash(u) by {
        if NoDoubleSlash(u) {
          forall i | 0 <= i < |t| - 1 ensures !(t[i] == '/' && t[i + 1] == '/') {
            if i > 1 { assert t[i] == u[i - 2] && t[i + 1] == u[i - 1]; }
          }
        }
        if NoDoubleSlash(t) {
          forall i | 0 <= i < |u| - 1 ensures !(u[i] == '/' && u[i + 1] == '/') {
            assert u[i] == t[i + 2] && u[i + 1] == t[i + 3];
          }
        }
      }
      assert ('\\' in t) <==> ('\\' in u);
    }
  }

  /** The pattern accepts exactly the strings that contain no '\', contain no
      "//", and neither start nor end with '/'. */
  lemma CategoryPatternMeansPlainRule(s: string)
    ensures MatchesCategoryPattern(s) <==> PlainCategoryRule(s)
  {
    if s != [] {
      var t := s[1..];
      SegmentsMeanPlainTail(t);
      assert s == [s[0]] + t;
      if !IsSeparator(s[0]) {
        assert ('\\' in s) <==> ('\\' in t);
        assert NoDoubleSlash(s) <==> NoDoubleSlash(t) by {
          if NoDoubleSlash(t) {
            forall i | 0 <= i < |s| - 1 ensures !(s[i] == '/' && s[i + 1] == '/') {
              if i > 0 { assert s[i] == t[i - 1] && s[i + 1] == t[i]; }
            }
          }
          if NoDoubleSlash(s) {
            forall i | 0 <= i < |t| - 1 ensures !(t[i] == '/' && t[i + 1] == '/') {
              assert t[i] == s[i + 1] && t[i + 1] == s[i + 2];
            }
          }
        }
      } else if s[0] == '\\' {
        assert '\\' in s;
      }
    }
  }

  /** A final line feed never changes the verdict: the regex, `$` included,
      accepts exactly what the pattern's grammar accepts. */
  lemma RegexAcceptsMeansPattern(s: string)
    ensures RegexAccepts(s) <==> MatchesCategoryPattern(s)
  {
    if |s| > 0 && s[|s| - 1] == '\n' {
      var b := s[..|s| - 1];
      CategoryPatternMeansPlainRule(s);
      CategoryPatternMeansPlainRule(b);
      if PlainCategoryRule(b) {
        assert s == b + ['\n'];
        assert '\\' !in s by { assert forall i :: 0 <= i < |s| - 1 ==> s[i] == b[i]; }
        forall i | 0 <= i < |s| - 1 ensures !(s[i] == '/' && s[i + 1] == '/') {
          if i < |s| - 2 { assert s[i] == b[i] && s[i + 1] == b[i + 1]; }
          else { assert s[i + 1] == '\n'; }
        }
      }
    }
  }

  // ---------------------------------------------------------------------------
  // PorlaSettingsValidator

  /** `RuleFor(c => c.Port).InclusiveBetween(1, 65535)`; `rangeMessage` is the
      message FluentValidation formats for the value entered. */
  function PortRule(port: Int32, rangeMessage: Int32 -> string): (r: seq<ValidationFailure>)
    ensures r == [] <==> MinPort <= port <= MaxPort
    ensures forall i :: 0 <= i < |r| ==> r[i] == ValidationFailure("Port", rangeMessage(port), None)
  {
    if MinPort <= port <= MaxPort then [] else [ValidationFailure("Port", rangeMessage(port), None)]
  }

  /** `RuleFor(c => c.<property>).Matches(pattern).WithMessage(...)`; a null
      value passes, as FluentValidation's regular-expression rule lets it. */
  function CategoryRule(property: string, value: Option<string>): (r: seq<ValidationFailure>)
    ensures r == [] <==> (value.None? || PlainCategoryRule(value.value))
    ensures forall i :: 0 <= i < |r| ==> r[i] == ValidationFailure(property, CategoryMessage, None)
  {
    match value
    case None => []
    case Some(v) =>
      RegexAcceptsMeansPattern(v);
      CategoryPatternMeansPlainRule(v);
      if RegexAccepts(v) then [] else [ValidationFailure(property, CategoryMessage, None)]
  }

  function Attribute(property: string, messages: seq<string>): (r: seq<ValidationFailure>)
    ensures |r| == |messages|
    ensures forall i :: 0 <= i < |r| ==> r[i] == ValidationFailure(property, messages[i], None)
  {
    seq(|messages|, i requires 0 <= i < |messages| => ValidationFailure(property, messages[i], None))
  }

  /** `PorlaSettings.Validate()`: every rule, in declaration order.
      `validHost` and `validUrlBase` return the messages the application's
      host and URL-base rules report for a value. */
  function Validate(s: Settings, validHost: Option<string> -> seq<string>, validUrlBase: Option<string> -> seq<string>, rangeMessage: Int32 -> string): (r: seq<ValidationFailure>)
    ensures forall i :: 0 <= i < |r| ==> r[i].propertyName in ValidatedProperties
  {
    Attribute("Host", validHost(s.host))
    + PortRule(s.port, rangeMessage)
    + (if IsNullOrWhiteSpace(s.urlBase) then [] else Attribute("UrlBase", validUrlBase(s.urlBase)))
    + CategoryRule("TvCategory", s.tvCategory)
    + CategoryRule("TvImportedCategory", s.tvImportedCategory)
  }

  /** The failures reported against one property. */
  function FailuresFor(r: seq<ValidationFailure>, property: string): seq<ValidationFailure> {
    if r == [] then []
    else FailuresFor(r[..|r| - 1], property) + (if r[|r| - 1].propertyName == property then [r[|r| - 1]] else [])
  }

  lemma {:induction false} FailuresForConcat(a: seq<ValidationFailure>, b: seq<ValidationFailure>, property: string)
    ensures FailuresFor(a + b, property) == FailuresFor(a, property) + FailuresFor(b, property)
    decreases |b|
  {
    if b == [] {
      assert a + b == a;
    } else {
      assert (a + b)[..|a + b| - 1] == a + b[..|b| - 1];
      FailuresForConcat(a, b[..|b| - 1], property);
    }
  }

  lemma {:induction false} FailuresForNone(r: seq<ValidationFailure>, property: string)
    requires forall i :: 0 <= i < |r| ==> r[i].propertyName != property
    ensures FailuresFor(r, property) == []
    decreases |r|
  {
    if r != [] {
      FailuresForNone(r[..|r| - 1], property);
    }
  }

  lemma {:induction false} FailuresForAll(r: seq<ValidationFailure>, property: string)
    requires forall i :: 0 <= i < |r| ==> r[i].propertyName == property
    ensures FailuresFor(r, property) == r
    decreases |r|
  {
    if r != [] {
      FailuresForAll(r[..|r| - 1], property);
      assert r == r[..|r| - 1] + [r[|r| - 1]];
    }
  }

  /** The failures of one rule, filtered by property: all of them for the
      rule's own property, none for any other. */
  lemma RuleFailuresFor(r: seq<ValidationFailure>, own: string, property: string)
    requires forall i :: 0 <= i < |r| ==> r[i].propertyName == own
    ensures FailuresFor(r, property) == if property == own then r else []
  {
    if property == own { FailuresForAll(r, property); } else { FailuresForNone(r, property); }
  }

  lemma FailuresForValidate(s: Settings, validHost: Option<string> -> seq<string>, validUrlBase: Option<string> -> seq<string>, rangeMessage: Int32 -> string, n: string)
    ensures FailuresFor(Validate(s, validHost, validUrlBase, rangeMessage), n) ==
      (if n == "Host" then Attribute("Host", validHost(s.host)) else [])
      + (if n == "Port" then PortRule(s.port, rangeMessage) else [])
      + (if n == "UrlBase" && !IsNullOrWhiteSpace(s.urlBase) then Attribute("UrlBase", validUrlBase(s.urlBase)) else [])
      + (if n == "TvCategory" then CategoryRule("TvCategory", s.tvCategory) else [])
      + (if n == "TvImportedCategory" then CategoryRule("TvImportedCategory", s.tvImportedCategory) else [])
  {
    var h := Attribute("Host", validHost(s.host));
    var p := PortRule(s.port, rangeMessage);
    var u := if IsNullOrWhiteSpace(s.urlBase) then [] else Attribute("UrlBase", validUrlBase(s.urlBase));
    var c := CategoryRule("TvCategory", s.tvCategory);
    var i := CategoryRule("TvImportedCategory", s.tvImportedCategory);
    assert Validate(s, validHost, validUrlBase, rangeMessage) == h + p + u + c + i;
    FailuresForConcat(h + p + u + c, i, n);
    FailuresForConcat(h + p + u, c, n);
    FailuresForConcat(h + p, u, n);
    FailuresForConcat(h, p, n);
    RuleFailuresFor(h, "Host", n);
    RuleFailuresFor(p, "Port", n);
    RuleFailuresFor(u, "UrlBase", n);
    RuleFailuresFor(c, "TvCategory", n);
    RuleFailuresFor(i, "TvImportedCategory", n);
  }

  /** Each property is judged by its own rule alone: the port by its range,
      the URL base only when it is not blank, and both categories by the same
      plain-words rule. */
  lemma ValidateRules(s: Settings, validHost: Option<string> -> seq<string>, validUrlBase: Option<string> -> seq<string>, rangeMessage: Int32 -> string)
    ensures var v := Validate(s, validHost, validUrlBase, rangeMessage);
      && (FailuresFor(v, "Port") == [] <==> 1 <= s.port <= 65535)
      && FailuresFor(v, "UrlBase") == (if IsNullOrWhiteSpace(s.urlBase) then [] else Attribute("UrlBase", validUrlBase(s.urlBase)))
      && (FailuresFor(v, "TvCategory") == [] <==> s.tvCategory.None? || PlainCategoryRule(s.tvCategory.value))
      && (FailuresFor(v, "TvImportedCategory") == [] <==> s.tvImportedCategory.None? || PlainCategoryRule(s.tvImportedCategory.value))
      && FailuresFor(v, "Host") == Attribute("Host", validHost(s.host))
  {
    FailuresForValidate(s, validHost, validUrlBase, rangeMessage, "Port");
    FailuresForValidate(s, validHost, validUrlBase, rangeMessage, "UrlBase");
    FailuresForValidate(s, validHost, validUrlBase, rangeMessage, "TvCategory");
    FailuresForValidate(s, validHost, validUrlBase, rangeMessage, "TvImportedCategory");
    FailuresForValidate(s, validHost, validUrlBase, rangeMessage, "Host");
  }

  /** A blank URL base is never handed to the URL-base rule. */
  lemma BlankUrlBaseIsNotChecked(s: Settings, validHost: Option<string> -> seq<string>, u1: Option<string> -> seq<string>, u2: Option<string> -> seq<string>, rangeMessage: Int32 -> string)
    requires IsNullOrWhiteSpace(s.urlBase)
    ensures Validate(s, validHost, u1, rangeMessage) == Validate(s, validHost, u2, rangeMessage)
  {
  }

  /** The settings are valid exactly when every rule passes. */
  lemma ValidateAccepts(s: Settings, validHost: Option<string> -> seq<string>, validUrlBase: Option<string> -> seq<string>, rangeMessage: Int32 -> string)
    ensures Validate(s, validHost, validUrlBase, rangeMessage) == [] <==>
      && validHost(s.host) == []
      && 1 <= s.port <= 65535
      && (IsNullOrWhiteSpace(s.urlBase) || validUrlBase(s.urlBase) == [])
      && (s.tvCategory.None? || PlainCategoryRule(s.tvCategory.value))
      && (s.tvImportedCategory.None? || PlainCategoryRule(s.tvImportedCategory.value))
  {
  }

  /** Fresh settings name "localhost" and "/data/downloads" and nothing else,
      so their port of 0 fails the port rule. */
  lemma DefaultSettingsFailPortRule(validHost: Option<string> -> seq<string>, validUrlBase: Option<string> -> seq<string>, rangeMessage: Int32 -> string)
    ensures Default().host == Some("localhost") && Default().savePath == Some("/data/downloads")
    ensures Default().port == 0 && Default().token.None? && Default().tvCategory.None?
    ensures FailuresFor(Validate(Default(), validHost, validUrlBase, rangeMessage), "Port") == [ValidationFailure("Port", rangeMessage(0), None)]
  {
    FailuresForValidate(Default(), validHost, validUrlBase, rangeMessage, "Port");
  }
}
