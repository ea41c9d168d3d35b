/** The anchored patterns that name the members of a step: literal characters, `.` and `.*`. */
module Patterns {
  import opened NameCanonicaliser

  datatype Token = Literal(c: char) | AnyOne | AnyRun

  function Tokens(pattern: string): seq<Token> {
    if pattern == "" then []
    else if pattern[0] != '.' then [Literal(pattern[0])] + Tokens(pattern[1..])
    else if |pattern| > 1 && pattern[1] == '*' then [AnyRun] + Tokens(pattern[2..])
    else [AnyOne] + Tokens(pattern[1..])
  }

  /** The text between the anchors; an anchor the pattern lacks is added by the source. */
  function Unanchored(pattern: string): string {
    var open := if pattern != "" && pattern[0] == '^' then pattern[1..] else pattern;
    if open != "" && open[|open| - 1] == '$' then open[..|open| - 1] else open
  }

  predicate MatchTokens(tokens: seq<Token>, s: string)
    decreases |tokens| + |s|
  {
    if tokens == [] then s == ""
    else match tokens[0]
      case Literal(c) => s != "" && s[0] == c && MatchTokens(tokens[1..], s[1..])
      case AnyOne => s != "" && s[0] != '\n' && MatchTokens(tokens[1..], s[1..])
      case AnyRun => MatchTokens(tokens[1..], s) || (s != "" && s[0] != '\n' && MatchTokens(tokens, s[1..]))
  }

  predicate Matches(pattern: string, s: string) {
    MatchTokens(Tokens(Unanchored(pattern)), s)
  }

  /** A pattern of letters, digits and hyphens, every one of which stands for itself. */
  predicate IsPlain(pattern: string) {
    forall i :: 0 <= i < |pattern| ==> IsAlnum(pattern[i]) || IsDash(pattern[i])
  }

  predicate OneLine(s: string) { '\n' !in s }

  lemma {:induction false} MatchPlainTokens(pattern: string, rest: string, s: string)
    requires IsPlain(pattern)
    ensures MatchTokens(Tokens(pattern + rest), s)
       <==> pattern <= s && MatchTokens(Tokens(rest), s[|pattern|..])
  {
    if pattern == "" {
      assert pattern + rest == rest;
    } else {
      assert (pattern + rest)[1..] == pattern[1..] + rest;
      if s != "" && s[0] == pattern[0] {
        MatchPlainTokens(pattern[1..], rest, s[1..]);
        assert s == [s[0]] + s[1..];
        assert pattern == [pattern[0]] + pattern[1..];
        if pattern[1..] <= s[1..] {
          assert s[1..][|pattern| - 1..] == s[|pattern|..];
        }
      }
    }
  }

  /** A literal name, used as an anchored pattern, matches exactly itself. */
  lemma LiteralMatchesItself(name: string, s: string)
    requires IsPlain(name)
    ensures Matches(name, s) <==> s == name
  {
    MatchPlainTokens(name, "", s);
    assert name + "" == name;
  }

  lemma {:induction false} MatchAnyRun(s: string)
    ensures MatchTokens([AnyRun], s) <==> OneLine(s)
  {
    if s != "" {
      MatchAnyRun(s[1..]);
      assert s == [s[0]] + s[1..];
    }
  }

  /** A literal prefix followed by `.*` matches exactly the one-line extensions of the prefix. */
  lemma PrefixMatches(prefix: string, s: string)
    requires IsPlain(prefix)
    ensures Matches(prefix + ".*", s) <==> prefix <= s && OneLine(s[|prefix|..])
  {
    MatchPlainTokens(prefix, ".*", s);
    assert Tokens(".*") == [AnyRun];
    MatchAnyRunIf(prefix, s);
  }

  lemma MatchAnyRunIf(prefix: string, s: string)
    ensures prefix <= s ==> (MatchTokens([AnyRun], s[|prefix|..]) <==> OneLine(s[|prefix|..]))
  {
    if prefix <= s { MatchAnyRun(s[|prefix|..]); }
  }

  lemma LabelIsOneLine(s: string)
    requires IsLabel(s)
    ensures OneLine(s) && forall i :: 0 <= i <= |s| ==> OneLine(s[i..])
  {}

  /** The names the normaliser makes are plain, so as step members they name only themselves. */
  lemma NormalisedNameMatchesItself(name: string, s: string)
    requires IsLabel(name)
    ensures Matches(name, s) <==> s == name
  {
    LiteralMatchesItself(name, s);
  }

  // ---- Names with dots ----

  /** The characters of the object names that Kubernetes admits. */
  predicate IsKubernetesName(name: string) {
    name != "" && forall i :: 0 <= i < |name| ==> IsAlnum(name[i]) || IsDash(name[i]) || name[i] == '.'
  }

  /** The same text, but for the places of dots. */
  predicate AgreesUpToDots(name: string, s: string) {
    && |s| == |name|
    && forall i :: 0 <= i < |name| ==> if name[i] == '.' then s[i] != '\n' else s[i] == name[i]
  }

  lemma {:induction false} MatchDottedTokens(name: string, s: string)
    requires forall i :: 0 <= i < |name| ==> name[i] != '*'
    ensures MatchTokens(Tokens(name), s) <==> AgreesUpToDots(name, s)
  {
    if name != "" && s != "" {
      MatchDottedTokens(name[1..], s[1..]);
      assert AgreesUpToDots(name, s) <==>
        (if name[0] == '.' then s[0] != '\n' else s[0] == name[0]) && AgreesUpToDots(name[1..], s[1..]) by {
        DottedTail(name, s);
      }
    }
  }

  lemma DottedTail(name: string, s: string)
    requires name != "" && s != ""
    ensures AgreesUpToDots(name, s) <==>
      (if name[0] == '.' then s[0] != '\n' else s[0] == name[0]) && AgreesUpToDots(name[1..], s[1..])
  {
    if AgreesUpToDots(name[1..], s[1..]) {
      forall i | 0 < i < |name|
        ensures if name[i] == '.' then s[i] != '\n' else s[i] == name[i]
      {
        assert name[1..][i - 1] == name[i] && s[1..][i - 1] == s[i];
      }
    }
  }

  /** An object name, used as an anchored pattern, matches what agrees with it up to its dots, itself among
      others. */
  lemma KubernetesNameMatches(name: string, s: string)
    requires IsKubernetesName(name)
    ensures Matches(name, s) <==> AgreesUpToDots(name, s)
    ensures Matches(name, name)
  {
    assert Unanchored(name) == name;
    MatchDottedTokens(name, s);
    MatchDottedTokens(name, name);
  }

  // ---- When two patterns share a match ----

  /** The two shapes of pattern a sequence is made of. */
  datatype Shape = Exact(name: string) | Prefix(prefix: string) {
    function Text(): string {
      match this
      case Exact(name) => name
      case Prefix(prefix) => prefix + ".*"
    }

    predicate Plain() {
      match this
      case Exact(name) => IsPlain(name)
      case Prefix(prefix) => IsPlain(prefix)
    }
  }

  predicate Overlap(a: Shape, b: Shape) {
    match (a, b)
    case (Exact(x), Exact(y)) => x == y
    case (Exact(x), Prefix(p)) => p <= x
    case (Prefix(p), Exact(y)) => p <= y
    case (Prefix(p), Prefix(q)) => p <= q || q <= p
  }

  function Extent(a: Shape): string {
    match a
    case Exact(x) => x
    case Prefix(p) => p
  }

  /** The strings a shape stands for. */
  predicate Takes(shape: Shape, s: string) {
    match shape
    case Exact(name) => s == name
    case Prefix(prefix) => prefix <= s && OneLine(s[|prefix|..])
  }

  lemma ShapeMatches(a: Shape, s: string)
    requires a.Plain()
    ensures Matches(a.Text(), s) <==> Takes(a, s)
  {
    match a
    case Exact(name) => LiteralMatchesItself(name, s);
    case Prefix(prefix) => PrefixMatches(prefix, s);
  }

  lemma PrefixesOfOne(p: string, q: string, s: string)
    requires p <= s && q <= s
    ensures p <= q || q <= p
  {
    if |p| <= |q| { assert p == s[..|p|] == q[..|p|]; } else { assert q == s[..|q|] == p[..|q|]; }
  }

  lemma TakenByBoth(a: Shape, b: Shape, s: string)
    requires Takes(a, s) && Takes(b, s)
    ensures Overlap(a, b)
  {
    PrefixesOfOne(Extent(a), Extent(b), s);
  }

  lemma PlainIsOneLine(s: string)
    requires IsPlain(s)
    ensures OneLine(s) && forall i :: 0 <= i <= |s| ==> OneLine(s[i..])
  {}

  lemma CommonMember(a: Shape, b: Shape) returns (s: string)
    requires Overlap(a, b) && a.Plain() && b.Plain()
    ensures Takes(a, s) && Takes(b, s)
  {
    s := if |Extent(a)| >= |Extent(b)| then Extent(a) else Extent(b);
    PlainIsOneLine(s);
  }

  /** Two patterns have a common match exactly when the names or prefixes overlap. */
  lemma OverlapIsCommonMatch(a: Shape, b: Shape)
    requires a.Plain() && b.Plain()
    ensures Overlap(a, b) <==> exists s :: Matches(a.Text(), s) && Matches(b.Text(), s)
  {
    hide Matches;
    hide Overlap;
    if Overlap(a, b) {
      var s := CommonMember(a, b);
      ShapeMatches(a, s);
      ShapeMatches(b, s);
      assert Matches(a.Text(), s) && Matches(b.Text(), s);
    }
    forall s | Matches(a.Text(), s) && Matches(b.Text(), s)
      ensures Overlap(a, b)
    {
      ShapeMatches(a, s);
      ShapeMatches(b, s);
      TakenByBoth(a, b, s);
    }
  }
}
