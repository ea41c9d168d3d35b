/** JSON pointers and the `add` operation of JSON Patch, as the generated policies use them. */
module JsonPointers {
  import opened Wrappers

  // ---- Pointers: sections 3 and 4 of RFC 6901 ----

  function ReplaceAll(s: string, target: char, text: string): string {
    if s == "" then ""
    else (if s[0] == target then text else [s[0]]) + ReplaceAll(s[1..], target, text)
  }

  /** escapeJSONPointer of functions/tenancy/service/zone.go: two passes, the tilde first. */
  function Escape(key: string): string {
    ReplaceAll(ReplaceAll(key, '~', "~0"), '/', "~1")
  }

  /** Every `~` followed by `digit`, from left to right, becomes `decoded`. */
  function ReplacePairs(s: string, digit: char, decoded: char): string {
    if s == "" then ""
    else if |s| > 1 && s[0] == '~' && s[1] == digit then [decoded] + ReplacePairs(s[2..], digit, decoded)
    else [s[0]] + ReplacePairs(s[1..], digit, decoded)
  }

  /** Decoding as section 4 prescribes: first `~1`, then `~0`. */
  function Unescape(token: string): string {
    ReplacePairs(ReplacePairs(token, '1', '/'), '0', '~')
  }

  function SplitAtSlash(s: string): (parts: seq<string>)
    ensures parts != []
  {
    if s == "" then [""]
    else if s[0] == '/' then [""] + SplitAtSlash(s[1..])
    else var rest := SplitAtSlash(s[1..]); [[s[0]] + rest[0]] + rest[1..]
  }

  function UnescapeAll(tokens: seq<string>): seq<string> {
    seq(|tokens|, i requires 0 <= i < |tokens| => Unescape(tokens[i]))
  }

  /** The reference tokens of a pointer, when it is one. */
  function Tokens(pointer: string): Option<seq<string>> {
    if pointer == "" then Some([])
    else if pointer[0] != '/' then None
    else Some(UnescapeAll(SplitAtSlash(pointer[1..])))
  }

  /** The escaped form written in one pass. */
  function Escaped(key: string): string {
    if key == "" then ""
    else (if key[0] == '~' then "~0" else if key[0] == '/' then "~1" else [key[0]]) + Escaped(key[1..])
  }

  lemma {:induction false} ReplaceAllAppends(a: string, b: string, target: char, text: string)
    ensures ReplaceAll(a + b, target, text) == ReplaceAll(a, target, text) + ReplaceAll(b, target, text)
  {
    if a == "" {
      assert a + b == b;
    } else {
      assert (a + b)[1..] == a[1..] + b;
      ReplaceAllAppends(a[1..], b, target, text);
    }
  }

  lemma {:induction false} TwoPassesEscape(key: string)
    ensures Escape(key) == Escaped(key)
  {
    if key != "" {
      TwoPassesEscape(key[1..]);
      var first := if key[0] == '~' then "~0" else [key[0]];
      ReplaceAllAppends(first, ReplaceAll(key[1..], '~', "~0"), '/', "~1");
      assert ReplaceAll("~0", '/', "~1") == "~0";
    }
  }

  lemma {:induction false} EscapedHasNoSlash(key: string)
    ensures '/' !in Escaped(key)
  {
    if key != "" {
      EscapedHasNoSlash(key[1..]);
    }
  }

  /** The escaped form after the first decoding pass. */
  function TildesEscaped(key: string): string {
    if key == "" then "" else (if key[0] == '~' then "~0" else [key[0]]) + TildesEscaped(key[1..])
  }

  lemma PairsOfOther(c: char, s: string, digit: char, decoded: char)
    requires c != '~'
    ensures ReplacePairs([c] + s, digit, decoded) == [c] + ReplacePairs(s, digit, decoded)
  {
    assert ([c] + s)[1..] == s;
  }

  lemma PairsOfPair(d: char, s: string, digit: char, decoded: char)
    requires d != '~'
    ensures ReplacePairs(['~', d] + s, digit, decoded)
         == (if d == digit then [decoded] else ['~', d]) + ReplacePairs(s, digit, decoded)
  {
    var t := ['~', d] + s;
    assert t[2..] == s && t[1..] == [d] + s;
    if d != digit {
      PairsOfOther(d, s, digit, decoded);
    }
  }

  lemma {:induction false} SlashesDecode(key: string)
    ensures ReplacePairs(Escaped(key), '1', '/') == TildesEscaped(key)
  {
    hide ReplacePairs;
    if key == "" {
      PairsOfNothing('1', '/');
    } else {
      SlashesDecode(key[1..]);
      if key[0] == '~' {
        PairsOfPair('0', Escaped(key[1..]), '1', '/');
      } else if key[0] == '/' {
        PairsOfPair('1', Escaped(key[1..]), '1', '/');
      } else {
        PairsOfOther(key[0], Escaped(key[1..]), '1', '/');
      }
    }
  }

  lemma PairsOfNothing(digit: char, decoded: char)
    ensures ReplacePairs("", digit, decoded) == ""
  {}

  lemma {:induction false} TildesDecode(key: string)
    ensures ReplacePairs(TildesEscaped(key), '0', '~') == key
  {
    hide ReplacePairs;
    if key == "" {
      PairsOfNothing('0', '~');
    } else {
      TildesDecode(key[1..]);
      assert key == [key[0]] + key[1..];
      if key[0] == '~' {
        PairsOfPair('0', TildesEscaped(key[1..]), '0', '~');
      } else {
        PairsOfOther(key[0], TildesEscaped(key[1..]), '0', '~');
      }
    }
  }

  /** Decoding undoes escaping, for every key. */
  lemma EscapeRoundTrip(key: string)
    ensures Unescape(Escape(key)) == key
    ensures '/' !in Escape(key)
  {
    TwoPassesEscape(key);
    SlashesDecode(key);
    TildesDecode(key);
    EscapedHasNoSlash(key);
  }

  /** Different keys are escaped differently. */
  lemma EscapeIsInjective(a: string, b: string)
    requires Escape(a) == Escape(b)
    ensures a == b
  {
    EscapeRoundTrip(a);
    EscapeRoundTrip(b);
  }

  lemma {:induction false} SplitOfPart(part: string)
    requires '/' !in part
    ensures SplitAtSlash(part) == [part]
  {
    if part != "" {
      SplitOfPart(part[1..]);
      assert [part[0]] + part[1..] == part;
    }
  }

  lemma {:induction false} SplitBehindPart(part: string, rest: string)
    requires '/' !in part
    ensures SplitAtSlash(part + "/" + rest) == [part] + SplitAtSlash(rest)
  {
    var s := part + "/" + rest;
    if part == "" {
      assert s[1..] == rest;
    } else {
      assert s[1..] == part[1..] + "/" + rest;
      SplitBehindPart(part[1..], rest);
      assert [part[0]] + part[1..] == part;
    }
  }

  predicate IsPlainToken(token: string) { '/' !in token && '~' !in token }

  lemma {:induction false} PlainTokenEscapes(token: string)
    requires IsPlainToken(token)
    ensures Escaped(token) == token
  {
    if token != "" {
      PlainTokenEscapes(token[1..]);
    }
  }

  lemma PlainTokenDecodes(token: string)
    requires IsPlainToken(token)
    ensures Unescape(token) == token
  {
    PlainTokenEscapes(token);
    TwoPassesEscape(token);
    EscapeRoundTrip(token);
  }

  lemma TokensBehindSlash(rest: string)
    ensures Tokens("/" + rest) == Some(UnescapeAll(SplitAtSlash(rest)))
  {
    var path := "/" + rest;
    assert path[0] == '/' && path[1..] == rest;
    hide UnescapeAll;
    hide SplitAtSlash;
  }

  lemma PathHasTwoTokens(first: string, second: string)
    requires IsPlainToken(first) && IsPlainToken(second)
    ensures Tokens("/" + first + "/" + second) == Some([first, second])
  {
    PlainTokenDecodes(first);
    PlainTokenDecodes(second);
    SplitBehindPart(first, second);
    SplitOfPart(second);
    hide Unescape;
    hide SplitAtSlash;
    hide Tokens;
    assert "/" + first + "/" + second == "/" + (first + "/" + second);
    TokensBehindSlash(first + "/" + second);
    assert [first] + [second] == [first, second];
    assert UnescapeAll([first, second]) == [first, second];
  }

  lemma SplitOfThree(first: string, second: string, third: string)
    requires '/' !in first && '/' !in second && '/' !in third
    ensures SplitAtSlash(first + "/" + second + "/" + third) == [first, second, third]
  {
    hide SplitAtSlash;
    assert first + "/" + second + "/" + third == first + "/" + (second + "/" + third);
    SplitBehindPart(first, second + "/" + third);
    SplitBehindPart(second, third);
    SplitOfPart(third);
  }

  lemma SlashInFront(first: string, second: string, third: string)
    ensures "/" + first + "/" + second + "/" + third == "/" + (first + "/" + second + "/" + third)
  {
    var start := "/" + first;
    assert start + "/" + second == "/" + (first + "/" + second);
    assert start + "/" + second + "/" == "/" + (first + "/" + second + "/");
  }

  /** A path of two plain tokens and an escaped key has exactly three tokens, the last of which is the key. */
  lemma PathHasThreeTokens(first: string, second: string, key: string)
    requires IsPlainToken(first) && IsPlainToken(second)
    ensures Tokens("/" + first + "/" + second + "/" + Escape(key)) == Some([first, second, key])
  {
    var rest := first + "/" + second + "/" + Escape(key);
    EscapeRoundTrip(key);
    PlainTokenDecodes(first);
    PlainTokenDecodes(second);
    hide *;
    SplitOfThree(first, second, Escape(key));
    SlashInFront(first, second, Escape(key));
    TokensBehindSlash(rest);
    UnescapeThree(first, second, Escape(key));
  }

  lemma UnescapeThree(first: string, second: string, third: string)
    ensures UnescapeAll([first, second, third]) == [Unescape(first), Unescape(second), Unescape(third)]
  {
    hide Unescape;
  }

  // ---- Patches: section 4.1 of RFC 6902, on objects ----

  datatype Json = Text(text: string) | Members(members: map<string, Json>)

  datatype Patch = Add(path: string, value: Json)

  /** The parent of the target has to exist; an existing member is replaced. */
  function AddAt(doc: Json, tokens: seq<string>, value: Json): Option<Json> {
    if tokens == [] then Some(value)
    else if doc.Text? then None
    else if |tokens| == 1 then Some(Members(doc.members[tokens[0] := value]))
    else if tokens[0] !in doc.members then None
    else
      match AddAt(doc.members[tokens[0]], tokens[1..], value)
      case None => None
      case Some(child) => Some(Members(doc.members[tokens[0] := child]))
  }

  lemma AddMember(doc: Json, key: string, value: Json)
    requires doc.Members?
    ensures AddAt(doc, [key], value) == Some(Members(doc.members[key := value]))
  {}

  lemma AddBelow(doc: Json, key: string, rest: seq<string>, value: Json)
    requires doc.Members? && key in doc.members && rest != []
    requires AddAt(doc.members[key], rest, value).Some?
    ensures AddAt(doc, [key] + rest, value)
         == Some(Members(doc.members[key := AddAt(doc.members[key], rest, value).value]))
  {
    assert ([key] + rest)[1..] == rest;
  }

  function Apply(doc: Json, patch: Patch): Option<Json> {
    match Tokens(patch.path)
    case None => None
    case Some(tokens) => AddAt(doc, tokens, patch.value)
  }

  /** The patches in order; the first that fails fails the whole. */
  function ApplyAll(doc: Json, patches: seq<Patch>): Option<Json>
    decreases patches
  {
    if patches == [] then Some(doc)
    else
      match Apply(doc, patches[0])
      case None => None
      case Some(next) => ApplyAll(next, patches[1..])
  }

  lemma ApplyOne(doc: Json, patch: Patch)
    ensures ApplyAll(doc, [patch]) == Apply(doc, patch)
  {
    hide Apply;
    if Apply(doc, patch).Some? {
      assert [patch][1..] == [];
    }
  }

  lemma ApplyTwo(doc: Json, first: Patch, second: Patch)
    ensures ApplyAll(doc, [first, second])
         == match Apply(doc, first) case None => None case Some(next) => Apply(next, second)
  {
    hide Apply;
    if Apply(doc, first).Some? {
      assert [first, second][1..] == [second];
      ApplyOne(Apply(doc, first).value, second);
    }
  }
}
