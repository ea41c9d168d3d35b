/** The multi-pass name normaliser of functions/common/base/util.go. */
module NameCanonicaliser {

  predicate IsLetter(c: char) { 'a' <= c <= 'z' }

  predicate IsAlnum(c: char) { IsLetter(c) || '0' <= c <= '9' }

  predicate IsDash(c: char) { c == '-' }

  predicate IsSpace(c: char) { c == ' ' }

  predicate NotLetter(c: char) { !IsLetter(c) }

  predicate NotAlnum(c: char) { !IsAlnum(c) }

  predicate NotAlnumOrDash(c: char) { !IsAlnum(c) && !IsDash(c) }

  function LowerChar(c: char): char {
    if 'A' <= c <= 'Z' then 'a' + (c - 'A') else c
  }

  function ToLower(s: string): string {
    seq(|s|, i requires 0 <= i < |s| => LowerChar(s[i]))
  }

  // The regular-expression passes: a class anchored at the start, anchored at the end, and
  // ReplaceAllString of a class followed by +.

  function DropLeading(s: string, inClass: char -> bool): (r: string)
    ensures |r| <= |s|
    ensures r != "" ==> !inClass(r[0])
  {
    if s != "" && inClass(s[0]) then DropLeading(s[1..], inClass) else s
  }

  function DropTrailing(s: string, inClass: char -> bool): (r: string)
    ensures r <= s
    ensures r != "" ==> !inClass(r[|r| - 1])
  {
    if s != "" && inClass(s[|s| - 1]) then DropTrailing(s[..|s| - 1], inClass) else s
  }

  function ReplaceRuns(s: string, inClass: char -> bool, mark: string): string
    decreases |s|
  {
    if s == "" then ""
    else if inClass(s[0]) then mark + ReplaceRuns(DropLeading(s[1..], inClass), inClass, mark)
    else [s[0]] + ReplaceRuns(s[1..], inClass, mark)
  }

  function Take(s: string, limit: nat): string {
    if |s| > limit then s[..limit] else s
  }

  /** One left-to-right scan: skip to the first letter, then copy letters and digits, writing a single
      hyphen for whatever separates two of them. */
  function Scan(s: string, started: bool, pending: bool): string {
    if s == "" then ""
    else if !started then
      if IsLetter(s[0]) then [s[0]] + Scan(s[1..], true, false) else Scan(s[1..], false, false)
    else if IsAlnum(s[0]) then
      (if pending then "-" else "") + [s[0]] + Scan(s[1..], true, false)
    else Scan(s[1..], true, true)
  }

  /** What the passes compute, said without them. */
  function Canonical(s: string, limit: nat): string {
    DropTrailing(Take(Scan(s, false, false), limit), NotAlnum)
  }

  /** The label grammar of section 2.3.1 of RFC 1035 in lower case, without a double hyphen; or empty. */
  predicate IsLabel(s: string) {
    s == "" ||
    (&& IsLetter(s[0])
     && IsAlnum(s[|s| - 1])
     && (forall i :: 0 <= i < |s| ==> IsAlnum(s[i]) || IsDash(s[i]))
     && (forall i :: 0 <= i < |s| - 1 ==> !(IsDash(s[i]) && IsDash(s[i + 1]))))
  }

  /** The name of `original` under a transliteration to ASCII. */
  function EligibleName(transliterate: string -> string, original: string, limit: nat): string {
    Canonical(ToLower(transliterate(original)), limit)
  }

  // ---- The passes refine the scan ----

  lemma {:induction false} DropLeadingOfSubclass(s: string)
    ensures DropLeading(DropLeading(s, NotAlnumOrDash), NotAlnum) == DropLeading(s, NotAlnum)
  {
    if s != "" && NotAlnumOrDash(s[0]) {
      DropLeadingOfSubclass(s[1..]);
    }
  }

  // Hyphens that lead the first pass's output stand for the separators that lead its input.
  lemma {:induction false} LeadingDashes(s: string)
    ensures DropLeading(ReplaceRuns(s, NotAlnumOrDash, "-"), IsDash)
         == ReplaceRuns(DropLeading(s, NotAlnum), NotAlnumOrDash, "-")
    decreases |s|
  {
    if s == "" {
    } else if IsDash(s[0]) {
      LeadingDashes(s[1..]);
      assert ReplaceRuns(s, NotAlnumOrDash, "-")[1..] == ReplaceRuns(s[1..], NotAlnumOrDash, "-");
    } else if NotAlnumOrDash(s[0]) {
      var r := DropLeading(s[1..], NotAlnumOrDash);
      LeadingDashes(r);
      DropLeadingOfSubclass(s[1..]);
      assert ReplaceRuns(s, NotAlnumOrDash, "-")[1..] == ReplaceRuns(r, NotAlnumOrDash, "-");
    }
  }

  lemma {:induction false} TwoPassesCollapse(s: string)
    ensures ReplaceRuns(ReplaceRuns(s, NotAlnumOrDash, "-"), IsDash, "-") == ReplaceRuns(s, NotAlnum, "-")
    decreases |s|
  {
    if s == "" {
    } else if IsAlnum(s[0]) {
      TwoPassesCollapse(s[1..]);
      assert ReplaceRuns(s, NotAlnumOrDash, "-")[1..] == ReplaceRuns(s[1..], NotAlnumOrDash, "-");
    } else {
      var p := ReplaceRuns(s, NotAlnumOrDash, "-");
      var rest := DropLeading(s[1..], NotAlnum);
      LeadingDashes(s);
      TwoPassesCollapse(rest);
      assert DropLeading(s, NotAlnum) == rest;
      assert p[0] == '-' && DropLeading(p, IsDash) == DropLeading(p[1..], IsDash);
    }
  }

  lemma {:induction false} DropTrailingCons(c: char, s: string)
    ensures DropTrailing([c] + s, NotAlnum)
         == if DropTrailing(s, NotAlnum) == "" && NotAlnum(c) then "" else [c] + DropTrailing(s, NotAlnum)
  {
    var t := [c] + s;
    if s != "" && NotAlnum(s[|s| - 1]) {
      assert t[..|t| - 1] == [c] + s[..|s| - 1];
      DropTrailingCons(c, s[..|s| - 1]);
    } else if s == "" {
      assert t[..|t| - 1] == "";
    }
  }

  lemma {:induction false} ScanOfPending(s: string)
    ensures Scan(s, true, true)
         == var rest := Scan(DropLeading(s, NotAlnum), true, false); if rest == "" then "" else "-" + rest
  {
    if s != "" && NotAlnum(s[0]) {
      ScanOfPending(s[1..]);
    }
  }

  lemma {:induction false} CollapsedScan(s: string)
    ensures DropTrailing(ReplaceRuns(s, NotAlnum, "-"), NotAlnum) == Scan(s, true, false)
    decreases |s|
  {
    if s == "" {
    } else if IsAlnum(s[0]) {
      CollapsedScan(s[1..]);
      DropTrailingCons(s[0], ReplaceRuns(s[1..], NotAlnum, "-"));
    } else {
      var rest := DropLeading(s[1..], NotAlnum);
      CollapsedScan(rest);
      DropTrailingCons('-', ReplaceRuns(rest, NotAlnum, "-"));
      ScanOfPending(s[1..]);
    }
  }

  lemma {:induction false} ScanSkipsSeparators(s: string)
    ensures Scan(DropLeading(s, NotAlnum), false, false) == Scan(s, false, false)
  {
    if s != "" && NotAlnum(s[0]) {
      ScanSkipsSeparators(s[1..]);
    }
  }

  lemma {:induction false} StrippedScan(s: string)
    ensures DropTrailing(DropLeading(ReplaceRuns(s, NotAlnum, "-"), NotLetter), NotAlnum)
         == Scan(s, false, false)
    decreases |s|
  {
    if s == "" {
    } else if IsLetter(s[0]) {
      CollapsedScan(s[1..]);
      DropTrailingCons(s[0], ReplaceRuns(s[1..], NotAlnum, "-"));
    } else if IsAlnum(s[0]) {
      StrippedScan(s[1..]);
      assert ReplaceRuns(s, NotAlnum, "-")[1..] == ReplaceRuns(s[1..], NotAlnum, "-");
    } else {
      var rest := DropLeading(s[1..], NotAlnum);
      StrippedScan(rest);
      ScanSkipsSeparators(s[1..]);
      assert ReplaceRuns(s, NotAlnum, "-")[1..] == ReplaceRuns(rest, NotAlnum, "-");
    }
  }

  // ---- The scan writes labels ----

  lemma {:induction false} ScanShape(s: string, pending: bool)
    ensures var r := Scan(s, true, pending);
      && (forall i :: 0 <= i < |r| ==> IsAlnum(r[i]) || IsDash(r[i]))
      && (forall i :: 0 <= i < |r| - 1 ==> !(IsDash(r[i]) && IsDash(r[i + 1])))
      && (r != "" ==> IsAlnum(r[|r| - 1]) && (IsDash(r[0]) ==> pending || NotAlnum(s[0])))
  {
    if s == "" {
    } else if IsAlnum(s[0]) {
      ScanShape(s[1..], false);
    } else {
      ScanShape(s[1..], true);
    }
  }

  lemma {:induction false} ScanIsLabel(s: string)
    ensures IsLabel(Scan(s, false, false))
  {
    if s == "" {
    } else if IsLetter(s[0]) {
      ScanShape(s[1..], false);
    } else {
      ScanIsLabel(s[1..]);
    }
  }

  lemma {:induction false} CutLabel(s: string, limit: nat)
    requires IsLabel(s)
    ensures IsLabel(DropTrailing(Take(s, limit), NotAlnum))
    ensures |s| <= limit ==> DropTrailing(Take(s, limit), NotAlnum) == s
    ensures |s| > limit > 0 ==>
      DropTrailing(Take(s, limit), NotAlnum) == (if IsDash(s[limit - 1]) then s[..limit - 1] else s[..limit])
  {
    if |s| > limit > 0 && IsDash(s[limit - 1]) {
      var t := s[..limit];
      assert limit >= 2 && !IsDash(s[limit - 2]);
      assert t[..|t| - 1] == s[..limit - 1];
    }
  }

  lemma {:induction false} ScanOfLabelTail(s: string)
    requires forall i :: 0 <= i < |s| ==> IsAlnum(s[i]) || IsDash(s[i])
    requires forall i :: 0 <= i < |s| - 1 ==> !(IsDash(s[i]) && IsDash(s[i + 1]))
    requires s != "" ==> IsAlnum(s[|s| - 1])
    ensures Scan(s, true, false) == s
    ensures s != "" && IsAlnum(s[0]) ==> Scan(s, true, true) == "-" + s
  {
    if s == "" {
    } else if IsAlnum(s[0]) {
      ScanOfLabelTail(s[1..]);
    } else {
      ScanOfLabelTail(s[1..]);
      assert s == "-" + s[1..];
    }
  }

  lemma LabelIsScanned(s: string)
    requires IsLabel(s)
    ensures Scan(s, false, false) == s
  {
    if s != "" { ScanOfLabelTail(s[1..]); }
  }

  /** Every name it makes is a label within the limit. */
  lemma CanonicalIsLabel(s: string, limit: nat)
    ensures IsLabel(Canonical(s, limit))
    ensures |Canonical(s, limit)| <= limit
  {
    ScanIsLabel(s);
    CutLabel(Scan(s, false, false), limit);
  }

  /** Exactly the labels within the limit are left alone. */
  lemma CanonicalFixedPoints(s: string, limit: nat)
    ensures Canonical(s, limit) == s <==> IsLabel(s) && |s| <= limit
  {
    if IsLabel(s) && |s| <= limit {
      LabelIsScanned(s);
      CutLabel(s, limit);
    } else {
      CanonicalIsLabel(s, limit);
    }
  }

  lemma CutTwice(c: string, first: nat, second: nat)
    requires IsLabel(c)
    ensures DropTrailing(Take(DropTrailing(Take(c, first), NotAlnum), second), NotAlnum)
         == DropTrailing(Take(c, if first <= second then first else second), NotAlnum)
  {
    CutLabel(c, first);
    var once := DropTrailing(Take(c, first), NotAlnum);
    if first <= second {
      CutLabel(once, second);
    } else if |c| <= first || second == 0 {
    } else {
      assert once[..second] == c[..second];
    }
  }

  /** Cutting twice is cutting once at the smaller limit. */
  lemma CanonicalComposes(s: string, first: nat, second: nat)
    ensures Canonical(Canonical(s, first), second) == Canonical(s, if first <= second then first else second)
  {
    var c := Scan(s, false, false);
    ScanIsLabel(s);
    CutLabel(c, first);
    LabelIsScanned(Canonical(s, first));
    CutTwice(c, first, second);
  }

  lemma LabelIsLowerCase(s: string)
    requires IsLabel(s)
    ensures ToLower(s) == s
  {}

  /** Normalising a normalised name again, at any limit, is normalising once at the smaller limit. */
  lemma EligibleNameComposes(transliterate: string -> string, original: string, first: nat, second: nat)
    requires forall s | IsLabel(s) :: transliterate(s) == s
    ensures EligibleName(transliterate, EligibleName(transliterate, original, first), second)
         == EligibleName(transliterate, original, if first <= second then first else second)
  {
    var lowered := ToLower(transliterate(original));
    CanonicalIsLabel(lowered, first);
    LabelIsLowerCase(Canonical(lowered, first));
    CanonicalComposes(lowered, first, second);
  }

  /** The passes in the order of the source, each reassigning the same buffer. */
  method GenerateEligibleKubernetesName(transliterate: string -> string, original: string, limit: nat)
    returns (processed: string)
    ensures processed == EligibleName(transliterate, original, limit)
    ensures IsLabel(processed) && |processed| <= limit
  {
    processed := transliterate(original);
    processed := ToLower(processed);
    ghost var lowered := processed;
    processed := ReplaceRuns(processed, NotAlnumOrDash, "-");
    processed := ReplaceRuns(processed, IsDash, "-");
    processed := DropLeading(processed, NotLetter);
    processed := DropTrailing(processed, NotAlnum);
    TwoPassesCollapse(lowered);
    StrippedScan(lowered);
    ScanIsLabel(lowered);
    processed := DropTrailing(DropLeading(processed, IsSpace), IsSpace);
    if |processed| > limit {
      processed := processed[..limit];
    }
    processed := DropTrailing(processed, NotAlnum);
    CanonicalIsLabel(lowered, limit);
  }

  // ---- Names built from parts ----

  lemma {:induction false} ScanStartedAppend(s: string, pending: bool, tail: string)
    requires tail != "" && IsLetter(tail[0])
    ensures Scan(s + "-" + tail, true, pending) == Scan(s, true, pending) + "-" + Scan(tail, false, false)
  {
    if s == "" {
      var t := s + "-" + tail;
      assert t[1..] == tail;
    } else {
      assert (s + "-" + tail)[1..] == s[1..] + "-" + tail;
      ScanStartedAppend(s[1..], !IsAlnum(s[0]), tail);
    }
  }

  /** What is left of `s`, with a hyphen when anything is. */
  function Stem(s: string): string {
    var base := Scan(s, false, false);
    if base == "" then "" else base + "-"
  }

  lemma ScanOfFirst(s: string)
    requires s != ""
    ensures IsLetter(s[0]) ==> Scan(s, false, false) == [s[0]] + Scan(s[1..], true, false)
    ensures !IsLetter(s[0]) ==> Scan(s, false, false) == Scan(s[1..], false, false) && Stem(s) == Stem(s[1..])
  {}

  lemma StemOfLetter(s: string)
    requires s != "" && IsLetter(s[0])
    ensures Stem(s) == [s[0]] + Scan(s[1..], true, false) + "-"
  {}

  lemma ConsAppends(c: char, a: string, b: string)
    ensures [c] + (a + "-" + b) == [c] + a + "-" + b
  {}

  /** Appending a hyphen and a part that starts with a letter normalises the two parts separately. */
  lemma {:induction false} ScanAppend(s: string, tail: string)
    requires tail != "" && IsLetter(tail[0])
    ensures Scan(s + "-" + tail, false, false) == Stem(s) + Scan(tail, false, false)
  {
    var t := s + "-" + tail;
    ScanOfFirst(t);
    if s == "" {
      assert t[1..] == tail;
    } else {
      hide Scan;
      hide Stem;
      assert t[1..] == s[1..] + "-" + tail;
      if IsLetter(s[0]) {
        ScanStartedAppend(s[1..], false, tail);
        StemOfLetter(s);
        ConsAppends(s[0], Scan(s[1..], true, false), Scan(tail, false, false));
      } else {
        ScanOfFirst(s);
        ScanAppend(s[1..], tail);
      }
    }
  }

  const FULL_NAME_LIMIT := 253

  /** GenerateEligibleKubernetesFullName for ASCII input, which the transliteration leaves alone. */
  function FullName(original: string): string {
    Canonical(ToLower(original), FULL_NAME_LIMIT)
  }

  lemma ToLowerAppends(a: string, b: string)
    ensures ToLower(a + b) == ToLower(a) + ToLower(b)
  {}

  lemma {:induction false} ScanShrinks(s: string, started: bool, pending: bool)
    ensures |Scan(s, started, pending)| <= |s| + (if pending then 1 else 0)
  {
    if s != "" {
      ScanShrinks(s[1..], true, false);
      ScanShrinks(s[1..], true, true);
      ScanShrinks(s[1..], false, false);
    }
  }

  /** A name with a suffix that starts with a letter: both are normalised, and the whole is cut. */
  lemma FullNameOfAny(s: string, tail: string)
    requires tail != "" && IsLetter(tail[0]) && ToLower(tail) == tail
    ensures FullName(s + "-" + tail)
         == DropTrailing(Take(Stem(ToLower(s)) + Scan(tail, false, false), FULL_NAME_LIMIT), NotAlnum)
    ensures IsLabel(Stem(ToLower(s)) + Scan(tail, false, false))
  {
    var lowered := ToLower(s) + "-" + tail;
    assert ToLower("-") == "-";
    hide ToLower;
    hide IsLabel;
    ToLowerAppends(s + "-", tail);
    ToLowerAppends(s, "-");
    assert ToLower(s + "-" + tail) == lowered;
    ScanAppend(ToLower(s), tail);
    ScanIsLabel(lowered);
  }

  lemma StemShrinks(s: string)
    ensures |Stem(ToLower(s))| <= |s| + 1
  {
    ScanShrinks(ToLower(s), false, false);
  }

  /** The same when it is short enough not to be cut. */
  lemma FullNameOfParts(s: string, tail: string)
    requires tail != "" && IsLetter(tail[0]) && ToLower(tail) == tail
    requires |s| + 1 + |tail| <= FULL_NAME_LIMIT
    ensures FullName(s + "-" + tail) == Stem(ToLower(s)) + Scan(tail, false, false)
  {
    StemShrinks(s);
    ScanShrinks(tail, false, false);
    FullNameOfAny(s, tail);
    hide Scan;
    hide Stem;
    hide ToLower;
    hide FullName;
    CutLabel(Stem(ToLower(s)) + Scan(tail, false, false), FULL_NAME_LIMIT);
  }

  // Normalising lowers the name, so two names that lower alike have the same full name.
  lemma FullNameIgnoresCase(s: string, t: string)
    requires ToLower(s) == ToLower(t)
    ensures FullName(s) == FullName(t)
  {}

  lemma LowerAfterName(name: string, a: string, b: string)
    requires ToLower(a) == ToLower(b)
    ensures ToLower(name + "-" + a) == ToLower(name + "-" + b)
  {
    ToLowerAppends(name + "-", a);
    ToLowerAppends(name + "-", b);
  }

  lemma LowerIsLower(s: string)
    ensures ToLower(ToLower(s)) == ToLower(s)
  {}

  lemma ScanKeepsFirst(s: string)
    requires s != "" && IsLetter(s[0])
    ensures Scan(s, false, false) != "" && Scan(s, false, false)[0] == s[0]
  {}

  lemma CutKeepsStart(start: string, rest: string, limit: nat)
    requires IsLabel(start + rest) && rest != "" && IsAlnum(rest[0]) && |start| < limit
    ensures var cut := DropTrailing(Take(start + rest, limit), NotAlnum);
      |cut| > |start| && cut[..|start|] == start && cut[|start|] == rest[0]
  {
    var s := start + rest;
    CutLabel(s, limit);
    hide IsLabel;
    hide DropTrailing;
    assert s[..|start|] == start && s[|start|] == rest[0];
  }

  lemma LowerSuffix(name: string, suffix: string)
    requires suffix != "" && IsLetter(LowerChar(suffix[0]))
    ensures var whole := Stem(ToLower(name)) + Scan(ToLower(suffix), false, false);
      IsLabel(whole) && FullName(name + "-" + suffix) == DropTrailing(Take(whole, FULL_NAME_LIMIT), NotAlnum)
  {
    var low := ToLower(suffix);
    assert low != "" && low[0] == LowerChar(suffix[0]);
    LowerIsLower(suffix);
    LowerAfterName(name, suffix, low);
    hide ToLower;
    hide Scan;
    FullNameIgnoresCase(name + "-" + suffix, name + "-" + low);
    FullNameOfAny(name, low);
  }

  /** The normalised name and a hyphen are short enough for one more letter. */
  predicate HasRoom(name: string) { |Stem(ToLower(name))| < FULL_NAME_LIMIT }

  lemma ShortNameHasRoom(name: string)
    requires |name| + 1 < FULL_NAME_LIMIT
    ensures HasRoom(name)
  {
    StemShrinks(name);
  }

  /** A label has that room exactly when it is shorter than the limit by two. */
  lemma LabelHasRoomExactly(name: string)
    requires IsLabel(name) && name != ""
    ensures HasRoom(name) <==> |name| + 1 < FULL_NAME_LIMIT
  {
    LabelIsLowerCase(name);
    LabelIsScanned(name);
    hide ToLower;
    hide Scan;
    hide IsLabel;
  }

  lemma CommonStart(start: string, a: string, b: string, limit: nat)
    requires limit <= |start|
    ensures Take(start + a, limit) == Take(start + b, limit)
  {
    assert (start + a)[..limit] == start[..limit] == (start + b)[..limit];
    if |start + a| == limit { assert (start + a)[..limit] == start + a; }
    if |start + b| == limit { assert (start + b)[..limit] == start + b; }
  }

  /** Without that room, all suffixes are cut off, and the names are equal. */
  lemma NamesWithoutRoom(name: string, a: string, b: string)
    requires a != "" && IsLetter(LowerChar(a[0])) && b != "" && IsLetter(LowerChar(b[0])) && !HasRoom(name)
    ensures FullName(name + "-" + a) == FullName(name + "-" + b)
  {
    LowerSuffix(name, a);
    LowerSuffix(name, b);
    assert |Stem(ToLower(name))| >= FULL_NAME_LIMIT;
    hide *;
    CommonStart(Stem(ToLower(name)), Scan(ToLower(a), false, false), Scan(ToLower(b), false, false), FULL_NAME_LIMIT);
  }

  /** With it, the first letter of the suffix comes behind the stem. */
  lemma LetterAfterStem(name: string, suffix: string)
    requires suffix != "" && IsLetter(LowerChar(suffix[0])) && HasRoom(name)
    ensures var full, stem := FullName(name + "-" + suffix), Stem(ToLower(name));
      |full| > |stem| && full[..|stem|] == stem && full[|stem|] == LowerChar(suffix[0])
  {
    var low := ToLower(suffix);
    assert low != "" && low[0] == LowerChar(suffix[0]);
    assert |Stem(ToLower(name))| < FULL_NAME_LIMIT;
    ScanKeepsFirst(low);
    LowerSuffix(name, suffix);
    hide *;
    CutKeepsStart(Stem(ToLower(name)), Scan(low, false, false), FULL_NAME_LIMIT);
  }

  lemma ScanKeepsSecond(s: string)
    requires |s| > 1 && IsLetter(s[0]) && IsLetter(s[1])
    ensures |Scan(s, false, false)| > 1 && Scan(s, false, false)[0] == s[0] && Scan(s, false, false)[1] == s[1]
  {
    assert s[1..] != "" && s[1..][0] == s[1];
  }

  /** For a name without a stem, the second letter follows. */
  lemma SecondLetterAfterStem(name: string, suffix: string)
    requires |suffix| > 1 && IsLetter(LowerChar(suffix[0])) && IsLetter(LowerChar(suffix[1]))
    requires Stem(ToLower(name)) == ""
    ensures var full := FullName(name + "-" + suffix); |full| > 1 && full[1] == LowerChar(suffix[1])
  {
    var low := ToLower(suffix);
    var stem, scanned := Stem(ToLower(name)), Scan(low, false, false);
    assert |low| > 1 && low[0] == LowerChar(suffix[0]) && low[1] == LowerChar(suffix[1]);
    assert FULL_NAME_LIMIT > 1;
    ScanKeepsSecond(low);
    LowerSuffix(name, suffix);
    hide *;
    assert stem + scanned == (stem + scanned[..1]) + scanned[1..];
    CutKeepsStart(stem + scanned[..1], scanned[1..], FULL_NAME_LIMIT);
  }

  /** Dots written as hyphens. */
  function Dashed(s: string): string {
    seq(|s|, i requires 0 <= i < |s| => if s[i] == '.' then '-' else s[i])
  }

  lemma {:induction false} ScanIgnoresDashing(s: string, started: bool, pending: bool)
    ensures Scan(Dashed(s), started, pending) == Scan(s, started, pending)
  {
    if s != "" {
      assert Dashed(s)[1..] == Dashed(s[1..]);
      ScanIgnoresDashing(s[1..], true, false);
      ScanIgnoresDashing(s[1..], true, true);
      ScanIgnoresDashing(s[1..], false, false);
    }
  }

  lemma DashedIsInjective(a: string, b: string)
    requires '-' !in a && '-' !in b && Dashed(a) == Dashed(b)
    ensures a == b
  {
    forall i | 0 <= i < |a|
      ensures a[i] == b[i]
    {
      assert Dashed(a)[i] == Dashed(b)[i] && a[i] in a && b[i] in b;
    }
  }

  /** Normalising a dotted name turns its dots into hyphens and nothing else. */
  lemma ScanOfDotted(s: string)
    requires IsLabel(Dashed(s))
    ensures Scan(s, false, false) == Dashed(s)
  {
    ScanIgnoresDashing(s, false, false);
    LabelIsScanned(Dashed(s));
  }
}
