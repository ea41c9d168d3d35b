/** The resource names of an RDS database and the steps they form: functions/database/group.go and the name
    functions of functions/database/service/instance_common.go. */
module RdsNames {
  import opened NameCanonicaliser
  import opened ParameterGroups
  import opened Patterns
  import opened Sequencing

  /** The resources whose names end in the hash of the database. */
  datatype Part = Sg | SgIngress | SgEgress | Instance | Secret {
    function Text(): string {
      match this
      case Sg => "sg"
      case SgIngress => "sg-ingress"
      case SgEgress => "sg-egress"
      case Instance => "instance"
      case Secret => "es"
    }
  }

  function ProviderConfigText(): string { "providerconfig" }

  function Named(part: Part, name: string, hash: string): string {
    FullName(Joined(name, part.Text(), hash))
  }

  function ProviderConfigName(name: string): string { FullName(name + "-" + ProviderConfigText()) }

  /** The names that every round generates. */
  function FixedNames(name: string, hash: string): set<string> {
    {Named(Sg, name, hash), Named(SgIngress, name, hash), Named(SgEgress, name, hash), ProviderConfigName(name)}
  }

  function FirstStep(name: string, hash: string): seq<string> {
    [Named(Sg, name, hash), Named(SgIngress, name, hash), Named(SgEgress, name, hash), ProviderConfigName(name),
     KEY_PREFIX + ".*"]
  }

  function RdsSequence(name: string, hash: string): Sequence {
    Sequence(true, [FirstStep(name, hash), [Named(Instance, name, hash)], [Named(Secret, name, hash)]])
  }

  /** No name of the database is cut at the limit; the hash is made of letters and digits. */
  predicate IsShort(name: string, hash: string) {
    && hash != "" && (forall i :: 0 <= i < |hash| ==> IsAlnum(hash[i]))
    && |name| + |hash| + 15 <= FULL_NAME_LIMIT
  }

  /** The database is named like a parameter group. */
  predicate NamedLikeAGroup(name: string) {
    KEY_PREFIX <= Stem(ToLower(name))
  }

  // ---- Names are a stem and a suffix ----

  lemma NameOfSuffix(name: string, suffix: string)
    requires suffix != "" && IsLabel(suffix) && |name| + 1 + |suffix| <= FULL_NAME_LIMIT
    ensures FullName(name + "-" + suffix) == Stem(ToLower(name)) + suffix
  {
    LabelIsScanned(suffix);
    LabelIsLowerCase(suffix);
    FullNameOfParts(name, suffix);
  }

  lemma PartIsLabel(part: Part)
    ensures IsLabel(part.Text()) && 2 <= |part.Text()| <= 10
    ensures part.Text()[0] == (if part == Instance then 'i' else if part == Secret then 'e' else 's')
  {}

  lemma ProviderConfigIsLabel()
    ensures IsLabel(ProviderConfigText()) && |ProviderConfigText()| == 14 && ProviderConfigText()[0] == 'p'
    ensures ProviderConfigText()[1] == 'r'
  {}

  lemma NamedForm(part: Part, name: string, hash: string)
    requires IsShort(name, hash)
    ensures Named(part, name, hash) == Stem(ToLower(name)) + (part.Text() + "-" + hash)
  {
    PartIsLabel(part);
    LabelOfParts(part.Text(), hash);
    hide IsLabel;
    hide FullName;
    NameOfSuffix(name, part.Text() + "-" + hash);
    assert Joined(name, part.Text(), hash) == name + "-" + (part.Text() + "-" + hash);
  }

  lemma ProviderConfigForm(name: string, hash: string)
    requires IsShort(name, hash)
    ensures ProviderConfigName(name) == Stem(ToLower(name)) + ProviderConfigText()
  {
    ProviderConfigIsLabel();
    hide FullName;
    hide IsLabel;
    hide ProviderConfigText;
    NameOfSuffix(name, ProviderConfigText());
  }

  lemma SuffixesDiffer(stem: string, a: string, b: string)
    requires stem + a == stem + b
    ensures a == b
  {
    assert (stem + a)[|stem|..] == a;
    assert (stem + b)[|stem|..] == b;
  }

  lemma BasesDiffer(a: string, b: string, tail: string)
    requires a + "-" + tail == b + "-" + tail
    ensures a == b
  {
    assert (a + "-" + tail)[..|a|] == a;
    assert (b + "-" + tail)[..|b|] == b;
  }

  lemma TextsDiffer(a: Part, b: Part)
    requires a.Text() == b.Text()
    ensures a == b
  {
    assert |a.Text()| == |b.Text()| && a.Text()[0] == b.Text()[0];
  }

  /** The names of one database are pairwise distinct when none is cut. */
  lemma NamedIsInjective(a: Part, b: Part, name: string, hash: string)
    requires IsShort(name, hash)
    ensures Named(a, name, hash) == Named(b, name, hash) ==> a == b
    ensures Named(a, name, hash) != ProviderConfigName(name)
  {
    NamedForm(a, name, hash);
    NamedForm(b, name, hash);
    ProviderConfigForm(name, hash);
    PartIsLabel(a);
    ProviderConfigIsLabel();
    hide *;
    var stem := Stem(ToLower(name));
    if Named(a, name, hash) == Named(b, name, hash) {
      SuffixesDiffer(stem, a.Text() + "-" + hash, b.Text() + "-" + hash);
      BasesDiffer(a.Text(), b.Text(), hash);
      TextsDiffer(a, b);
    }
    assert (a.Text() + "-" + hash)[0] != ProviderConfigText()[0];
    if Named(a, name, hash) == ProviderConfigName(name) {
      SuffixesDiffer(stem, a.Text() + "-" + hash, ProviderConfigText());
    }
  }

  lemma KeyPrefixText()
    ensures |KEY_PREFIX| == 16 && KEY_PREFIX[0] == 'p' && KEY_PREFIX[1] == 'a' && KEY_PREFIX[10] == 'g'
    ensures forall i :: 0 <= i < 16 && KEY_PREFIX[i] == '-' ==> i == 9 || i == 15
  {}

  lemma PrefixOfStem(prefix: string, stem: string, suffix: string)
    requires |prefix| <= |stem|
    ensures prefix <= stem + suffix <==> prefix <= stem
  {
    assert (stem + suffix)[..|prefix|] == stem[..|prefix|];
  }

  // No suffix continues "parameter-" or starts "parameter-group-".
  lemma GroupPrefixIsInStem(prefix: string, stem: string, suffix: string)
    requires |prefix| == 16 && prefix[0] == 'p' && prefix[1] == 'a' && prefix[10] == 'g'
    requires forall i :: 0 <= i < 16 && prefix[i] == '-' ==> i == 9 || i == 15
    requires stem != "" ==> stem[|stem| - 1] == '-'
    requires suffix != "" && suffix[0] != 'g'
    requires suffix[0] == 'p' ==> |suffix| > 1 && suffix[1] != 'a'
    ensures prefix <= stem + suffix <==> prefix <= stem
  {
    var whole := stem + suffix;
    if |prefix| <= |stem| {
      PrefixOfStem(prefix, stem, suffix);
    } else {
      var n := |stem|;
      var k := if n == 10 then 10 else if n > 0 then n - 1 else if suffix[0] == 'p' then 1 else 0;
      assert k < |whole| ==> prefix[k] != whole[k];
    }
  }

  /** A name has the prefix of group keys exactly when the database is named like a group. */
  lemma GroupKeyCollisions(part: Part, name: string, hash: string)
    requires IsShort(name, hash)
    ensures KEY_PREFIX <= Named(part, name, hash) <==> NamedLikeAGroup(name)
  {
    NamedForm(part, name, hash);
    PartIsLabel(part);
    KeyPrefixText();
    var stem := Stem(ToLower(name));
    assert stem != "" ==> stem[|stem| - 1] == '-';
    assert NamedLikeAGroup(name) <==> KEY_PREFIX <= stem;
    hide *;
    assert (part.Text() + "-" + hash)[0] == part.Text()[0];
    GroupPrefixIsInStem(KEY_PREFIX, stem, part.Text() + "-" + hash);
  }

  // ---- The steps ----

  lemma NamedIsLabel(part: Part, name: string, hash: string)
    ensures IsLabel(Named(part, name, hash)) && OneLine(Named(part, name, hash))
  {
    CanonicalIsLabel(ToLower(Joined(name, part.Text(), hash)), FULL_NAME_LIMIT);
    LabelIsOneLine(Canonical(ToLower(Joined(name, part.Text(), hash)), FULL_NAME_LIMIT));
    hide IsLabel;
    hide OneLine;
  }

  lemma ProviderConfigNameIsLabel(name: string)
    ensures IsLabel(ProviderConfigName(name))
  {
    CanonicalIsLabel(ToLower(name + "-" + ProviderConfigText()), FULL_NAME_LIMIT);
    hide IsLabel;
  }

  lemma InStepOfOne(sequence: Sequence, i: int, pattern: string, s: string)
    requires sequence.regex && 0 <= i < |sequence.steps| && sequence.steps[i] == [pattern]
    ensures InStep(sequence, i, s) <==> Matches(pattern, s)
  {
    hide Matches;
    assert sequence.steps[i][0] == pattern;
  }

  lemma InStepOfFive(sequence: Sequence, i: int, a: string, b: string, c: string, d: string, e: string, s: string)
    requires sequence.regex && 0 <= i < |sequence.steps| && sequence.steps[i] == [a, b, c, d, e]
    ensures InStep(sequence, i, s)
       <==> Matches(a, s) || Matches(b, s) || Matches(c, s) || Matches(d, s) || Matches(e, s)
  {
    hide Matches;
    var step := sequence.steps[i];
    assert step[0] == a && step[1] == b && step[2] == c && step[3] == d && step[4] == e;
  }

  lemma NamedMatchesItself(part: Part, name: string, hash: string, s: string)
    ensures Matches(Named(part, name, hash), s) <==> s == Named(part, name, hash)
  {
    NamedIsLabel(part, name, hash);
    hide *;
    NormalisedNameMatchesItself(Named(part, name, hash), s);
  }

  lemma ProviderConfigMatchesItself(name: string, s: string)
    ensures Matches(ProviderConfigName(name), s) <==> s == ProviderConfigName(name)
  {
    ProviderConfigNameIsLabel(name);
    hide *;
    NormalisedNameMatchesItself(ProviderConfigName(name), s);
  }

  predicate IsGroupKey(s: string) {
    KEY_PREFIX <= s && OneLine(s[|KEY_PREFIX|..])
  }

  lemma KeyPrefixIsPlain()
    ensures IsPlain(KEY_PREFIX)
  {}

  lemma GroupPatternMatches(s: string)
    ensures Matches(KEY_PREFIX + ".*", s) <==> IsGroupKey(s)
  {
    KeyPrefixIsPlain();
    hide Matches;
    hide IsPlain;
    PrefixMatches(KEY_PREFIX, s);
  }

  /** Which strings each step takes. */
  lemma StepsOfRds(name: string, hash: string, s: string)
    ensures var sequence := RdsSequence(name, hash);
      && |sequence.steps| == 3
      && (InStep(sequence, 0, s) <==> s in FixedNames(name, hash) || IsGroupKey(s))
      && (InStep(sequence, 1, s) <==> s == Named(Instance, name, hash))
      && (InStep(sequence, 2, s) <==> s == Named(Secret, name, hash))
  {
    hide InStep;
    hide IsGroupKey;
    hide Matches;
    hide Named;
    hide ProviderConfigName;
    var sequence := RdsSequence(name, hash);
    NamedMatchesItself(Sg, name, hash, s);
    NamedMatchesItself(SgIngress, name, hash, s);
    NamedMatchesItself(SgEgress, name, hash, s);
    ProviderConfigMatchesItself(name, s);
    NamedMatchesItself(Instance, name, hash, s);
    NamedMatchesItself(Secret, name, hash, s);
    GroupPatternMatches(s);
    InStepOfFive(sequence, 0, Named(Sg, name, hash), Named(SgIngress, name, hash), Named(SgEgress, name, hash),
                 ProviderConfigName(name), KEY_PREFIX + ".*", s);
    InStepOfOne(sequence, 1, Named(Instance, name, hash), s);
    InStepOfOne(sequence, 2, Named(Secret, name, hash), s);
  }

  lemma NamedInNoOtherStep(part: Part, name: string, hash: string)
    requires IsShort(name, hash) && (part == Instance || part == Secret)
    ensures Named(part, name, hash) !in FixedNames(name, hash)
    ensures Named(Instance, name, hash) != Named(Secret, name, hash)
    ensures IsGroupKey(Named(part, name, hash)) <==> NamedLikeAGroup(name)
  {
    hide Named;
    hide ProviderConfigName;
    hide OneLine;
    hide IsLabel;
    hide NamedLikeAGroup;
    hide IsShort;
    NamedIsInjective(part, Sg, name, hash);
    NamedIsInjective(part, SgIngress, name, hash);
    NamedIsInjective(part, SgEgress, name, hash);
    NamedIsInjective(Instance, Secret, name, hash);
    GroupKeyCollisions(part, name, hash);
    NamedIsLabel(part, name, hash);
    OneLineTail(Named(part, name, hash));
  }

  lemma OneLineTail(s: string)
    requires OneLine(s)
    ensures KEY_PREFIX <= s ==> OneLine(s[|KEY_PREFIX|..])
  {}

  lemma InOneStep(name: string, hash: string, i: int, j: int, s: string)
    requires IsShort(name, hash) && !NamedLikeAGroup(name)
    requires 0 <= i < 3 && 0 <= j < 3
    requires InStep(RdsSequence(name, hash), i, s) && InStep(RdsSequence(name, hash), j, s)
    ensures i == j
  {
    hide *;
    NamedInNoOtherStep(Instance, name, hash);
    NamedInNoOtherStep(Secret, name, hash);
    StepsOfRds(name, hash, s);
    if i == 0 {
      assert j == 0;
    } else {
      assert s == Named(if i == 1 then Instance else Secret, name, hash);
    }
  }

  /** Over all strings, the steps are disjoint exactly when the database is not named like a group. */
  lemma RdsStepsDisjointExactly(name: string, hash: string)
    requires IsShort(name, hash)
    ensures StepsAreDisjoint(RdsSequence(name, hash)) <==> !NamedLikeAGroup(name)
  {
    var sequence := RdsSequence(name, hash);
    if NamedLikeAGroup(name) {
      var instance := Named(Instance, name, hash);
      NamedInNoOtherStep(Instance, name, hash);
      StepsOfRds(name, hash, instance);
      hide *;
      NotDisjoint(sequence, 0, 1, instance);
    } else {
      hide RdsSequence;
      hide InStep;
      hide NamedLikeAGroup;
      hide IsShort;
      StepsOfRds(name, hash, name);
      forall i: int, j: int, s: string | 0 <= i < 3 && 0 <= j < 3 && InStep(sequence, i, s) && InStep(sequence, j, s)
        ensures i == j
      {
        InOneStep(name, hash, i, j, s);
      }
    }
  }

  lemma NotDisjoint(sequence: Sequence, i: int, j: int, s: string)
    requires 0 <= i < j < |sequence.steps| && InStep(sequence, i, s) && InStep(sequence, j, s)
    ensures !StepsAreDisjoint(sequence)
  {}

  function LikeAGroup(): string { "parameter-group" }

  lemma LikeAGroupIsLabel()
    ensures IsLabel(LikeAGroup()) && |LikeAGroup()| == 15
  {}

  lemma KeyPrefixIsLikeAGroup()
    ensures KEY_PREFIX == LikeAGroup() + "-"
  {}

  /** A database may be named like a group: the word alone is such a name. */
  lemma SomeDatabaseIsNamedLikeAGroup()
    ensures NamedLikeAGroup(LikeAGroup())
  {
    var name := LikeAGroup();
    LikeAGroupIsLabel();
    KeyPrefixIsLikeAGroup();
    LabelIsLowerCase(name);
    LabelIsScanned(name);
    hide LikeAGroup;
    hide ToLower;
    hide Scan;
    hide IsLabel;
  }
}
