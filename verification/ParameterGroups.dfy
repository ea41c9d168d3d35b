/** The replacement of parameter groups, shared by the RDS and the Valkey generators: a group that the
    database still uses is kept until the database reports the new one. */
module ParameterGroups {
  import opened Wrappers
  import opened NameCanonicaliser
  import opened Sequencing

  const KEY_PREFIX := "parameter-group-"

  datatype Engine = Postgres | MariaDb | Valkey {
    function Title(): string {
      match this
      case Postgres => "postgres"
      case MariaDb => "mariadb"
      case Valkey => "valkey"
    }
  }

  /** The part of a database's spec that decides about parameter groups. `parameters` is absent when the user
      gives none; `userKey` names the database instance, the user of the groups. */
  datatype Request = Request(
    name: string, hash: string, engine: Engine, userKey: string,
    engineVersion: Option<string>, parameterGroupName: string, parameters: Option<map<string, string>>)

  /** The fields of an observed resource that the generators read; an absent string field reads as empty. */
  datatype Observation = Observation(
    ready: Ready, hasSpec: bool, requestedGroup: string, appliedGroup: string, versionActual: string,
    snapshot: string, connectable: bool)

  type Observations = map<string, Observation>

  function Readiness(observed: Observations): Observed {
    map name | name in observed :: observed[name].ready
  }

  // ---- Families and names ----

  function SplitAtDot(s: string): (parts: seq<string>)
    ensures parts != []
    ensures forall i :: 0 <= i < |parts| ==> '.' !in parts[i]
  {
    if s == "" then [""]
    else if s[0] == '.' then [""] + SplitAtDot(s[1..])
    else var rest := SplitAtDot(s[1..]); [[s[0]] + rest[0]] + rest[1..]
  }

  function VersionActual(request: Request, observed: Observations): Option<string> {
    if request.userKey in observed && observed[request.userKey].versionActual != ""
    then Some(observed[request.userKey].versionActual) else None
  }

  /** The engine family: the requested version decides, or else the version the database reports. */
  function ComputeFamily(engine: Engine, engineVersion: Option<string>, engineVersionActual: Option<string>)
    : Option<string>
  {
    var version := if engineVersion.Some? then engineVersion else engineVersionActual;
    if version.None? then None
    else
      var parts := SplitAtDot(version.value);
      if engine == MariaDb then
        if |parts| < 2 then None else Some(engine.Title() + parts[0] + "." + parts[1])
      else Some(engine.Title() + parts[0])
  }

  lemma {:induction false} SplitFirst(first: string, rest: string)
    requires '.' !in first
    ensures SplitAtDot(first) == [first]
    ensures SplitAtDot(first + "." + rest) == [first] + SplitAtDot(rest)
  {
    var s := first + "." + rest;
    if first == "" {
      assert s[1..] == rest;
    } else {
      SplitFirst(first[1..], rest);
      assert s[1..] == first[1..] + "." + rest;
      assert [first[0]] + first[1..] == first;
    }
  }

  predicate IsNumber(s: string) {
    s != "" && forall i :: 0 <= i < |s| ==> '0' <= s[i] <= '9'
  }

  /** A version that is `major` or goes on with a dot. */
  predicate StartsWithNumber(version: string, major: string) {
    IsNumber(major) && (version == major || major + "." <= version)
  }

  lemma MajorPart(version: string, major: string)
    requires StartsWithNumber(version, major)
    ensures SplitAtDot(version)[0] == major
  {
    if version == major {
      SplitFirst(major, "");
    } else {
      var rest := version[|major| + 1..];
      assert version == major + "." + rest;
      SplitFirst(major, rest);
    }
  }

  /** For PostgreSQL and Valkey, versions with one major number have one family, whatever follows. */
  lemma FamilyIsMajor(engine: Engine, version: string, major: string, actual: Option<string>)
    requires engine != MariaDb && StartsWithNumber(version, major)
    ensures ComputeFamily(engine, Some(version), actual) == Some(engine.Title() + major)
    ensures ComputeFamily(engine, None, Some(version)) == Some(engine.Title() + major)
  {
    MajorPart(version, major);
    hide SplitAtDot;
  }

  /** For MariaDB the minor number belongs to the family, so a version without one has none. */
  lemma FamilyIsMinor(major: string, minor: string, rest: string, actual: Option<string>)
    requires IsNumber(major) && StartsWithNumber(rest, minor)
    ensures ComputeFamily(MariaDb, Some(major), actual) == None
    ensures ComputeFamily(MariaDb, Some(major + "." + rest), actual) == Some("mariadb" + major + "." + minor)
  {
    SplitFirst(major, rest);
    MajorPart(rest, minor);
  }

  function Family(request: Request, observed: Observations): Option<string> {
    ComputeFamily(request.engine, request.engineVersion, VersionActual(request, observed))
  }

  function Key(family: string): string { KEY_PREFIX + family }

  function GroupName(request: Request, family: string): string {
    FullName(request.name + "-parameterGroup-" + family + "-" + request.hash)
  }

  /** The family of a version made of dotted numbers. */
  predicate IsVersioned(request: Request, family: string) {
    && family != "" && IsLetter(family[0]) && '-' !in family && IsLabel(Dashed(family))
    && request.hash != "" && (forall i :: 0 <= i < |request.hash| ==> IsAlnum(request.hash[i]))
  }

  /** Such a family, with a group name short enough not to be cut. */
  predicate IsProper(request: Request, family: string) {
    IsVersioned(request, family) && |request.name| + |family| + |request.hash| + 17 <= FULL_NAME_LIMIT
  }

  lemma LabelOfParts(a: string, b: string)
    requires IsLabel(a) && a != ""
    requires b != "" && IsAlnum(b[0]) && IsAlnum(b[|b| - 1])
    requires forall i :: 0 <= i < |b| ==> IsAlnum(b[i]) || IsDash(b[i])
    requires forall i :: 0 <= i < |b| - 1 ==> !(IsDash(b[i]) && IsDash(b[i + 1]))
    ensures IsLabel(a + "-" + b)
  {
    var c := a + "-" + b;
    forall i | 0 <= i < |c| - 1
      ensures !(IsDash(c[i]) && IsDash(c[i + 1]))
    {
      if i == |a| - 1 { assert c[i] == a[|a| - 1]; }
      if i == |a| { assert c[i + 1] == b[0]; }
      if i > |a| { assert c[i] == b[i - |a| - 1] && c[i + 1] == b[i - |a|]; }
    }
  }

  const LABEL := "parametergroup"
  const SOURCE_LABEL := "parameterGroup"

  /** `a`, `b` and `c` joined by hyphens. */
  function Joined(a: string, b: string, c: string): string {
    a + "-" + b + "-" + c
  }

  function NameTail(request: Request, family: string): string {
    Joined(LABEL, family, request.hash)
  }

  function DashedTail(request: Request, family: string): string {
    Joined(LABEL, Dashed(family), request.hash)
  }

  lemma DashedAppends(a: string, b: string)
    ensures Dashed(a + b) == Dashed(a) + Dashed(b)
  {}

  lemma DashedOfPlain(s: string)
    requires forall i :: 0 <= i < |s| ==> IsAlnum(s[i]) || IsDash(s[i])
    ensures Dashed(s) == s
  {}

  lemma DashedOfJoined(a: string, b: string, c: string)
    ensures Dashed(Joined(a, b, c)) == Joined(Dashed(a), Dashed(b), Dashed(c))
  {
    assert Dashed("-") == "-";
    hide Dashed;
    DashedAppends(a + "-" + b + "-", c);
    DashedAppends(a + "-" + b, "-");
    DashedAppends(a + "-", b);
    DashedAppends(a, "-");
  }

  lemma ToLowerOfJoined(a: string, b: string, c: string)
    ensures ToLower(Joined(a, b, c)) == Joined(ToLower(a), ToLower(b), ToLower(c))
  {
    assert ToLower("-") == "-";
    hide ToLower;
    ToLowerAppends(a + "-" + b + "-", c);
    ToLowerAppends(a + "-" + b, "-");
    ToLowerAppends(a + "-", b);
    ToLowerAppends(a, "-");
  }

  lemma LabelOfJoined(a: string, b: string, c: string)
    requires IsLabel(a) && a != "" && IsLabel(b) && b != ""
    requires c != "" && (forall i :: 0 <= i < |c| ==> IsAlnum(c[i]))
    ensures IsLabel(Joined(a, b, c))
  {
    LabelOfParts(a, b);
    LabelOfParts(a + "-" + b, c);
  }

  lemma SourceLabelLowers()
    ensures ToLower(SOURCE_LABEL) == LABEL
  {}

  lemma LabelIsPlain()
    ensures IsLabel(LABEL) && LABEL != "" && Dashed(LABEL) == LABEL
    ensures ToLower(LABEL) == LABEL && ToLower(SOURCE_LABEL) == LABEL
  {
    SourceLabelLowers();
    hide ToLower;
    hide Dashed;
    DashedOfPlain(LABEL);
    ToLowerOfPlain(LABEL);
  }

  lemma DashingTheTail(request: Request, family: string)
    requires IsVersioned(request, family)
    ensures Dashed(NameTail(request, family)) == DashedTail(request, family)
    ensures IsLabel(DashedTail(request, family))
  {
    LabelIsPlain();
    DashedOfPlain(request.hash);
    DashedOfJoined(LABEL, family, request.hash);
    hide IsLabel;
    hide Joined;
    LabelOfJoined(LABEL, Dashed(family), request.hash);
  }

  lemma ToLowerOfPlain(s: string)
    requires forall i :: 0 <= i < |s| ==> IsAlnum(s[i]) || s[i] in {'-', '.'}
    ensures ToLower(s) == s
  {}

  lemma LowerFamily(family: string)
    requires IsLabel(Dashed(family)) && family != ""
    ensures ToLower(family) == family
  {
    forall i | 0 <= i < |family|
      ensures IsAlnum(family[i]) || family[i] in {'-', '.'}
    {
      assert IsAlnum(Dashed(family)[i]) || IsDash(Dashed(family)[i]);
    }
    ToLowerOfPlain(family);
  }

  lemma LoweringTheTail(request: Request, family: string)
    requires IsVersioned(request, family)
    ensures ToLower(NameTail(request, family)) == NameTail(request, family)
    ensures ToLower(Joined(SOURCE_LABEL, family, request.hash)) == NameTail(request, family)
  {
    LabelIsPlain();
    LowerFamily(family);
    ToLowerOfPlain(request.hash);
    ToLowerOfJoined(LABEL, family, request.hash);
    ToLowerOfJoined(SOURCE_LABEL, family, request.hash);
    hide *;
  }

  lemma GroupNameText(request: Request, family: string)
    ensures GroupName(request, family)
         == FullName(request.name + "-" + Joined(SOURCE_LABEL, family, request.hash))
  {
    hide FullName;
    assert request.name + "-parameterGroup-" + family + "-" + request.hash
        == request.name + "-" + Joined(SOURCE_LABEL, family, request.hash);
  }

  lemma PlainLabel(s: string)
    requires s != "" && IsLetter(s[0]) && (forall i :: 0 <= i < |s| ==> IsAlnum(s[i]))
    ensures IsLabel(s) && Dashed(s) == s && '-' !in s
  {}

  lemma TitleIsPlain(engine: Engine)
    ensures engine.Title() != "" && IsLetter(engine.Title()[0])
    ensures forall i :: 0 <= i < |engine.Title()| ==> IsAlnum(engine.Title()[i])
  {}

  /** The families of numeric versions are such families. */
  lemma NumericFamilyIsVersioned(request: Request, major: string, minor: string)
    requires IsNumber(major) && IsNumber(minor)
    requires request.hash != "" && (forall i :: 0 <= i < |request.hash| ==> IsAlnum(request.hash[i]))
    ensures IsVersioned(request, request.engine.Title() + major)
    ensures IsVersioned(request, request.engine.Title() + major + "." + minor)
  {
    var start := request.engine.Title() + major;
    TitleIsPlain(request.engine);
    PlainLabel(start);
    LabelOfParts(start, minor);
    hide IsLabel;
    DashedAppends(start + ".", minor);
    DashedAppends(start, ".");
    assert Dashed(".") == "-";
    assert Dashed(minor) == minor;
  }

  lemma TailStarts(request: Request, family: string)
    ensures var tail := NameTail(request, family);
      tail != "" && IsLetter(tail[0]) && |tail| == 16 + |family| + |request.hash|
  {}

  /** The normalised form of a group's name, before it is cut. */
  function WholeName(request: Request, family: string): string {
    Stem(ToLower(request.name)) + DashedTail(request, family)
  }

  lemma GroupNameOfVersioned(request: Request, family: string)
    requires IsVersioned(request, family)
    ensures GroupName(request, family) == DropTrailing(Take(WholeName(request, family), FULL_NAME_LIMIT), NotAlnum)
    ensures IsLabel(WholeName(request, family))
  {
    var tail := NameTail(request, family);
    GroupNameText(request, family);
    DashingTheTail(request, family);
    ScanOfDotted(tail);
    LoweringTheTail(request, family);
    TailStarts(request, family);
    assert WholeName(request, family) == Stem(ToLower(request.name)) + DashedTail(request, family);
    hide *;
    LowerAfterName(request.name, Joined(SOURCE_LABEL, family, request.hash), tail);
    FullNameIgnoresCase(request.name + "-" + Joined(SOURCE_LABEL, family, request.hash), request.name + "-" + tail);
    FullNameOfAny(request.name, tail);
  }

  lemma WholeNameLength(request: Request, family: string)
    requires IsProper(request, family)
    ensures |WholeName(request, family)| <= FULL_NAME_LIMIT
  {
    StemShrinks(request.name);
    TailStarts(request, family);
    hide Stem;
    hide ToLower;
  }

  lemma GroupNameOfProper(request: Request, family: string)
    requires IsProper(request, family)
    ensures GroupName(request, family) == WholeName(request, family)
  {
    GroupNameOfVersioned(request, family);
    WholeNameLength(request, family);
    hide GroupName;
    hide WholeName;
    CutLabel(WholeName(request, family), FULL_NAME_LIMIT);
  }

  lemma NamesAreNotEmpty(request: Request, family: string)
    requires IsProper(request, family)
    ensures GroupName(request, family) != ""
  {
    GroupNameOfProper(request, family);
    TailStarts(request, family);
    hide GroupName;
    assert WholeName(request, family) != "";
  }

  lemma MiddlesAreEqual(start: string, a: string, b: string, end: string)
    requires start + a + end == start + b + end
    ensures a == b
  {
    var s := start + a + end;
    assert |a| == |b|;
    assert a == s[|start|..|start| + |a|];
    assert b == (start + b + end)[|start|..|start| + |b|];
  }

  lemma JoinedIsInjective(stem: string, a: string, f: string, g: string, c: string)
    requires stem + Joined(a, f, c) == stem + Joined(a, g, c)
    ensures f == g
  {
    assert stem + Joined(a, f, c) == (stem + a + "-") + f + ("-" + c);
    assert stem + Joined(a, g, c) == (stem + a + "-") + g + ("-" + c);
    MiddlesAreEqual(stem + a + "-", f, g, "-" + c);
  }

  /** Different families have different group names. */
  lemma GroupNamesAreDistinct(request: Request, f: string, g: string)
    requires IsProper(request, f) && IsProper(request, g)
    requires GroupName(request, f) == GroupName(request, g)
    ensures f == g
  {
    GroupNameOfProper(request, f);
    GroupNameOfProper(request, g);
    assert '-' !in f && '-' !in g;
    hide IsProper;
    hide GroupName;
    hide Stem;
    hide Dashed;
    hide Joined;
    hide ToLower;
    JoinedIsInjective(Stem(ToLower(request.name)), LABEL, Dashed(f), Dashed(g), request.hash);
    DashedIsInjective(f, g);
  }

  lemma JoinedSplits(stem: string, a: string, b: string, c: string)
    ensures stem + Joined(a, b, c) == stem + a + "-" + (b + "-" + c)
  {
    assert Joined(a, b, c) == a + "-" + (b + "-" + c);
  }

  /** The part of a group's name before the family. */
  function Start(request: Request): string { Stem(ToLower(request.name)) + LABEL + "-" }

  /** The name of the database fills that part up to the limit. */
  predicate IsCut(request: Request) { |Start(request)| >= FULL_NAME_LIMIT }

  lemma WholeNameForm(request: Request, family: string)
    ensures WholeName(request, family) == Start(request) + (Dashed(family) + "-" + request.hash)
  {
    hide Stem;
    hide ToLower;
    hide Joined;
    hide Dashed;
    JoinedSplits(Stem(ToLower(request.name)), LABEL, Dashed(family), request.hash);
  }

  /** When it does, the groups of all families have one name. */
  lemma CutGroupNamesCollide(request: Request, f: string, g: string)
    requires IsVersioned(request, f) && IsVersioned(request, g) && IsCut(request)
    ensures GroupName(request, f) == GroupName(request, g)
  {
    assert |Start(request)| >= FULL_NAME_LIMIT;
    hide *;
    GroupNameOfVersioned(request, f);
    GroupNameOfVersioned(request, g);
    WholeNameForm(request, f);
    WholeNameForm(request, g);
    CommonStart(Start(request), Dashed(f) + "-" + request.hash, Dashed(g) + "-" + request.hash, FULL_NAME_LIMIT);
  }

  // ---- The generated groups ----

  predicate SwitchedTo(request: Request, observed: Observations, group: string) {
    request.userKey in observed && observed[request.userKey].appliedGroup != ""
    && observed[request.userKey].appliedGroup == group
  }

  /** The observed groups of other families, re-emitted until the database has switched. */
  function KeptKeys(request: Request, observed: Observations, family: string): set<string> {
    if SwitchedTo(request, observed, GroupName(request, family)) then {}
    else set key | key in observed && KEY_PREFIX <= key && key != Key(family) && observed[key].hasSpec
  }

  /** Giving both a group name and parameters is an error. */
  predicate Conflict(request: Request) {
    request.parameters.Some? && request.parameterGroupName != ""
  }

  function GroupKeys(request: Request, observed: Observations): set<string> {
    if request.parameters.None? then {}
    else match Family(request, observed)
      case None => {}
      case Some(family) => {Key(family)} + KeptKeys(request, observed, family)
  }

  /** The name of the group that the round generates; empty when it generates none. */
  function OwnGroupName(request: Request, observed: Observations): string {
    if request.parameters.None? then ""
    else match Family(request, observed)
      case None => ""
      case Some(family) => GroupName(request, family)
  }

  /** The group the generated database asks for: its own, the one the user names, or the engine's default. */
  function WantedGroup(request: Request, observed: Observations): string {
    var own := OwnGroupName(request, observed);
    if own != "" then own
    else if request.parameterGroupName != "" then request.parameterGroupName
    else match Family(request, observed)
      case None => ""
      case Some(family) => "default." + family
  }

  /** The database asks for a group that the same round generates, or else the round generates none: with a
      group named by the user it asks for that one. */
  lemma WantedGroupIsGenerated(request: Request, observed: Observations)
    requires !Conflict(request)
    requires Family(request, observed).Some? ==> IsProper(request, Family(request, observed).value)
    ensures request.parameters.Some? && Family(request, observed).Some? ==>
      var family := Family(request, observed).value;
      WantedGroup(request, observed) == GroupName(request, family) && Key(family) in GroupKeys(request, observed)
    ensures request.parameters.None? || Family(request, observed).None? ==> GroupKeys(request, observed) == {}
    ensures request.parameterGroupName != "" ==>
      WantedGroup(request, observed) == request.parameterGroupName && GroupKeys(request, observed) == {}
  {
    hide Family;
    if request.parameters.Some? && Family(request, observed).Some? {
      NamesAreNotEmpty(request, Family(request, observed).value);
    }
    hide GroupName;
  }

  method KeepStaleParameterGroups(request: Request, observed: Observations, currentFamily: string)
    returns (kept: set<string>)
    ensures kept == KeptKeys(request, observed, currentFamily)
  {
    kept := {};
    var currentKey := KEY_PREFIX + currentFamily;
    if SwitchedTo(request, observed, GroupName(request, currentFamily)) {
      return;
    }
    var todo := observed.Keys;
    while todo != {}
      invariant todo <= observed.Keys
      invariant kept == set key |
        key in observed && key !in todo && KEY_PREFIX <= key && key != currentKey && observed[key].hasSpec
      decreases todo
    {
      var name :| name in todo;
      todo := todo - {name};
      if name == currentKey || !(KEY_PREFIX <= name) {
        continue;
      }
      if observed[name].hasSpec {
        kept := kept + {name};
      }
    }
  }

  /** The group the database reports as applied is generated exactly when the parameters are set and the
      family is known; otherwise all groups are dropped at once. */
  lemma AppliedGroupKeptExactly(request: Request, observed: Observations, family: string)
    requires request.userKey in observed && observed[request.userKey].appliedGroup == GroupName(request, family)
    requires IsProper(request, family)
    requires Key(family) in observed && observed[Key(family)].hasSpec
    requires Family(request, observed).Some? ==> IsProper(request, Family(request, observed).value)
    ensures Key(family) in GroupKeys(request, observed)
       <==> request.parameters.Some? && Family(request, observed).Some?
  {
    if request.parameters.Some? && Family(request, observed).Some? {
      var current := Family(request, observed).value;
      if SwitchedTo(request, observed, GroupName(request, current)) {
        GroupNamesAreDistinct(request, family, current);
      }
    }
  }

  /** With names that are cut, the group in use passes for the current one, and is dropped while it is used. */
  lemma CutNameDropsGroupInUse(request: Request, observed: Observations, family: string)
    requires request.userKey in observed && observed[request.userKey].appliedGroup == GroupName(request, family)
    requires observed[request.userKey].appliedGroup != "" && IsCut(request) && IsVersioned(request, family)
    requires Family(request, observed).Some? && Family(request, observed).value != family
    requires IsVersioned(request, Family(request, observed).value)
    ensures Key(family) !in GroupKeys(request, observed)
  {
    CutGroupNamesCollide(request, family, Family(request, observed).value);
    hide GroupName;
    hide Family;
    hide IsVersioned;
    KeysDiffer(family, Family(request, observed).value);
  }

  lemma KeysDiffer(f: string, g: string)
    requires f != g
    ensures Key(f) != Key(g)
  {
    assert Key(f)[|KEY_PREFIX|..] == f && Key(g)[|KEY_PREFIX|..] == g;
  }

  /** Once the database reports the current group, no other group is generated. */
  lemma OthersDroppedOnceSwitched(request: Request, observed: Observations, family: string)
    requires request.parameters.Some? && Family(request, observed) == Some(family)
    ensures GroupKeys(request, observed) == {Key(family)}
       <==> SwitchedTo(request, observed, GroupName(request, family))
            || forall key :: key in observed && KEY_PREFIX <= key && observed[key].hasSpec ==> key == Key(family)
  {
    if GroupKeys(request, observed) == {Key(family)} && !SwitchedTo(request, observed, GroupName(request, family)) {
      forall key | key in observed && KEY_PREFIX <= key && observed[key].hasSpec
        ensures key == Key(family)
      {
        assert key != Key(family) ==> key in GroupKeys(request, observed);
      }
    }
  }

  // ---- Runs ----

  /** A database and the requests it may be given: everything but the version, the parameters and the group
      name is immutable. */
  predicate SameDatabase(a: Request, b: Request) {
    a.name == b.name && a.hash == b.hash && a.engine == b.engine && a.userKey == b.userKey
  }

  datatype State = State(request: Request, observed: Observations)

  /** A proper family whose group the database reports as applied. */
  predicate Applies(state: State, family: string) {
    && IsProper(state.request, family)
    && state.request.userKey in state.observed
    && state.observed[state.request.userKey].appliedGroup == GroupName(state.request, family)
  }

  /** The resources the round desires, when it generates `others` next to the groups. */
  function DesiredNames(sequence: Sequence, state: State, others: set<string>): set<string> {
    AdmittedNames(sequence, GroupKeys(state.request, state.observed) + others, Readiness(state.observed))
  }

  /** The condition under which a round keeps the group in use. */
  predicate KeepsGroups(state: State) {
    && state.request.parameters.Some?
    && Family(state.request, state.observed).Some?
    && IsProper(state.request, Family(state.request, state.observed).value)
  }

  /** A successful round as Crossplane applies it. Desired resources that exist take their new spec at once;
      missing ones are created, and undesired ones deleted, now or later. */
  ghost predicate RoundStep(sequence: Sequence, others: set<string>, before: State, after: State) {
    var desired := DesiredNames(sequence, before, others);
    && !Conflict(before.request)
    && after.request == before.request
    && (forall key :: key in before.observed && key !in after.observed ==> key !in desired)
    && (forall key :: key in after.observed && key !in before.observed ==>
         key in desired && after.observed[key].hasSpec && after.observed[key].appliedGroup == "")
    && (forall key :: key in after.observed && key in before.observed ==>
         && after.observed[key].appliedGroup == before.observed[key].appliedGroup
         && (before.observed[key].hasSpec ==> after.observed[key].hasSpec)
         && after.observed[key].requestedGroup ==
              if key == before.request.userKey && key in desired then WantedGroup(before.request, before.observed)
              else before.observed[key].requestedGroup)
  }

  /** Between rounds: statuses change, resources vanish (but not a group in use, which AWS refuses to delete),
      and AWS may apply the group that the instance spec currently asks for, provided that group exists. */
  ghost predicate ProviderStep(before: State, after: State) {
    && after.request == before.request
    && after.observed.Keys <= before.observed.Keys
    && (forall family :: Applies(before, family) && Key(family) in before.observed ==> Key(family) in after.observed)
    && (forall key :: key in after.observed ==>
         && (before.observed[key].hasSpec ==> after.observed[key].hasSpec)
         && after.observed[key].requestedGroup == before.observed[key].requestedGroup
         && (|| after.observed[key].appliedGroup == before.observed[key].appliedGroup
             || after.observed[key].appliedGroup == before.observed[key].requestedGroup))
    && (forall family :: Applies(after, family) && !Applies(before, family) ==> Key(family) in after.observed)
  }

  /** The user edits the version, the parameters or the group name. */
  ghost predicate EditStep(before: State, after: State) {
    SameDatabase(before.request, after.request) && after.observed == before.observed
  }

  /** No group of this database is in use: it does not exist yet, or it runs on another group. */
  ghost predicate NoneApplies(state: State) {
    forall family :: !Applies(state, family)
  }

  /** A step of a run in which parameters stay set and the family stays known while a group is in use. Before
      that, rounds may know no family or be given no parameters. A round that fails changes nothing. */
  ghost predicate Step(sequence: Sequence, before: State, after: State) {
    || after == before
    || ProviderStep(before, after)
    || EditStep(before, after)
    || ((KeepsGroups(before) || NoneApplies(before))
        && exists others: set<string> :: RoundStep(sequence, others, before, after))
  }

  ghost predicate Invariant(state: State) {
    && (forall family :: Applies(state, family) ==> Key(family) in state.observed)
    && (forall key :: key in state.observed && KEY_PREFIX <= key ==> state.observed[key].hasSpec)
  }

  lemma RoundKeepsInvariant(sequence: Sequence, others: set<string>, before: State, after: State)
    requires Invariant(before) && (KeepsGroups(before) || NoneApplies(before))
    requires RoundStep(sequence, others, before, after)
    ensures Invariant(after)
  {
    forall family | Applies(after, family)
      ensures Key(family) in after.observed
    {
      GroupNameOfProper(after.request, family);
      assert Applies(before, family);
      assert KEY_PREFIX <= Key(family);
      AppliedGroupIsDesired(sequence, others, before, family);
    }
  }

  /** In a state that satisfies the invariant, the group in use is among the resources the next round
      desires. */
  lemma AppliedGroupIsDesired(sequence: Sequence, others: set<string>, state: State, family: string)
    requires Invariant(state) && KeepsGroups(state) && Applies(state, family)
    ensures Key(family) in DesiredNames(sequence, state, others)
  {
    assert KEY_PREFIX <= Key(family);
    AppliedGroupKeptExactly(state.request, state.observed, family);
    ObservedIsKept(sequence, GroupKeys(state.request, state.observed) + others, Readiness(state.observed));
  }

  lemma StepKeepsInvariant(sequence: Sequence, before: State, after: State)
    requires Invariant(before) && Step(sequence, before, after)
    ensures Invariant(after)
  {
    if after == before {
    } else if ProviderStep(before, after) {
    } else if EditStep(before, after) {
      forall family | Applies(after, family)
        ensures Key(family) in after.observed
      {
        assert Applies(before, family);
      }
    } else {
      var others: set<string> :| RoundStep(sequence, others, before, after);
      RoundKeepsInvariant(sequence, others, before, after);
    }
  }

  ghost predicate IsRun(sequence: Sequence, states: seq<State>) {
    && states != []
    && states[0].observed == map[]
    && forall r :: 0 <= r < |states| - 1 ==> Step(sequence, states[r], states[r + 1])
  }

  lemma {:induction false} RunKeepsInvariant(sequence: Sequence, states: seq<State>, r: nat)
    requires IsRun(sequence, states) && r < |states|
    ensures Invariant(states[r])
  {
    if r > 0 {
      RunKeepsInvariant(sequence, states, r - 1);
      assert Step(sequence, states[r - 1], states[r - 1 + 1]);
      StepKeepsInvariant(sequence, states[r - 1], states[r]);
    }
  }

  /** In every run in which parameters stay set and the family stays known while a group is in use, through any
      version changes and any switching delays: the group the database reports as applied exists, and every
      round desires it. */
  lemma AppliedGroupIsNeverDropped(sequence: Sequence, states: seq<State>, r: nat, others: set<string>, family: string)
    requires IsRun(sequence, states) && r < |states|
    requires Applies(states[r], family)
    ensures Key(family) in states[r].observed
    ensures KeepsGroups(states[r]) ==> Key(family) in DesiredNames(sequence, states[r], others)
  {
    RunKeepsInvariant(sequence, states, r);
    if KeepsGroups(states[r]) {
      AppliedGroupIsDesired(sequence, others, states[r], family);
    }
  }

  // ---- A database without a requested version ----

  const NO_STEPS := Sequence(true, [])

  lemma AllAdmitted(generated: set<string>, observed: Observed)
    ensures AdmittedNames(NO_STEPS, generated, observed) == generated
  {}

  function Database(version: string, requested: string, applied: string): Observation {
    Observation(ReadyTrue, true, requested, applied, version, "", false)
  }

  function Group(): Observation { Observation(ReadyTrue, true, "", "", "", "", false) }

  /** A request without a version, for which the database then reports `major`. */
  predicate AwaitsVersion(request: Request, major: string) {
    && request.engine != MariaDb && request.engineVersion.None? && request.parameters.Some?
    && request.parameterGroupName == "" && IsNumber(major)
    && IsProper(request, request.engine.Title() + major)
    && !(KEY_PREFIX <= request.userKey)
  }

  lemma FamilyOnceReported(request: Request, major: string, requested: string, applied: string)
    requires AwaitsVersion(request, major)
    ensures Family(request, map[request.userKey := Database(major, requested, applied)])
         == Some(request.engine.Title() + major)
  {
    FamilyIsMajor(request.engine, major, major, None);
    hide ComputeFamily;
  }

  lemma CreatesDatabase(request: Request, major: string)
    requires AwaitsVersion(request, major)
    ensures Step(NO_STEPS, State(request, map[]), State(request, map[request.userKey := Database("", "", "")]))
  {
    var start, next := State(request, map[]), State(request, map[request.userKey := Database("", "", "")]);
    assert GroupKeys(request, start.observed) == {};
    AllAdmitted({} + {request.userKey}, Readiness(start.observed));
    assert {} + {request.userKey} == {request.userKey};
    hide AdmittedNames;
    hide GroupKeys;
    hide IsProper;
    assert RoundStep(NO_STEPS, {request.userKey}, start, next);
  }

  lemma ReportsVersion(request: Request, major: string)
    requires AwaitsVersion(request, major)
    ensures Step(NO_STEPS, State(request, map[request.userKey := Database("", "", "")]),
                 State(request, map[request.userKey := Database(major, "", "")]))
  {
    var before, after := State(request, map[request.userKey := Database("", "", "")]),
                         State(request, map[request.userKey := Database(major, "", "")]);
    forall family | IsProper(request, family)
      ensures GroupName(request, family) != ""
    {
      NamesAreNotEmpty(request, family);
    }
    assert NoneApplies(before) && NoneApplies(after);
    hide Applies;
    assert ProviderStep(before, after);
  }

  lemma DesiresItsGroup(request: Request, major: string)
    requires AwaitsVersion(request, major)
    ensures var family := request.engine.Title() + major;
      var before := State(request, map[request.userKey := Database(major, "", "")]);
      && KeepsGroups(before) && WantedGroup(request, before.observed) == GroupName(request, family)
      && DesiredNames(NO_STEPS, before, {request.userKey}) == {Key(family), request.userKey}
  {
    var family := request.engine.Title() + major;
    var observed := map[request.userKey := Database(major, "", "")];
    FamilyOnceReported(request, major, "", "");
    NamesAreNotEmpty(request, family);
    PrefixOfKey(family);
    hide AdmittedNames;
    hide Family;
    hide Key;
    assert KeptKeys(request, observed, family) == {};
    assert GroupKeys(request, observed) == {Key(family)};
    AllAdmitted({Key(family)} + {request.userKey}, Readiness(observed));
    hide IsProper;
    hide GroupName;
    WantedGroupIsGenerated(request, observed);
  }

  lemma RoundAddsGroup(before: State, userKey: string, was: Observation, now: Observation, key: string, group: Observation)
    requires !Conflict(before.request) && userKey == before.request.userKey && key != userKey
    requires before.observed == map[userKey := was] && DesiredNames(NO_STEPS, before, {userKey}) == {key, userKey}
    requires now.appliedGroup == was.appliedGroup && now.hasSpec
    requires now.requestedGroup == WantedGroup(before.request, before.observed)
    requires group.hasSpec && group.appliedGroup == ""
    ensures RoundStep(NO_STEPS, {userKey}, before, State(before.request, map[userKey := now, key := group]))
  {
    hide DesiredNames;
    hide WantedGroup;
    hide NO_STEPS;
  }

  lemma CreatesGroup(request: Request, major: string)
    requires AwaitsVersion(request, major)
    ensures var family := request.engine.Title() + major;
      Step(NO_STEPS, State(request, map[request.userKey := Database(major, "", "")]),
           State(request, map[request.userKey := Database(major, GroupName(request, family), ""), Key(family) := Group()]))
  {
    var family := request.engine.Title() + major;
    var before := State(request, map[request.userKey := Database(major, "", "")]);
    var after := State(request, map[request.userKey := Database(major, GroupName(request, family), ""),
                                   Key(family) := Group()]);
    DesiresItsGroup(request, major);
    PrefixOfKey(family);
    assert !Conflict(request) && Key(family) != request.userKey;
    hide DesiredNames;
    hide RoundStep;
    hide KeepsGroups;
    hide NoneApplies;
    hide WantedGroup;
    hide IsProper;
    hide GroupName;
    hide Key;
    RoundAddsGroup(before, request.userKey, Database(major, "", ""), Database(major, GroupName(request, family), ""),
                   Key(family), Group());
  }

  lemma PrefixOfKey(family: string)
    ensures KEY_PREFIX <= Key(family)
  {}

  lemma AppliesGroup(request: Request, major: string)
    requires AwaitsVersion(request, major)
    ensures var family := request.engine.Title() + major;
      var before := State(request, map[request.userKey := Database(major, GroupName(request, family), ""),
                                     Key(family) := Group()]);
      var after := State(request, map[request.userKey := Database(major, GroupName(request, family), GroupName(request, family)),
                                      Key(family) := Group()]);
      Step(NO_STEPS, before, after) && Applies(after, family)
  {
    var family := request.engine.Title() + major;
    var name := GroupName(request, family);
    var before := State(request, map[request.userKey := Database(major, name, ""), Key(family) := Group()]);
    var after := State(request, map[request.userKey := Database(major, name, name), Key(family) := Group()]);
    PrefixOfKey(family);
    forall other | IsProper(request, other)
      ensures GroupName(request, other) != "" && (GroupName(request, other) == name ==> other == family)
    {
      NamesAreNotEmpty(request, other);
      if GroupName(request, other) == name {
        GroupNamesAreDistinct(request, other, family);
      }
    }
    hide IsProper;
    hide GroupName;
    hide Key;
    assert ProviderStep(before, after);
  }

  lemma RunOfFive(sequence: Sequence, a: State, b: State, c: State, d: State, e: State)
    requires a.observed == map[] && Step(sequence, a, b) && Step(sequence, b, c)
    requires Step(sequence, c, d) && Step(sequence, d, e)
    ensures IsRun(sequence, [a, b, c, d, e])
  {
    hide Step;
  }

  /** Such a database is created without a group, reports its version, gets the group of its family and uses it:
      the runs above reach a group in use without a requested version. */
  lemma UnversionedDatabaseUsesAGroup(request: Request, major: string) returns (states: seq<State>)
    requires AwaitsVersion(request, major)
    ensures IsRun(NO_STEPS, states) && states != []
    ensures Applies(states[|states| - 1], request.engine.Title() + major)
  {
    var family := request.engine.Title() + major;
    var name := GroupName(request, family);
    states := [State(request, map[]),
               State(request, map[request.userKey := Database("", "", "")]),
               State(request, map[request.userKey := Database(major, "", "")]),
               State(request, map[request.userKey := Database(major, name, ""), Key(family) := Group()]),
               State(request, map[request.userKey := Database(major, name, name), Key(family) := Group()])];
    hide *;
    CreatesDatabase(request, major);
    ReportsVersion(request, major);
    CreatesGroup(request, major);
    AppliesGroup(request, major);
    RunOfFive(NO_STEPS, states[0], states[1], states[2], states[3], states[4]);
    assert states == [states[0], states[1], states[2], states[3], states[4]];
  }
}
