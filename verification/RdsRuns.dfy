/** Whole runs of an RDS database: the generator of RdsInstances behind the sequencer. */
module RdsRuns {
  import opened Wrappers
  import opened ParameterGroups
  import opened RdsInstances
  import opened RdsNames
  import opened Sequencing
  import SequencingRuns

  datatype State = State(db: Database, observed: Observations)

  function Generated(state: State): Objects { GeneratedObjects(state.db, state.observed) }

  /** The resources the round desires. */
  function Desired(state: State): set<string> {
    AdmittedNames(state.db.Steps(), Generated(state).Keys, Readiness(state.observed))
  }

  /** A round reports a fatal error, and desires nothing new, when an admitted name has no object. */
  predicate RoundFails(state: State) {
    Conflict(state.db.request) || exists name :: name in Desired(state) && Generated(state)[name].None?
  }

  // ---- The round ----

  lemma InstanceInStep(db: Database, i: int)
    requires db.IsWellNamed() && 0 <= i < 3
    ensures |db.Steps().steps| == 3 && (InStep(db.Steps(), i, db.request.userKey) <==> i == 1)
  {
    var key := db.request.userKey;
    StepsOfRds(db.request.name, db.request.hash, key);
    NamesOfWellNamed(db);
    assert IsGroupKey(key) ==> KEY_PREFIX <= key;
    assert db.Steps() == RdsSequence(db.request.name, db.request.hash);
    assert db.SecretKey() == Named(Secret, db.request.name, db.request.hash);
    assert db.request.userKey == Named(Instance, db.request.name, db.request.hash);
    hide *;
  }

  lemma SecretInStep(db: Database, i: int)
    requires db.IsWellNamed() && 0 <= i < 3
    ensures |db.Steps().steps| == 3 && (InStep(db.Steps(), i, db.SecretKey()) <==> i == 2)
  {
    var key := db.SecretKey();
    StepsOfRds(db.request.name, db.request.hash, key);
    NamesOfWellNamed(db);
    assert IsGroupKey(key) ==> KEY_PREFIX <= key;
    assert db.Steps() == RdsSequence(db.request.name, db.request.hash);
    assert db.SecretKey() == Named(Secret, db.request.name, db.request.hash);
    assert db.request.userKey == Named(Instance, db.request.name, db.request.hash);
    hide *;
  }

  lemma OnlyInstanceInStepOne(db: Database, name: string)
    requires db.IsWellNamed()
    ensures |db.Steps().steps| == 3 && (InStep(db.Steps(), 1, name) <==> name == db.request.userKey)
    ensures InStep(db.Steps(), 2, name) <==> name == db.SecretKey()
  {
    StepsOfRds(db.request.name, db.request.hash, name);
    hide InStep;
    hide IsGroupKey;
    hide FixedNames;
    hide NamedLikeAGroup;
    hide IsShort;
    hide RdsSequence;
  }

  lemma InstanceStepReady(db: Database, generated: set<string>, observed: Observed)
    requires db.IsWellNamed() && db.request.userKey in generated
    ensures |db.Steps().steps| == 3
    ensures StepReady(db.Steps(), 1, generated, observed)
       <==> db.request.userKey in observed && observed[db.request.userKey] == ReadyTrue
  {
    forall name: string
      ensures |db.Steps().steps| == 3 && (InStep(db.Steps(), 1, name) <==> name == db.request.userKey)
    {
      OnlyInstanceInStepOne(db, name);
    }
    hide InStep;
    hide RdsSequence;
    hide IsShort;
    hide NamedLikeAGroup;
  }

  lemma AdmittedInOneStep(sequence: Sequence, k: int, generated: set<string>, observed: Observed, name: string)
    requires 0 < k < |sequence.steps| && name in generated
    requires forall i :: 0 <= i < |sequence.steps| ==> (InStep(sequence, i, name) <==> i == k)
    ensures Admitted(sequence, generated, observed, name)
       <==> name in observed || StepReady(sequence, k - 1, generated, observed)
  {
    assert InStep(sequence, k, name);
  }

  /** The secret is admitted once it exists or the instance is ready. */
  lemma SecretAdmittedExactly(state: State)
    requires state.db.IsWellNamed() && state.db.SecretKey() in Generated(state)
    requires state.db.request.userKey in Generated(state)
    ensures state.db.SecretKey() in Desired(state) <==>
      || state.db.SecretKey() in state.observed
      || (state.db.request.userKey in state.observed && state.observed[state.db.request.userKey].ready == ReadyTrue)
  {
    hide InStep;
    hide RdsSequence;
    hide IsShort;
    hide NamedLikeAGroup;
    hide GeneratedObjects;
    hide Admitted;
    var db, observed := state.db, Readiness(state.observed);
    forall i | 0 <= i < 3
      ensures |db.Steps().steps| == 3 && (InStep(db.Steps(), i, db.SecretKey()) <==> i == 2)
    {
      SecretInStep(db, i);
    }
    SecretInStep(db, 0);
    InstanceStepReady(db, Generated(state).Keys, observed);
    assert Desired(state) == AdmittedNames(db.Steps(), Generated(state).Keys, observed);
    assert observed.Keys == state.observed.Keys;
    assert db.SecretKey() in Desired(state)
      <==> Admitted(db.Steps(), Generated(state).Keys, observed, db.SecretKey());
    hide *;
    AdmittedInOneStep(db.Steps(), 2, Generated(state).Keys, observed, db.SecretKey());
  }

  /** Without conflicting parameters, a round fails exactly when the secret is due, because it exists or its
      instance is ready, but the instance reports no connection details. */
  lemma RoundFailsExactly(state: State)
    requires state.db.IsWellNamed() && !Conflict(state.db.request)
    ensures RoundFails(state) <==>
      && InstanceExists(state.db, state.observed) && !Recreates(state.db, state.observed)
      && !state.observed[state.db.request.userKey].connectable
      && (state.db.SecretKey() in state.observed || state.observed[state.db.request.userKey].ready == ReadyTrue)
  {
    var db, observed := state.db, state.observed;
    forall name | name in Generated(state)
      ensures Generated(state)[name].None? <==>
        && name == db.SecretKey() && InstanceExists(db, observed) && !Recreates(db, observed)
        && !observed[db.request.userKey].connectable
    {
      MissingObjects(db, observed, name);
    }
    if InstanceExists(db, observed) && !Recreates(db, observed) {
      BothAreGenerated(db, observed);
      hide GeneratedObjects;
      SecretAdmittedExactly(state);
    }
  }

  lemma BothAreGenerated(db: Database, observed: Observations)
    requires InstanceExists(db, observed) && !Recreates(db, observed)
    ensures db.request.userKey in GeneratedObjects(db, observed) && db.SecretKey() in GeneratedObjects(db, observed)
  {
    hide GroupObjects;
    hide FixedObjects;
    hide WantedGroup;
  }

  // ---- Runs ----

  /** The snapshot in the spec of an instance that the round applies. */
  function AppliedSnapshot(generated: Option<RdsObject>, current: string): string {
    match generated
    case Some(RdsInstance(_, snapshot)) => snapshot
    case _ => current
  }

  /** The parameter group in the spec of an instance that the round applies. */
  function RequestedGroup(generated: Option<RdsObject>, current: string): string {
    match generated
    case Some(RdsInstance(group, _)) => group
    case _ => current
  }

  /** A resource right after the round that creates it. */
  predicate IsCreatedFrom(generated: Option<RdsObject>, after: Observation) {
    && after.snapshot == AppliedSnapshot(generated, "")
    && after.requestedGroup == RequestedGroup(generated, "")
    && after.hasSpec && after.appliedGroup == ""
  }

  /** A resource that the round leaves alone, or whose spec it updates when `generated` is given. */
  predicate IsUpdatedFrom(generated: Option<RdsObject>, before: Observation, after: Observation) {
    && after.snapshot == AppliedSnapshot(generated, before.snapshot)
    && after.requestedGroup == RequestedGroup(generated, before.requestedGroup)
    && (before.hasSpec ==> after.hasSpec) && after.appliedGroup == before.appliedGroup
  }

  /** What Crossplane does with the resources a round desires. Those that exist take their new spec; missing
      ones are created, and undesired ones deleted, now or later. */
  ghost predicate RoundEffects(desired: set<string>, generated: Objects, before: Observations, after: Observations)
    requires desired <= generated.Keys
  {
    && (forall key :: key in before && key !in after ==> key !in desired)
    && (forall key :: key in after && key !in before ==> key in desired && IsCreatedFrom(generated[key], after[key]))
    && (forall key :: key in after && key in before ==>
         IsUpdatedFrom(if key in desired then generated[key] else None, before[key], after[key]))
  }

  /** A successful round. */
  ghost predicate RoundStep(before: State, after: State) {
    && !RoundFails(before)
    && after.db == before.db
    && RoundEffects(Desired(before), Generated(before), before.observed, after.observed)
  }

  /** Between rounds: resources vanish and statuses change, specs do not. */
  ghost predicate EnvironmentStep(before: State, after: State) {
    && after.db == before.db
    && after.observed.Keys <= before.observed.Keys
    && forall key :: key in after.observed ==> after.observed[key].snapshot == before.observed[key].snapshot
  }

  /** The user edits the spec. */
  ghost predicate EditStep(before: State, after: State) {
    SameDatabase(before.db.request, after.db.request) && after.observed == before.observed
  }

  ghost predicate Step(before: State, after: State) {
    after == before || RoundStep(before, after) || EnvironmentStep(before, after) || EditStep(before, after)
  }

  ghost predicate IsRun(states: seq<State>) {
    && states != []
    && states[0].observed == map[]
    && forall r :: 0 <= r < |states| - 1 ==> Step(states[r], states[r + 1])
  }

  function Restored(state: State): Option<string> {
    if InstanceExists(state.db, state.observed) then Some(state.observed[state.db.request.userKey].snapshot) else None
  }

  lemma RoundKeepsSnapshot(before: State, after: State)
    requires RoundStep(before, after) && Restored(before).Some? && Restored(after).Some?
    ensures Restored(before) == Restored(after)
  {
    hide GeneratedObjects;
    hide RoundFails;
    assert Desired(before) <= Generated(before).Keys;
    hide AdmittedNames;
    ExistingInstanceKeepsSnapshot(before.db, before.observed);
  }

  lemma SnapshotStays(before: State, after: State)
    requires Step(before, after) && Restored(before).Some? && Restored(after).Some?
    ensures Restored(before) == Restored(after)
  {
    hide RoundStep;
    if RoundStep(before, after) {
      RoundKeepsSnapshot(before, after);
    }
  }

  /** In every run, between two states whose instances were restored from different snapshots there is a state
      without an instance. */
  lemma {:induction false} SnapshotChangesThroughAbsence(states: seq<State>, i: nat, j: nat) returns (m: nat)
    requires IsRun(states) && i < j < |states|
    requires Restored(states[i]).Some? && Restored(states[j]).Some? && Restored(states[i]) != Restored(states[j])
    ensures i < m < j && Restored(states[m]).None?
  {
    hide Step;
    hide Restored;
    assert Step(states[j - 1], states[j - 1 + 1]);
    if Restored(states[j - 1]).None? {
      m := j - 1;
    } else {
      SnapshotStays(states[j - 1], states[j]);
      m := SnapshotChangesThroughAbsence(states, i, j - 1);
    }
  }

  lemma RoundCreatesFromRequest(before: State, after: State)
    requires RoundStep(before, after) && Restored(before).None? && Restored(after).Some?
    ensures before.db.request.userKey in Desired(before) && Restored(after) == Some(before.db.snapshot)
  {
    hide GeneratedObjects;
    hide AdmittedNames;
    hide RoundFails;
    hide Desired;
    AbsentInstanceIsGenerated(before.db, before.observed);
  }

  lemma CreatedFromRequest(before: State, after: State)
    requires Step(before, after) && Restored(before).None? && Restored(after).Some?
    ensures RoundStep(before, after) && before.db.request.userKey in Desired(before)
    ensures Restored(after) == Some(before.db.snapshot)
  {
    hide RoundStep;
    if RoundStep(before, after) {
      RoundCreatesFromRequest(before, after);
    }
  }

  /** In every run, an instance carries the snapshot that was requested in the round that created it; that
      round saw no instance, and there was one ever since. */
  lemma {:induction false} InstanceCarriesRequestedSnapshot(states: seq<State>, r: nat) returns (e: nat)
    requires IsRun(states) && r < |states| && Restored(states[r]).Some?
    ensures e < r && Restored(states[e]).None?
    ensures Restored(states[r]) == Some(states[e].db.snapshot)
    ensures forall i :: e < i <= r ==> Restored(states[i]).Some?
  {
    hide Step;
    assert r > 0 && Step(states[r - 1], states[r - 1 + 1]);
    hide *;
    if Restored(states[r - 1]).None? {
      e := r - 1;
      CreatedFromRequest(states[r - 1], states[r]);
    } else {
      e := InstanceCarriesRequestedSnapshot(states, r - 1);
      SnapshotStays(states[r - 1], states[r]);
    }
  }

  /** An instance with another snapshot is not desired; once it is gone, the next round desires an instance
      with the requested snapshot exactly when the step before it is ready. */
  lemma RecreationInTwoRounds(before: State, gone: State)
    requires before.db.IsWellNamed() && gone.db == before.db
    requires Recreates(before.db, before.observed) && !InstanceExists(gone.db, gone.observed)
    ensures before.db.request.userKey !in Desired(before)
    ensures |gone.db.Steps().steps| == 3
    ensures gone.db.request.userKey in Desired(gone)
       <==> StepReady(gone.db.Steps(), 0, Generated(gone).Keys, Readiness(gone.observed))
    ensures Generated(gone)[gone.db.request.userKey]
         == Some(RdsInstance(WantedGroup(gone.db.request, gone.observed), gone.db.snapshot))
  {
    var db := gone.db;
    RecreationIsBlockedExactly(before.db, before.observed);
    AbsentInstanceIsGenerated(db, gone.observed);
    forall i | 0 <= i < 3
      ensures |db.Steps().steps| == 3 && (InStep(db.Steps(), i, db.request.userKey) <==> i == 1)
    {
      InstanceInStep(db, i);
    }
    InstanceInStep(db, 0);
    hide InStep;
    hide RdsSequence;
    hide IsShort;
    hide NamedLikeAGroup;
    hide GeneratedObjects;
    hide GroupName;
    AdmittedInOneStep(db.Steps(), 1, Generated(gone).Keys, Readiness(gone.observed), db.request.userKey);
  }

  // ---- The sequencer and the parameter groups inside these runs ----

  function RoundOf(state: State): SequencingRuns.Round {
    SequencingRuns.Round(Generated(state).Keys, Readiness(state.observed))
  }

  function RoundsOf(states: seq<State>): seq<SequencingRuns.Round> {
    seq(|states|, i requires 0 <= i < |states| => RoundOf(states[i]))
  }

  lemma StepIsEnvironmentStep(before: State, after: State, sequence: Sequence)
    requires Step(before, after) && sequence == before.db.Steps()
    ensures SequencingRuns.EnvironmentStep(sequence, RoundOf(before), RoundOf(after))
  {
    hide GeneratedObjects;
    hide Admitted;
  }

  lemma StepsStay(states: seq<State>, r: nat)
    requires IsRun(states) && r < |states|
    ensures SameDatabase(states[0].db.request, states[r].db.request)
  {
    hide RoundFails;
    hide AdmittedNames;
    hide GeneratedObjects;
    if r > 0 {
      StepsStay(states, r - 1);
      assert Step(states[r - 1], states[r - 1 + 1]);
    }
  }

  lemma RunStepIsEnvironmentStep(states: seq<State>, r: int)
    requires IsRun(states) && 0 <= r < |states| - 1
    ensures SequencingRuns.EnvironmentStep(states[0].db.Steps(), RoundOf(states[r]), RoundOf(states[r + 1]))
  {
    StepsStay(states, r);
    assert Step(states[r], states[r + 1]);
    assert states[0].db.Steps() == states[r].db.Steps();
    hide *;
    StepIsEnvironmentStep(states[r], states[r + 1], states[0].db.Steps());
  }

  lemma RunIsSequencingRun(states: seq<State>)
    requires IsRun(states)
    ensures SequencingRuns.IsRun(states[0].db.Steps(), RoundsOf(states))
  {
    var sequence, rounds := states[0].db.Steps(), RoundsOf(states);
    forall r | 0 <= r < |states| - 1
      ensures SequencingRuns.EnvironmentStep(sequence, rounds[r], rounds[r + 1])
    {
      assert rounds[r] == RoundOf(states[r]) && rounds[r + 1] == RoundOf(states[r + 1]);
      hide *;
      RunStepIsEnvironmentStep(states, r);
    }
    assert RoundOf(states[0]).observed == map[];
    hide RoundOf;
    hide RdsSequence;
    hide SequencingRuns.EnvironmentStep;
  }

  lemma SgIsGenerated(state: State)
    ensures Named(Sg, state.db.request.name, state.db.request.hash) in Generated(state)
  {
    hide Named;
    hide ProviderConfigName;
    hide GroupObjects;
    hide InstanceObjects;
    hide SecretObjects;
  }

  lemma FirstStepIsInhabited(state: State)
    ensures |state.db.Steps().steps| == 3
    ensures SequencingRuns.Inhabited(state.db.Steps(), 0, Generated(state).Keys)
  {
    var sg := Named(Sg, state.db.request.name, state.db.request.hash);
    SgIsGenerated(state);
    StepsOfRds(state.db.request.name, state.db.request.hash, sg);
    assert sg in FixedNames(state.db.request.name, state.db.request.hash);
    hide RdsSequence;
    hide InStep;
    hide GeneratedObjects;
    hide IsGroupKey;
    hide FixedNames;
    hide Named;
    assert InStep(state.db.Steps(), 0, sg);
  }

  lemma SecretNeedsInstance(db: Database, observed: Observations)
    requires db.IsWellNamed() && db.SecretKey() in GeneratedObjects(db, observed)
    ensures db.request.userKey in GeneratedObjects(db, observed)
  {
    NamesOfWellNamed(db);
    GeneratedNames(db, observed);
    GroupKeysHavePrefix(db.request, observed);
    hide GeneratedObjects;
    hide GroupKeys;
    hide FixedNames;
    hide WantedGroup;
    hide Named;
    hide IsShort;
    hide NamedLikeAGroup;
  }

  lemma InstanceStepIsInhabited(state: State)
    requires state.db.IsWellNamed() && |state.db.Steps().steps| == 3
    requires SequencingRuns.Inhabited(state.db.Steps(), 2, Generated(state).Keys)
    ensures SequencingRuns.Inhabited(state.db.Steps(), 1, Generated(state).Keys)
  {
    var sequence, keys := state.db.Steps(), Generated(state).Keys;
    var name :| name in keys && InStep(sequence, 2, name);
    OnlyInstanceInStepOne(state.db, name);
    hide RdsSequence;
    hide InStep;
    hide GeneratedObjects;
    hide Named;
    hide IsShort;
    hide NamedLikeAGroup;
    SecretNeedsInstance(state.db, state.observed);
    OnlyInstanceInStepOne(state.db, state.db.request.userKey);
    assert InStep(sequence, 1, state.db.request.userKey);
  }

  lemma NoGapInThree(sequence: Sequence, generated: set<string>)
    requires |sequence.steps| == 3 && SequencingRuns.Inhabited(sequence, 0, generated)
    requires SequencingRuns.Inhabited(sequence, 2, generated) ==> SequencingRuns.Inhabited(sequence, 1, generated)
    ensures SequencingRuns.NoGap(sequence, generated)
  {
    hide SequencingRuns.Inhabited;
  }

  lemma DisjointEverywhere(sequence: Sequence, generated: set<string>)
    requires StepsAreDisjoint(sequence)
    ensures SequencingRuns.DisjointOn(sequence, generated)
  {
    hide InStep;
  }

  lemma NoGapInRds(state: State)
    requires state.db.IsWellNamed()
    ensures SequencingRuns.NoGap(state.db.Steps(), Generated(state).Keys)
    ensures SequencingRuns.DisjointOn(state.db.Steps(), Generated(state).Keys)
  {
    FirstStepIsInhabited(state);
    if SequencingRuns.Inhabited(state.db.Steps(), 2, Generated(state).Keys) {
      InstanceStepIsInhabited(state);
    }
    RdsStepsDisjointExactly(state.db.request.name, state.db.request.hash);
    var sequence, keys := state.db.Steps(), Generated(state).Keys;
    assert StepsAreDisjoint(sequence);
    hide *;
    NoGapInThree(sequence, keys);
    DisjointEverywhere(sequence, keys);
  }

  lemma WellNamedStays(states: seq<State>, r: nat)
    requires IsRun(states) && r < |states| && states[0].db.IsWellNamed()
    ensures states[r].db.IsWellNamed() && states[r].db.Steps() == states[0].db.Steps()
    ensures states[r].db.request.userKey == states[0].db.request.userKey
    ensures states[r].db.SecretKey() == states[0].db.SecretKey()
  {
    StepsStay(states, r);
    hide IsRun;
  }

  /** In every run the instance exists only after a round that saw its security groups, its provider
      configuration and the parameter groups of that round ready, and the secret only after one that saw the
      instance ready as well. */
  lemma CreationFollowsTheSteps(states: seq<State>, r: nat)
    requires IsRun(states) && r < |states| && states[0].db.IsWellNamed()
    ensures |states[0].db.Steps().steps| == 3
    ensures states[0].db.request.userKey in states[r].observed ==>
      SequencingRuns.ReadyBefore(states[0].db.Steps(), RoundsOf(states), r, 0)
    ensures states[0].db.SecretKey() in states[r].observed ==>
      && SequencingRuns.ReadyBefore(states[0].db.Steps(), RoundsOf(states), r, 0)
      && SequencingRuns.ReadyBefore(states[0].db.Steps(), RoundsOf(states), r, 1)
  {
    var db, rounds := states[0].db, RoundsOf(states);
    RunIsSequencingRun(states);
    forall e | 0 <= e < |rounds|
      ensures SequencingRuns.NoGap(db.Steps(), rounds[e].generated)
      ensures SequencingRuns.DisjointOn(db.Steps(), rounds[e].generated)
    {
      WellNamedStays(states, e);
      NoGapInRds(states[e]);
      hide *;
      assert rounds[e] == RoundOf(states[e]);
    }
    assert rounds[r].observed.Keys == states[r].observed.Keys;
    InstanceInStep(db, 1);
    SecretInStep(db, 2);
    hide *;
    if db.request.userKey in states[r].observed {
      SequencingRuns.CreationFollowsSteps(db.Steps(), rounds, r, 0, 1, db.request.userKey);
    }
    if db.SecretKey() in states[r].observed {
      SequencingRuns.CreationFollowsSteps(db.Steps(), rounds, r, 0, 2, db.SecretKey());
      SequencingRuns.CreationFollowsSteps(db.Steps(), rounds, r, 1, 2, db.SecretKey());
    }
  }

  function GroupState(state: State): ParameterGroups.State {
    ParameterGroups.State(state.db.request, state.observed)
  }

  /** A step in which the provider treats parameter groups as AWS does: a group in use is not deleted, and the
      group that the spec of the instance asks for is applied only if it exists. While a group is in use,
      parameters stay set and the family stays known. */
  ghost predicate GroupStep(before: State, after: State) {
    || after == before
    || (RoundStep(before, after) && (KeepsGroups(GroupState(before)) || NoneApplies(GroupState(before))))
    || (EnvironmentStep(before, after) && ProviderStep(GroupState(before), GroupState(after)))
    || EditStep(before, after)
  }

  ghost predicate IsGroupRun(states: seq<State>) {
    && states != []
    && states[0].observed == map[]
    && forall r :: 0 <= r < |states| - 1 ==> GroupStep(states[r], states[r + 1])
  }

  lemma GroupRunIsRun(states: seq<State>)
    requires IsGroupRun(states)
    ensures IsRun(states)
  {
    hide RoundStep;
    hide EnvironmentStep;
    hide ProviderStep;
    hide KeepsGroups;
    hide NoneApplies;
    forall r | 0 <= r < |states| - 1
      ensures Step(states[r], states[r + 1])
    {
      assert GroupStep(states[r], states[r + 1]);
    }
  }

  lemma DesiredByTheGroupRound(state: State)
    ensures Desired(state) == DesiredNames(state.db.Steps(), GroupState(state), OtherNames(state.db, state.observed))
  {
    GeneratedNames(state.db, state.observed);
    hide GeneratedObjects;
    hide OtherNames;
    hide RdsSequence;
    hide AdmittedNames;
    hide GroupKeys;
  }

  lemma OneOfFour<K, V>(a: map<K, V>, b: map<K, V>, c: map<K, V>, d: map<K, V>, key: K)
    requires key in a + b + c + d
    ensures (a + b + c + d)[key]
         == if key in d then d[key] else if key in c then c[key] else if key in b then b[key] else a[key]
  {}

  lemma PlumbingAsksForNoGroup(db: Database, key: string, current: string)
    requires key in FixedObjects(db)
    ensures RequestedGroup(FixedObjects(db)[key], current) == current
  {
    hide FixedNames;
  }

  lemma GroupsAskForNoGroup(request: Request, observed: Observations, key: string, current: string)
    requires key in GroupObjects(request, observed)
    ensures RequestedGroup(GroupObjects(request, observed)[key], current) == current
  {
    hide GroupKeys;
    hide OwnGroupName;
    hide Family;
  }

  lemma SecretAsksForNoGroup(db: Database, observed: Observations, key: string, current: string)
    requires key in SecretObjects(db, observed)
    ensures key == db.SecretKey() && RequestedGroup(SecretObjects(db, observed)[key], current) == current
  {
    hide Named;
  }

  lemma InstanceAsksForItsGroup(db: Database, observed: Observations, key: string, current: string)
    requires key in InstanceObjects(db, observed)
    ensures key == db.request.userKey
    ensures RequestedGroup(InstanceObjects(db, observed)[key], current) == WantedGroup(db.request, observed)
  {
    hide WantedGroup;
  }

  lemma InstanceIsNothingElse(db: Database, observed: Observations)
    requires db.IsWellNamed()
    ensures db.request.userKey !in FixedObjects(db) && db.request.userKey !in GroupObjects(db.request, observed)
    ensures db.request.userKey != db.SecretKey()
  {
    hide FixedNames;
    hide GroupKeys;
    hide Named;
    hide Database.IsWellNamed;
    NamesOfWellNamed(db);
    GroupKeysHavePrefix(db.request, observed);
  }

  /** Of all generated objects only the instance asks for a group. */
  lemma OnlyTheInstanceAsksForAGroup(state: State, key: string, current: string)
    requires state.db.IsWellNamed() && key in Generated(state)
    ensures RequestedGroup(Generated(state)[key], current) ==
      if key == state.db.request.userKey then WantedGroup(state.db.request, state.observed) else current
  {
    var db, observed := state.db, state.observed;
    assert Generated(state)
        == FixedObjects(db) + GroupObjects(db.request, observed) + InstanceObjects(db, observed)
           + SecretObjects(db, observed);
    hide *;
    OneOfFour(FixedObjects(db), GroupObjects(db.request, observed), InstanceObjects(db, observed),
              SecretObjects(db, observed), key);
    InstanceIsNothingElse(db, observed);
    if key in SecretObjects(db, observed) {
      SecretAsksForNoGroup(db, observed, key, current);
    } else if key in InstanceObjects(db, observed) {
      InstanceAsksForItsGroup(db, observed, key, current);
    } else if key in GroupObjects(db.request, observed) {
      GroupsAskForNoGroup(db.request, observed, key, current);
    } else {
      PlumbingAsksForNoGroup(db, key, current);
    }
  }

  /** What the group protocol says about a round that desires `desired`. */
  ghost predicate GroupEffects(desired: set<string>, userKey: string, wanted: string,
                               before: Observations, after: Observations)
  {
    && (forall key :: key in before && key !in after ==> key !in desired)
    && (forall key :: key in after && key !in before ==>
         key in desired && after[key].hasSpec && after[key].appliedGroup == "")
    && (forall key :: key in after && key in before ==>
         && after[key].appliedGroup == before[key].appliedGroup
         && (before[key].hasSpec ==> after[key].hasSpec)
         && after[key].requestedGroup == if key == userKey && key in desired then wanted else before[key].requestedGroup)
  }

  /** Only the object of the instance asks for a group. */
  ghost predicate OnlyUserAsks(generated: Objects, userKey: string, wanted: string) {
    forall key, current :: key in generated ==>
      RequestedGroup(generated[key], current) == if key == userKey then wanted else current
  }

  lemma EffectsOnGroups(desired: set<string>, generated: Objects, userKey: string, wanted: string,
                        before: Observations, after: Observations)
    requires desired <= generated.Keys && OnlyUserAsks(generated, userKey, wanted)
    requires RoundEffects(desired, generated, before, after)
    ensures GroupEffects(desired, userKey, wanted, before, after)
  {}

  lemma GroupRoundOfEffects(sequence: Sequence, others: set<string>, before: State, after: State)
    requires !Conflict(before.db.request) && after.db == before.db
    requires GroupEffects(DesiredNames(sequence, GroupState(before), others), before.db.request.userKey,
                          WantedGroup(before.db.request, before.observed), before.observed, after.observed)
    ensures ParameterGroups.RoundStep(sequence, others, GroupState(before), GroupState(after))
  {
    hide DesiredNames;
    hide WantedGroup;
  }

  /** Each RDS round is a round of the parameter-group protocol. */
  lemma RoundIsGroupRound(before: State, after: State)
    requires before.db.IsWellNamed() && RoundStep(before, after)
    ensures ParameterGroups.RoundStep(before.db.Steps(), OtherNames(before.db, before.observed),
                                      GroupState(before), GroupState(after))
  {
    var userKey, wanted := before.db.request.userKey, WantedGroup(before.db.request, before.observed);
    assert OnlyUserAsks(Generated(before), userKey, wanted) by {
      forall key, current | key in Generated(before)
        ensures RequestedGroup(Generated(before)[key], current) == if key == userKey then wanted else current
      {
        hide *;
        OnlyTheInstanceAsksForAGroup(before, key, current);
      }
    }
    assert Desired(before) <= Generated(before).Keys && !Conflict(before.db.request);
    assert after.db == before.db && RoundEffects(Desired(before), Generated(before), before.observed, after.observed);
    hide *;
    EffectsOnGroups(Desired(before), Generated(before), userKey, wanted, before.observed, after.observed);
    DesiredByTheGroupRound(before);
    GroupRoundOfEffects(before.db.Steps(), OtherNames(before.db, before.observed), before, after);
  }

  lemma GroupStepRefines(before: State, after: State)
    requires before.db.IsWellNamed() && GroupStep(before, after)
    ensures ParameterGroups.Step(before.db.Steps(), GroupState(before), GroupState(after))
  {
    if RoundStep(before, after) {
      RoundIsGroupRound(before, after);
    }
    hide RoundStep;
    hide ParameterGroups.RoundStep;
    hide OtherNames;
    hide RdsSequence;
    hide KeepsGroups;
    hide NoneApplies;
    hide ProviderStep;
    hide EnvironmentStep;
  }

  function GroupStates(states: seq<State>): seq<ParameterGroups.State> {
    seq(|states|, r requires 0 <= r < |states| => GroupState(states[r]))
  }

  lemma StepOfGroupRun(states: seq<State>, r: nat)
    requires IsGroupRun(states) && states[0].db.IsWellNamed() && r < |states| - 1
    ensures ParameterGroups.Step(states[0].db.Steps(), GroupState(states[r]), GroupState(states[r + 1]))
  {
    hide GroupStep;
    assert GroupStep(states[r], states[r + 1]);
    hide *;
    GroupRunIsRun(states);
    WellNamedStays(states, r);
    GroupStepRefines(states[r], states[r + 1]);
  }

  lemma ProtocolRunOfSteps(sequence: Sequence, states: seq<State>)
    requires states != [] && states[0].observed == map[]
    requires forall r | 0 <= r < |states| - 1 ::
               ParameterGroups.Step(sequence, GroupState(states[r]), GroupState(states[r + 1]))
    ensures ParameterGroups.IsRun(sequence, GroupStates(states))
  {
    hide ParameterGroups.Step;
    var groups := GroupStates(states);
    forall r | 0 <= r < |groups| - 1
      ensures ParameterGroups.Step(sequence, groups[r], groups[r + 1])
    {
      assert groups[r] == GroupState(states[r]) && groups[r + 1] == GroupState(states[r + 1]);
    }
  }

  /** Runs of an RDS database refine runs of the parameter-group protocol. */
  lemma RunIsGroupProtocolRun(states: seq<State>)
    requires IsGroupRun(states) && states[0].db.IsWellNamed()
    ensures ParameterGroups.IsRun(states[0].db.Steps(), GroupStates(states))
  {
    assert states != [] && states[0].observed == map[];
    hide *;
    forall r | 0 <= r < |states| - 1
      ensures ParameterGroups.Step(states[0].db.Steps(), GroupState(states[r]), GroupState(states[r + 1]))
    {
      StepOfGroupRun(states, r);
    }
    ProtocolRunOfSteps(states[0].db.Steps(), states);
  }

  /** In every such run the group in use exists and stays desired, whatever else the round generates. */
  lemma GroupInUseStaysDesired(states: seq<State>, r: nat, family: string)
    requires IsGroupRun(states) && states[0].db.IsWellNamed() && r < |states|
    requires Applies(GroupState(states[r]), family)
    ensures Key(family) in states[r].observed
    ensures KeepsGroups(GroupState(states[r])) ==> Key(family) in Desired(states[r])
  {
    var state := states[r];
    GroupRunIsRun(states);
    RunIsGroupProtocolRun(states);
    WellNamedStays(states, r);
    DesiredByTheGroupRound(state);
    assert GroupStates(states)[r] == GroupState(state) && |GroupStates(states)| == |states|;
    assert GroupState(state).observed == state.observed;
    hide *;
    AppliedGroupIsNeverDropped(states[0].db.Steps(), GroupStates(states), r, OtherNames(state.db, state.observed), family);
  }
}
