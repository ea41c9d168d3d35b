/** The replacement of ECR lifecycle policies: functions/artifact/service/repository.go and
    functions/artifact/group.go. The old policy has to be gone before the new one is created. */
module LifecyclePolicies {
  import opened Wrappers
  import opened Patterns
  import opened Sequencing

  const POLICY_PREFIX := "lifecycle-policy-"

  predicate IsHex(c: char) { '0' <= c <= '9' || 'a' <= c <= 'f' }

  /** The first eight hexadecimal digits of the hash of a policy. */
  type Hex = s: string | |s| == 8 && forall i :: 0 <= i < |s| ==> IsHex(s[i]) witness "00000000"

  type Digest = string -> Hex

  /** A repository and its rendered policy; absent when there are no rules. */
  datatype Repository = Repository(name: string, policy: Option<string>)

  /** An observed resource; `policy` is empty for the repository itself. */
  datatype Existing = Existing(ready: Ready, policy: string)

  type Observations = map<string, Existing>

  function Readiness(observed: Observations): Observed {
    map name | name in observed :: observed[name].ready
  }

  function PolicyName(digest: Digest, policy: string): string { POLICY_PREFIX + digest(policy) }

  function Policies(observed: Observations): set<string> {
    set name | name in observed && POLICY_PREFIX <= name
  }

  predicate HasStale(observed: Observations, name: string) {
    Policies(observed) - {name} != {}
  }

  // ---- The generated objects ----

  /** The policy text each generated resource carries. */
  function GeneratedObjects(digest: Digest, repository: Repository, observed: Observations): map<string, string> {
    var repo := map[repository.name := ""];
    if repository.policy.None? then repo
    else
      var name := PolicyName(digest, repository.policy.value);
      if HasStale(observed, name) then repo else repo[name := repository.policy.value]
  }

  method HasStaleLifecyclePolicy(observed: Observations, name: string) returns (stale: bool)
    ensures stale <==> HasStale(observed, name)
  {
    var todo := observed.Keys;
    while todo != {}
      invariant todo <= observed.Keys
      invariant forall other :: other in observed && other !in todo && POLICY_PREFIX <= other ==> other == name
      decreases todo
    {
      var other :| other in todo;
      todo := todo - {other};
      if POLICY_PREFIX <= other && other != name {
        assert other in Policies(observed) - {name};
        return true;
      }
    }
    assert Policies(observed) - {name} == {};
    return false;
  }

  method GenerateRepositoryObject(digest: Digest, repository: Repository, observed: Observations)
    returns (objects: map<string, string>)
    ensures objects == GeneratedObjects(digest, repository, observed)
  {
    objects := map[repository.name := ""];
    if repository.policy.Some? {
      var policy := repository.policy.value;
      var name := PolicyName(digest, policy);
      var stale := HasStaleLifecyclePolicy(observed, name);
      if !stale {
        objects := objects[name := policy];
      }
    }
  }

  function Steps(repository: Repository): Sequence {
    Sequence(true, [[repository.name], [POLICY_PREFIX + ".*"]])
  }

  // ---- Runs ----

  datatype State = State(repository: Repository, observed: Observations)

  function Generated(digest: Digest, state: State): map<string, string> {
    GeneratedObjects(digest, state.repository, state.observed)
  }

  function Desired(digest: Digest, state: State): set<string> {
    AdmittedNames(Steps(state.repository), Generated(digest, state).Keys, Readiness(state.observed))
  }

  /** A round as Crossplane applies it. Missing desired resources are created and undesired ones deleted, now
      or later; the provider cannot change the policy of an existing resource. */
  ghost predicate RoundStep(digest: Digest, before: State, after: State) {
    var desired, generated := Desired(digest, before), Generated(digest, before);
    && after.repository == before.repository
    && (forall key :: key in before.observed && key !in after.observed ==> key !in desired)
    && (forall key :: key in after.observed && key !in before.observed ==>
         key in desired && after.observed[key].policy == generated[key])
    && (forall key :: key in after.observed && key in before.observed ==>
         after.observed[key].policy == before.observed[key].policy)
  }

  ghost predicate EnvironmentStep(before: State, after: State) {
    && after.repository == before.repository
    && after.observed.Keys <= before.observed.Keys
    && forall key :: key in after.observed ==> after.observed[key].policy == before.observed[key].policy
  }

  /** The rules change; a round with invalid rules fails and changes nothing. */
  ghost predicate EditStep(before: State, after: State) {
    after.repository.name == before.repository.name && after.observed == before.observed
  }

  ghost predicate Step(digest: Digest, before: State, after: State) {
    after == before || RoundStep(digest, before, after) || EnvironmentStep(before, after) || EditStep(before, after)
  }

  ghost predicate IsRun(digest: Digest, states: seq<State>) {
    && states != []
    && states[0].observed == map[]
    && forall r :: 0 <= r < |states| - 1 ==> Step(digest, states[r], states[r + 1])
  }

  /** At most one policy, and each policy resource is named after its policy. */
  ghost predicate Invariant(digest: Digest, state: State) {
    && (forall a, b :: a in Policies(state.observed) && b in Policies(state.observed) ==> a == b)
    && (forall name :: name in Policies(state.observed) ==> name == PolicyName(digest, state.observed[name].policy))
  }

  lemma RoundKeepsInvariant(digest: Digest, before: State, after: State)
    requires !(POLICY_PREFIX <= before.repository.name)
    requires Invariant(digest, before) && RoundStep(digest, before, after)
    ensures Invariant(digest, after)
  {
    hide Admitted;
    var generated := Generated(digest, before);
    forall name | name in Policies(after.observed) && name !in before.observed
      ensures before.repository.policy.Some? && name == PolicyName(digest, before.repository.policy.value)
      ensures generated[name] == before.repository.policy.value && Policies(before.observed) == {}
    {
      assert name in generated;
      assert name !in Policies(before.observed);
      assert Policies(before.observed) - {name} == Policies(before.observed);
    }
    forall name | name in Policies(after.observed) && name in before.observed
      ensures name in Policies(before.observed)
    {}
  }

  lemma ShrinkingKeepsInvariant(digest: Digest, before: State, after: State)
    requires Invariant(digest, before) && after.observed.Keys <= before.observed.Keys
    requires forall key :: key in after.observed ==> after.observed[key].policy == before.observed[key].policy
    ensures Invariant(digest, after)
  {
    hide PolicyName;
    assert Policies(after.observed) <= Policies(before.observed);
  }

  lemma StepKeepsInvariant(digest: Digest, before: State, after: State)
    requires !(POLICY_PREFIX <= before.repository.name)
    requires Invariant(digest, before) && Step(digest, before, after)
    ensures Invariant(digest, after) && after.repository.name == before.repository.name
  {
    hide RoundStep;
    hide Invariant;
    if RoundStep(digest, before, after) {
      RoundKeepsInvariant(digest, before, after);
      RoundKeepsName(digest, before, after);
    } else {
      ShrinkingKeepsInvariant(digest, before, after);
    }
  }

  lemma {:induction false} RunKeepsInvariant(digest: Digest, states: seq<State>, r: nat)
    requires IsRun(digest, states) && r < |states| && !(POLICY_PREFIX <= states[0].repository.name)
    ensures Invariant(digest, states[r]) && states[r].repository.name == states[0].repository.name
  {
    if r > 0 {
      hide Step;
      hide Invariant;
      RunKeepsInvariant(digest, states, r - 1);
      assert Step(digest, states[r - 1], states[r - 1 + 1]);
      StepKeepsInvariant(digest, states[r - 1], states[r]);
    }
  }

  lemma RoundKeepsName(digest: Digest, before: State, after: State)
    requires RoundStep(digest, before, after)
    ensures after.repository == before.repository
  {
    hide AdmittedNames;
    hide GeneratedObjects;
  }

  /** In every run of rule changes, at most one lifecycle policy exists at any time. */
  lemma AtMostOnePolicyExists(digest: Digest, states: seq<State>, r: nat)
    requires IsRun(digest, states) && r < |states| && !(POLICY_PREFIX <= states[0].repository.name)
    ensures |Policies(states[r].observed)| <= 1
  {
    RunKeepsInvariant(digest, states, r);
    var policies := Policies(states[r].observed);
    hide Policies;
    if policies != {} {
      var a :| a in policies;
      assert policies == {a};
    }
  }

  // ---- Completion ----

  /** An environment that carries out what the round desires, and nothing else, before the next one. */
  ghost predicate CooperativeRound(digest: Digest, before: State, after: State) {
    && RoundStep(digest, before, after)
    && after.observed.Keys == Desired(digest, before)
    && forall key :: key in after.observed ==> after.observed[key].ready == ReadyTrue
  }

  /** The only resources are the repository and, if there are rules, their policy. */
  ghost predicate IsComplete(digest: Digest, state: State) {
    match state.repository.policy
    case None => state.observed.Keys == {state.repository.name}
    case Some(policy) =>
      var name := PolicyName(digest, policy);
      && state.observed.Keys == {state.repository.name, name}
      && state.observed[name].policy == policy
  }

  /** The repository's name, read as a pattern, takes the key of some policy; only its dots can do that. */
  ghost predicate MatchesAPolicy(digest: Digest, name: string) {
    exists policy :: PolicyName(digest, policy) != name && Matches(name, PolicyName(digest, policy))
  }

  predicate IsWellNamed(repository: Repository) {
    IsKubernetesName(repository.name) && !(POLICY_PREFIX <= repository.name)
  }

  lemma PolicyNameHasPrefix(digest: Digest, policy: string)
    ensures POLICY_PREFIX <= PolicyName(digest, policy)
    ensures OneLine(PolicyName(digest, policy)[|POLICY_PREFIX|..])
  {
    assert PolicyName(digest, policy)[|POLICY_PREFIX|..] == digest(policy);
  }

  lemma PrefixIsPlain()
    ensures IsPlain(POLICY_PREFIX)
  {}

  lemma StepsOfRepository(repository: Repository, name: string)
    ensures InStep(Steps(repository), 0, name) <==> Matches(repository.name, name)
    ensures InStep(Steps(repository), 1, name) <==> POLICY_PREFIX <= name && OneLine(name[|POLICY_PREFIX|..])
  {
    PrefixIsPlain();
    PrefixMatches(POLICY_PREFIX, name);
    hide Matches;
    hide IsPlain;
    var steps := Steps(repository).steps;
    assert steps[0][0] == repository.name && steps[1][0] == POLICY_PREFIX + ".*";
  }

  lemma GeneratedBesides(digest: Digest, state: State, name: string)
    requires name in Generated(digest, state) && name != state.repository.name
    ensures state.repository.policy.Some? && name == PolicyName(digest, state.repository.policy.value)
    ensures Generated(digest, state).Keys == {state.repository.name, name}
  {
    hide PolicyName;
    hide HasStale;
  }

  /** The repository is always desired. A generated policy is once it exists or the repository is ready, or at
      once when the repository's name takes its key. */
  lemma DesiredExactly(digest: Digest, state: State)
    requires IsKubernetesName(state.repository.name)
    ensures state.repository.name in Desired(digest, state)
    ensures forall name :: name in Desired(digest, state) && name != state.repository.name <==>
      && name in Generated(digest, state) && name != state.repository.name
      && (|| name in state.observed
          || Matches(state.repository.name, name)
          || (state.repository.name in state.observed && state.observed[state.repository.name].ready == ReadyTrue))
  {
    var sequence, generated, observed := Steps(state.repository), Generated(digest, state), Readiness(state.observed);
    var first := state.repository.name;
    assert first in generated;
    KubernetesNameMatches(first, first);
    StepsOfRepository(state.repository, first);
    forall name | name in generated && name != first
      ensures generated.Keys == {first, name}
      ensures InStep(sequence, 1, name) && (InStep(sequence, 0, name) <==> Matches(first, name))
    {
      GeneratedBesides(digest, state, name);
      StepsOfRepository(state.repository, name);
      PolicyNameHasPrefix(digest, state.repository.policy.value);
    }
    hide InStep;
    hide GeneratedObjects;
    hide IsKubernetesName;
    hide Matches;
    forall name | name in generated && name != first
      ensures Admitted(sequence, generated.Keys, observed, name) <==>
        name in observed || Matches(first, name) || (first in observed && observed[first] == ReadyTrue)
    {
      AdmittedBehind(sequence, generated.Keys, observed, first, name);
    }
    FirstIsAdmitted(sequence, generated.Keys, observed, first);
  }

  lemma FirstIsAdmitted(sequence: Sequence, generated: set<string>, observed: Observed, name: string)
    requires |sequence.steps| == 2 && InStep(sequence, 0, name) && name in generated
    ensures Admitted(sequence, generated, observed, name)
  {
    assert GateOpen(sequence, 0, generated, observed);
  }

  lemma AdmittedBehind(sequence: Sequence, generated: set<string>, observed: Observed, first: string, name: string)
    requires |sequence.steps| == 2 && generated == {first, name}
    requires InStep(sequence, 0, first) && InStep(sequence, 1, name)
    ensures Admitted(sequence, generated, observed, name)
       <==> name in observed || InStep(sequence, 0, name) || (first in observed && observed[first] == ReadyTrue)
  {
    hide InStep;
    if InStep(sequence, 0, name) {
      assert GateOpen(sequence, 0, generated, observed);
    } else {
      assert StepReady(sequence, 0, generated, observed) <==> first in observed && observed[first] == ReadyTrue;
      assert GateOpen(sequence, 1, generated, observed) <==> StepReady(sequence, 0, generated, observed);
    }
  }

  lemma FirstCooperativeRound(digest: Digest, before: State, after: State)
    requires IsWellNamed(before.repository) && CooperativeRound(digest, before, after)
    ensures after.repository == before.repository
    ensures after.repository.name in after.observed && after.observed[after.repository.name].ready == ReadyTrue
    ensures before.repository.policy.None? ==> Policies(after.observed) == {}
    ensures before.repository.policy.Some? ==> !HasStale(after.observed, PolicyName(digest, before.repository.policy.value))
  {
    DesiredExactly(digest, before);
    hide AdmittedNames;
    hide PolicyName;
    assert forall name :: name in after.observed ==> name in Generated(digest, before);
  }

  lemma SecondCooperativeRound(digest: Digest, before: State, after: State)
    requires IsWellNamed(before.repository) && CooperativeRound(digest, before, after)
    requires before.repository.name in before.observed
    requires before.observed[before.repository.name].ready == ReadyTrue
    requires before.repository.policy.None? ==> Policies(before.observed) == {}
    requires before.repository.policy.Some? ==>
      !HasStale(before.observed, PolicyName(digest, before.repository.policy.value))
    ensures match before.repository.policy
      case None => after.observed.Keys == {after.repository.name}
      case Some(policy) => after.observed.Keys == {after.repository.name, PolicyName(digest, policy)}
  {
    DesiredExactly(digest, before);
    hide AdmittedNames;
    hide PolicyName;
    hide HasStale;
  }

  /** The digests of the policies in play are distinct. */
  ghost predicate DigestsDiffer(digest: Digest, state: State) {
    forall name | name in Policies(state.observed) && state.repository.policy.Some?
      && digest(state.observed[name].policy) == digest(state.repository.policy.value) ::
      state.observed[name].policy == state.repository.policy.value
  }

  /** From any state of any run, once the rules stop changing, two cooperative rounds lead to exactly the
      repository and the policy of the current rules. */
  lemma TwoRoundsComplete(digest: Digest, states: seq<State>, r: nat, next: State, last: State)
    requires IsRun(digest, states) && r < |states| && IsWellNamed(states[0].repository)
    requires CooperativeRound(digest, states[r], next) && CooperativeRound(digest, next, last)
    requires DigestsDiffer(digest, last)
    ensures IsComplete(digest, last) && last.repository == states[r].repository
  {
    hide AdmittedNames;
    hide GeneratedObjects;
    hide IsKubernetesName;
    RunKeepsInvariant(digest, states, r);
    RoundKeepsInvariant(digest, states[r], next);
    RoundKeepsInvariant(digest, next, last);
    FirstCooperativeRound(digest, states[r], next);
    SecondCooperativeRound(digest, next, last);
    if last.repository.policy.Some? {
      NamedAfterItsPolicy(digest, last, last.repository.policy.value);
    }
  }

  lemma NamedAfterItsPolicy(digest: Digest, state: State, policy: string)
    requires Invariant(digest, state) && DigestsDiffer(digest, state) && state.repository.policy == Some(policy)
    requires PolicyName(digest, policy) in state.observed
    ensures state.observed[PolicyName(digest, policy)].policy == policy
  {
    var name := PolicyName(digest, policy);
    PolicyNameHasPrefix(digest, policy);
    assert name in Policies(state.observed);
    assert name[|POLICY_PREFIX|..] == digest(policy);
    assert PolicyName(digest, state.observed[name].policy)[|POLICY_PREFIX|..] == digest(state.observed[name].policy);
  }

  // ---- A repository named like a policy ----

  // The existing repository passes for a stale policy.
  lemma NothingElseIsGenerated(digest: Digest, state: State, name: string)
    requires POLICY_PREFIX <= state.repository.name && state.repository.name in state.observed
    requires name in Generated(digest, state)
    ensures name == state.repository.name
  {
    hide PolicyName;
    assert state.repository.name in Policies(state.observed);
    if state.repository.policy.Some? {
      var policy := PolicyName(digest, state.repository.policy.value);
      assert state.repository.name != policy ==> state.repository.name in Policies(state.observed) - {policy};
    }
  }

  lemma RoundAddsNoPolicy(digest: Digest, before: State, after: State)
    requires IsKubernetesName(before.repository.name) && POLICY_PREFIX <= before.repository.name
    requires !MatchesAPolicy(digest, before.repository.name)
    requires RoundStep(digest, before, after) && Policies(before.observed) <= {before.repository.name}
    ensures Policies(after.observed) <= {before.repository.name}
  {
    DesiredExactly(digest, before);
    hide AdmittedNames;
    hide GeneratedObjects;
    hide Matches;
    hide PolicyName;
    forall name | name in Policies(after.observed)
      ensures name == before.repository.name
    {
      if name in before.observed {
        assert name in Policies(before.observed);
      } else if before.repository.name in before.observed {
        NothingElseIsGenerated(digest, before, name);
      } else if name != before.repository.name {
        GeneratedBesides(digest, before, name);
      }
    }
  }

  lemma {:induction false} NoPolicyForPrefixedName(digest: Digest, states: seq<State>, r: nat)
    requires IsRun(digest, states) && r < |states|
    requires IsKubernetesName(states[0].repository.name) && POLICY_PREFIX <= states[0].repository.name
    requires !MatchesAPolicy(digest, states[0].repository.name)
    ensures states[r].repository.name == states[0].repository.name
    ensures Policies(states[r].observed) <= {states[0].repository.name}
  {
    if r > 0 {
      hide RoundStep;
      hide IsKubernetesName;
      hide MatchesAPolicy;
      NoPolicyForPrefixedName(digest, states, r - 1);
      var before, after := states[r - 1], states[r];
      assert Step(digest, states[r - 1], states[r - 1 + 1]);
      if RoundStep(digest, before, after) {
        RoundAddsNoPolicy(digest, before, after);
        RoundKeepsName(digest, before, after);
      }
    }
  }

  ghost predicate SomeRunCreatesAPolicy(digest: Digest, name: string) {
    exists states: seq<State>, r: nat | IsRun(digest, states) && r < |states| && states[0].repository.name == name ::
      Policies(states[r].observed) - {name} != {}
  }

  lemma RoundCreates(digest: Digest, before: State, name: string, created: Existing)
    requires name in Desired(digest, before) && name !in before.observed
    requires name in Generated(digest, before) && created.policy == Generated(digest, before)[name]
    ensures Step(digest, before, State(before.repository, before.observed[name := created]))
  {
    hide AdmittedNames;
    hide GeneratedObjects;
    assert RoundStep(digest, before, State(before.repository, before.observed[name := created]));
  }

  lemma PolicyIsGenerated(digest: Digest, repository: Repository, observed: Observations)
    requires repository.policy.Some? && Policies(observed) == {}
    ensures var name := PolicyName(digest, repository.policy.value);
      && name in GeneratedObjects(digest, repository, observed)
      && GeneratedObjects(digest, repository, observed)[name] == repository.policy.value
  {
    hide Policies;
    hide PolicyName;
  }

  lemma RepositoryIsCreated(digest: Digest, repository: Repository)
    requires IsWellNamed(repository)
    ensures Step(digest, State(repository, map[]), State(repository, map[repository.name := Existing(ReadyTrue, "")]))
  {
    var start := State(repository, map[]);
    DesiredExactly(digest, start);
    assert Generated(digest, start)[repository.name] == "";
    hide AdmittedNames;
    hide GeneratedObjects;
    hide IsKubernetesName;
    hide Step;
    RoundCreates(digest, start, repository.name, Existing(ReadyTrue, ""));
  }

  /** A policy is created in a round that sees no policy, when the repository is ready or its name takes the
      policy's key. */
  lemma PolicyIsCreated(digest: Digest, repository: Repository, start: State)
    requires IsKubernetesName(repository.name) && repository.policy.Some? && start.repository == repository
    requires Policies(start.observed) == {} && PolicyName(digest, repository.policy.value) != repository.name
    requires || Matches(repository.name, PolicyName(digest, repository.policy.value))
             || (repository.name in start.observed && start.observed[repository.name].ready == ReadyTrue)
    ensures var policy := PolicyName(digest, repository.policy.value);
      Step(digest, start, State(repository, start.observed[policy := Existing(ReadyTrue, repository.policy.value)]))
  {
    PolicyIsGenerated(digest, repository, start.observed);
    PolicyNameHasPrefix(digest, repository.policy.value);
    DesiredExactly(digest, start);
    hide AdmittedNames;
    hide GeneratedObjects;
    hide PolicyName;
    hide IsKubernetesName;
    hide Step;
    hide Matches;
    RoundCreates(digest, start, PolicyName(digest, repository.policy.value), Existing(ReadyTrue, repository.policy.value));
  }

  lemma RunOfThree(digest: Digest, first: State, second: State, third: State)
    requires first.observed == map[] && Step(digest, first, second) && Step(digest, second, third)
    ensures IsRun(digest, [first, second, third])
  {
    hide Step;
  }

  lemma RunOfTwo(digest: Digest, first: State, second: State)
    requires first.observed == map[] && Step(digest, first, second)
    ensures IsRun(digest, [first, second])
  {
    hide Step;
  }

  lemma RunWithPolicy(digest: Digest, name: string) returns (states: seq<State>)
    requires IsKubernetesName(name) && !(POLICY_PREFIX <= name)
    ensures IsRun(digest, states) && |states| == 3 && states[0].repository.name == name
    ensures Policies(states[2].observed) - {name} != {}
  {
    var repository, policy := Repository(name, Some("")), PolicyName(digest, "");
    var first := State(repository, map[]);
    var second := State(repository, map[name := Existing(ReadyTrue, "")]);
    var third := State(repository, second.observed[policy := Existing(ReadyTrue, "")]);
    states := [first, second, third];
    PolicyNameHasPrefix(digest, "");
    assert policy in Policies(third.observed) - {name};
    assert Policies(second.observed) == {};
    assert IsWellNamed(repository);
    hide *;
    RepositoryIsCreated(digest, repository);
    PolicyIsCreated(digest, repository, second);
    RunOfThree(digest, first, second, third);
  }

  /** With a name that takes the key of a policy, the very first round creates that policy. */
  lemma RunOfMatchedPolicy(digest: Digest, name: string) returns (states: seq<State>)
    requires IsKubernetesName(name) && MatchesAPolicy(digest, name)
    ensures IsRun(digest, states) && |states| == 2 && states[0].repository.name == name
    ensures states[0].observed == map[] && Policies(states[1].observed) - {name} != {}
  {
    hide Matches;
    hide IsKubernetesName;
    var text :| PolicyName(digest, text) != name && Matches(name, PolicyName(digest, text));
    var repository, policy := Repository(name, Some(text)), PolicyName(digest, text);
    var first := State(repository, map[]);
    var second := State(repository, first.observed[policy := Existing(ReadyTrue, text)]);
    states := [first, second];
    PolicyNameHasPrefix(digest, text);
    assert policy in Policies(second.observed) - {name};
    assert Policies(first.observed) == {};
    hide *;
    PolicyIsCreated(digest, repository, first);
    RunOfTwo(digest, first, second);
  }

  /** A policy can come to exist exactly when the repository is not itself named like one, or its name, as a
      pattern, takes the key of one. */
  lemma PolicyIsPossibleExactly(digest: Digest, name: string)
    requires IsKubernetesName(name)
    ensures SomeRunCreatesAPolicy(digest, name) <==> !(POLICY_PREFIX <= name) || MatchesAPolicy(digest, name)
  {
    hide IsKubernetesName;
    hide IsRun;
    hide MatchesAPolicy;
    if !(POLICY_PREFIX <= name) {
      var states := RunWithPolicy(digest, name);
    } else if MatchesAPolicy(digest, name) {
      var states := RunOfMatchedPolicy(digest, name);
    } else {
      forall states: seq<State>, r: nat | IsRun(digest, states) && r < |states| && states[0].repository.name == name
        ensures Policies(states[r].observed) - {name} == {}
      {
        NoPolicyForPrefixedName(digest, states, r);
      }
    }
  }

  // ---- The order of the two steps ----

  ghost predicate SeenReady(states: seq<State>, r: int, name: string)
    requires 0 <= r <= |states|
  {
    exists e :: 0 <= e < r && name in states[e].observed && states[e].observed[name].ready == ReadyTrue
  }

  ghost predicate PoliciesFollowRepository(states: seq<State>, name: string) {
    forall r, policy | 0 <= r < |states| && policy in Policies(states[r].observed) && policy != name ::
      SeenReady(states, r, name)
  }

  ghost predicate PoliciesAlwaysFollow(digest: Digest, name: string) {
    forall states: seq<State> | IsRun(digest, states) && states[0].repository.name == name ::
      PoliciesFollowRepository(states, name)
  }

  lemma CreatedPolicySawReady(digest: Digest, before: State, after: State, policy: string)
    requires IsKubernetesName(before.repository.name) && !MatchesAPolicy(digest, before.repository.name)
    requires RoundStep(digest, before, after)
    requires policy in after.observed && policy !in before.observed && policy != before.repository.name
    ensures before.repository.name in before.observed
    ensures before.observed[before.repository.name].ready == ReadyTrue
  {
    DesiredExactly(digest, before);
    assert policy in Generated(digest, before);
    GeneratedBesides(digest, before, policy);
    hide AdmittedNames;
    hide GeneratedObjects;
    hide IsKubernetesName;
    hide Matches;
    hide PolicyName;
  }

  lemma NewInStep(digest: Digest, before: State, after: State, key: string)
    requires Step(digest, before, after) && key in after.observed && key !in before.observed
    ensures RoundStep(digest, before, after)
  {
    hide RoundStep;
  }

  lemma NameStays(digest: Digest, before: State, after: State)
    requires Step(digest, before, after)
    ensures after.repository.name == before.repository.name
  {
    hide RoundStep;
    if RoundStep(digest, before, after) {
      RoundKeepsName(digest, before, after);
    }
  }

  lemma StepOfRun(digest: Digest, states: seq<State>, r: nat)
    requires IsRun(digest, states) && r < |states| - 1
    ensures Step(digest, states[r], states[r + 1])
  {
    hide Step;
  }

  lemma SeenByThen(states: seq<State>, e: nat, r: nat, name: string)
    requires e < r <= |states| && name in states[e].observed && states[e].observed[name].ready == ReadyTrue
    ensures SeenReady(states, r, name)
  {}

  lemma SeenLater(states: seq<State>, r: nat, name: string)
    requires r < |states| && SeenReady(states, r, name)
    ensures SeenReady(states, r + 1, name)
  {}

  lemma {:induction false} PolicyFollows(digest: Digest, states: seq<State>, r: nat, policy: string)
    requires IsRun(digest, states) && r < |states|
    requires IsKubernetesName(states[0].repository.name) && !MatchesAPolicy(digest, states[0].repository.name)
    ensures states[r].repository.name == states[0].repository.name
    ensures policy in states[r].observed && policy != states[0].repository.name ==>
      SeenReady(states, r, states[0].repository.name)
  {
    hide IsKubernetesName;
    hide MatchesAPolicy;
    hide Step;
    hide SeenReady;
    if r > 0 {
      PolicyFollows(digest, states, r - 1, policy);
      StepOfRun(digest, states, r - 1);
      NameStays(digest, states[r - 1], states[r]);
      if policy in states[r].observed && policy != states[0].repository.name {
        if policy in states[r - 1].observed {
          SeenLater(states, r - 1, states[0].repository.name);
        } else {
          NewInStep(digest, states[r - 1], states[r], policy);
          CreatedPolicySawReady(digest, states[r - 1], states[r], policy);
          SeenByThen(states, r - 1, r, states[0].repository.name);
        }
      }
    }
  }

  /** In every run a policy exists only after a round that saw the repository ready, exactly when the
      repository's name does not take the key of a policy. */
  lemma PoliciesAlwaysFollowExactly(digest: Digest, name: string)
    requires IsKubernetesName(name)
    ensures PoliciesAlwaysFollow(digest, name) <==> !MatchesAPolicy(digest, name)
  {
    hide IsKubernetesName;
    hide MatchesAPolicy;
    hide Step;
    if MatchesAPolicy(digest, name) {
      var states := RunOfMatchedPolicy(digest, name);
      var policy :| policy in Policies(states[1].observed) - {name};
      assert !SeenReady(states, 1, name);
      assert !PoliciesFollowRepository(states, name);
    } else {
      forall states: seq<State> | IsRun(digest, states) && states[0].repository.name == name
        ensures PoliciesFollowRepository(states, name)
      {
        forall r, policy | 0 <= r < |states| && policy in Policies(states[r].observed) && policy != name
          ensures SeenReady(states, r, name)
        {
          PolicyFollows(digest, states, r, policy);
        }
      }
    }
  }

  /** Every policy has such names: its key with a dot for the first hyphen, and, named like a policy itself, its
      key with a dot for the last digit. */
  lemma DottedNamesTakePolicies(digest: Digest, policy: string)
    ensures var key := PolicyName(digest, policy);
      var early, late := key[9 := '.'], key[|key| - 1 := '.'];
      && IsKubernetesName(early) && !(POLICY_PREFIX <= early) && MatchesAPolicy(digest, early)
      && IsKubernetesName(late) && POLICY_PREFIX <= late && MatchesAPolicy(digest, late)
  {
    var key := PolicyName(digest, policy);
    KeyIsPlain(digest, policy);
    var early, late := key[9 := '.'], key[|key| - 1 := '.'];
    assert early[9] != POLICY_PREFIX[9];
    DottedTakes(digest, policy, 9);
    DottedTakes(digest, policy, |key| - 1);
    hide MatchesAPolicy;
    assert late[..17] == key[..17] == POLICY_PREFIX;
  }

  lemma PrefixText()
    ensures |POLICY_PREFIX| == 17 && POLICY_PREFIX[9] == '-' && IsPlain(POLICY_PREFIX)
  {}

  lemma KeyIsPlain(digest: Digest, policy: string)
    ensures var key := PolicyName(digest, policy);
      |key| == 25 && key[..17] == POLICY_PREFIX && IsPlain(key) && POLICY_PREFIX[9] == '-' && |POLICY_PREFIX| == 17
  {
    PrefixText();
    var hex: string := digest(policy);
    assert forall i :: 0 <= i < |hex| ==> IsHex(hex[i]);
    hide POLICY_PREFIX;
  }

  lemma DottedTakes(digest: Digest, policy: string, i: nat)
    requires i < |PolicyName(digest, policy)| && IsPlain(PolicyName(digest, policy))
    ensures IsKubernetesName(PolicyName(digest, policy)[i := '.'])
    ensures MatchesAPolicy(digest, PolicyName(digest, policy)[i := '.'])
  {
    var key := PolicyName(digest, policy);
    var name := key[i := '.'];
    hide PolicyName;
    assert name[i] == '.' && name != key;
    KubernetesNameMatches(name, key);
    hide Matches;
  }
}
