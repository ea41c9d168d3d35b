/** Whole runs of the sequencer: a round of the function, then any steps of the environment. */
module SequencingRuns {
  import opened Sequencing

  /** What one round reads: the generated names and the observed resources. */
  datatype Round = Round(generated: set<string>, observed: Observed)

  /** Between two rounds anything may be deleted and readiness may change at will; only what the round
      admitted is created. */
  ghost predicate EnvironmentStep(sequence: Sequence, before: Round, after: Round) {
    after.observed.Keys <= before.observed.Keys + AdmittedNames(sequence, before.generated, before.observed)
  }

  ghost predicate IsRun(sequence: Sequence, rounds: seq<Round>) {
    && (rounds != [] ==> rounds[0].observed == map[])
    && forall r :: 0 <= r < |rounds| - 1 ==> EnvironmentStep(sequence, rounds[r], rounds[r + 1])
  }

  predicate Inhabited(sequence: Sequence, i: int, generated: set<string>)
    requires 0 <= i < |sequence.steps|
  {
    exists name :: name in generated && InStep(sequence, i, name)
  }

  /** No step without generated resources lies between two steps that have some. */
  predicate NoGap(sequence: Sequence, generated: set<string>) {
    forall i, j, k | 0 <= i < j < k < |sequence.steps|
      && Inhabited(sequence, i, generated) && Inhabited(sequence, k, generated) :: Inhabited(sequence, j, generated)
  }

  predicate DisjointOn(sequence: Sequence, generated: set<string>) {
    forall i, j, name | 0 <= i < |sequence.steps| && 0 <= j < |sequence.steps| && name in generated
      && InStep(sequence, i, name) && InStep(sequence, j, name) :: i == j
  }

  ghost predicate ReadyBefore(sequence: Sequence, rounds: seq<Round>, r: int, j: int)
    requires 0 <= r <= |rounds| && 0 <= j < |sequence.steps|
  {
    exists e :: 0 <= e < r && StepReady(sequence, j, rounds[e].generated, rounds[e].observed)
  }

  /** A resource of step `k` exists only if every earlier step was observed ready in an earlier round. */
  lemma {:induction false} CreationFollowsSteps(sequence: Sequence, rounds: seq<Round>, r: int, j: int, k: int, name: string)
    requires IsRun(sequence, rounds)
    requires forall e :: 0 <= e < |rounds| ==>
      NoGap(sequence, rounds[e].generated) && DisjointOn(sequence, rounds[e].generated)
    requires 0 <= r < |rounds| && 0 <= j < k < |sequence.steps|
    requires name in rounds[r].observed && InStep(sequence, k, name)
    ensures ReadyBefore(sequence, rounds, r, j)
    decreases r
  {
    var last := rounds[r - 1];
    assert EnvironmentStep(sequence, rounds[r - 1], rounds[r - 1 + 1]);
    if name in last.observed {
      CreationFollowsSteps(sequence, rounds, r - 1, j, k, name);
    } else {
      assert Admitted(sequence, last.generated, last.observed, name);
      assert Sequenced(sequence, name);
      var i :| 0 <= i < |sequence.steps| && InStep(sequence, i, name)
        && GateOpen(sequence, i, last.generated, last.observed);
      assert i == k && StepReady(sequence, k - 1, last.generated, last.observed);
      if j < k - 1 {
        if Inhabited(sequence, k - 1, last.generated) {
          var member :| member in last.generated && InStep(sequence, k - 1, member);
          CreationFollowsSteps(sequence, rounds, r - 1, j, k - 1, member);
        } else {
          assert Inhabited(sequence, k, last.generated) && !Inhabited(sequence, j, last.generated);
          assert StepReady(sequence, j, last.generated, last.observed);
        }
      }
    }
  }

  ghost predicate OrderedRun(sequence: Sequence, rounds: seq<Round>) {
    forall r, j, k, name | 0 <= r < |rounds| && 0 <= j < k < |sequence.steps|
      && name in rounds[r].observed && InStep(sequence, k, name) :: ReadyBefore(sequence, rounds, r, j)
  }

  ghost predicate GeneratesOnly(rounds: seq<Round>, generated: set<string>) {
    forall r :: 0 <= r < |rounds| ==> rounds[r].generated == generated
  }

  ghost predicate OrderedInEveryRun(sequence: Sequence, generated: set<string>) {
    forall rounds :: IsRun(sequence, rounds) && GeneratesOnly(rounds, generated) ==> OrderedRun(sequence, rounds)
  }

  lemma GapHasAnEnd(sequence: Sequence, generated: set<string>, j: int, k: int) returns (p: int)
    requires 0 <= j < k < |sequence.steps|
    requires !Inhabited(sequence, j, generated) && Inhabited(sequence, k, generated)
    ensures j < p <= k && !Inhabited(sequence, p - 1, generated) && Inhabited(sequence, p, generated)
  {
    p := j + 1;
    while !Inhabited(sequence, p, generated)
      invariant j < p <= k && !Inhabited(sequence, p - 1, generated)
      decreases k - p
    {
      p := p + 1;
    }
  }

  // A step without generated resources counts as ready, so the step behind it is admitted at once.
  lemma GapBreaksOrder(sequence: Sequence, generated: set<string>) returns (rounds: seq<Round>)
    requires DisjointOn(sequence, generated) && !NoGap(sequence, generated)
    ensures IsRun(sequence, rounds) && GeneratesOnly(rounds, generated) && !OrderedRun(sequence, rounds)
  {
    var i, j, k :| 0 <= i < j < k < |sequence.steps| && Inhabited(sequence, i, generated)
      && Inhabited(sequence, k, generated) && !Inhabited(sequence, j, generated);
    var p := GapHasAnEnd(sequence, generated, j, k);
    var name :| name in generated && InStep(sequence, p, name);
    var start, next := Round(generated, map[]), Round(generated, map[name := ReadyFalse]);
    rounds := [start, next];
    assert EnvironmentStep(sequence, start, next) by {
      assert StepReady(sequence, p - 1, generated, start.observed);
      assert GateOpen(sequence, p, generated, start.observed);
      assert Admitted(sequence, generated, start.observed, name);
    }
    assert GeneratesOnly(rounds, generated);
    var member :| member in generated && InStep(sequence, i, member);
    assert !StepReady(sequence, i, generated, start.observed);
    assert !ReadyBefore(sequence, rounds, 1, i);
    assert name in rounds[1].observed && InStep(sequence, p, name);
  }

  /** For a fixed set of generated resources in disjoint steps, every run respects the order of the steps
      exactly when no empty step lies between two inhabited ones. */
  lemma OrderHoldsExactlyWithoutGaps(sequence: Sequence, generated: set<string>)
    requires DisjointOn(sequence, generated)
    ensures OrderedInEveryRun(sequence, generated) <==> NoGap(sequence, generated)
  {
    if NoGap(sequence, generated) {
      forall rounds: seq<Round> | IsRun(sequence, rounds) && GeneratesOnly(rounds, generated)
        ensures OrderedRun(sequence, rounds)
      {
        forall r: int, j: int, k: int, name: string | 0 <= r < |rounds| && 0 <= j < k < |sequence.steps|
          && name in rounds[r].observed && InStep(sequence, k, name)
          ensures ReadyBefore(sequence, rounds, r, j)
        {
          CreationFollowsSteps(sequence, rounds, r, j, k, name);
        }
      }
    } else {
      var rounds := GapBreaksOrder(sequence, generated);
    }
  }

  // ---- Progress ----

  /** While every observed generated resource is ready and some generated one is missing, the round admits
      a resource that does not exist yet. */
  lemma RoundMakesProgress(sequence: Sequence, generated: set<string>, observed: Observed)
    requires forall name :: name in generated && name in observed ==> observed[name] == ReadyTrue
    requires !(generated <= observed.Keys)
    ensures AdmittedNames(sequence, generated, observed) - observed.Keys != {}
  {
    var missing :| missing in generated && missing !in observed;
    if Sequenced(sequence, missing) {
      var i := FirstStepMissing(sequence, generated, observed, missing);
      var name :| name in generated && InStep(sequence, i, name) && name !in observed;
      if i > 0 {
        assert !Misses(sequence, i - 1, generated, observed);
        assert StepReady(sequence, i - 1, generated, observed);
      }
      assert Admitted(sequence, generated, observed, name);
      assert name in AdmittedNames(sequence, generated, observed) - observed.Keys;
    } else {
      assert missing in AdmittedNames(sequence, generated, observed) - observed.Keys;
    }
  }

  predicate Misses(sequence: Sequence, i: int, generated: set<string>, observed: Observed)
    requires 0 <= i < |sequence.steps|
  {
    exists name :: name in generated && InStep(sequence, i, name) && name !in observed
  }

  lemma FirstStepMissing(sequence: Sequence, generated: set<string>, observed: Observed, missing: string)
    returns (i: int)
    requires missing in generated && missing !in observed && Sequenced(sequence, missing)
    ensures 0 <= i < |sequence.steps| && Misses(sequence, i, generated, observed)
    ensures forall j :: 0 <= j < i ==> !Misses(sequence, j, generated, observed)
  {
    var bound :| 0 <= bound < |sequence.steps| && InStep(sequence, bound, missing);
    i := 0;
    while !Misses(sequence, i, generated, observed)
      invariant 0 <= i <= bound
      invariant forall j :: 0 <= j < i ==> !Misses(sequence, j, generated, observed)
      decreases bound - i
    {
      i := i + 1;
    }
  }

  /** An environment that brings up everything a round admitted before the next one. */
  ghost predicate Cooperates(sequence: Sequence, before: Round, after: Round) {
    forall name :: name in AdmittedNames(sequence, before.generated, before.observed) ==>
      name in after.observed && after.observed[name] == ReadyTrue
  }

  ghost predicate IsCooperativeRun(sequence: Sequence, rounds: seq<Round>) {
    forall r :: 0 <= r < |rounds| - 1 ==> Cooperates(sequence, rounds[r], rounds[r + 1])
  }

  /** In no step, or in one of the first `r`. */
  predicate UpTo(sequence: Sequence, r: int, name: string) {
    !Sequenced(sequence, name) || exists i :: 0 <= i < |sequence.steps| && i < r && InStep(sequence, i, name)
  }

  predicate UpBy(sequence: Sequence, generated: set<string>, observed: Observed, r: int) {
    forall name | name in generated && UpTo(sequence, r, name) :: name in observed && observed[name] == ReadyTrue
  }

  lemma {:induction false} StepsComeUpInTurn(sequence: Sequence, generated: set<string>, rounds: seq<Round>, r: int)
    requires IsCooperativeRun(sequence, rounds) && GeneratesOnly(rounds, generated)
    requires 1 <= r < |rounds|
    ensures UpBy(sequence, generated, rounds[r].observed, r)
  {
    var before := rounds[r - 1].observed;
    assert Cooperates(sequence, rounds[r - 1], rounds[r - 1 + 1]);
    if r > 1 {
      StepsComeUpInTurn(sequence, generated, rounds, r - 1);
    }
    forall name | name in generated && UpTo(sequence, r, name)
      ensures name in AdmittedNames(sequence, generated, before)
    {
      if Sequenced(sequence, name) {
        var i :| 0 <= i < |sequence.steps| && i < r && InStep(sequence, i, name);
        assert i == r - 1 && r > 1 ==> StepReady(sequence, i - 1, generated, before);
      }
    }
  }

  /** From any start, after as many cooperative rounds as there are steps (one when there is none) everything
      generated exists, is ready and is desired. */
  lemma CooperativeRunCompletes(sequence: Sequence, generated: set<string>, rounds: seq<Round>)
    requires IsCooperativeRun(sequence, rounds) && GeneratesOnly(rounds, generated)
    requires |rounds| > |sequence.steps| && |rounds| > 1
    ensures var r := if sequence.steps == [] then 1 else |sequence.steps|;
      && (forall name :: name in generated ==> name in rounds[r].observed && rounds[r].observed[name] == ReadyTrue)
      && AdmittedNames(sequence, generated, rounds[r].observed) == generated
  {
    var r := if sequence.steps == [] then 1 else |sequence.steps|;
    StepsComeUpInTurn(sequence, generated, rounds, r);
    forall name | name in generated && Sequenced(sequence, name)
      ensures UpTo(sequence, r, name)
    {
      var i :| 0 <= i < |sequence.steps| && InStep(sequence, i, name);
    }
  }
}
