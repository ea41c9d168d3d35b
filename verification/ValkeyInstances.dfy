/** The Valkey generator, the second user of the parameter-group protocol, behind its five steps:
    functions/database/service/valkey_instance.go and functions/database/group.go. */
module ValkeyInstances {
  import opened KindSequences
  import opened ParameterGroups
  import opened Patterns
  import opened Sequencing
  import SequencingRuns

  const REPLICATION_GROUP := "replication-group"
  const SECURITY_GROUP := "security-group"
  const MANAGED_SECRET := "secrets-manager-secret"
  const MANAGED_SECRET_VERSION := "secrets-manager-secret-version"
  const CREDENTIALS := "credentials"
  const RULE_PREFIX := "sg-ingress-"

  /** A rule for each compute subnet that has a CIDR block. */
  function RuleKeys(subnets: set<string>): set<string> {
    set subnet | subnet in subnets :: RULE_PREFIX + subnet
  }

  function OtherKeys(observed: Observations, subnets: set<string>): set<string> {
    {REPLICATION_GROUP, SECURITY_GROUP, MANAGED_SECRET} + RuleKeys(subnets)
    + (if CREDENTIALS in observed then {MANAGED_SECRET_VERSION} else {})
    + if REPLICATION_GROUP in observed && observed[REPLICATION_GROUP].connectable then {CREDENTIALS} else {}
  }

  function GeneratedKeys(request: Request, observed: Observations, subnets: set<string>): set<string> {
    GroupKeys(request, observed) + OtherKeys(observed, subnets)
  }

  predicate IsValkey(request: Request) { request.engine == Valkey && request.userKey == REPLICATION_GROUP }

  /** The keys of the generated objects, in the order of the source, and the group the replication group asks
      for. */
  method Generate(request: Request, observed: Observations, subnets: set<string>)
    returns (ok: bool, keys: set<string>, group: string)
    requires IsValkey(request)
    ensures ok <==> !Conflict(request)
    ensures ok ==> keys == GeneratedKeys(request, observed, subnets) && group == WantedGroup(request, observed)
  {
    hide ComputeFamily;
    hide GroupName;
    hide KeptKeys;
    keys, group := {}, "";
    var family := ComputeFamily(request.engine, request.engineVersion, VersionActual(request, observed));
    if request.parameters.Some? {
      if request.parameterGroupName != "" {
        return false, keys, group;
      }
      if family.Some? {
        group := GroupName(request, family.value);
        keys := keys + {Key(family.value)};
        var kept := KeepStaleParameterGroups(request, observed, family.value);
        keys := keys + kept;
      }
    }
    ok := true;
    if group == "" {
      if request.parameterGroupName != "" {
        group := request.parameterGroupName;
      } else if family.Some? {
        group := "default." + family.value;
      }
    }
    keys := keys + {REPLICATION_GROUP} + {SECURITY_GROUP} + RuleKeys(subnets) + {MANAGED_SECRET};
    if CREDENTIALS in observed {
      keys := keys + {MANAGED_SECRET_VERSION};
    }
    if REPLICATION_GROUP in observed && observed[REPLICATION_GROUP].connectable {
      keys := keys + {CREDENTIALS};
    }
  }

  function ValkeySequence(): Sequence { SequenceOf(Steps(ValkeyInstance)) }

  /** In every run of the protocol, the group the replication group has applied exists, and each round that
      keeps groups desires it. */
  lemma GroupInUseStaysDesired(states: seq<State>, r: nat, subnets: set<string>, family: string)
    requires IsRun(ValkeySequence(), states) && r < |states| && IsValkey(states[r].request)
    requires Applies(states[r], family)
    ensures Key(family) in states[r].observed
    ensures KeepsGroups(states[r]) ==>
      Key(family) in AdmittedNames(ValkeySequence(), GeneratedKeys(states[r].request, states[r].observed, subnets),
                                   Readiness(states[r].observed))
  {
    hide OtherKeys;
    hide AdmittedNames;
    hide IsRun;
    hide KeepsGroups;
    hide Applies;
    hide GroupKeys;
    hide ValkeySequence;
    AppliedGroupIsNeverDropped(ValkeySequence(), states, r, OtherKeys(states[r].observed, subnets), family);
  }

  // ---- Which steps have resources ----

  lemma FixedTaken()
    ensures |Steps(ValkeyInstance)| == 5
    ensures StepTakes(Steps(ValkeyInstance)[0], SECURITY_GROUP)
    ensures StepTakes(Steps(ValkeyInstance)[1], REPLICATION_GROUP)
    ensures StepTakes(Steps(ValkeyInstance)[3], MANAGED_SECRET)
  {
    assert Takes(Steps(ValkeyInstance)[0][0], SECURITY_GROUP);
    assert Takes(Steps(ValkeyInstance)[1][0], REPLICATION_GROUP);
    assert Takes(Steps(ValkeyInstance)[3][0], MANAGED_SECRET);
  }

  lemma RuleStep(s: string)
    ensures |Steps(ValkeyInstance)| == 5
    ensures StepTakes(Steps(ValkeyInstance)[2], s) <==> "sg-" <= s && OneLine(s[3..])
  {
    assert Takes(Steps(ValkeyInstance)[2][0], s) <==> "sg-" <= s && OneLine(s[3..]);
  }

  lemma RuleIsTaken(subnet: string)
    requires OneLine(subnet)
    ensures |Steps(ValkeyInstance)| == 5 && StepTakes(Steps(ValkeyInstance)[2], RULE_PREFIX + subnet)
  {
    var s := RULE_PREFIX + subnet;
    RuleStep(s);
    assert s[3..] == "ingress-" + subnet;
    assert OneLine("ingress-");
  }

  lemma GroupKeysStart(request: Request, observed: Observations, s: string)
    requires s in GroupKeys(request, observed)
    ensures At(s, 0, 'p')
  {
    assert KEY_PREFIX <= s;
    assert KEY_PREFIX[0] == 'p';
  }

  lemma OtherKeysStart(observed: Observations, subnets: set<string>, s: string)
    requires s in OtherKeys(observed, subnets) && At(s, 0, 's') && At(s, 1, 'g')
    ensures subnets != {}
  {
    assert SECURITY_GROUP[1] == 'e' && MANAGED_SECRET[1] == 'e' && MANAGED_SECRET_VERSION[1] == 'e';
    assert REPLICATION_GROUP[0] == 'r' && CREDENTIALS[0] == 'c';
  }

  lemma OnlyRulesAreTaken(request: Request, observed: Observations, subnets: set<string>, s: string)
    requires s in GeneratedKeys(request, observed, subnets) && "sg-" <= s
    ensures subnets != {}
  {
    assert s[0] == "sg-"[0] && s[1] == "sg-"[1];
    hide GroupKeys;
    hide OtherKeys;
    if s in OtherKeys(observed, subnets) {
      OtherKeysStart(observed, subnets, s);
    } else {
      GroupKeysStart(request, observed, s);
    }
  }

  lemma StepMembers(i: int, s: string)
    requires 0 <= i < 5
    ensures |ValkeySequence().steps| == 5 && |Steps(ValkeyInstance)| == 5
    ensures InStep(ValkeySequence(), i, s) <==> StepTakes(Steps(ValkeyInstance)[i], s)
  {
    FixedTaken();
    KindIsPlain(ValkeyInstance);
    hide Steps;
    InStepOfShapes(Steps(ValkeyInstance), i, s);
  }

  predicate AllOneLine(names: set<string>) {
    forall name :: name in names ==> OneLine(name)
  }

  lemma RuleOf(request: Request, observed: Observations, subnets: set<string>) returns (rule: string)
    requires subnets != {} && AllOneLine(subnets)
    ensures |ValkeySequence().steps| == 5
    ensures rule in GeneratedKeys(request, observed, subnets) && InStep(ValkeySequence(), 2, rule)
  {
    var subnet :| subnet in subnets;
    rule := RULE_PREFIX + subnet;
    RuleIsTaken(subnet);
    StepMembers(2, rule);
  }

  lemma InhabitedSteps(request: Request, observed: Observations, subnets: set<string>)
    requires AllOneLine(subnets)
    ensures |ValkeySequence().steps| == 5
    ensures var generated := GeneratedKeys(request, observed, subnets);
      && SequencingRuns.Inhabited(ValkeySequence(), 0, generated)
      && SequencingRuns.Inhabited(ValkeySequence(), 1, generated)
      && (SequencingRuns.Inhabited(ValkeySequence(), 2, generated) <==> subnets != {})
      && SequencingRuns.Inhabited(ValkeySequence(), 3, generated)
  {
    var generated := GeneratedKeys(request, observed, subnets);
    FixedTaken();
    StepMembers(0, SECURITY_GROUP);
    StepMembers(1, REPLICATION_GROUP);
    StepMembers(3, MANAGED_SECRET);
    assert SECURITY_GROUP in generated && REPLICATION_GROUP in generated && MANAGED_SECRET in generated;
    hide *;
    InhabitedBy(ValkeySequence(), 0, generated, SECURITY_GROUP);
    InhabitedBy(ValkeySequence(), 1, generated, REPLICATION_GROUP);
    InhabitedBy(ValkeySequence(), 3, generated, MANAGED_SECRET);
    if subnets != {} {
      var rule := RuleOf(request, observed, subnets);
      InhabitedBy(ValkeySequence(), 2, generated, rule);
    }
    if SequencingRuns.Inhabited(ValkeySequence(), 2, generated) {
      var s := Inhabitant(ValkeySequence(), 2, generated);
      StepMembers(2, s);
      RuleStep(s);
      OnlyRulesAreTaken(request, observed, subnets, s);
    }
  }

  lemma InhabitedBy(sequence: Sequence, i: int, generated: set<string>, name: string)
    requires 0 <= i < |sequence.steps| && name in generated && InStep(sequence, i, name)
    ensures SequencingRuns.Inhabited(sequence, i, generated)
  {
    hide InStep;
  }

  lemma Inhabitant(sequence: Sequence, i: int, generated: set<string>) returns (name: string)
    requires 0 <= i < |sequence.steps| && SequencingRuns.Inhabited(sequence, i, generated)
    ensures name in generated && InStep(sequence, i, name)
  {
    hide InStep;
    name :| name in generated && InStep(sequence, i, name);
  }

  lemma NoGapInFive(sequence: Sequence, generated: set<string>)
    requires |sequence.steps| == 5 && SequencingRuns.Inhabited(sequence, 0, generated)
    requires SequencingRuns.Inhabited(sequence, 1, generated) && SequencingRuns.Inhabited(sequence, 3, generated)
    ensures SequencingRuns.NoGap(sequence, generated) <==> SequencingRuns.Inhabited(sequence, 2, generated)
  {
    hide SequencingRuns.Inhabited;
  }

  lemma ValkeyStepsAreDisjoint(generated: set<string>)
    ensures SequencingRuns.DisjointOn(ValkeySequence(), generated)
  {
    KindStepsAreDisjoint(ValkeyInstance);
    hide Steps;
    hide InStep;
    hide NoOverlap;
    hide SequenceOf;
  }

  /** With the same resources generated in every round, the order of the steps is kept in every run exactly when
      some compute subnet has a rule: without one, the empty step lets the managed secret be created at once. */
  lemma OrderHoldsExactlyWithRules(request: Request, observed: Observations, subnets: set<string>)
    requires AllOneLine(subnets)
    ensures SequencingRuns.OrderedInEveryRun(ValkeySequence(), GeneratedKeys(request, observed, subnets))
       <==> subnets != {}
  {
    var generated := GeneratedKeys(request, observed, subnets);
    hide *;
    InhabitedSteps(request, observed, subnets);
    NoGapInFive(ValkeySequence(), generated);
    ValkeyStepsAreDisjoint(generated);
    SequencingRuns.OrderHoldsExactlyWithoutGaps(ValkeySequence(), generated);
  }

  /** What the rounds of an instance generate, whatever they observe, with a rule in each of them. */
  ghost predicate GeneratesWithRules(round: SequencingRuns.Round) {
    exists request: Request, observed: Observations, subnets: set<string> |
      subnets != {} && AllOneLine(subnets) ::
      round.generated == GeneratedKeys(request, observed, subnets)
  }

  /** In every run with rules, through any versions, observations and subnets, a resource of a step exists only
      after every earlier step was seen ready. */
  lemma CreationFollowsTheSteps(rounds: seq<SequencingRuns.Round>, r: int, j: int, k: int, name: string)
    requires SequencingRuns.IsRun(ValkeySequence(), rounds) && 0 <= r < |rounds|
    requires forall e :: 0 <= e < |rounds| ==> GeneratesWithRules(rounds[e])
    requires 0 <= j < k < |ValkeySequence().steps|
    requires name in rounds[r].observed && InStep(ValkeySequence(), k, name)
    ensures SequencingRuns.ReadyBefore(ValkeySequence(), rounds, r, j)
  {
    hide *;
    forall e | 0 <= e < |rounds|
      ensures SequencingRuns.NoGap(ValkeySequence(), rounds[e].generated)
      ensures SequencingRuns.DisjointOn(ValkeySequence(), rounds[e].generated)
    {
      NoGapWithRules(rounds[e]);
      ValkeyStepsAreDisjoint(rounds[e].generated);
    }
    SequencingRuns.CreationFollowsSteps(ValkeySequence(), rounds, r, j, k, name);
  }

  lemma NoGapWithRules(round: SequencingRuns.Round)
    requires GeneratesWithRules(round)
    ensures SequencingRuns.NoGap(ValkeySequence(), round.generated)
  {
    hide GeneratedKeys;
    hide ValkeySequence;
    hide AllOneLine;
    var request: Request, observed: Observations, subnets: set<string> :|
      subnets != {} && AllOneLine(subnets)
      && round.generated == GeneratedKeys(request, observed, subnets);
    InhabitedSteps(request, observed, subnets);
    NoGapInFive(ValkeySequence(), round.generated);
  }
}
