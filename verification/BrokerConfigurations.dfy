/** The replacement of RabbitMQ broker configurations: functions/mq/service/rabbitmq_broker.go and
    functions/mq/group.go. A configuration the broker still runs on is kept until it reports the new one. */
module BrokerConfigurations {
  import opened NameCanonicaliser
  import opened Patterns
  import opened Sequencing

  const CREDENTIALS_KEY := "credentials"

  /** The part of a broker's spec that decides about configurations; an absent version is empty. */
  datatype Broker = Broker(name: string, hash: string, public: bool, engineVersion: string, configured: bool)

  datatype Kind = Configuration | OtherKind

  /** An observed resource; absent fields read as empty. */
  datatype Existing = Existing(ready: Ready, kind: Kind, externalName: string, appliedId: string)

  type Observations = map<string, Existing>

  function Readiness(observed: Observations): Observed {
    map name | name in observed :: observed[name].ready
  }

  function BrokerKey(broker: Broker): string {
    FullName(broker.name + "-broker-" + broker.hash)
  }

  /** Scoped to the version, whose dots become hyphens: the version of a configuration is immutable. */
  function ConfigurationKey(broker: Broker): string {
    FullName(broker.name + "-config-" + Dashed(broker.engineVersion) + "-" + broker.hash)
  }

  function SecurityGroupKeys(broker: Broker): seq<string> {
    [FullName(broker.name + "-sg-" + broker.hash),
     FullName(broker.name + "-sg-ingress-" + broker.hash),
     FullName(broker.name + "-sg-console-ingress-" + broker.hash),
     FullName(broker.name + "-sg-mgmt-ingress-" + broker.hash),
     FullName(broker.name + "-sg-egress-" + broker.hash)]
  }

  // ---- The generated configurations ----

  function AppliedId(broker: Broker, observed: Observations): string {
    if BrokerKey(broker) in observed then observed[BrokerKey(broker)].appliedId else ""
  }

  predicate SwitchedTo(broker: Broker, observed: Observations, key: string) {
    AppliedId(broker, observed) != "" && key in observed && observed[key].externalName == AppliedId(broker, observed)
  }

  function KeptKeys(broker: Broker, observed: Observations): set<string> {
    if SwitchedTo(broker, observed, ConfigurationKey(broker)) then {}
    else set key | key in observed && observed[key].kind == Configuration && key != ConfigurationKey(broker)
  }

  function ConfigurationKeys(broker: Broker, observed: Observations): set<string> {
    if broker.configured then {ConfigurationKey(broker)} + KeptKeys(broker, observed) else {}
  }

  function OtherKeys(broker: Broker): set<string> {
    {CREDENTIALS_KEY, BrokerKey(broker)}
    + (if broker.public then {} else set key | key in SecurityGroupKeys(broker))
  }

  function GeneratedKeys(broker: Broker, observed: Observations): set<string> {
    ConfigurationKeys(broker, observed) + OtherKeys(broker)
  }

  method BrokerSwitchedToConfiguration(broker: Broker, observed: Observations, key: string) returns (switched: bool)
    ensures switched <==> SwitchedTo(broker, observed, key)
  {
    hide BrokerKey;
    if BrokerKey(broker) !in observed {
      return false;
    }
    var appliedId := observed[BrokerKey(broker)].appliedId;
    if appliedId == "" {
      return false;
    }
    if key !in observed {
      return false;
    }
    return observed[key].externalName == appliedId;
  }

  method KeepStaleConfigurations(broker: Broker, observed: Observations) returns (kept: set<string>)
    ensures kept == KeptKeys(broker, observed)
  {
    hide ConfigurationKey;
    hide SwitchedTo;
    kept := {};
    var current := ConfigurationKey(broker);
    var switched := BrokerSwitchedToConfiguration(broker, observed, current);
    if switched {
      return;
    }
    var todo := observed.Keys;
    while todo != {}
      invariant todo <= observed.Keys
      invariant kept == set key |
        key in observed && key !in todo && observed[key].kind == Configuration && key != current
      decreases todo
    {
      var key :| key in todo;
      todo := todo - {key};
      if key == current || observed[key].kind != Configuration {
        continue;
      }
      kept := kept + {key};
    }
  }

  method Generate(broker: Broker, observed: Observations) returns (desired: set<string>)
    ensures desired == GeneratedKeys(broker, observed)
  {
    hide SecurityGroupKeys;
    hide KeptKeys;
    desired := {};
    if !broker.public {
      desired := desired + set key | key in SecurityGroupKeys(broker);
    }
    desired := desired + {CREDENTIALS_KEY};
    if broker.configured {
      desired := desired + {ConfigurationKey(broker)};
      var kept := KeepStaleConfigurations(broker, observed);
      desired := desired + kept;
    }
    desired := desired + {BrokerKey(broker)};
  }

  /** A configuration the broker reports as applied. */
  predicate InUse(broker: Broker, observed: Observations, key: string)
    requires key in observed
  {
    observed[key].kind == Configuration && SwitchedTo(broker, observed, key)
  }

  predicate IdsAreUnique(observed: Observations) {
    forall a, b | a in observed && b in observed && observed[a].kind == Configuration && observed[b].kind == Configuration
      && observed[a].externalName == observed[b].externalName != "" :: a == b
  }

  /** With unique ids, the configuration in use is generated while one is set. */
  lemma InUseIsKept(broker: Broker, observed: Observations, key: string)
    requires broker.configured && key in observed && InUse(broker, observed, key)
    requires ConfigurationKey(broker) in observed ==> observed[ConfigurationKey(broker)].kind == Configuration
    requires IdsAreUnique(observed)
    ensures key in ConfigurationKeys(broker, observed)
  {
    hide ConfigurationKey;
    hide BrokerKey;
  }

  /** Once the broker reports the current configuration, no other is generated; until then all are. */
  lemma OthersDroppedOnceSwitched(broker: Broker, observed: Observations)
    requires broker.configured
    ensures ConfigurationKeys(broker, observed) == {ConfigurationKey(broker)} <==>
      || SwitchedTo(broker, observed, ConfigurationKey(broker))
      || forall key :: key in observed && observed[key].kind == Configuration ==> key == ConfigurationKey(broker)
  {
    hide SwitchedTo;
    hide ConfigurationKey;
    if ConfigurationKeys(broker, observed) == {ConfigurationKey(broker)}
      && !SwitchedTo(broker, observed, ConfigurationKey(broker))
    {
      forall key | key in observed && observed[key].kind == Configuration
        ensures key == ConfigurationKey(broker)
      {
        assert key != ConfigurationKey(broker) ==> key in ConfigurationKeys(broker, observed);
      }
    }
  }

  // ---- The steps ----

  /** The first group, extended in the order of the source. */
  method GetSequence(broker: Broker) returns (sequence: Sequence)
    ensures sequence == BrokerSequence(broker)
  {
    hide SecurityGroupKeys;
    var firstGroup := [CREDENTIALS_KEY];
    if !broker.public {
      firstGroup := SecurityGroupKeys(broker) + firstGroup;
    }
    if broker.configured {
      firstGroup := firstGroup + [ConfigurationKey(broker)];
    }
    assert firstGroup == FirstGroup(broker);
    sequence := Sequence(true, [firstGroup, [BrokerKey(broker)]]);
  }

  function FirstGroup(broker: Broker): seq<string> {
    (if broker.public then [] else SecurityGroupKeys(broker)) + [CREDENTIALS_KEY]
    + (if broker.configured then [ConfigurationKey(broker)] else [])
  }

  function BrokerSequence(broker: Broker): Sequence {
    Sequence(true, [FirstGroup(broker), [BrokerKey(broker)]])
  }

  lemma FullNameIsLabel(s: string)
    ensures IsLabel(FullName(s))
  {
    CanonicalIsLabel(ToLower(s), FULL_NAME_LIMIT);
  }

  lemma CredentialsKeyIsLabel()
    ensures IsLabel(CREDENTIALS_KEY)
  {}

  lemma SecurityGroupKeysAreLabels(broker: Broker, i: int)
    requires 0 <= i < 5
    ensures IsLabel(SecurityGroupKeys(broker)[i])
  {
    hide IsLabel;
    hide FullName;
    FullNameIsLabel(broker.name + "-sg-" + broker.hash);
    FullNameIsLabel(broker.name + "-sg-ingress-" + broker.hash);
    FullNameIsLabel(broker.name + "-sg-console-ingress-" + broker.hash);
    FullNameIsLabel(broker.name + "-sg-mgmt-ingress-" + broker.hash);
    FullNameIsLabel(broker.name + "-sg-egress-" + broker.hash);
  }

  lemma FirstGroupIsLabels(broker: Broker, key: string)
    requires key in FirstGroup(broker)
    ensures IsLabel(key)
  {
    hide IsLabel;
    CredentialsKeyIsLabel();
    FullNameIsLabel(broker.name + "-config-" + Dashed(broker.engineVersion) + "-" + broker.hash);
    forall i | 0 <= i < 5
      ensures IsLabel(SecurityGroupKeys(broker)[i])
    {
      SecurityGroupKeysAreLabels(broker, i);
    }
    hide FullName;
    hide BrokerKey;
    assert |SecurityGroupKeys(broker)| == 5;
    hide SecurityGroupKeys;
  }

  /** The steps take exactly the names they list. */
  lemma StepsOfBroker(broker: Broker, name: string)
    ensures InStep(BrokerSequence(broker), 0, name) <==> name in FirstGroup(broker)
    ensures InStep(BrokerSequence(broker), 1, name) <==> name == BrokerKey(broker)
  {
    forall key | key in FirstGroup(broker)
      ensures Matches(key, name) <==> name == key
    {
      FirstGroupIsLabels(broker, key);
      NormalisedNameMatchesItself(key, name);
    }
    FullNameIsLabel(broker.name + "-broker-" + broker.hash);
    NormalisedNameMatchesItself(BrokerKey(broker), name);
    hide Matches;
    hide IsLabel;
    hide FirstGroup;
    hide BrokerKey;
    var steps := BrokerSequence(broker).steps;
    assert steps[0] == FirstGroup(broker) && steps[1] == [BrokerKey(broker)] && steps[1][0] == BrokerKey(broker);
  }

  lemma KeysDiffer(name: string, a: string, b: string)
    requires a != "" && b != "" && IsLetter(a[0]) && IsLetter(b[0]) && a[0] != b[0]
    requires HasRoom(name)
    ensures FullName(name + "-" + a) != FullName(name + "-" + b)
  {
    LetterAfterStem(name, a);
    LetterAfterStem(name, b);
    hide FullName;
    hide Stem;
    hide ToLower;
  }

  lemma BrokerIsNotCredentials(broker: Broker)
    requires HasRoom(broker.name)
    ensures BrokerKey(broker) != CREDENTIALS_KEY
  {
    var suffix, stem := "broker-" + broker.hash, Stem(ToLower(broker.name));
    assert broker.name + "-" + suffix == broker.name + "-broker-" + broker.hash;
    LetterAfterStem(broker.name, suffix);
    assert stem != "" ==> stem[|stem| - 1] == '-';
    assert forall i :: 0 <= i < |CREDENTIALS_KEY| ==> CREDENTIALS_KEY[i] != '-';
    assert CREDENTIALS_KEY[0] == 'c';
    hide FullName;
    hide Stem;
    hide ToLower;
    var key := BrokerKey(broker);
    assert stem != "" ==> key[|stem| - 1] == key[..|stem|][|stem| - 1] == '-';
    assert stem == "" ==> key[0] == 'b';
  }

  lemma BrokerIsNoSecurityGroup(broker: Broker, i: int)
    requires HasRoom(broker.name) && 0 <= i < 5
    ensures SecurityGroupKeys(broker)[i] != BrokerKey(broker)
  {
    hide FullName;
    var name, hash := broker.name, broker.hash;
    var suffix := ["sg-", "sg-ingress-", "sg-console-ingress-", "sg-mgmt-ingress-", "sg-egress-"][i] + hash;
    assert suffix[0] == 's' && ("broker-" + hash)[0] == 'b';
    SuffixedKeys(broker, i);
    KeysDiffer(name, suffix, "broker-" + hash);
  }

  lemma SuffixedKeys(broker: Broker, i: int)
    requires 0 <= i < 5
    ensures var part := ["sg-", "sg-ingress-", "sg-console-ingress-", "sg-mgmt-ingress-", "sg-egress-"][i];
      SecurityGroupKeys(broker)[i] == FullName(broker.name + "-" + (part + broker.hash))
    ensures BrokerKey(broker) == FullName(broker.name + "-" + ("broker-" + broker.hash))
  {
    hide FullName;
    var name, hash := broker.name, broker.hash;
    assert name + "-" + ("broker-" + hash) == name + "-broker-" + hash;
    assert name + "-" + ("sg-" + hash) == name + "-sg-" + hash;
    assert name + "-" + ("sg-ingress-" + hash) == name + "-sg-ingress-" + hash;
    assert name + "-" + ("sg-console-ingress-" + hash) == name + "-sg-console-ingress-" + hash;
    assert name + "-" + ("sg-mgmt-ingress-" + hash) == name + "-sg-mgmt-ingress-" + hash;
    assert name + "-" + ("sg-egress-" + hash) == name + "-sg-egress-" + hash;
  }

  /** The broker and its configuration have different keys exactly when the name has room for a suffix. */
  lemma BrokerIsNoConfigurationExactly(broker: Broker)
    ensures ConfigurationKey(broker) != BrokerKey(broker) <==> HasRoom(broker.name)
  {
    hide FullName;
    hide Dashed;
    var name, hash, version := broker.name, broker.hash, Dashed(broker.engineVersion);
    var suffix := "config-" + version + "-" + hash;
    SuffixedKeys(broker, 0);
    assert name + "-" + suffix == name + "-config-" + version + "-" + hash;
    assert suffix[0] == 'c' && ("broker-" + hash)[0] == 'b';
    hide HasRoom;
    if HasRoom(name) {
      KeysDiffer(name, suffix, "broker-" + hash);
    } else {
      NamesWithoutRoom(name, suffix, "broker-" + hash);
    }
  }

  lemma BrokerIsNoneOfTheSecurityGroups(broker: Broker)
    requires HasRoom(broker.name)
    ensures BrokerKey(broker) !in SecurityGroupKeys(broker)
  {
    var keys := SecurityGroupKeys(broker);
    assert |keys| == 5;
    hide *;
    forall i | 0 <= i < 5
      ensures keys[i] != BrokerKey(broker)
    {
      BrokerIsNoSecurityGroup(broker, i);
    }
  }

  lemma InFirstGroup(broker: Broker, key: string)
    requires key in FirstGroup(broker)
    ensures key in SecurityGroupKeys(broker) || key == CREDENTIALS_KEY || key == ConfigurationKey(broker)
  {
    hide SecurityGroupKeys;
    hide ConfigurationKey;
    hide CREDENTIALS_KEY;
  }

  /** The broker is no member of the step before it, whatever its version and hash. */
  lemma BrokerIsApart(broker: Broker)
    requires HasRoom(broker.name)
    ensures BrokerKey(broker) !in FirstGroup(broker)
  {
    hide *;
    BrokerIsNotCredentials(broker);
    BrokerIsNoConfigurationExactly(broker);
    BrokerIsNoneOfTheSecurityGroups(broker);
    if BrokerKey(broker) in FirstGroup(broker) {
      InFirstGroup(broker, BrokerKey(broker));
    }
  }

  /** The key of the broker's configuration for some version. */
  ghost predicate IsConfigurationKey(broker: Broker, key: string) {
    exists version :: key == ConfigurationKey(broker.(engineVersion := version))
  }

  lemma ConfigurationKeyText(broker: Broker)
    ensures ConfigurationKey(broker)
         == FullName(broker.name + "-" + ("config-" + Dashed(broker.engineVersion) + "-" + broker.hash))
  {
    hide FullName;
    hide Dashed;
    assert broker.name + "-" + ("config-" + Dashed(broker.engineVersion) + "-" + broker.hash)
        == broker.name + "-config-" + Dashed(broker.engineVersion) + "-" + broker.hash;
  }

  lemma ConfigurationIsNotCredentials(broker: Broker)
    requires HasRoom(broker.name)
    ensures ConfigurationKey(broker) != CREDENTIALS_KEY
  {
    var suffix, stem := "config-" + Dashed(broker.engineVersion) + "-" + broker.hash, Stem(ToLower(broker.name));
    ConfigurationKeyText(broker);
    assert suffix[0] == 'c' && suffix[1] == 'o' && LowerChar('c') == 'c' && LowerChar('o') == 'o';
    assert stem != "" ==> stem[|stem| - 1] == '-';
    LetterAfterStem(broker.name, suffix);
    if stem == "" {
      SecondLetterAfterStem(broker.name, suffix);
    }
    assert forall i :: 0 <= i < |CREDENTIALS_KEY| ==> CREDENTIALS_KEY[i] != '-';
    assert CREDENTIALS_KEY[1] == 'r';
    hide FullName;
    hide Stem;
    hide ToLower;
    hide ConfigurationKey;
    var key := ConfigurationKey(broker);
    assert stem != "" ==> key[|stem| - 1] == key[..|stem|][|stem| - 1] == '-';
    assert stem == "" ==> key[1] == 'o';
  }

  lemma ConfigurationIsNoSecurityGroup(broker: Broker, i: int)
    requires HasRoom(broker.name) && 0 <= i < 5
    ensures SecurityGroupKeys(broker)[i] != ConfigurationKey(broker)
  {
    hide FullName;
    hide Dashed;
    var suffix := ["sg-", "sg-ingress-", "sg-console-ingress-", "sg-mgmt-ingress-", "sg-egress-"][i] + broker.hash;
    var config := "config-" + Dashed(broker.engineVersion) + "-" + broker.hash;
    assert suffix[0] == 's' && config[0] == 'c';
    SuffixedKeys(broker, i);
    ConfigurationKeyText(broker);
    KeysDiffer(broker.name, suffix, config);
  }

  lemma ConfigurationIsNoOtherKey(broker: Broker)
    requires HasRoom(broker.name)
    ensures ConfigurationKey(broker) !in OtherKeys(broker)
  {
    assert |SecurityGroupKeys(broker)| == 5;
    hide BrokerKey;
    hide SecurityGroupKeys;
    hide ConfigurationKey;
    ConfigurationIsNotCredentials(broker);
    BrokerIsNoConfigurationExactly(broker);
    forall i | 0 <= i < 5
      ensures SecurityGroupKeys(broker)[i] != ConfigurationKey(broker)
    {
      ConfigurationIsNoSecurityGroup(broker, i);
    }
  }

  /** No other resource of the broker has the key of a configuration, for any version. */
  lemma OtherKeysAreNoConfigurations(broker: Broker, key: string)
    requires HasRoom(broker.name) && key in OtherKeys(broker)
    ensures !IsConfigurationKey(broker, key)
  {
    hide ConfigurationKey;
    hide OtherKeys;
    forall version: string
      ensures key != ConfigurationKey(broker.(engineVersion := version))
    {
      SameOtherKeys(broker, version);
      ConfigurationIsNoOtherKey(broker.(engineVersion := version));
    }
  }

  lemma SameOtherKeys(broker: Broker, version: string)
    ensures OtherKeys(broker.(engineVersion := version)) == OtherKeys(broker)
  {
    hide FullName;
  }

  /** The resources the round desires. */
  function Desired(broker: Broker, observed: Observations): set<string> {
    AdmittedNames(BrokerSequence(broker), GeneratedKeys(broker, observed), Readiness(observed))
  }

  lemma FirstGroupIsGenerated(broker: Broker, observed: Observations, name: string)
    requires name in FirstGroup(broker)
    ensures name in GeneratedKeys(broker, observed)
  {
    hide SecurityGroupKeys;
    hide ConfigurationKey;
    hide BrokerKey;
    hide KeptKeys;
  }

  /** The broker is desired exactly when it exists or the security groups, the credentials and the current
      configuration are all ready; a kept configuration does not hold it back. */
  lemma BrokerDesiredExactly(broker: Broker, observed: Observations)
    requires HasRoom(broker.name)
    ensures BrokerKey(broker) in Desired(broker, observed) <==>
      || BrokerKey(broker) in observed
      || forall name :: name in FirstGroup(broker) ==> name in observed && observed[name].ready == ReadyTrue
  {
    BrokerIsApart(broker);
    var sequence, generated, key := BrokerSequence(broker), GeneratedKeys(broker, observed), BrokerKey(broker);
    forall name: string
      ensures InStep(sequence, 0, name) <==> name in FirstGroup(broker)
      ensures InStep(sequence, 1, name) <==> name == key
    {
      StepsOfBroker(broker, name);
    }
    forall name | name in FirstGroup(broker)
      ensures name in generated
    {
      FirstGroupIsGenerated(broker, observed, name);
    }
    assert key in generated;
    assert key in Desired(broker, observed) <==> Admitted(sequence, generated, Readiness(observed), key);
    assert |sequence.steps| == 2;
    hide GeneratedKeys;
    hide BrokerSequence;
    hide FirstGroup;
    hide BrokerKey;
    hide AdmittedNames;
    hide InStep;
    SecondStepAdmitted(sequence, generated, Readiness(observed), key);
  }

  lemma SecondStepAdmitted(sequence: Sequence, generated: set<string>, observed: Observed, key: string)
    requires |sequence.steps| == 2 && key in generated && !InStep(sequence, 0, key) && InStep(sequence, 1, key)
    ensures Admitted(sequence, generated, observed, key) <==> key in observed || StepReady(sequence, 0, generated, observed)
  {
    hide StepReady;
    hide InStep;
    assert GateOpen(sequence, 1, generated, observed) <==> StepReady(sequence, 0, generated, observed);
  }

  // ---- Runs ----

  datatype State = State(broker: Broker, observed: Observations)

  /** A round as Crossplane applies it: undesired resources are deleted and missing ones created, now or later;
      a created configuration has no id yet. */
  ghost predicate RoundStep(before: State, after: State) {
    var desired := Desired(before.broker, before.observed);
    && after.broker == before.broker
    && (forall key :: key in before.observed && key !in after.observed ==> key !in desired)
    && (forall key :: key in after.observed && key !in before.observed ==>
         && key in desired && after.observed[key].externalName == "" && after.observed[key].appliedId == ""
         && (key == ConfigurationKey(before.broker) ==> after.observed[key].kind == Configuration))
    && (forall key :: key in after.observed && key in before.observed ==>
         && after.observed[key].kind == before.observed[key].kind
         && after.observed[key].externalName == before.observed[key].externalName
         && after.observed[key].appliedId == before.observed[key].appliedId)
  }

  /** Between rounds: resources vanish (but not a configuration in use), AWS gives out unique ids and switches
      the broker as it likes. */
  ghost predicate EnvironmentStep(before: State, after: State) {
    && after.broker == before.broker
    && after.observed.Keys <= before.observed.Keys
    && (forall key :: key in before.observed && InUse(before.broker, before.observed, key) ==> key in after.observed)
    && (forall key :: key in after.observed ==>
         && after.observed[key].kind == before.observed[key].kind
         && (before.observed[key].externalName != "" ==>
               after.observed[key].externalName == before.observed[key].externalName))
    && IdsAreUnique(after.observed)
  }

  /** The user edits the spec; a configuration cannot be removed once it is set. */
  ghost predicate EditStep(before: State, after: State) {
    && after.broker.name == before.broker.name && after.broker.hash == before.broker.hash
    && (before.broker.configured ==> after.broker.configured)
    && after.observed == before.observed
  }

  ghost predicate Step(before: State, after: State) {
    after == before || RoundStep(before, after) || EnvironmentStep(before, after) || EditStep(before, after)
  }

  ghost predicate IsRun(states: seq<State>) {
    && states != []
    && states[0].observed == map[]
    && forall r :: 0 <= r < |states| - 1 ==> Step(states[r], states[r + 1])
  }

  /** Ids are unique, and what has the key of a configuration, of any version, is one. */
  ghost predicate Invariant(state: State) {
    && IdsAreUnique(state.observed)
    && forall key :: key in state.observed && IsConfigurationKey(state.broker, key) ==>
         state.observed[key].kind == Configuration
  }

  lemma RoundKeepsInvariant(before: State, after: State)
    requires Invariant(before) && RoundStep(before, after) && HasRoom(before.broker.name)
    ensures Invariant(after)
  {
    hide ConfigurationKey;
    hide BrokerKey;
    hide IsConfigurationKey;
    hide OtherKeys;
    hide BrokerSequence;
    hide SwitchedTo;
    forall key | key in after.observed && IsConfigurationKey(after.broker, key)
      ensures after.observed[key].kind == Configuration
    {
      if key !in before.observed && key in OtherKeys(before.broker) {
        OtherKeysAreNoConfigurations(before.broker, key);
      }
    }
  }

  lemma SameConfigurationKeys(a: Broker, b: Broker, key: string)
    requires a.name == b.name && a.hash == b.hash
    ensures IsConfigurationKey(a, key) <==> IsConfigurationKey(b, key)
  {
    forall version: string
      ensures ConfigurationKey(a.(engineVersion := version)) == ConfigurationKey(b.(engineVersion := version))
    {}
    hide ConfigurationKey;
  }

  lemma StepKeepsInvariant(before: State, after: State)
    requires Invariant(before) && Step(before, after) && HasRoom(before.broker.name)
    ensures Invariant(after) && after.broker.name == before.broker.name
  {
    hide RoundStep;
    hide IsConfigurationKey;
    hide Desired;
    hide BrokerKey;
    if RoundStep(before, after) {
      RoundKeepsInvariant(before, after);
      RoundKeepsBroker(before, after);
    } else {
      forall key
        ensures after.broker.name == before.broker.name && after.broker.hash == before.broker.hash
        ensures IsConfigurationKey(before.broker, key) <==> IsConfigurationKey(after.broker, key)
      {
        SameConfigurationKeys(before.broker, after.broker, key);
      }
    }
  }

  lemma RoundKeepsBroker(before: State, after: State)
    requires RoundStep(before, after)
    ensures after.broker == before.broker
  {
    hide Desired;
  }

  lemma {:induction false} RunKeepsInvariant(states: seq<State>, r: nat)
    requires IsRun(states) && r < |states| && HasRoom(states[0].broker.name)
    ensures Invariant(states[r]) && states[r].broker.name == states[0].broker.name
  {
    if r > 0 {
      hide Step;
      hide Invariant;
      RunKeepsInvariant(states, r - 1);
      assert Step(states[r - 1], states[r - 1 + 1]);
      StepKeepsInvariant(states[r - 1], states[r]);
    }
  }

  lemma InUseIsDesired(state: State, key: string)
    requires Invariant(state) && state.broker.configured
    requires key in state.observed && InUse(state.broker, state.observed, key)
    ensures key in Desired(state.broker, state.observed)
  {
    assert state.broker.(engineVersion := state.broker.engineVersion) == state.broker;
    assert IsConfigurationKey(state.broker, ConfigurationKey(state.broker));
    hide ConfigurationKey;
    hide BrokerKey;
    hide BrokerSequence;
    hide InUse;
    hide OtherKeys;
    InUseIsKept(state.broker, state.observed, key);
    ObservedIsKept(BrokerSequence(state.broker), GeneratedKeys(state.broker, state.observed), Readiness(state.observed));
  }

  /** In every run, while a configuration is set, every round desires the configuration that the broker
      reports as applied. */
  lemma ConfigurationInUseIsNeverDropped(states: seq<State>, r: nat, key: string)
    requires IsRun(states) && r < |states| && HasRoom(states[0].broker.name) && states[r].broker.configured
    requires key in states[r].observed && InUse(states[r].broker, states[r].observed, key)
    ensures key in Desired(states[r].broker, states[r].observed)
  {
    RunKeepsInvariant(states, r);
    InUseIsDesired(states[r], key);
  }

  predicate RunsOn(state: State, key: string) {
    key in state.observed && InUse(state.broker, state.observed, key)
  }

  function Reported(state: State): string { AppliedId(state.broker, state.observed) }

  lemma RoundKeepsInUse(before: State, after: State, key: string)
    requires RoundStep(before, after) && RunsOn(before, key) && key in Desired(before.broker, before.observed)
    requires Reported(after) == Reported(before)
    ensures RunsOn(after, key) && after.broker == before.broker
  {
    hide ConfigurationKey;
    hide BrokerKey;
    hide Desired;
  }

  lemma StepKeepsInUse(before: State, after: State, key: string)
    requires Invariant(before) && Step(before, after) && before.broker.configured && RunsOn(before, key)
    requires Reported(after) == Reported(before)
    ensures RunsOn(after, key) && after.broker.configured
  {
    hide ConfigurationKey;
    hide BrokerKey;
    hide Desired;
    hide RoundStep;
    hide IdsAreUnique;
    if RoundStep(before, after) {
      InUseIsDesired(before, key);
      RoundKeepsInUse(before, after, key);
    }
  }

  lemma StepOfRun(states: seq<State>, r: nat)
    requires IsRun(states) && r < |states| - 1
    ensures Step(states[r], states[r + 1])
  {
    hide Step;
  }

  ghost predicate ReportsThroughout(states: seq<State>, i: int, j: int, id: string)
    requires 0 <= i <= j < |states|
  {
    forall r :: i <= r <= j ==> Reported(states[r]) == id
  }

  lemma ReportsUntilThen(states: seq<State>, i: nat, j: nat, id: string)
    requires i < j < |states| && ReportsThroughout(states, i, j, id)
    ensures ReportsThroughout(states, i, j - 1, id) && Reported(states[j - 1]) == id == Reported(states[j])
  {
    hide Reported;
  }

  /** In every run, a configuration the broker has applied exists for as long as the broker reports it,
      through any version changes. */
  lemma {:induction false} ConfigurationInUseStays(states: seq<State>, i: nat, j: nat, key: string)
    requires IsRun(states) && i <= j < |states| && HasRoom(states[0].broker.name)
    requires states[i].broker.configured && RunsOn(states[i], key)
    requires ReportsThroughout(states, i, j, Reported(states[i]))
    ensures RunsOn(states[j], key) && states[j].broker.configured
  {
    hide *;
    if i < j {
      ReportsUntilThen(states, i, j, Reported(states[i]));
      ConfigurationInUseStays(states, i, j - 1, key);
      RunKeepsInvariant(states, j - 1);
      StepOfRun(states, j - 1);
      StepKeepsInUse(states[j - 1], states[j], key);
    }
  }
}
