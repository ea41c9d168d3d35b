/** The steps of the kinds whose sequences are constant: GetSequence in functions/database/group.go,
    functions/tenancy/group.go and functions/queue/group.go. */
module KindSequences {
  import opened Patterns
  import opened Sequencing

  datatype Kind = PostgreSQLUser | MariaDbUser | PostgreSQLDatabase | MariaDbDatabase | ValkeyInstance | ZoneKind | KafkaUser

  function Steps(kind: Kind): seq<seq<Shape>> {
    match kind
    case PostgreSQLUser =>
      [[Exact("role")], [Prefix("grant-")], [Prefix("usage-grant-")], [Exact("instance-protection")]]
    case MariaDbUser =>
      [[Exact("user")], [Prefix("grant-")], [Prefix("usage-grant-")], [Prefix("db-protection-")],
       [Exact("instance-protection")]]
    case PostgreSQLDatabase =>
      [[Exact("grant-owner-to-dbadmin")], [Exact("postgresql-database")], [Prefix("extension-")], [Exact("grant-usage")],
       [Exact("owner-protection")], [Exact("instance-protection")]]
    case MariaDbDatabase => [[Exact("mariadb-database")], [Exact("instance-protection")]]
    case ValkeyInstance =>
      [[Exact("security-group"), Prefix("parameter-group-")], [Exact("replication-group")], [Prefix("sg-")],
       [Exact("secrets-manager-secret"), Exact("credentials")], [Exact("secrets-manager-secret-version")]]
    case ZoneKind =>
      [[Prefix("namespace-"), Prefix("launchtemplate-"), Prefix("kyverno-mutate-")],
       [Prefix("netpol-"), Prefix("role-"), Prefix("sidecar-"), Prefix("kyverno-validate-")],
       [Prefix("rbacrole-"), Prefix("rpa-"), Prefix("ae-"), Prefix("crb-")],
       [Prefix("rb-"), Prefix("nodepool-")]]
    case KafkaUser =>
      [[Prefix("k8s-secret-")], [Prefix("aws-secret-")], [Prefix("secret-version-")], [Prefix("secret-policy-")],
       [Prefix("scram-association-")], [Prefix("acl-")]]
  }

  function Texts(shapes: seq<Shape>): seq<string> {
    seq(|shapes|, j requires 0 <= j < |shapes| => shapes[j].Text())
  }

  function SequenceOf(steps: seq<seq<Shape>>): Sequence {
    Sequence(true, seq(|steps|, i requires 0 <= i < |steps| => Texts(steps[i])))
  }

  predicate StepTakes(shapes: seq<Shape>, s: string) {
    exists j :: 0 <= j < |shapes| && Takes(shapes[j], s)
  }

  predicate AllPlain(steps: seq<seq<Shape>>) {
    forall i, j :: 0 <= i < |steps| && 0 <= j < |steps[i]| ==> steps[i][j].Plain()
  }

  lemma InStepOfShapes(steps: seq<seq<Shape>>, i: int, s: string)
    requires AllPlain(steps) && 0 <= i < |steps|
    ensures InStep(SequenceOf(steps), i, s) <==> StepTakes(steps[i], s)
  {
    var texts := Texts(steps[i]);
    assert SequenceOf(steps).steps[i] == texts;
    forall j | 0 <= j < |steps[i]|
      ensures Matches(texts[j], s) <==> Takes(steps[i][j], s)
    {
      ShapeMatches(steps[i][j], s);
    }
    hide Matches;
    hide Takes;
    if StepTakes(steps[i], s) {
      var j :| 0 <= j < |steps[i]| && Takes(steps[i][j], s);
      assert texts[j] in SequenceOf(steps).steps[i];
    }
  }

  predicate NoOverlap(steps: seq<seq<Shape>>) {
    forall i, k, j, l | 0 <= i < |steps| && 0 <= k < |steps| && i != k && 0 <= j < |steps[i]| && 0 <= l < |steps[k]| ::
      !Overlap(steps[i][j], steps[k][l])
  }

  /** Steps share no member, over all strings, exactly when no two of their patterns overlap. */
  lemma DisjointExactly(steps: seq<seq<Shape>>)
    requires AllPlain(steps)
    ensures StepsAreDisjoint(SequenceOf(steps)) <==> NoOverlap(steps)
  {
    var sequence := SequenceOf(steps);
    forall i: int, s: string | 0 <= i < |steps|
      ensures InStep(sequence, i, s) <==> StepTakes(steps[i], s)
    {
      InStepOfShapes(steps, i, s);
    }
    assert |sequence.steps| == |steps|;
    hide InStep;
    hide SequenceOf;
    hide Overlap;
    if NoOverlap(steps) {
      forall i, k, s | 0 <= i < |steps| && 0 <= k < |steps| && InStep(sequence, i, s) && InStep(sequence, k, s)
        ensures i == k
      {
        var j :| 0 <= j < |steps[i]| && Takes(steps[i][j], s);
        var l :| 0 <= l < |steps[k]| && Takes(steps[k][l], s);
        TakenByBoth(steps[i][j], steps[k][l], s);
      }
    } else {
      var i, k, j, l :| 0 <= i < |steps| && 0 <= k < |steps| && i != k && 0 <= j < |steps[i]| && 0 <= l < |steps[k]|
        && Overlap(steps[i][j], steps[k][l]);
      var s := CommonMember(steps[i][j], steps[k][l]);
      assert InStep(sequence, i, s) && InStep(sequence, k, s);
    }
  }

  // ---- The kinds ----

  predicate At(s: string, i: nat, c: char) { i < |s| && s[i] == c }

  /** The only step a name can belong to, read off a few of its characters. */
  function StepOf(kind: Kind, s: string): int {
    match kind
    case PostgreSQLUser => if At(s, 0, 'r') then 0 else if At(s, 0, 'g') then 1 else if At(s, 0, 'u') then 2 else 3
    case MariaDbUser =>
      if At(s, 0, 'u') then (if At(s, 2, 'e') then 0 else 2)
      else if At(s, 0, 'g') then 1 else if At(s, 0, 'd') then 3 else 4
    case PostgreSQLDatabase =>
      if At(s, 0, 'g') then (if |s| == 11 then 3 else 0)
      else if At(s, 0, 'p') then 1 else if At(s, 0, 'e') then 2 else if At(s, 0, 'o') then 4 else 5
    case MariaDbDatabase => if At(s, 0, 'm') then 0 else 1
    case ValkeyInstance =>
      if At(s, 0, 'p') then 0 else if At(s, 0, 'r') then 1 else if At(s, 0, 'c') then 3
      else if At(s, 1, 'g') then 2 else if |s| == 14 then 0 else if |s| == 22 then 3 else 4
    case ZoneKind =>
      if At(s, 0, 'n') then (if At(s, 1, 'a') then 0 else if At(s, 1, 'e') then 1 else 3)
      else if At(s, 0, 'k') then (if At(s, 8, 'm') then 0 else 1)
      else if At(s, 0, 'r') then (if At(s, 1, 'o') then 1 else if At(s, 1, 'p') || At(s, 2, 'a') then 2 else 3)
      else if At(s, 0, 'l') then 0 else if At(s, 0, 's') then 1 else 2
    case KafkaUser =>
      if At(s, 0, 'k') then 0 else if At(s, 0, 'a') then (if At(s, 1, 'w') then 1 else 5)
      else if At(s, 1, 'c') then 4 else if At(s, 7, 'v') then 2 else 3
  }

  lemma TakenInZoneStep(i: int, j: int, s: string)
    requires 0 <= i < |Steps(ZoneKind)| && 0 <= j < |Steps(ZoneKind)[i]| && Takes(Steps(ZoneKind)[i][j], s)
    ensures StepOf(ZoneKind, s) == i
  {
    hide OneLine;
  }

  lemma TakenInKafkaStep(i: int, j: int, s: string)
    requires 0 <= i < |Steps(KafkaUser)| && 0 <= j < |Steps(KafkaUser)[i]| && Takes(Steps(KafkaUser)[i][j], s)
    ensures StepOf(KafkaUser, s) == i
  {
    hide OneLine;
  }

  lemma TakenInDatabaseStep(kind: Kind, i: int, j: int, s: string)
    requires kind != ZoneKind && kind != KafkaUser
    requires 0 <= i < |Steps(kind)| && 0 <= j < |Steps(kind)[i]| && Takes(Steps(kind)[i][j], s)
    ensures StepOf(kind, s) == i
  {
    hide OneLine;
  }

  lemma ZoneTexts()
    ensures IsPlain("namespace-") && IsPlain("launchtemplate-") && IsPlain("kyverno-mutate-")
    ensures IsPlain("netpol-") && IsPlain("role-") && IsPlain("sidecar-") && IsPlain("kyverno-validate-")
  {}

  lemma LaterZoneTexts()
    ensures IsPlain("rbacrole-") && IsPlain("rpa-") && IsPlain("ae-") && IsPlain("crb-")
    ensures IsPlain("rb-") && IsPlain("nodepool-")
  {}

  lemma KafkaTexts()
    ensures IsPlain("k8s-secret-") && IsPlain("aws-secret-") && IsPlain("secret-version-") && IsPlain("secret-policy-")
    ensures IsPlain("scram-association-") && IsPlain("acl-")
  {}

  lemma UserTexts()
    ensures IsPlain("role") && IsPlain("user") && IsPlain("grant-") && IsPlain("usage-grant-") && IsPlain("db-protection-")
    ensures IsPlain("instance-protection")
  {}

  lemma DatabaseTexts()
    ensures IsPlain("grant-owner-to-dbadmin") && IsPlain("postgresql-database") && IsPlain("extension-")
    ensures IsPlain("grant-usage") && IsPlain("owner-protection") && IsPlain("mariadb-database")
  {}

  lemma ValkeyTexts()
    ensures IsPlain("security-group") && IsPlain("parameter-group-") && IsPlain("replication-group") && IsPlain("sg-")
    ensures IsPlain("secrets-manager-secret") && IsPlain("credentials") && IsPlain("secrets-manager-secret-version")
  {}

  lemma ZoneWords(i: int, j: int)
    requires 0 <= i < 4 && 0 <= j < |Steps(ZoneKind)[i]|
    ensures IsPlain(Extent(Steps(ZoneKind)[i][j]))
  {
    hide IsPlain;
    ZoneTexts();
    LaterZoneTexts();
  }

  lemma KafkaWords(i: int)
    requires 0 <= i < 6
    ensures IsPlain(Extent(Steps(KafkaUser)[i][0]))
  {
    hide IsPlain;
    KafkaTexts();
  }

  lemma DatabaseWords(kind: Kind, i: int, j: int)
    requires kind != ZoneKind && kind != KafkaUser
    requires 0 <= i < |Steps(kind)| && 0 <= j < |Steps(kind)[i]|
    ensures IsPlain(Extent(Steps(kind)[i][j]))
  {
    hide IsPlain;
    UserTexts();
    DatabaseTexts();
    ValkeyTexts();
  }

  lemma KindIsPlain(kind: Kind)
    ensures AllPlain(Steps(kind))
  {
    forall i, j | 0 <= i < |Steps(kind)| && 0 <= j < |Steps(kind)[i]|
      ensures Steps(kind)[i][j].Plain()
    {
      StepCounts();
      hide Steps;
      hide IsPlain;
      if kind == ZoneKind {
        ZoneWords(i, j);
      } else if kind == KafkaUser {
        KafkaWords(i);
      } else {
        DatabaseWords(kind, i, j);
      }
    }
    hide Steps;
  }

  lemma StepCounts()
    ensures |Steps(ZoneKind)| == 4 && |Steps(KafkaUser)| == 6
    ensures forall i :: 0 <= i < 6 ==> |Steps(KafkaUser)[i]| == 1
  {}

  lemma TakenInOneStep(kind: Kind, i: int, j: int, s: string)
    requires 0 <= i < |Steps(kind)| && 0 <= j < |Steps(kind)[i]| && Takes(Steps(kind)[i][j], s)
    ensures StepOf(kind, s) == i
  {
    hide *;
    if kind == ZoneKind {
      TakenInZoneStep(i, j, s);
    } else if kind == KafkaUser {
      TakenInKafkaStep(i, j, s);
    } else {
      TakenInDatabaseStep(kind, i, j, s);
    }
  }

  /** For every kind, over all strings: no name belongs to two steps. */
  lemma KindStepsAreDisjoint(kind: Kind)
    ensures StepsAreDisjoint(SequenceOf(Steps(kind)))
    ensures NoOverlap(Steps(kind))
  {
    KindIsPlain(kind);
    DisjointExactly(Steps(kind));
    hide Steps;
    hide Overlap;
    hide AllPlain;
    hide Takes;
    hide StepOf;
    hide SequenceOf;
    forall i, k, j, l | 0 <= i < |Steps(kind)| && 0 <= k < |Steps(kind)| && i != k && 0 <= j < |Steps(kind)[i]|
      && 0 <= l < |Steps(kind)[k]|
      ensures !Overlap(Steps(kind)[i][j], Steps(kind)[k][l])
    {
      NotBoth(kind, i, j, k, l);
    }
  }

  lemma NotBoth(kind: Kind, i: int, j: int, k: int, l: int)
    requires AllPlain(Steps(kind))
    requires 0 <= i < |Steps(kind)| && 0 <= k < |Steps(kind)| && i != k
    requires 0 <= j < |Steps(kind)[i]| && 0 <= l < |Steps(kind)[k]|
    ensures !Overlap(Steps(kind)[i][j], Steps(kind)[k][l])
  {
    hide Steps;
    hide Overlap;
    hide Takes;
    hide StepOf;
    if Overlap(Steps(kind)[i][j], Steps(kind)[k][l]) {
      var s := CommonMember(Steps(kind)[i][j], Steps(kind)[k][l]);
      TakenInOneStep(kind, i, j, s);
      TakenInOneStep(kind, k, l, s);
    }
  }
}
