/** When the steps of database users and databases are respected in every run: the generators of
    functions/database/service/pg_user.go, mariadb_user.go and pg_database.go behind their sequences. */
module KindOrders {
  import opened KindSequences
  import opened NameCanonicaliser
  import opened Patterns
  import opened Sequencing
  import SequencingRuns

  // ---- Generated resources, step by step ----

  /** What is generated, by the step that takes it. */
  function Union(parts: seq<set<string>>): set<string> {
    set i, name | 0 <= i < |parts| && name in parts[i] :: name
  }

  predicate FitsSteps(kind: Kind, parts: seq<set<string>>) {
    && |parts| == |Steps(kind)|
    && forall i, name :: 0 <= i < |parts| && name in parts[i] ==> StepTakes(Steps(kind)[i], name)
  }

  /** No empty part lies between two that are not. */
  predicate NoEmptyBetween(parts: seq<set<string>>) {
    forall i, j, k | 0 <= i < j < k < |parts| && parts[i] != {} && parts[k] != {} :: parts[j] != {}
  }

  lemma PartIsInhabited(kind: Kind, parts: seq<set<string>>, i: int)
    requires FitsSteps(kind, parts) && 0 <= i < |parts|
    ensures |SequenceOf(Steps(kind)).steps| == |parts|
    ensures SequencingRuns.Inhabited(SequenceOf(Steps(kind)), i, Union(parts)) <==> parts[i] != {}
  {
    var sequence := SequenceOf(Steps(kind));
    KindIsPlain(kind);
    KindStepsAreDisjoint(kind);
    hide Steps;
    hide NoOverlap;
    hide StepTakes;
    forall k: int, name: string | 0 <= k < |parts|
      ensures InStep(sequence, k, name) <==> StepTakes(Steps(kind)[k], name)
    {
      InStepOfShapes(Steps(kind), k, name);
    }
    assert |sequence.steps| == |parts|;
    hide InStep;
    hide SequenceOf;
    if parts[i] != {} {
      var name :| name in parts[i];
      assert name in Union(parts) && InStep(sequence, i, name);
    }
    if SequencingRuns.Inhabited(sequence, i, Union(parts)) {
      var name :| name in Union(parts) && InStep(sequence, i, name);
      var k :| 0 <= k < |parts| && name in parts[k];
      assert InStep(sequence, k, name);
      assert k == i;
    }
  }

  /** For every kind with constant steps: with the same resources generated in every round, every run respects the
      order of the steps exactly when no step without resources lies between two with some. */
  lemma OrderHoldsExactly(kind: Kind, parts: seq<set<string>>)
    requires FitsSteps(kind, parts)
    ensures SequencingRuns.OrderedInEveryRun(SequenceOf(Steps(kind)), Union(parts)) <==> NoEmptyBetween(parts)
  {
    var sequence := SequenceOf(Steps(kind));
    assert |sequence.steps| == |parts|;
    forall i: int | 0 <= i < |parts|
      ensures SequencingRuns.Inhabited(sequence, i, Union(parts)) <==> parts[i] != {}
    {
      PartIsInhabited(kind, parts, i);
    }
    KindStepsAreDisjoint(kind);
    hide Steps;
    hide SequenceOf;
    hide InStep;
    hide Union;
    hide FitsSteps;
    hide SequencingRuns.Inhabited;
    assert SequencingRuns.DisjointOn(sequence, Union(parts));
    assert SequencingRuns.NoGap(sequence, Union(parts)) <==> NoEmptyBetween(parts);
    SequencingRuns.OrderHoldsExactlyWithoutGaps(sequence, Union(parts));
  }

  // ---- Names of grants, of their usages and of database protections ----

  predicate IsLetters(word: string) {
    word != "" && forall i :: 0 <= i < |word| ==> IsLetter(word[i])
  }

  lemma {:induction false} ScanCopiesWord(word: string, rest: string)
    requires forall i :: 0 <= i < |word| ==> IsLetter(word[i])
    ensures Scan(word + rest, true, false) == word + Scan(rest, true, false)
  {
    if word == "" {
      assert word + rest == rest;
    } else {
      assert (word + rest)[1..] == word[1..] + rest;
      ScanCopiesWord(word[1..], rest);
      assert word == [word[0]] + word[1..];
    }
  }

  lemma ScanOverHyphen(rest: string)
    requires rest != "" && IsAlnum(rest[0])
    ensures Scan("-" + rest, true, false) == "-" + Scan(rest, true, false)
  {
    assert ("-" + rest)[1..] == rest;
  }

  lemma ScanOfLetterFirst(s: string)
    requires s != "" && IsLetter(s[0])
    ensures Scan(s, false, false) == Scan(s, true, false)
  {}

  lemma ScanKeepsWord(word: string, rest: string)
    requires IsLetters(word) && rest != "" && IsAlnum(rest[0])
    ensures Scan(word + "-" + rest, false, false) == word + "-" + Scan(rest, true, false)
    ensures Scan(word + "-" + rest, true, false) == word + "-" + Scan(rest, true, false)
  {
    hide Scan;
    assert word + "-" + rest == word + ("-" + rest);
    ScanOfLetterFirst(word + "-" + rest);
    ScanCopiesWord(word, "-" + rest);
    ScanOverHyphen(rest);
    assert word + ("-" + Scan(rest, true, false)) == word + "-" + Scan(rest, true, false);
  }

  lemma LowerWord(word: string)
    requires IsLetters(word)
    ensures ToLower(word + "-") == word + "-"
  {}

  lemma ScanStartsAlike(s: string)
    requires s != "" && IsAlnum(s[0])
    ensures Scan(s, true, false) != "" && Scan(s, true, false)[0] == s[0]
  {}

  predicate StartsAlnum(s: string) { s != "" && IsAlnum(LowerChar(s[0])) }

  /** A full name that starts with a word and a hyphen keeps them. */
  lemma NameKeepsWord(word: string, rest: string)
    requires IsLetters(word) && |word| < 100 && StartsAlnum(rest)
    ensures var name := FullName(word + "-" + rest); word + "-" <= name && OneLine(name)
  {
    var low := ToLower(rest);
    assert low != "" && low[0] == LowerChar(rest[0]);
    ToLowerAppends(word + "-", rest);
    LowerWord(word);
    ScanKeepsWord(word, low);
    ScanStartsAlike(low);
    ScanIsLabel(word + "-" + low);
    CanonicalIsLabel(ToLower(word + "-" + rest), FULL_NAME_LIMIT);
    LabelIsOneLine(FullName(word + "-" + rest));
    hide ToLower;
    hide Scan;
    hide IsLabel;
    hide OneLine;
    CutKeepsStart(word + "-", Scan(low, true, false), FULL_NAME_LIMIT);
  }

  /** So does one that starts with two words. */
  lemma NameKeepsWords(first: string, second: string, rest: string)
    requires IsLetters(first) && IsLetters(second) && |first| < 100 && |second| < 100 && StartsAlnum(rest)
    ensures var name := FullName(first + "-" + second + "-" + rest); first + "-" + second + "-" <= name && OneLine(name)
  {
    var tail := second + "-" + rest;
    var low := ToLower(rest);
    assert low != "" && low[0] == LowerChar(rest[0]);
    assert first + "-" + second + "-" + rest == first + "-" + tail;
    ToLowerAppends(first + "-", tail);
    ToLowerAppends(second + "-", rest);
    LowerWord(first);
    LowerWord(second);
    ScanKeepsWord(second, low);
    ScanKeepsWord(first, second + "-" + low);
    ScanStartsAlike(low);
    ScanIsLabel(first + "-" + (second + "-" + low));
    CanonicalIsLabel(ToLower(first + "-" + tail), FULL_NAME_LIMIT);
    LabelIsOneLine(FullName(first + "-" + tail));
    hide ToLower;
    hide Scan;
    hide IsLabel;
    hide OneLine;
    assert first + "-" + (second + "-" + Scan(low, true, false)) == first + "-" + second + "-" + Scan(low, true, false);
    CutKeepsStart(first + "-" + second + "-", Scan(low, true, false), FULL_NAME_LIMIT);
  }

  function Converted(s: string): string {
    seq(|s|, i requires 0 <= i < |s| => if s[i] == '_' then '-' else s[i])
  }

  /** What a grant's name ends with: the user, the granted role or user, and the instance. */
  function GrantTail(user: string, granted: string, instance: string): string {
    user + "-" + Converted(granted) + "-" + instance
  }

  function GrantKey(user: string, granted: string, instance: string): string {
    FullName("grant-" + GrantTail(user, granted, instance))
  }

  function UsageKey(user: string, granted: string, instance: string): string {
    FullName("usage-grant-" + GrantTail(user, granted, instance))
  }

  function ProtectionKey(user: string, granted: string, instance: string): string {
    FullName("db-protection-" + GrantTail(user, granted, instance))
  }

  function Grants(user: string, granted: set<string>, instance: string): set<string> {
    set g | g in granted :: GrantKey(user, g, instance)
  }

  function Usages(user: string, granted: set<string>, instance: string): set<string> {
    set g | g in granted :: UsageKey(user, g, instance)
  }

  function Protections(user: string, granted: set<string>, instance: string): set<string> {
    set g | g in granted :: ProtectionKey(user, g, instance)
  }

  lemma WordsAreLetters()
    ensures IsLetters("grant") && IsLetters("usage") && IsLetters("db") && IsLetters("protection")
  {}

  lemma TextOfTwoWords()
    ensures "usage" + "-" + "grant" + "-" == "usage-grant-"
    ensures "db" + "-" + "protection" + "-" == "db-protection-"
  {
    assert "usage" + "-" == "usage-" && "usage-" + "grant" == "usage-grant";
    assert "db" + "-" == "db-" && "db-" + "protection" == "db-protection";
  }

  lemma GrantKeyStarts(user: string, granted: string, instance: string)
    requires StartsAlnum(user)
    ensures "grant-" <= GrantKey(user, granted, instance) && OneLine(GrantKey(user, granted, instance))
  {
    var tail := GrantTail(user, granted, instance);
    assert tail[0] == user[0];
    WordsAreLetters();
    hide FullName;
    NameKeepsWord("grant", tail);
    assert "grant" + "-" == "grant-";
  }

  lemma UsageKeyStarts(user: string, granted: string, instance: string)
    requires StartsAlnum(user)
    ensures "usage-grant-" <= UsageKey(user, granted, instance) && OneLine(UsageKey(user, granted, instance))
  {
    var tail := GrantTail(user, granted, instance);
    assert tail[0] == user[0];
    WordsAreLetters();
    hide *;
    NameKeepsWords("usage", "grant", tail);
    TextOfTwoWords();
  }

  lemma ProtectionKeyStarts(user: string, granted: string, instance: string)
    requires StartsAlnum(user)
    ensures "db-protection-" <= ProtectionKey(user, granted, instance) && OneLine(ProtectionKey(user, granted, instance))
  {
    var tail := GrantTail(user, granted, instance);
    assert tail[0] == user[0];
    WordsAreLetters();
    hide *;
    NameKeepsWords("db", "protection", tail);
    TextOfTwoWords();
  }

  lemma PrefixTakes(shapes: seq<Shape>, prefix: string, s: string)
    requires shapes == [Prefix(prefix)] && prefix <= s && OneLine(s)
    ensures StepTakes(shapes, s)
  {
    assert Takes(shapes[0], s);
  }

  lemma NameTakes(shapes: seq<Shape>, name: string)
    requires shapes == [Exact(name)]
    ensures StepTakes(shapes, name)
  {
    assert Takes(shapes[0], name);
  }

  // ---- Users ----

  /** What is generated for a PostgreSQL user, step by step. */
  function PostgreSQLUserParts(user: string, roles: set<string>, instance: string): seq<set<string>> {
    [{"role"}, Grants(user, roles, instance), Usages(user, roles, instance), {"instance-protection"}]
  }

  method GeneratePostgreSQLUser(user: string, roles: seq<string>, instance: string) returns (keys: set<string>)
    ensures keys == Union(PostgreSQLUserParts(user, (set role | role in roles), instance))
  {
    hide GrantKey;
    hide UsageKey;
    var grants: set<string>, usages: set<string> := {}, {};
    for i := 0 to |roles|
      invariant grants == set k | 0 <= k < i :: GrantKey(user, roles[k], instance)
      invariant usages == set k | 0 <= k < i :: UsageKey(user, roles[k], instance)
    {
      grants := grants + {GrantKey(user, roles[i], instance)};
      usages := usages + {UsageKey(user, roles[i], instance)};
    }
    keys := {"role"} + grants + usages + {"instance-protection"};
    ghost var parts := PostgreSQLUserParts(user, (set role | role in roles), instance);
    assert grants == parts[1] && usages == parts[2];
    UnionOfFour(parts[0], parts[1], parts[2], parts[3]);
  }

  lemma UnionOfFour(a: set<string>, b: set<string>, c: set<string>, d: set<string>)
    ensures Union([a, b, c, d]) == a + b + c + d
  {
    var parts := [a, b, c, d];
    assert parts[0] == a && parts[1] == b && parts[2] == c && parts[3] == d;
  }

  lemma PostgreSQLUserFits(user: string, roles: set<string>, instance: string)
    requires StartsAlnum(user)
    ensures FitsSteps(PostgreSQLUser, PostgreSQLUserParts(user, roles, instance))
  {
    var steps := Steps(PostgreSQLUser);
    assert steps[0] == [Exact("role")] && steps[1] == [Prefix("grant-")] && steps[2] == [Prefix("usage-grant-")];
    assert steps[3] == [Exact("instance-protection")] && |steps| == 4;
    hide Steps;
    hide GrantKey;
    hide UsageKey;
    NameTakes(steps[0], "role");
    NameTakes(steps[3], "instance-protection");
    forall role | role in roles
      ensures StepTakes(steps[1], GrantKey(user, role, instance)) && StepTakes(steps[2], UsageKey(user, role, instance))
    {
      GrantKeyStarts(user, role, instance);
      UsageKeyStarts(user, role, instance);
      PrefixTakes(steps[1], "grant-", GrantKey(user, role, instance));
      PrefixTakes(steps[2], "usage-grant-", UsageKey(user, role, instance));
    }
    hide StepTakes;
  }

  lemma GrantsFillBetween(user: string, granted: set<string>, instance: string)
    ensures NoEmptyBetween(PostgreSQLUserParts(user, granted, instance)) <==> granted != {}
    ensures NoEmptyBetween(MariaDbUserParts(user, granted, instance)) <==> granted != {}
  {
    hide NoEmptyBetween;
    hide Grants;
    hide Usages;
    hide Protections;
    SomeGrant(user, granted, instance);
    BetweenOfFour({"role"}, Grants(user, granted, instance), Usages(user, granted, instance), {"instance-protection"});
    BetweenOfFive({"user"}, Grants(user, granted, instance), Usages(user, granted, instance),
                  Protections(user, granted, instance), {"instance-protection"});
  }

  /** Every run for a PostgreSQL user respects the order exactly when the user is granted a role: without one,
      the protection of the instance is created before the role. */
  lemma PostgreSQLUserOrderExactly(user: string, roles: set<string>, instance: string)
    requires StartsAlnum(user)
    ensures SequencingRuns.OrderedInEveryRun(SequenceOf(Steps(PostgreSQLUser)),
                                             Union(PostgreSQLUserParts(user, roles, instance)))
       <==> roles != {}
  {
    hide *;
    GrantsFillBetween(user, roles, instance);
    PostgreSQLUserFits(user, roles, instance);
    OrderHoldsExactly(PostgreSQLUser, PostgreSQLUserParts(user, roles, instance));
  }

  lemma SomeGrant(user: string, granted: set<string>, instance: string)
    ensures Grants(user, granted, instance) != {} <==> granted != {}
    ensures Usages(user, granted, instance) != {} <==> granted != {}
    ensures Protections(user, granted, instance) != {} <==> granted != {}
  {
    hide GrantKey;
    hide UsageKey;
    hide ProtectionKey;
    if granted != {} {
      var g :| g in granted;
      assert GrantKey(user, g, instance) in Grants(user, granted, instance);
      assert UsageKey(user, g, instance) in Usages(user, granted, instance);
      assert ProtectionKey(user, g, instance) in Protections(user, granted, instance);
    }
  }

  lemma BetweenOfFour(a: set<string>, b: set<string>, c: set<string>, d: set<string>)
    requires a != {} && d != {}
    ensures NoEmptyBetween([a, b, c, d]) <==> b != {} && c != {}
  {
    var parts := [a, b, c, d];
    assert parts[0] == a && parts[1] == b && parts[2] == c && parts[3] == d;
  }

  /** A MariaDB user is granted to other users only when it refers to a database. */
  function GrantedUsers(inDatabase: bool, users: seq<string>): set<string> {
    if inDatabase then set g | g in users else {}
  }

  /** What is generated for a MariaDB user, step by step. */
  function MariaDbUserParts(user: string, users: set<string>, instance: string): seq<set<string>> {
    [{"user"}, Grants(user, users, instance), Usages(user, users, instance), Protections(user, users, instance),
     {"instance-protection"}]
  }

  method GenerateMariaDbUser(user: string, inDatabase: bool, users: seq<string>, instance: string)
    returns (keys: set<string>)
    ensures keys == Union(MariaDbUserParts(user, GrantedUsers(inDatabase, users), instance))
  {
    hide GrantKey;
    hide UsageKey;
    hide ProtectionKey;
    var grants: set<string>, usages: set<string>, protections: set<string> := {}, {}, {};
    if inDatabase {
      for i := 0 to |users|
        invariant grants == set k | 0 <= k < i :: GrantKey(user, users[k], instance)
        invariant usages == set k | 0 <= k < i :: UsageKey(user, users[k], instance)
        invariant protections == set k | 0 <= k < i :: ProtectionKey(user, users[k], instance)
      {
        grants := grants + {GrantKey(user, users[i], instance)};
        usages := usages + {UsageKey(user, users[i], instance)};
        protections := protections + {ProtectionKey(user, users[i], instance)};
      }
    }
    keys := {"user"} + grants + usages + protections + {"instance-protection"};
    ghost var parts := MariaDbUserParts(user, GrantedUsers(inDatabase, users), instance);
    assert grants == parts[1] && usages == parts[2] && protections == parts[3];
    UnionOfFive(parts[0], parts[1], parts[2], parts[3], parts[4]);
  }

  lemma UnionOfFive(a: set<string>, b: set<string>, c: set<string>, d: set<string>, e: set<string>)
    ensures Union([a, b, c, d, e]) == a + b + c + d + e
  {
    var parts := [a, b, c, d, e];
    assert parts[0] == a && parts[1] == b && parts[2] == c && parts[3] == d && parts[4] == e;
  }

  lemma MariaDbUserFits(user: string, users: set<string>, instance: string)
    requires StartsAlnum(user)
    ensures FitsSteps(MariaDbUser, MariaDbUserParts(user, users, instance))
  {
    var steps := Steps(MariaDbUser);
    assert steps[0] == [Exact("user")] && steps[1] == [Prefix("grant-")] && steps[2] == [Prefix("usage-grant-")];
    assert steps[3] == [Prefix("db-protection-")] && steps[4] == [Exact("instance-protection")] && |steps| == 5;
    hide Steps;
    hide GrantKey;
    hide UsageKey;
    hide ProtectionKey;
    NameTakes(steps[0], "user");
    NameTakes(steps[4], "instance-protection");
    forall g | g in users
      ensures StepTakes(steps[1], GrantKey(user, g, instance)) && StepTakes(steps[2], UsageKey(user, g, instance))
      ensures StepTakes(steps[3], ProtectionKey(user, g, instance))
    {
      GrantKeyStarts(user, g, instance);
      UsageKeyStarts(user, g, instance);
      ProtectionKeyStarts(user, g, instance);
      PrefixTakes(steps[1], "grant-", GrantKey(user, g, instance));
      PrefixTakes(steps[2], "usage-grant-", UsageKey(user, g, instance));
      PrefixTakes(steps[3], "db-protection-", ProtectionKey(user, g, instance));
    }
    hide StepTakes;
  }

  /** The same for a MariaDB user, who is granted to somebody exactly when the spec names a database and users. A
      spec without a database is rejected before anything is generated, so the gap is that of a user with a database
      and no users. */
  lemma MariaDbUserOrderExactly(user: string, inDatabase: bool, users: seq<string>, instance: string)
    requires StartsAlnum(user)
    ensures SequencingRuns.OrderedInEveryRun(SequenceOf(Steps(MariaDbUser)),
                                             Union(MariaDbUserParts(user, GrantedUsers(inDatabase, users), instance)))
       <==> inDatabase && users != []
  {
    var granted := GrantedUsers(inDatabase, users);
    assert granted != {} <==> inDatabase && users != [] by {
      if inDatabase && users != [] {
        assert users[0] in granted;
      }
    }
    hide *;
    GrantsFillBetween(user, granted, instance);
    MariaDbUserFits(user, granted, instance);
    OrderHoldsExactly(MariaDbUser, MariaDbUserParts(user, granted, instance));
  }

  lemma BetweenOfFive(a: set<string>, b: set<string>, c: set<string>, d: set<string>, e: set<string>)
    requires a != {} && e != {}
    ensures NoEmptyBetween([a, b, c, d, e]) <==> b != {} && c != {} && d != {}
  {
    var parts := [a, b, c, d, e];
    assert parts[0] == a && parts[1] == b && parts[2] == c && parts[3] == d && parts[4] == e;
  }

  // ---- Databases ----

  function Digit(n: nat): char
    requires n < 10
  {
    '0' + n as char
  }

  function Decimal(n: nat): string {
    if n < 10 then [Digit(n)] else Decimal(n / 10) + [Digit(n % 10)]
  }

  function ExtensionKey(extension: string, i: nat): string {
    "extension-" + Converted(extension) + "-" + Decimal(i)
  }

  function ExtensionKeys(extensions: seq<string>): set<string> {
    set i | 0 <= i < |extensions| :: ExtensionKey(extensions[i], i)
  }

  /** What is generated for a PostgreSQL database, step by step. */
  function PostgreSQLDatabaseParts(extensions: seq<string>): seq<set<string>> {
    [{"grant-owner-to-dbadmin"}, {"postgresql-database"}, ExtensionKeys(extensions), {"grant-usage"},
     {"owner-protection"}, {"instance-protection"}]
  }

  method GeneratePostgreSQLDatabase(extensions: seq<string>) returns (keys: set<string>)
    ensures keys == Union(PostgreSQLDatabaseParts(extensions))
  {
    hide ExtensionKey;
    var named: set<string> := {};
    for i := 0 to |extensions|
      invariant named == set k | 0 <= k < i :: ExtensionKey(extensions[k], k)
    {
      named := named + {ExtensionKey(extensions[i], i)};
    }
    keys := {"grant-owner-to-dbadmin"} + {"postgresql-database"} + named + {"grant-usage"} + {"owner-protection"}
            + {"instance-protection"};
    ghost var parts := PostgreSQLDatabaseParts(extensions);
    assert named == parts[2];
    UnionOfSix(parts[0], parts[1], parts[2], parts[3], parts[4], parts[5]);
  }

  lemma UnionOfSix(a: set<string>, b: set<string>, c: set<string>, d: set<string>, e: set<string>, f: set<string>)
    ensures Union([a, b, c, d, e, f]) == a + b + c + d + e + f
  {
    var parts := [a, b, c, d, e, f];
    assert parts[0] == a && parts[1] == b && parts[2] == c && parts[3] == d && parts[4] == e && parts[5] == f;
  }

  lemma {:induction false} DecimalIsOneLine(n: nat)
    ensures OneLine(Decimal(n))
  {
    if n >= 10 {
      DecimalIsOneLine(n / 10);
    }
  }

  lemma ExtensionKeyStarts(extension: string, i: nat)
    requires OneLine(extension)
    ensures "extension-" <= ExtensionKey(extension, i) && OneLine(ExtensionKey(extension, i))
  {
    DecimalIsOneLine(i);
    assert OneLine(Converted(extension));
    assert OneLine("extension-") && OneLine("-");
    hide Decimal;
    hide Converted;
  }

  lemma PostgreSQLDatabaseFits(extensions: seq<string>)
    requires forall i :: 0 <= i < |extensions| ==> OneLine(extensions[i])
    ensures FitsSteps(PostgreSQLDatabase, PostgreSQLDatabaseParts(extensions))
  {
    var steps := Steps(PostgreSQLDatabase);
    assert steps[0] == [Exact("grant-owner-to-dbadmin")] && steps[1] == [Exact("postgresql-database")];
    assert steps[2] == [Prefix("extension-")] && steps[3] == [Exact("grant-usage")];
    assert steps[4] == [Exact("owner-protection")] && steps[5] == [Exact("instance-protection")] && |steps| == 6;
    hide Steps;
    hide ExtensionKey;
    NameTakes(steps[0], "grant-owner-to-dbadmin");
    NameTakes(steps[1], "postgresql-database");
    NameTakes(steps[3], "grant-usage");
    NameTakes(steps[4], "owner-protection");
    NameTakes(steps[5], "instance-protection");
    forall i | 0 <= i < |extensions|
      ensures StepTakes(steps[2], ExtensionKey(extensions[i], i))
    {
      ExtensionKeyStarts(extensions[i], i);
      PrefixTakes(steps[2], "extension-", ExtensionKey(extensions[i], i));
    }
    hide StepTakes;
  }

  lemma BetweenOfSix(parts: seq<set<string>>)
    requires |parts| == 6 && parts[0] != {} && parts[1] != {} && parts[3] != {} && parts[4] != {} && parts[5] != {}
    ensures NoEmptyBetween(parts) <==> parts[2] != {}
  {}

  lemma SomeExtension(extensions: seq<string>)
    ensures ExtensionKeys(extensions) != {} <==> extensions != []
  {
    hide ExtensionKey;
    if extensions != [] {
      assert ExtensionKey(extensions[0], 0) in ExtensionKeys(extensions);
    }
  }

  lemma ExtensionFillsBetween(extensions: seq<string>)
    ensures NoEmptyBetween(PostgreSQLDatabaseParts(extensions)) <==> extensions != []
  {
    hide ExtensionKeys;
    SomeExtension(extensions);
    BetweenOfSix(PostgreSQLDatabaseParts(extensions));
  }

  /** Every run for a PostgreSQL database respects the order exactly when it has an extension: without one, the
      usage of the grant is created before the database. */
  lemma PostgreSQLDatabaseOrderExactly(extensions: seq<string>)
    requires forall i :: 0 <= i < |extensions| ==> OneLine(extensions[i])
    ensures SequencingRuns.OrderedInEveryRun(SequenceOf(Steps(PostgreSQLDatabase)),
                                             Union(PostgreSQLDatabaseParts(extensions)))
       <==> extensions != []
  {
    hide *;
    ExtensionFillsBetween(extensions);
    PostgreSQLDatabaseFits(extensions);
    OrderHoldsExactly(PostgreSQLDatabase, PostgreSQLDatabaseParts(extensions));
  }
}
