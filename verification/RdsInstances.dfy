/** The RDS instance generator and its runs: functions/database/service/instance_common.go. */
module RdsInstances {
  import opened Wrappers
  import opened ParameterGroups
  import opened RdsNames
  import opened Sequencing

  /** `request.userKey` is the key of the RDS instance. */
  datatype Database = Database(request: Request, snapshot: string) {
    function SecretKey(): string { Named(Secret, request.name, request.hash) }

    function Steps(): Sequence { RdsSequence(request.name, request.hash) }

    /** No name is cut, and none is taken for the key of a parameter group. */
    predicate IsWellNamed() {
      && request.userKey == Named(Instance, request.name, request.hash)
      && IsShort(request.name, request.hash)
      && !NamedLikeAGroup(request.name)
    }
  }

  datatype RdsObject =
    | Plumbing
    | ParameterGroup(name: string)
    | KeptGroup
    | RdsInstance(group: string, snapshot: string)
    | ExternalSecret

  type Objects = map<string, Option<RdsObject>>

  // ---- The generated objects ----

  predicate InstanceExists(db: Database, observed: Observations) {
    db.request.userKey in observed
  }

  /** An instance restored from another snapshot has to go before the new one comes. */
  predicate Recreates(db: Database, observed: Observations) {
    InstanceExists(db, observed) && db.snapshot != observed[db.request.userKey].snapshot
  }

  function FixedObjects(db: Database): Objects {
    map name | name in FixedNames(db.request.name, db.request.hash) :: Some(Plumbing)
  }

  function GroupObjects(request: Request, observed: Observations): Objects {
    map key | key in GroupKeys(request, observed) ::
      if key == Key(Family(request, observed).value) then Some(ParameterGroup(OwnGroupName(request, observed)))
      else Some(KeptGroup)
  }

  function InstanceObjects(db: Database, observed: Observations): Objects {
    if Recreates(db, observed) then map[]
    else map[db.request.userKey := Some(RdsInstance(WantedGroup(db.request, observed), db.snapshot))]
  }

  /** While the connection details are missing, no object is stored under the key of the secret. */
  function SecretObjects(db: Database, observed: Observations): Objects {
    if !InstanceExists(db, observed) || Recreates(db, observed) then map[]
    else map[db.SecretKey() := if observed[db.request.userKey].connectable then Some(ExternalSecret) else None]
  }

  function GeneratedObjects(db: Database, observed: Observations): Objects {
    FixedObjects(db) + GroupObjects(db.request, observed) + InstanceObjects(db, observed) + SecretObjects(db, observed)
  }

  lemma PlusOne<K, V>(m: map<K, V>, key: K, value: V)
    ensures m[key := value] == m + map[key := value]
    ensures m + map[] == m
  {}

  function KeptObjects(kept: set<string>): Objects {
    map key | key in kept :: Some(KeptGroup)
  }

  lemma GroupObjectsForm(request: Request, observed: Observations, family: string, start: Objects)
    requires request.parameters.Some? && Family(request, observed) == Some(family)
    ensures start[Key(family) := Some(ParameterGroup(GroupName(request, family)))]
            + KeptObjects(KeptKeys(request, observed, family))
         == start + GroupObjects(request, observed)
  {
    hide Family;
    hide GroupName;
    assert Key(family) !in KeptKeys(request, observed, family);
    hide KeptKeys;
  }

  lemma SumOfObjects(db: Database, observed: Observations, start: Objects)
    requires start == (map name | name in FixedNames(db.request.name, db.request.hash) :: Some(Plumbing))
                      + GroupObjects(db.request, observed)
    ensures var withInstance :=
        if Recreates(db, observed) then start
        else start[db.request.userKey := Some(RdsInstance(WantedGroup(db.request, observed), db.snapshot))];
      GeneratedObjects(db, observed) ==
        if !InstanceExists(db, observed) || Recreates(db, observed) then withInstance
        else withInstance[db.SecretKey() := if observed[db.request.userKey].connectable then Some(ExternalSecret) else None]
    ensures InstanceExists(db, observed) <==> db.request.userKey in observed
    ensures InstanceExists(db, observed) ==>
      (Recreates(db, observed) <==> db.snapshot != observed[db.request.userKey].snapshot)
    ensures Recreates(db, observed) ==> InstanceExists(db, observed)
  {
    hide GroupObjects;
    hide FixedNames;
    hide WantedGroup;
    PlusOne(start, db.request.userKey, Some(RdsInstance(WantedGroup(db.request, observed), db.snapshot)));
  }

  class RdsInstanceGenerator {
    const db: Database
    const observed: Observations
    var parameterGroupName: string
    var desired: Objects

    constructor (db: Database, observed: Observations)
      ensures this.db == db && this.observed == observed && parameterGroupName == "" && desired == map[]
    {
      this.db, this.observed, parameterGroupName, desired := db, observed, "", map[];
    }

    method ApplyParameterGroup() returns (ok: bool)
      requires parameterGroupName == ""
      modifies this
      ensures ok <==> !Conflict(db.request)
      ensures ok ==> desired == old(desired) + GroupObjects(db.request, observed)
      ensures ok ==> parameterGroupName == OwnGroupName(db.request, observed)
    {
      hide KeptKeys;
      hide GroupName;
      PlusOne(desired, "", None);
      ok := true;
      if db.request.parameters.None? {
        return;
      }
      if db.request.parameterGroupName != "" {
        return false;
      }
      var computed := ComputeFamily(db.request.engine, db.request.engineVersion, VersionActual(db.request, observed));
      hide ComputeFamily;
      if computed.Some? {
        var family := computed.value;
        GroupObjectsForm(db.request, observed, family, desired);
        hide GroupObjects;
        parameterGroupName := GroupName(db.request, family);
        desired := desired[Key(family) := Some(ParameterGroup(parameterGroupName))];
        var kept := KeepStaleParameterGroups(db.request, observed, family);
        desired := desired + KeptObjects(kept);
      }
    }

    method BuildRdsInstance() returns (rds: RdsObject)
      requires parameterGroupName == OwnGroupName(db.request, observed)
      ensures rds == RdsInstance(WantedGroup(db.request, observed), db.snapshot)
    {
      var group := "";
      if parameterGroupName != "" {
        group := parameterGroupName;
      } else if db.request.parameterGroupName != "" {
        group := db.request.parameterGroupName;
      } else {
        var family := ComputeFamily(db.request.engine, db.request.engineVersion, VersionActual(db.request, observed));
        if family.Some? {
          group := "default." + family.value;
        }
      }
      rds := RdsInstance(group, db.snapshot);
    }

    /** The whole map, written in the order of the source. */
    method Generate() returns (ok: bool)
      requires parameterGroupName == "" && desired == map[]
      modifies this
      ensures ok <==> !Conflict(db.request)
      ensures ok ==> desired == GeneratedObjects(db, observed)
    {
      hide *;
      desired := map name | name in FixedNames(db.request.name, db.request.hash) :: Some(Plumbing);
      ok := ApplyParameterGroup();
      if !ok {
        return;
      }
      ghost var start := desired;
      SumOfObjects(db, observed, start);
      var key := db.request.userKey;
      var rdsExists := key in observed;
      var recreateRds := rdsExists && db.snapshot != observed[key].snapshot;
      if !recreateRds {
        var rds := BuildRdsInstance();
        desired := desired[key := Some(rds)];
      }
      if !rdsExists || recreateRds {
        return;
      }
      desired := desired[db.SecretKey() := if observed[key].connectable then Some(ExternalSecret) else None];
    }
  }

  // ---- What is generated when ----

  /** The generated names that are no parameter groups. */
  function OtherNames(db: Database, observed: Observations): set<string> {
    FixedObjects(db).Keys + InstanceObjects(db, observed).Keys + SecretObjects(db, observed).Keys
  }

  lemma GeneratedNames(db: Database, observed: Observations)
    ensures GeneratedObjects(db, observed).Keys == GroupKeys(db.request, observed) + OtherNames(db, observed)
  {
    hide GroupKeys;
    hide FixedNames;
  }

  lemma GroupKeysHavePrefix(request: Request, observed: Observations)
    ensures forall key :: key in GroupKeys(request, observed) ==> KEY_PREFIX <= key
  {}

  lemma NamesOfWellNamed(db: Database)
    requires db.IsWellNamed()
    ensures var key, secret, fixed := db.request.userKey, db.SecretKey(), FixedNames(db.request.name, db.request.hash);
      && key !in fixed && secret !in fixed && key != secret
      && !(KEY_PREFIX <= key) && !(KEY_PREFIX <= secret)
  {
    hide FixedNames;
    hide NamedLikeAGroup;
    hide IsShort;
    NamedInNoOtherStep(Instance, db.request.name, db.request.hash);
    NamedInNoOtherStep(Secret, db.request.name, db.request.hash);
    GroupKeyCollisions(Instance, db.request.name, db.request.hash);
    GroupKeyCollisions(Secret, db.request.name, db.request.hash);
  }

  /** Without an instance, one is generated that restores the requested snapshot. */
  lemma AbsentInstanceIsGenerated(db: Database, observed: Observations)
    requires !InstanceExists(db, observed)
    ensures var generated, key := GeneratedObjects(db, observed), db.request.userKey;
      key in generated && generated[key] == Some(RdsInstance(WantedGroup(db.request, observed), db.snapshot))
  {
    hide GroupObjects;
    hide FixedObjects;
    hide WantedGroup;
  }

  /** Whatever is generated for an existing instance keeps its snapshot. */
  lemma ExistingInstanceKeepsSnapshot(db: Database, observed: Observations)
    requires InstanceExists(db, observed)
    ensures var generated, key := GeneratedObjects(db, observed), db.request.userKey;
      key in generated && generated[key].Some? && generated[key].value.RdsInstance? ==>
        generated[key].value.snapshot == observed[key].snapshot
  {
    hide FixedNames;
    hide GroupKeys;
    hide WantedGroup;
    hide OwnGroupName;
  }

  /** The keys of generated groups include the instance of a database only when its name makes it one. */
  lemma InstanceAmongGroupsExactly(db: Database, observed: Observations)
    requires InstanceExists(db, observed)
    requires db.request.userKey == Named(Instance, db.request.name, db.request.hash)
    requires IsShort(db.request.name, db.request.hash)
    ensures db.request.userKey in GroupKeys(db.request, observed) <==>
      && NamedLikeAGroup(db.request.name)
      && db.request.parameters.Some? && Family(db.request, observed).Some?
      && var family := Family(db.request, observed).value;
         || db.request.userKey == Key(family)
         || (!SwitchedTo(db.request, observed, GroupName(db.request, family)) && observed[db.request.userKey].hasSpec)
  {
    GroupKeyCollisions(Instance, db.request.name, db.request.hash);
    hide NamedLikeAGroup;
    hide IsShort;
    hide Family;
    hide GroupName;
    hide SwitchedTo;
    if Family(db.request, observed).Some? {
      PrefixOfKey(Family(db.request, observed).value);
    }
  }

  lemma InstanceIsNotFixed(db: Database)
    requires db.request.userKey == Named(Instance, db.request.name, db.request.hash)
    requires IsShort(db.request.name, db.request.hash)
    ensures db.request.userKey !in FixedObjects(db)
  {
    hide FixedNames;
    NamedInNoOtherStep(Instance, db.request.name, db.request.hash);
  }

  /** An instance with another snapshot is generated, and so never removed, exactly when the name of the
      database makes the instance pass for a parameter group that is kept. */
  lemma RecreationIsBlockedExactly(db: Database, observed: Observations)
    requires Recreates(db, observed)
    requires db.request.userKey == Named(Instance, db.request.name, db.request.hash)
    requires IsShort(db.request.name, db.request.hash)
    ensures db.request.userKey in GeneratedObjects(db, observed) <==>
      && NamedLikeAGroup(db.request.name)
      && db.request.parameters.Some? && Family(db.request, observed).Some?
      && var family := Family(db.request, observed).value;
         || db.request.userKey == Key(family)
         || (!SwitchedTo(db.request, observed, GroupName(db.request, family)) && observed[db.request.userKey].hasSpec)
  {
    hide FixedObjects;
    hide GroupKeys;
    hide IsShort;
    hide NamedLikeAGroup;
    hide Family;
    hide GroupName;
    hide SwitchedTo;
    hide Named;
    GeneratedNames(db, observed);
    InstanceAmongGroupsExactly(db, observed);
    InstanceIsNotFixed(db);
  }

  /** The only object that may be missing is the external secret, while an instance with the requested
      snapshot has no connection details yet. */
  lemma MissingObjects(db: Database, observed: Observations, name: string)
    requires name in GeneratedObjects(db, observed)
    ensures GeneratedObjects(db, observed)[name].None? <==>
      && name == db.SecretKey() && InstanceExists(db, observed) && !Recreates(db, observed)
      && !observed[db.request.userKey].connectable
  {
    hide FixedNames;
    hide GroupKeys;
    hide WantedGroup;
    hide OwnGroupName;
    hide Named;
  }
}
