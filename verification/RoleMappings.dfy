/** The groups that hold each role of a zone: mergeRoleMappings of functions/tenancy/service/zone.go. */
module RoleMappings {
  import opened Sorting

  const ROLE_CONTRIBUTOR := "contributor"

  datatype Mapping = Mapping(role: string, groups: seq<string>)

  /** `mappings` are the zone's and then the environment's; `contributorGroups` those of its app project. */
  datatype Request = Request(mappings: seq<Mapping>, contributorGroups: seq<string>)

  predicate IsMapped(mappings: seq<Mapping>, role: string) {
    exists i :: 0 <= i < |mappings| && mappings[i].role == role
  }

  /** Some mapping gives the role to the group. */
  predicate Gives(mappings: seq<Mapping>, role: string, group: string) {
    exists i :: 0 <= i < |mappings| && mappings[i].role == role && group in mappings[i].groups
  }

  ghost predicate IsMergeOf(merged: map<string, seq<string>>, mappings: seq<Mapping>) {
    && (forall role :: role in merged <==> IsMapped(mappings, role))
    && forall role, group :: role in merged ==> (group in merged[role] <==> Gives(mappings, role, group))
  }

  method MergeMappings(mappings: seq<Mapping>) returns (merged: map<string, seq<string>>)
    ensures IsMergeOf(merged, mappings)
  {
    merged := map[];
    for i := 0 to |mappings|
      invariant IsMergeOf(merged, mappings[..i])
    {
      var mapping := mappings[i];
      ghost var before := merged;
      merged := merged[mapping.role := (if mapping.role in merged then merged[mapping.role] else []) + mapping.groups];
      OneMoreMapping(before, merged, mappings, i);
    }
    assert mappings[..|mappings|] == mappings;
  }

  lemma MappedOnceMore(mappings: seq<Mapping>, i: nat, role: string)
    requires i < |mappings|
    ensures IsMapped(mappings[..i + 1], role) <==> IsMapped(mappings[..i], role) || mappings[i].role == role
  {
    var was, now := mappings[..i], mappings[..i + 1];
    assert now[i] == mappings[i];
    assert forall k :: 0 <= k < i ==> was[k] == now[k];
  }

  lemma GivesOnceMore(mappings: seq<Mapping>, i: nat, role: string, group: string)
    requires i < |mappings|
    ensures Gives(mappings[..i + 1], role, group)
       <==> Gives(mappings[..i], role, group) || (mappings[i].role == role && group in mappings[i].groups)
  {
    var was, now := mappings[..i], mappings[..i + 1];
    assert now[i] == mappings[i];
    if Gives(was, role, group) {
      var k :| 0 <= k < i && was[k].role == role && group in was[k].groups;
      assert now[k] == was[k];
    }
    if Gives(now, role, group) {
      var k :| 0 <= k <= i && now[k].role == role && group in now[k].groups;
      if k < i { assert was[k] == now[k]; }
    }
  }

  lemma OneMoreMapping(before: map<string, seq<string>>, after: map<string, seq<string>>, mappings: seq<Mapping>, i: nat)
    requires i < |mappings| && IsMergeOf(before, mappings[..i])
    requires var mapping := mappings[i];
      after == before[mapping.role := (if mapping.role in before then before[mapping.role] else []) + mapping.groups]
    ensures IsMergeOf(after, mappings[..i + 1])
  {
    hide IsMapped;
    hide Gives;
    forall role: string
      ensures IsMapped(mappings[..i + 1], role) <==> IsMapped(mappings[..i], role) || mappings[i].role == role
    {
      MappedOnceMore(mappings, i, role);
    }
    forall role, group | role in after
      ensures group in after[role] <==> Gives(mappings[..i + 1], role, group)
    {
      GivesOnceMore(mappings, i, role, group);
      GivesOnlyMapped(mappings[..i], role, group);
      var start := if role in before then before[role] else [];
      assert group in start <==> Gives(mappings[..i], role, group);
      if role == mappings[i].role {
        assert after[role] == start + mappings[i].groups;
        InConcatenation(group, start, mappings[i].groups);
      }
    }
  }

  lemma InConcatenation<T>(x: T, a: seq<T>, b: seq<T>)
    ensures x in a + b <==> x in a || x in b
  {}

  lemma GivesOnlyMapped(mappings: seq<Mapping>, role: string, group: string)
    ensures Gives(mappings, role, group) ==> IsMapped(mappings, role)
  {}

  method Deduplicate(groups: seq<string>) returns (unique: seq<string>)
    ensures AllDiffer(unique) && forall group :: group in unique <==> group in groups
  {
    unique := [];
    for i := 0 to |groups|
      invariant AllDiffer(unique) && forall group :: group in unique <==> group in groups[..i]
    {
      assert groups[..i + 1] == groups[..i] + [groups[i]];
      if groups[i] !in unique {
        unique := unique + [groups[i]];
      }
    }
    assert groups[..|groups|] == groups;
  }

  /** The contributor role of an app project counts only where a mapping names it. */
  predicate Holds(request: Request, role: string, group: string) {
    Gives(request.mappings, role, group) || (role == ROLE_CONTRIBUTOR && group in request.contributorGroups)
  }

  /** What the merge of a request is; it has exactly one. */
  ghost predicate IsMerged(merged: map<string, seq<string>>, request: Request) {
    && (forall role :: role in merged <==> IsMapped(request.mappings, role))
    && (forall role :: role in merged ==> Ascends(merged[role]))
    && forall role, group :: role in merged ==> (group in merged[role] <==> Holds(request, role, group))
  }

  /** The groups of a role, with those of the app project for contributors. */
  ghost predicate IsCompleted(groups: seq<string>, start: seq<string>, role: string, request: Request) {
    forall group :: group in groups <==>
      group in start || (role == ROLE_CONTRIBUTOR && group in request.contributorGroups)
  }

  method MergeRoleMappings(request: Request) returns (merged: map<string, seq<string>>)
    ensures IsMerged(merged, request)
  {
    hide Less;
    hide SortedBy;
    var start := MergeMappings(request.mappings);
    merged := start;
    var todo := start.Keys;
    while todo != {}
      invariant todo <= start.Keys && merged.Keys == start.Keys
      invariant forall role :: role in todo ==> merged[role] == start[role]
      invariant forall role :: role in start && role !in todo ==> Ascends(merged[role])
      invariant forall role :: role in start && role !in todo ==> IsCompleted(merged[role], start[role], role, request)
      decreases todo
    {
      var role :| role in todo;
      todo := todo - {role};
      var groups := merged[role];
      if role == ROLE_CONTRIBUTOR {
        groups := groups + request.contributorGroups;
      }
      var unique := Deduplicate(groups);
      var sorted := Sort(unique, (x: string) => x);
      SortedDifferingAscends(unique, sorted);
      SameElements(unique, sorted);
      forall group
        ensures group in sorted
           <==> group in start[role] || (role == ROLE_CONTRIBUTOR && group in request.contributorGroups)
      {
        assert group in sorted <==> group in groups;
      }
      merged := merged[role := sorted];
    }
    assert forall role :: role in merged ==> IsCompleted(merged[role], start[role], role, request);
    forall role, group | role in merged
      ensures group in merged[role] <==> Holds(request, role, group)
    {
      assert group in start[role] <==> Gives(request.mappings, role, group);
    }
  }

  lemma SameElements(a: seq<string>, b: seq<string>)
    requires multiset(a) == multiset(b)
    ensures forall x :: x in a <==> x in b
  {
    forall x
      ensures x in a <==> x in b
    {
      assert x in multiset(a) <==> x in multiset(b);
    }
  }

  /** The result depends neither on the order of the mappings nor on how the groups are split over them. */
  lemma MergeIsUnique(a: map<string, seq<string>>, b: map<string, seq<string>>, requestA: Request, requestB: Request)
    requires IsMerged(a, requestA) && IsMerged(b, requestB)
    requires forall role :: IsMapped(requestA.mappings, role) <==> IsMapped(requestB.mappings, role)
    requires forall role, group :: Holds(requestA, role, group) <==> Holds(requestB, role, group)
    ensures a == b
  {
    hide IsMapped;
    hide Holds;
    hide Ascends;
    forall role | role in a
      ensures role in b && a[role] == b[role]
    {
      AscendingIsUnique(a[role], b[role]);
    }
  }

  /** The groups of an app project get the contributor role exactly when some mapping names that role. */
  lemma ContributorsNeedAMapping(merged: map<string, seq<string>>, request: Request, group: string)
    requires IsMerged(merged, request) && group in request.contributorGroups
    ensures ROLE_CONTRIBUTOR in merged && group in merged[ROLE_CONTRIBUTOR] <==> IsMapped(request.mappings, ROLE_CONTRIBUTOR)
  {
    hide IsMapped;
    hide Ascends;
    assert Holds(request, ROLE_CONTRIBUTOR, group);
  }
}
