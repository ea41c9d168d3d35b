/** The isolation of zones: the mutating and the validating policy of a zone's namespaces, and the labels of
    its nodes, from functions/tenancy/service/zone.go. */
module ZonePolicies {
  import opened Wrappers
  import opened JsonPointers

  const ZONE_KEY := "tenancy.entigo.com/zone"
  const ZONE_POOL_KEY := "tenancy.entigo.com/zone-pool"

  type Selector = map<string, string>

  /** A zone and the names of its pools. */
  datatype Zone = Zone(name: string, pools: seq<string>)

  function ZonePool(zone: string, pool: string): string { zone + "-" + pool }

  // ---- Pods ----

  function ToJson(selector: Selector): Json {
    Members(map key | key in selector :: Text(selector[key]))
  }

  /** What the API server admits as a pod: a spec, with a map of strings as node selector if there is one. */
  predicate IsPod(doc: Json) {
    && doc.Members? && "spec" in doc.members && doc.members["spec"].Members?
    && var spec := doc.members["spec"].members;
       "nodeSelector" in spec ==>
         && spec["nodeSelector"].Members?
         && forall key :: key in spec["nodeSelector"].members ==> spec["nodeSelector"].members[key].Text?
  }

  function SelectorOf(pod: Json): Option<Selector>
    requires IsPod(pod)
  {
    var spec := pod.members["spec"].members;
    if "nodeSelector" !in spec then None
    else
      var members := spec["nodeSelector"].members;
      Some(map key | key in members :: members[key].text)
  }

  /** The pod with another node selector and nothing else changed. */
  function WithSelector(pod: Json, selector: Selector): Json
    requires IsPod(pod)
  {
    Members(pod.members["spec" := Members(pod.members["spec"].members["nodeSelector" := ToJson(selector)])])
  }

  // ---- The policies ----

  /** The patches of the mutating policy of a namespace; an empty pool means the namespace has none. */
  function Mutations(zone: string, pool: string, pod: Json): seq<Patch>
    requires IsPod(pod)
  {
    if SelectorOf(pod).None? then
      [Add("/spec/nodeSelector",
           ToJson(if pool == "" then map[ZONE_KEY := zone]
                  else map[ZONE_KEY := zone, ZONE_POOL_KEY := ZonePool(zone, pool)]))]
    else
      [Add("/spec/nodeSelector/" + Escape(ZONE_KEY), Text(zone))]
      + if pool == "" || ZONE_POOL_KEY in SelectorOf(pod).value then []
        else [Add("/spec/nodeSelector/" + Escape(ZONE_POOL_KEY), Text(ZonePool(zone, pool)))]
  }

  function Mutate(zone: string, pool: string, pod: Json): Option<Json>
    requires IsPod(pod)
  {
    ApplyAll(pod, Mutations(zone, pool, pod))
  }

  /** The expression of the validating policy. */
  predicate Accepts(zone: Zone, selector: Selector) {
    && ZONE_KEY in selector && selector[ZONE_KEY] == zone.name
    && (ZONE_POOL_KEY !in selector || selector[ZONE_POOL_KEY] in ZonePools(zone))
  }

  predicate Validates(zone: Zone, pod: Json)
    requires IsPod(pod)
  {
    SelectorOf(pod).Some? && Accepts(zone, SelectorOf(pod).value)
  }

  function ZonePools(zone: Zone): set<string> {
    set pool | pool in zone.pools :: ZonePool(zone.name, pool)
  }

  type Labels = map<string, string>

  /** The labels that a pool gives its nodes. */
  function PoolLabels(zone: string, pool: string): Labels {
    map[ZONE_KEY := zone, ZONE_POOL_KEY := ZonePool(zone, pool)]
  }

  /** A node of a pool has the labels of the pool, among any others. */
  predicate IsInPool(labels: Labels, zone: string, pool: string) {
    forall key :: key in PoolLabels(zone, pool) ==> key in labels && labels[key] == PoolLabels(zone, pool)[key]
  }

  /** A node fits a pod when it carries every selected label. */
  predicate Fits(selector: Selector, labels: Labels) {
    forall key :: key in selector ==> key in labels && labels[key] == selector[key]
  }

  // ---- Mutation ----

  /** What the selector becomes: the zone is set over any value, the pool is only a default. */
  function Expected(zone: string, pool: string, selector: Option<Selector>): Selector {
    var start: Selector := if selector.Some? then selector.value else map[];
    var zoned := start[ZONE_KEY := zone];
    if pool == "" || ZONE_POOL_KEY in start then zoned else zoned[ZONE_POOL_KEY := ZonePool(zone, pool)]
  }

  lemma KeysDiffer()
    ensures ZONE_KEY != ZONE_POOL_KEY
  {
    assert |ZONE_KEY| != |ZONE_POOL_KEY|;
  }

  lemma SpecTokensArePlain()
    ensures IsPlainToken("spec") && IsPlainToken("nodeSelector") && "spec" != "nodeSelector"
  {
    assert |"spec"| != |"nodeSelector"|;
  }

  lemma SelectorPaths(key: string)
    ensures Tokens("/spec/nodeSelector") == Some(["spec", "nodeSelector"])
    ensures Tokens("/spec/nodeSelector/" + Escape(key)) == Some(["spec", "nodeSelector", key])
  {
    SpecTokensArePlain();
    hide Tokens;
    PathHasTwoTokens("spec", "nodeSelector");
    PathHasThreeTokens("spec", "nodeSelector", key);
    assert "/" + "spec" + "/" + "nodeSelector" == "/spec/nodeSelector";
    assert "/" + "spec" + "/" + "nodeSelector" + "/" + Escape(key) == "/spec/nodeSelector/" + Escape(key);
  }

  lemma ToJsonUpdates(selector: Selector, key: string, value: string)
    ensures ToJson(selector[key := value]) == Members(ToJson(selector).members[key := Text(value)])
  {}

  lemma ToJsonOfSelector(pod: Json)
    requires IsPod(pod) && SelectorOf(pod).Some?
    ensures pod.members["spec"].members["nodeSelector"] == ToJson(SelectorOf(pod).value)
    ensures WithSelector(pod, SelectorOf(pod).value) == pod
  {
    assert pod.members["spec"].members["nodeSelector"].members == ToJson(SelectorOf(pod).value).members;
    var spec := pod.members["spec"].members;
    assert spec["nodeSelector" := spec["nodeSelector"]] == spec;
    assert pod.members["spec" := pod.members["spec"]] == pod.members;
  }

  lemma SelectorOfWith(pod: Json, selector: Selector)
    requires IsPod(pod)
    ensures IsPod(WithSelector(pod, selector)) && SelectorOf(WithSelector(pod, selector)) == Some(selector)
    ensures forall other: Selector :: WithSelector(WithSelector(pod, selector), other) == WithSelector(pod, other)
  {
    var result := WithSelector(pod, selector);
    assert result.members["spec"].members["nodeSelector"] == ToJson(selector);
    assert SelectorOf(result).value == selector;
    forall other: Selector
      ensures WithSelector(result, other) == WithSelector(pod, other)
    {
      assert result.members["spec"].members["nodeSelector" := ToJson(other)]
          == pod.members["spec"].members["nodeSelector" := ToJson(other)];
      assert WithSelector(result, other).members == WithSelector(pod, other).members;
    }
  }

  /** Adding a missing selector. */
  lemma AddsSelector(pod: Json, selector: Selector)
    requires IsPod(pod)
    ensures Apply(pod, Add("/spec/nodeSelector", ToJson(selector))) == Some(WithSelector(pod, selector))
  {
    SelectorPaths("");
    hide Tokens;
    hide ToJson;
    hide AddAt;
    AddMember(pod.members["spec"], "nodeSelector", ToJson(selector));
    AddBelow(pod, "spec", ["nodeSelector"], ToJson(selector));
    assert ["spec"] + ["nodeSelector"] == ["spec", "nodeSelector"];
  }

  /** Adding one entry to a selector that is there. */
  lemma AddsEntry(pod: Json, selector: Selector, key: string, value: string)
    requires IsPod(pod) && SelectorOf(pod) == Some(selector)
    ensures Apply(pod, Add("/spec/nodeSelector/" + Escape(key), Text(value)))
         == Some(WithSelector(pod, selector[key := value]))
  {
    SelectorPaths(key);
    ToJsonOfSelector(pod);
    ToJsonUpdates(selector, key, value);
    hide Tokens;
    hide Escape;
    hide AddAt;
    var spec := pod.members["spec"];
    AddMember(spec.members["nodeSelector"], key, Text(value));
    AddBelow(spec, "nodeSelector", [key], Text(value));
    AddBelow(pod, "spec", ["nodeSelector"] + [key], Text(value));
    assert ["spec"] + (["nodeSelector"] + [key]) == ["spec", "nodeSelector", key];
    hide ToJson;
  }

  function SetZone(zone: string): Patch { Add("/spec/nodeSelector/" + Escape(ZONE_KEY), Text(zone)) }

  function SetPool(zone: string, pool: string): Patch {
    Add("/spec/nodeSelector/" + Escape(ZONE_POOL_KEY), Text(ZonePool(zone, pool)))
  }

  lemma MutationsForm(zone: string, pool: string, pod: Json)
    requires IsPod(pod)
    ensures SelectorOf(pod).None? ==>
      Mutations(zone, pool, pod) == [Add("/spec/nodeSelector", ToJson(Expected(zone, pool, None)))]
    ensures SelectorOf(pod).Some? ==>
      Mutations(zone, pool, pod)
      == if pool == "" || ZONE_POOL_KEY in SelectorOf(pod).value then [SetZone(zone)]
         else [SetZone(zone), SetPool(zone, pool)]
  {
    hide SelectorOf;
    hide ToJson;
    hide Escape;
    hide ZonePool;
    KeysDiffer();
    assert [SetZone(zone)] + [SetPool(zone, pool)] == [SetZone(zone), SetPool(zone, pool)];
    assert [SetZone(zone)] + [] == [SetZone(zone)];
    assert Expected(zone, pool, None)
        == if pool == "" then map[ZONE_KEY := zone] else map[ZONE_KEY := zone, ZONE_POOL_KEY := ZonePool(zone, pool)];
  }

  lemma SetZoneAdds(zone: string, pod: Json, selector: Selector)
    requires IsPod(pod) && SelectorOf(pod) == Some(selector)
    ensures Apply(pod, SetZone(zone)) == Some(WithSelector(pod, selector[ZONE_KEY := zone]))
  {
    hide Apply;
    AddsEntry(pod, selector, ZONE_KEY, zone);
  }

  lemma AddsToSet(pod: Json, selector: Selector, key: string, value: string)
    requires IsPod(pod)
    ensures IsPod(WithSelector(pod, selector))
    ensures Apply(WithSelector(pod, selector), Add("/spec/nodeSelector/" + Escape(key), Text(value)))
         == Some(WithSelector(pod, selector[key := value]))
  {
    hide *;
    SelectorOfWith(pod, selector);
    AddsEntry(WithSelector(pod, selector), selector, key, value);
  }

  lemma SetPoolAdds(zone: string, pool: string, pod: Json, selector: Selector)
    requires IsPod(pod)
    ensures IsPod(WithSelector(pod, selector))
    ensures Apply(WithSelector(pod, selector), SetPool(zone, pool))
         == Some(WithSelector(pod, selector[ZONE_POOL_KEY := ZonePool(zone, pool)]))
  {
    hide Apply;
    hide IsPod;
    hide WithSelector;
    hide ZonePool;
    hide Escape;
    AddsToSet(pod, selector, ZONE_POOL_KEY, ZonePool(zone, pool));
  }

  lemma ExpectedForm(zone: string, pool: string, selector: Selector)
    ensures Expected(zone, pool, Some(selector)) ==
      if pool == "" || ZONE_POOL_KEY in selector then selector[ZONE_KEY := zone]
      else selector[ZONE_KEY := zone][ZONE_POOL_KEY := ZonePool(zone, pool)]
  {}

  /** The patches apply to every pod. They set the zone, default the pool, and change nothing else. */
  lemma MutationSets(zone: string, pool: string, pod: Json)
    requires IsPod(pod)
    ensures Mutate(zone, pool, pod) == Some(WithSelector(pod, Expected(zone, pool, SelectorOf(pod))))
  {
    MutationsForm(zone, pool, pod);
    assert Mutate(zone, pool, pod) == ApplyAll(pod, Mutations(zone, pool, pod));
    hide *;
    if SelectorOf(pod).None? {
      ApplyOne(pod, Add("/spec/nodeSelector", ToJson(Expected(zone, pool, None))));
      AddsSelector(pod, Expected(zone, pool, None));
    } else {
      var selector := SelectorOf(pod).value;
      ExpectedForm(zone, pool, selector);
      SetZoneAdds(zone, pod, selector);
      if pool == "" || ZONE_POOL_KEY in selector {
        ApplyOne(pod, SetZone(zone));
      } else {
        ApplyTwo(pod, SetZone(zone), SetPool(zone, pool));
        SetPoolAdds(zone, pool, pod, selector[ZONE_KEY := zone]);
      }
    }
  }

  lemma ExpectedIsIdempotent(zone: string, pool: string, selector: Option<Selector>)
    ensures Expected(zone, pool, Some(Expected(zone, pool, selector))) == Expected(zone, pool, selector)
  {
    KeysDiffer();
  }

  /** Mutating a mutated pod changes nothing. */
  lemma MutationIsIdempotent(zone: string, pool: string, pod: Json)
    requires IsPod(pod)
    ensures Mutate(zone, pool, pod).Some? && IsPod(Mutate(zone, pool, pod).value)
    ensures Mutate(zone, pool, Mutate(zone, pool, pod).value) == Mutate(zone, pool, pod)
  {
    hide *;
    var selector := Expected(zone, pool, SelectorOf(pod));
    MutationSets(zone, pool, pod);
    SelectorOfWith(pod, selector);
    MutationSets(zone, pool, WithSelector(pod, selector));
    ExpectedIsIdempotent(zone, pool, SelectorOf(pod));
  }

  /** Only the two keys of the selector change. */
  lemma MutationKeepsOtherKeys(zone: string, pool: string, selector: Option<Selector>, key: string)
    requires key != ZONE_KEY && key != ZONE_POOL_KEY
    ensures key in Expected(zone, pool, selector) <==> selector.Some? && key in selector.value
    ensures selector.Some? && key in selector.value ==> Expected(zone, pool, selector)[key] == selector.value[key]
  {}

  // ---- Isolation ----

  predicate HasPool(zone: Zone, pool: string) { pool in zone.pools }

  /** A pool value that one of the zone's pools gives. */
  predicate IsOwnPool(zone: Zone, value: string) { value in ZonePools(zone) }

  lemma DefaultPoolIsOwn(zone: Zone, pool: string)
    ensures IsOwnPool(zone, ZonePool(zone.name, pool)) <==> HasPool(zone, pool)
  {
    forall own: string
      ensures ZonePool(zone.name, own) == ZonePool(zone.name, pool) <==> own == pool
    {
      PoolsOfOneZone(zone.name, own, pool);
    }
    hide ZonePool;
  }

  lemma AcceptedExactly(zone: Zone, pool: string, selector: Option<Selector>)
    ensures Accepts(zone, Expected(zone.name, pool, selector)) <==>
      if selector.Some? && ZONE_POOL_KEY in selector.value then IsOwnPool(zone, selector.value[ZONE_POOL_KEY])
      else pool == "" || HasPool(zone, pool)
  {
    KeysDiffer();
    DefaultPoolIsOwn(zone, pool);
    hide ZonePool;
    hide ZonePools;
  }

  /** A mutated pod is admitted exactly when the pool it ends up with, if any, is one of the zone's pools. */
  lemma AdmittedExactly(zone: Zone, pool: string, pod: Json)
    requires IsPod(pod)
    ensures var mutated := Mutate(zone.name, pool, pod);
      && mutated.Some? && IsPod(mutated.value)
      && (Validates(zone, mutated.value) <==>
           if SelectorOf(pod).Some? && ZONE_POOL_KEY in SelectorOf(pod).value
           then IsOwnPool(zone, SelectorOf(pod).value[ZONE_POOL_KEY])
           else pool == "" || HasPool(zone, pool))
  {
    hide Mutate;
    hide SelectorOf;
    hide WithSelector;
    hide Accepts;
    hide Expected;
    MutationSets(zone.name, pool, pod);
    SelectorOfWith(pod, Expected(zone.name, pool, SelectorOf(pod)));
    AcceptedExactly(zone, pool, SelectorOf(pod));
  }

  lemma PoolsOfOneZone(zone: string, a: string, b: string)
    ensures ZonePool(zone, a) == ZonePool(zone, b) <==> a == b
  {
    assert ZonePool(zone, a)[|zone| + 1..] == a;
    assert ZonePool(zone, b)[|zone| + 1..] == b;
  }

  lemma LabelsInPool(labels: Labels, zone: string, pool: string)
    ensures IsInPool(labels, zone, pool) <==>
      && ZONE_KEY in labels && labels[ZONE_KEY] == zone
      && ZONE_POOL_KEY in labels && labels[ZONE_POOL_KEY] == ZonePool(zone, pool)
  {
    KeysDiffer();
    hide ZonePool;
    var given := PoolLabels(zone, pool);
    assert given.Keys == {ZONE_KEY, ZONE_POOL_KEY};
    assert given[ZONE_KEY] == zone && given[ZONE_POOL_KEY] == ZonePool(zone, pool);
  }

  /** Whatever else it selects, an admitted pod fits no node that lacks the label of the zone, and none of another
      zone. */
  lemma AdmittedPodNeedsTheZone(zone: Zone, pod: Json, labels: Labels)
    requires IsPod(pod) && Validates(zone, pod)
    ensures Fits(SelectorOf(pod).value, labels) ==> ZONE_KEY in labels && labels[ZONE_KEY] == zone.name
  {
    hide SelectorOf;
    hide ZonePools;
    var selector := SelectorOf(pod).value;
    assert ZONE_KEY in selector && selector[ZONE_KEY] == zone.name;
  }

  /** An admitted pod fits only nodes of its own zone, and only nodes of its own pool if it names one: for all
      zones and pools, whatever the pod asked for and whatever other labels the node has. */
  lemma AdmittedPodStaysInItsZone(zone: Zone, pod: Json, labels: Labels, nodeZone: string, nodePool: string)
    requires IsPod(pod) && Validates(zone, pod)
    requires IsInPool(labels, nodeZone, nodePool) && Fits(SelectorOf(pod).value, labels)
    ensures nodeZone == zone.name
    ensures ZONE_POOL_KEY in SelectorOf(pod).value ==>
      nodePool in zone.pools && SelectorOf(pod).value[ZONE_POOL_KEY] == ZonePool(zone.name, nodePool)
  {
    LabelsInPool(labels, nodeZone, nodePool);
    AdmittedPodNeedsTheZone(zone, pod, labels);
    hide SelectorOf;
    hide IsInPool;
    var selector := SelectorOf(pod).value;
    if ZONE_POOL_KEY in selector {
      var own :| own in zone.pools && selector[ZONE_POOL_KEY] == ZonePool(zone.name, own);
      assert labels[ZONE_POOL_KEY] == selector[ZONE_POOL_KEY];
      PoolsOfOneZone(zone.name, own, nodePool);
    }
  }

  /** An admitted pod fits a node of a pool exactly when the zone is its own, the pool is the one it names, if any,
      and the node has every other label it selects. */
  lemma AdmittedPodFitsExactly(zone: Zone, pod: Json, labels: Labels, nodeZone: string, nodePool: string)
    requires IsPod(pod) && Validates(zone, pod) && IsInPool(labels, nodeZone, nodePool)
    ensures var selector := SelectorOf(pod).value;
      Fits(selector, labels) <==>
        && nodeZone == zone.name
        && (ZONE_POOL_KEY in selector ==> selector[ZONE_POOL_KEY] == ZonePool(nodeZone, nodePool))
        && forall key :: key in selector && key != ZONE_KEY && key != ZONE_POOL_KEY ==>
             key in labels && labels[key] == selector[key]
  {
    LabelsInPool(labels, nodeZone, nodePool);
    AdmittedPodNeedsTheZone(zone, pod, labels);
    hide SelectorOf;
    hide IsInPool;
    hide ZonePools;
    hide ZonePool;
    var selector := SelectorOf(pod).value;
    assert ZONE_KEY in selector && selector[ZONE_KEY] == zone.name;
  }

  /** The pool label alone does not tell zones apart, so a policy that checked only it would not isolate. */
  lemma PoolLabelsOfZonesCanBeEqual()
    ensures ZonePool("a", "b-c") == ZonePool("a-b", "c")
    ensures !Fits(map[ZONE_KEY := "a"], PoolLabels("a-b", "c"))
    ensures Fits(map[ZONE_POOL_KEY := ZonePool("a", "b-c")], PoolLabels("a-b", "c"))
  {
    KeysDiffer();
    assert ZonePool("a", "b-c") == "a-b-c" == ZonePool("a-b", "c");
    assert |"a"| != |"a-b"|;
    assert ZONE_KEY in PoolLabels("a-b", "c");
    var selector: Selector := map[ZONE_KEY := "a"];
    assert ZONE_KEY in selector && selector[ZONE_KEY] != PoolLabels("a-b", "c")[ZONE_KEY];
  }
}
