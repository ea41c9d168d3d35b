/** Tag and label layering: functions/common/base/tag.go, GetResourceTags in util.go, injectZone in fn.go. */
module TagInjection {
  import opened Wrappers

  type Layer = map<string, string>

  const TAGS_PREFIX := "tags.entigo.com/"
  const AWS_TAGS_LIMIT := 44
  const TENANCY_ZONE_LABEL := "tenancy.entigo.com/zone"
  const TENANCY_ZONE_AWS_TAG := "entigo:zone"
  const TENANCY_WORKSPACE_LABEL := "tenancy.entigo.com/workspace"
  const TENANCY_WORKSPACE_AWS_TAG := "entigo:workspace"

  /** The labels and annotations of a composite or of a Zone. */
  datatype Meta = Meta(labels: Layer, annotations: Layer)

  datatype Composite = Composite(name: string, namespaced: bool, tenancyZone: bool, meta: Meta)

  datatype ResourceTags = ResourceTags(zone: string, tags: Layer, labels: Layer)

  /** The spec.forProvider.tags field of a generated object. */
  datatype TagField = Unsupported | Malformed | Tags(tags: Layer)

  datatype InjectionError = NilObject | TagsLimitExceeded(count: nat)

  datatype Object = Object(labels: Layer, tagField: TagField, body: string)

  // ---- Extraction ----

  function TagKeys(source: Layer): set<string> {
    set key | key in source && TAGS_PREFIX <= key :: key[|TAGS_PREFIX|..]
  }

  /** The entries whose key carries the prefix, without it. */
  function Tagged(source: Layer): Layer {
    TrimmedKeys(source);
    map tag | tag in TagKeys(source) :: source[TAGS_PREFIX + tag]
  }

  lemma TaggedEntries(source: Layer, tag: string)
    ensures tag in Tagged(source) <==> TAGS_PREFIX + tag in source
    ensures tag in Tagged(source) ==> Tagged(source)[tag] == source[TAGS_PREFIX + tag]
  {
    TrimmedKeys(source);
  }

  lemma TrimmedKeys(source: Layer)
    ensures forall tag :: tag in TagKeys(source) <==> TAGS_PREFIX + tag in source
  {
    forall tag
      ensures tag in TagKeys(source) <==> TAGS_PREFIX + tag in source
    {
      assert (TAGS_PREFIX + tag)[|TAGS_PREFIX|..] == tag;
      forall key | key in source && TAGS_PREFIX <= key && key[|TAGS_PREFIX|..] == tag
        ensures key == TAGS_PREFIX + tag
      {}
    }
  }

  /** The same entries with the prefix kept. */
  function Prefixed(source: Layer): Layer {
    map key | key in source && TAGS_PREFIX <= key :: source[key]
  }

  method ExtractTagsLabels(source: Layer) returns (tags: Layer, labels: Layer)
    ensures tags == Tagged(source) && labels == Prefixed(source)
  {
    tags, labels := map[], map[];
    var todo := source.Keys;
    while todo != {}
      invariant todo <= source.Keys
      invariant forall tag :: tag in tags <==> TAGS_PREFIX + tag in source && TAGS_PREFIX + tag !in todo
      invariant forall tag :: tag in tags ==> tags[tag] == source[TAGS_PREFIX + tag]
      invariant labels == map key | key in source && key !in todo && TAGS_PREFIX <= key :: source[key]
      decreases todo
    {
      var key :| key in todo;
      todo := todo - {key};
      if TAGS_PREFIX <= key {
        assert key == TAGS_PREFIX + key[|TAGS_PREFIX|..];
        tags := tags[key[|TAGS_PREFIX|..] := source[key]];
        labels := labels[key := source[key]];
      }
    }
    TrimmedKeys(source);
  }

  function ObjectTags(meta: Meta): Layer { Tagged(meta.labels) + Tagged(meta.annotations) }

  method GetObjectTagsLabels(meta: Meta) returns (tags: Layer, labels: Layer)
    ensures tags == ObjectTags(meta) && labels == Prefixed(meta.labels)
  {
    tags, labels := ExtractTagsLabels(meta.labels);
    var annotationTags, _ := ExtractTagsLabels(meta.annotations);
    tags := tags + annotationTags;
  }

  /** The tags of the zone environment config; a tag without a value is skipped. */
  function EnvironmentTags(env: map<string, Option<string>>): Layer {
    map key | key in env && env[key].Some? :: env[key].value
  }

  // ---- The layers, lowest first ----

  function ZoneMeta(zoneObject: Option<Meta>): Meta {
    if zoneObject.Some? then zoneObject.value else Meta(map[], map[])
  }

  /** The zone value the injection uses. */
  function ZoneValue(composite: Composite, namespaceZone: string): string {
    if composite.namespaced then namespaceZone
    else if composite.tenancyZone then composite.name
    else ""
  }

  /** The layers a user or a platform operator writes. */
  function UserTagLayers(composite: Composite, namespaceZone: string, env: map<string, Option<string>>,
                         zoneObject: Option<Meta>): seq<Layer> {
    var own := [Tagged(composite.meta.labels), Tagged(composite.meta.annotations)];
    if composite.namespaced && namespaceZone != "" then
      var zone := ZoneMeta(zoneObject);
      [EnvironmentTags(env), Tagged(zone.labels), Tagged(zone.annotations)] + own
    else if composite.namespaced || composite.tenancyZone then own
    else []
  }

  function PlatformLayer(key: string, value: string): Layer {
    if value != "" then map[key := value] else map[]
  }

  function TagLayers(generated: Layer, user: seq<Layer>, zone: string, workspace: string): seq<Layer> {
    [generated] + user + [PlatformLayer(TENANCY_ZONE_AWS_TAG, zone), PlatformLayer(TENANCY_WORKSPACE_AWS_TAG, workspace)]
  }

  /** The same layers for labels, which keep their prefixed keys and come from labels only. */
  function UserLabelLayers(composite: Composite, namespaceZone: string, zoneObject: Option<Meta>): seq<Layer> {
    if composite.namespaced && namespaceZone != "" then
      [Prefixed(ZoneMeta(zoneObject).labels), Prefixed(composite.meta.labels)]
    else if composite.namespaced || composite.tenancyZone then [Prefixed(composite.meta.labels)]
    else []
  }

  function LabelLayers(generated: Layer, user: seq<Layer>, zone: string, workspace: string): seq<Layer> {
    [generated] + user + [PlatformLayer(TENANCY_ZONE_LABEL, zone), PlatformLayer(TENANCY_WORKSPACE_LABEL, workspace)]
  }

  /** The keys that some layer has. */
  function KeysOf(layers: seq<Layer>): set<string> {
    set i, key | 0 <= i < |layers| && key in layers[i] :: key
  }

  function Merge(layers: seq<Layer>): Layer {
    if layers == [] then map[] else Merge(layers[..|layers| - 1]) + layers[|layers| - 1]
  }

  /** Layer `i` is the highest one that has the key. */
  predicate IsHighest(layers: seq<Layer>, i: int, key: string) {
    && 0 <= i < |layers|
    && key in layers[i]
    && forall j :: i < j < |layers| ==> key !in layers[j]
  }

  lemma {:induction false} MergeKeys(layers: seq<Layer>, key: string)
    ensures key in Merge(layers) <==> exists i :: 0 <= i < |layers| && key in layers[i]
  {
    if layers != [] {
      var last := |layers| - 1;
      var lower := layers[..last];
      MergeKeys(lower, key);
      assert forall i :: 0 <= i < last ==> lower[i] == layers[i];
      if key !in layers[last] {
        if i :| 0 <= i < |layers| && key in layers[i] {
          assert key in lower[i];
        }
      }
    }
  }

  lemma {:induction false} MergeTakesHighest(layers: seq<Layer>, i: int, key: string)
    requires IsHighest(layers, i, key)
    ensures key in Merge(layers) && Merge(layers)[key] == layers[i][key]
  {
    var last := |layers| - 1;
    if i < last {
      var lower := layers[..last];
      assert lower[i] == layers[i];
      MergeTakesHighest(lower, i, key);
      assert key !in layers[last];
    }
  }

  // ---- Collection and injection ----

  /** What the collection methods return, as a function of the composite and the required resources. */
  function CollectedTags(composite: Composite, namespaceZone: string, env: map<string, Option<string>>,
                         zoneObject: Option<Meta>): ResourceTags {
    if composite.namespaced && namespaceZone != "" then
      var zone := ZoneMeta(zoneObject);
      ResourceTags(namespaceZone,
                   EnvironmentTags(env) + ObjectTags(zone) + ObjectTags(composite.meta),
                   Prefixed(zone.labels) + Prefixed(composite.meta.labels))
    else if composite.namespaced || composite.tenancyZone then
      ResourceTags(ZoneValue(composite, namespaceZone), ObjectTags(composite.meta), Prefixed(composite.meta.labels))
    else ResourceTags("", map[], map[])
  }

  lemma NothingFromNoZone()
    ensures ObjectTags(Meta(map[], map[])) == map[] && Prefixed(map[]) == map[]
  {}

  method GetResourceTags(composite: Composite, namespaceZone: string, env: map<string, Option<string>>,
                         zoneObject: Option<Meta>) returns (collected: ResourceTags)
    requires composite.namespaced
    ensures var want := CollectedTags(composite, namespaceZone, env, zoneObject);
      collected.zone == want.zone && collected.tags == want.tags && collected.labels == want.labels
  {
    NothingFromNoZone();
    hide Tagged;
    hide Prefixed;
    hide ObjectTags;
    hide EnvironmentTags;
    var ownTags, ownLabels := GetObjectTagsLabels(composite.meta);
    if namespaceZone == "" {
      return ResourceTags(namespaceZone, ownTags, ownLabels);
    }
    var tags := EnvironmentTags(env);
    var labels: Layer := map[];
    if zoneObject.Some? {
      var zoneTags, zoneLabels := GetObjectTagsLabels(zoneObject.value);
      tags := tags + zoneTags;
      labels := zoneLabels;
    }
    collected := ResourceTags(namespaceZone, tags + ownTags, labels + ownLabels);
  }

  function InjectedTags(generated: Layer, collected: ResourceTags, workspace: string): Layer {
    generated + collected.tags + PlatformLayer(TENANCY_ZONE_AWS_TAG, collected.zone)
    + PlatformLayer(TENANCY_WORKSPACE_AWS_TAG, workspace)
  }

  function InjectedLabels(generated: Layer, collected: ResourceTags, workspace: string): Layer {
    generated + collected.labels + PlatformLayer(TENANCY_ZONE_LABEL, collected.zone)
    + PlatformLayer(TENANCY_WORKSPACE_LABEL, workspace)
  }

  /** The object a generated object becomes, or the error that ends the round. */
  function Injected(generated: Object, collected: ResourceTags, workspace: string): Result<Object, InjectionError> {
    var labels := InjectedLabels(generated.labels, collected, workspace);
    match generated.tagField
    case Tags(own) =>
      var tags := InjectedTags(own, collected, workspace);
      if |tags| > AWS_TAGS_LIMIT then Err(TagsLimitExceeded(|tags|)) else Ok(Object(labels, Tags(tags), generated.body))
    case _ => Ok(Object(labels, generated.tagField, generated.body))
  }

  lemma InjectedOk(original: Object, collected: ResourceTags, workspace: string, labels: Layer, tagField: TagField)
    requires labels == InjectedLabels(original.labels, collected, workspace)
    requires !original.tagField.Tags? ==> tagField == original.tagField
    requires original.tagField.Tags? ==> tagField == Tags(InjectedTags(original.tagField.tags, collected, workspace))
    requires original.tagField.Tags? ==> |InjectedTags(original.tagField.tags, collected, workspace)| <= AWS_TAGS_LIMIT
    ensures Injected(original, collected, workspace) == Ok(Object(labels, tagField, original.body))
  {
    hide InjectedLabels;
    hide InjectedTags;
  }

  lemma InjectedErr(original: Object, collected: ResourceTags, workspace: string)
    requires original.tagField.Tags?
    requires |InjectedTags(original.tagField.tags, collected, workspace)| > AWS_TAGS_LIMIT
    ensures Injected(original, collected, workspace)
         == Err(TagsLimitExceeded(|InjectedTags(original.tagField.tags, collected, workspace)|))
  {
    hide InjectedTags;
  }

  lemma WithPlatform(layer: Layer, key: string, value: string)
    ensures layer + PlatformLayer(key, value) == if value != "" then layer[key := value] else layer
  {}

  /** The converted object whose label and tag maps the injection writes in place. */
  class Unstructured {
    var labels: Layer
    var tagField: TagField
    const body: string

    constructor (generated: Object)
      ensures labels == generated.labels && tagField == generated.tagField && body == generated.body
    {
      labels, tagField, body := generated.labels, generated.tagField, generated.body;
    }

    method InjectZone(collected: ResourceTags, workspace: string) returns (error: Option<InjectionError>)
      modifies this
      ensures labels == InjectedLabels(old(labels), collected, workspace)
      ensures !old(tagField).Tags? ==> error.None? && tagField == old(tagField)
      ensures old(tagField).Tags? ==>
        var tags := InjectedTags(old(tagField).tags, collected, workspace);
        && error == (if |tags| > AWS_TAGS_LIMIT then Some(TagsLimitExceeded(|tags|)) else None)
        && (error.None? ==> tagField.Tags? && tagField.tags == tags)
        && (error.Some? ==> tagField == old(tagField))
    {
      labels := labels + collected.labels;
      WithPlatform(labels, TENANCY_ZONE_LABEL, collected.zone);
      if collected.zone != "" {
        labels := labels[TENANCY_ZONE_LABEL := collected.zone];
      }
      WithPlatform(labels, TENANCY_WORKSPACE_LABEL, workspace);
      if workspace != "" {
        labels := labels[TENANCY_WORKSPACE_LABEL := workspace];
      }
      if !tagField.Tags? {
        return None;
      }
      var tags := tagField.tags + collected.tags;
      WithPlatform(tags, TENANCY_ZONE_AWS_TAG, collected.zone);
      if collected.zone != "" {
        tags := tags[TENANCY_ZONE_AWS_TAG := collected.zone];
      }
      WithPlatform(tags, TENANCY_WORKSPACE_AWS_TAG, workspace);
      if workspace != "" {
        tags := tags[TENANCY_WORKSPACE_AWS_TAG := workspace];
      }
      if |tags| > AWS_TAGS_LIMIT {
        return Some(TagsLimitExceeded(|tags|));
      }
      tagField := Tags(tags);
      return None;
    }
  }

  // ---- What a successful injection gives ----

  lemma PlusAssociates(a: Layer, b: Layer, c: Layer)
    ensures (a + b) + c == a + (b + c)
  {}

  lemma {:induction false} MergeConcat(lower: seq<Layer>, upper: seq<Layer>)
    ensures Merge(lower + upper) == Merge(lower) + Merge(upper)
  {
    var all := lower + upper;
    if upper == [] {
      assert all == lower;
    } else {
      var last := |upper| - 1;
      assert all[..|all| - 1] == lower + upper[..last];
      MergeConcat(lower, upper[..last]);
      PlusAssociates(Merge(lower), Merge(upper[..last]), upper[last]);
    }
  }

  lemma MergeOne(a: Layer)
    ensures Merge([a]) == a
  {
    assert [a][..0] == [];
  }

  lemma MergeTwo(a: Layer, b: Layer)
    ensures Merge([a, b]) == a + b
  {
    assert [a, b] == [a] + [b];
    MergeConcat([a], [b]);
    MergeOne(a);
    MergeOne(b);
  }

  lemma MergeFive(a: Layer, b: Layer, c: Layer, d: Layer, e: Layer)
    ensures Merge([a, b, c] + [d, e]) == a + (b + c) + (d + e)
  {
    assert [a, b, c] == [a] + [b, c];
    MergeOne(a);
    MergeTwo(b, c);
    MergeTwo(d, e);
    MergeConcat([a], [b, c]);
    MergeConcat([a, b, c], [d, e]);
  }

  /** The collected tags are the user layers merged in order. */
  lemma CollectedIsMerge(composite: Composite, namespaceZone: string, env: map<string, Option<string>>,
                         zoneObject: Option<Meta>)
    ensures var collected := CollectedTags(composite, namespaceZone, env, zoneObject);
      && collected.tags == Merge(UserTagLayers(composite, namespaceZone, env, zoneObject))
      && collected.zone == ZoneValue(composite, namespaceZone)
  {
    var zone := ZoneMeta(zoneObject);
    MergeTwo(Tagged(composite.meta.labels), Tagged(composite.meta.annotations));
    MergeFive(EnvironmentTags(env), Tagged(zone.labels), Tagged(zone.annotations),
              Tagged(composite.meta.labels), Tagged(composite.meta.annotations));
  }

  /** The collected labels are the user layers merged in order. */
  lemma CollectedLabelsAreMerge(composite: Composite, namespaceZone: string, env: map<string, Option<string>>,
                                zoneObject: Option<Meta>)
    ensures var collected := CollectedTags(composite, namespaceZone, env, zoneObject);
      collected.labels == Merge(UserLabelLayers(composite, namespaceZone, zoneObject))
  {
    MergeTwo(Prefixed(ZoneMeta(zoneObject).labels), Prefixed(composite.meta.labels));
    MergeOne(Prefixed(composite.meta.labels));
    hide Prefixed;
    hide Tagged;
    hide EnvironmentTags;
  }

  lemma LayeredIsMerge(generated: Layer, user: seq<Layer>, merged: Layer, zone: Layer, workspace: Layer)
    requires merged == Merge(user)
    ensures generated + merged + zone + workspace == Merge([generated] + user + [zone, workspace])
  {
    MergeOne(generated);
    MergeTwo(zone, workspace);
    MergeConcat([generated], user);
    MergeConcat([generated] + user, [zone, workspace]);
    PlusAssociates(generated + merged, zone, workspace);
  }

  lemma MergeIsHighest(layers: seq<Layer>, key: string)
    ensures key in Merge(layers) <==> key in KeysOf(layers)
    ensures forall i :: IsHighest(layers, i, key) ==> Merge(layers)[key] == layers[i][key]
  {
    MergeKeys(layers, key);
    forall i | IsHighest(layers, i, key)
      ensures Merge(layers)[key] == layers[i][key]
    {
      MergeTakesHighest(layers, i, key);
    }
  }

  /** The injected tags hold, for every key, the value of the highest layer that has it, and no other key.
      Lowest first: the object, the zone environment, the Zone's labels and annotations, the composite's labels
      and annotations, the tenancy zone, the workspace. */
  lemma InjectionTakesHighestLayer(own: Layer, composite: Composite, namespaceZone: string,
                                   env: map<string, Option<string>>, zoneObject: Option<Meta>,
                                   workspace: string, key: string)
    ensures var layers := TagLayers(own, UserTagLayers(composite, namespaceZone, env, zoneObject),
                                    ZoneValue(composite, namespaceZone), workspace);
      var tags := InjectedTags(own, CollectedTags(composite, namespaceZone, env, zoneObject), workspace);
      && (key in tags <==> key in KeysOf(layers))
      && (forall i :: IsHighest(layers, i, key) ==> tags[key] == layers[i][key])
  {
    var user := UserTagLayers(composite, namespaceZone, env, zoneObject);
    var collected := CollectedTags(composite, namespaceZone, env, zoneObject);
    CollectedIsMerge(composite, namespaceZone, env, zoneObject);
    LayeredIsMerge(own, user, collected.tags, PlatformLayer(TENANCY_ZONE_AWS_TAG, collected.zone),
                   PlatformLayer(TENANCY_WORKSPACE_AWS_TAG, workspace));
    MergeIsHighest(TagLayers(own, user, collected.zone, workspace), key);
  }

  /** So do the injected labels. Lowest first: the object, the Zone's labels, the composite's labels, the tenancy
      zone, the workspace. */
  lemma LabelsTakeHighestLayer(own: Layer, composite: Composite, namespaceZone: string,
                               env: map<string, Option<string>>, zoneObject: Option<Meta>,
                               workspace: string, key: string)
    ensures var layers := LabelLayers(own, UserLabelLayers(composite, namespaceZone, zoneObject),
                                      ZoneValue(composite, namespaceZone), workspace);
      var labels := InjectedLabels(own, CollectedTags(composite, namespaceZone, env, zoneObject), workspace);
      && (key in labels <==> key in KeysOf(layers))
      && (forall i :: IsHighest(layers, i, key) ==> labels[key] == layers[i][key])
  {
    var user := UserLabelLayers(composite, namespaceZone, zoneObject);
    var collected := CollectedTags(composite, namespaceZone, env, zoneObject);
    CollectedIsMerge(composite, namespaceZone, env, zoneObject);
    CollectedLabelsAreMerge(composite, namespaceZone, env, zoneObject);
    LayeredIsMerge(own, user, collected.labels, PlatformLayer(TENANCY_ZONE_LABEL, collected.zone),
                   PlatformLayer(TENANCY_WORKSPACE_LABEL, workspace));
    MergeIsHighest(LabelLayers(own, user, collected.zone, workspace), key);
  }

  /** An injection succeeds exactly when the object takes no tags, or all layers together have at most 44 keys. */
  lemma InjectionSucceedsExactly(generated: Object, composite: Composite, namespaceZone: string,
                                 env: map<string, Option<string>>, zoneObject: Option<Meta>, workspace: string)
    ensures Injected(generated, CollectedTags(composite, namespaceZone, env, zoneObject), workspace).Ok? <==>
      (generated.tagField.Tags? ==>
         |KeysOf(TagLayers(generated.tagField.tags, UserTagLayers(composite, namespaceZone, env, zoneObject),
                           ZoneValue(composite, namespaceZone), workspace))| <= 44)
  {
    if generated.tagField.Tags? {
      var own := generated.tagField.tags;
      var layers := TagLayers(own, UserTagLayers(composite, namespaceZone, env, zoneObject),
                              ZoneValue(composite, namespaceZone), workspace);
      var collected := CollectedTags(composite, namespaceZone, env, zoneObject);
      forall key
        ensures key in InjectedTags(own, collected, workspace) <==> key in KeysOf(layers)
      {
        InjectionTakesHighestLayer(own, composite, namespaceZone, env, zoneObject, workspace, key);
      }
      hide InjectedTags;
      hide CollectedTags;
      hide KeysOf;
      hide TagLayers;
      SameSize(InjectedTags(own, collected, workspace), KeysOf(layers));
    }
  }

  lemma SameSize(layer: Layer, keys: set<string>)
    requires forall key :: key in layer <==> key in keys
    ensures |layer| == |keys|
  {
    assert layer.Keys == keys;
  }

  lemma PlatformKeysDiffer()
    ensures TENANCY_ZONE_AWS_TAG != TENANCY_WORKSPACE_AWS_TAG && TENANCY_ZONE_LABEL != TENANCY_WORKSPACE_LABEL
  {
    assert TENANCY_ZONE_AWS_TAG[7] != TENANCY_WORKSPACE_AWS_TAG[7];
    assert TENANCY_ZONE_LABEL[19] != TENANCY_WORKSPACE_LABEL[19];
  }

  lemma PlatformLayersWin(lower: Layer, zoneKey: string, zone: string, workspaceKey: string, workspace: string)
    requires zoneKey != workspaceKey
    ensures var result := lower + PlatformLayer(zoneKey, zone) + PlatformLayer(workspaceKey, workspace);
      && (zone != "" ==> zoneKey in result && result[zoneKey] == zone)
      && (workspace != "" ==> workspaceKey in result && result[workspaceKey] == workspace)
  {}

  /** Whatever the object and the user layers say, a non-empty zone and a non-empty workspace win, in the
      tags and in the labels. */
  lemma PlatformValuesWin(own: Layer, collected: ResourceTags, workspace: string)
    ensures var tags, labels := InjectedTags(own, collected, workspace), InjectedLabels(own, collected, workspace);
      && (collected.zone != "" ==>
           && TENANCY_ZONE_AWS_TAG in tags && tags[TENANCY_ZONE_AWS_TAG] == collected.zone
           && TENANCY_ZONE_LABEL in labels && labels[TENANCY_ZONE_LABEL] == collected.zone)
      && (workspace != "" ==>
           && TENANCY_WORKSPACE_AWS_TAG in tags && tags[TENANCY_WORKSPACE_AWS_TAG] == workspace
           && TENANCY_WORKSPACE_LABEL in labels && labels[TENANCY_WORKSPACE_LABEL] == workspace)
  {
    PlatformKeysDiffer();
    PlatformLayersWin(own + collected.labels, TENANCY_ZONE_LABEL, collected.zone, TENANCY_WORKSPACE_LABEL, workspace);
    PlatformLayersWin(own + collected.tags, TENANCY_ZONE_AWS_TAG, collected.zone, TENANCY_WORKSPACE_AWS_TAG, workspace);
  }
}
