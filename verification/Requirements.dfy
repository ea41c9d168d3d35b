/** The discovery of required resources: addRequiredResources and requiredResourcesPresent of
    functions/common/base/fn.go, over the selectors that the groups ask for. */
module Requirements {
  import opened Wrappers

  datatype Match = ByName(name: string) | ByLabels(labels: map<string, string>)

  datatype Selector = Selector(apiVersion: string, kind: string, scope: Option<string>, match_: Match)

  type Data = map<string, string>

  /** A delivered resource; `data` is what an environment config holds. */
  datatype Item = Item(apiVersion: string, kind: string, name: string, deleting: bool, labels: Data, data: Data)

  type Selectors = map<string, Selector>

  type Resources = map<string, seq<Item>>

  datatype Failure = EnvironmentNotFound | FieldMissing(field: string) | SpecInvalid

  const ENVIRONMENT_KEY := "Environment"
  const NAMESPACE_KEY := "Namespace"
  const ZONE_KEY := "Zone"
  const ZONE_ENV_KEY := "ZoneEnvironment"
  const ZONE_NAMESPACES_KEY := "Namespaces"
  const TENANCY_ZONE_LABEL := "tenancy.entigo.com/zone"
  const INGRESS_SUFFIX := "Ingresses"
  const SERVICE_SUFFIX := "Services"
  const ROUTE_SUFFIX := "HTTPRoutes"

  // ---- The environment ----

  /** Of a field set twice, the first value that is not empty wins. */
  function Merge(a: Data, b: Data): Data {
    map key | key in a.Keys + b.Keys :: if key in a && (a[key] != "" || key !in b) then a[key] else b[key]
  }

  function Merged(items: seq<Item>): Data {
    if items == [] then map[] else Merge(Merged(items[..|items| - 1]), items[|items| - 1].data)
  }

  function Field(env: Data, field: string): string {
    if field in env then env[field] else ""
  }

  /** The merged environment; one that is not empty must have the mandatory fields. */
  function Environment(required: Resources, mandatory: seq<string>): Result<Data, Failure> {
    if ENVIRONMENT_KEY !in required || required[ENVIRONMENT_KEY] == [] then Err(EnvironmentNotFound)
    else
      var env := Merged(required[ENVIRONMENT_KEY]);
      if env == map[] then Ok(env) else Checked(env, mandatory)
  }

  function Checked(env: Data, mandatory: seq<string>): Result<Data, Failure> {
    if mandatory == [] then Ok(env)
    else if Field(env, mandatory[0]) == "" then Err(FieldMissing(mandatory[0]))
    else Checked(env, mandatory[1..])
  }

  // ---- Selectors of the groups ----

  function EnvironmentConfig(name: string): Selector {
    Selector("apiextensions.crossplane.io/v1beta1", "EnvironmentConfig", None, ByName(name))
  }

  function Vpc(env: Data): Selector {
    Selector("ec2.aws.m.upbound.io/v1beta1", "VPC", Some(Field(env, "awsProvider")), ByName(Field(env, "vpc")))
  }

  function KmsKey(env: Data, field: string): Selector {
    Selector("kms.aws.m.upbound.io/v1beta1", "Key", Some(Field(env, "awsProvider")), ByName(Field(env, field)))
  }

  /** A key is asked for only when the environment names it. */
  function KeyIfSet(env: Data, field: string, key: string): Selectors {
    if Field(env, field) == "" then map[] else map[key := KmsKey(env, field)]
  }

  function RdsSubnetGroup(env: Data): Selector {
    Selector("rds.aws.m.upbound.io/v1beta1", "SubnetGroup", Some(Field(env, "awsProvider")),
             ByName(Field(env, "subnetGroup")))
  }

  datatype Provider = AWS | OCI

  /** The kinds of composite. A kind whose selectors read nothing that is delivered carries them, or its
      error, along. */
  datatype Kind =
    | Constant(selectors: Result<Selectors, Failure>)
    | Instance(secretName: string)
    | ValkeyCluster
    | Broker
    | Repository
    | Bucket
    | KafkaUser(clusterName: string)
    | Zone(provider: Provider, namespaces: set<string>)

  datatype Composite = Composite(kind: Kind, name: string, namespace: string)

  function EnvironmentName(kind: Kind): string {
    match kind
    case Instance(_) => "platform-apis-database"
    case ValkeyCluster => "platform-apis-database"
    case Broker => "platform-apis-mq"
    case Repository => "platform-apis-artifact"
    case Bucket => "platform-apis-storage"
    case KafkaUser(_) => "platform-apis-queue"
    case Zone(_, _) => "platform-apis-zone"
    case Constant(_) => ""
  }

  function Mandatory(kind: Kind): seq<string> {
    match kind
    case Instance(_) =>
      ["awsProvider", "vpc", "subnetGroup", "elasticacheSubnetGroup", "esClusterSecretStore", "backupRetentionPeriod"]
    case ValkeyCluster =>
      ["awsProvider", "vpc", "subnetGroup", "elasticacheSubnetGroup", "esClusterSecretStore", "backupRetentionPeriod"]
    case Broker => ["awsProvider", "vpc", "subnetGroup"]
    case Repository => ["awsProvider", "vpc"]
    case Bucket => ["awsProvider"]
    case Zone(_, _) => ["argoCDNamespace", "securityGroup", "cluster", "computeSubnetType", "podSecurity"]
    case KafkaUser(_) => ["awsProvider", "kafkaNamespace"]
    case Constant(_) => []
  }

  /** What a zone needs besides, depending on the cloud. */
  function MandatoryFor(provider: Provider): seq<string> {
    match provider
    case OCI => ["namespaceRole.rules", "oracleProvider"]
    case AWS => ["namespaceRole.rules", "awsProvider", "vpc"]
  }

  /** What a composite asks for once its environment is known; zones also read their namespaces. */
  function Dependent(composite: Composite, env: Data): Selectors {
    match composite.kind
    case Constant(_) => map[]
    case Instance(secretName) =>
      map["VPC" := Vpc(env), "DBSubnetGroup" := RdsSubnetGroup(env),
          "Secret" := Selector("v1", "Secret", Some(composite.namespace), ByName(secretName))]
      + KeyIfSet(env, "dataKMSKey", "KMSDataKey") + KeyIfSet(env, "configKMSKey", "KMSConfigKey")
    case ValkeyCluster =>
      map["VPC" := Vpc(env),
          "ElasticacheSubnetGroup" :=
            Selector("elasticache.aws.m.upbound.io/v1beta1", "SubnetGroup", Some(Field(env, "awsProvider")),
                     ByName(Field(env, "elasticacheSubnetGroup"))),
          "ComputeSubnets" :=
            Selector("ec2.aws.m.upbound.io/v1beta1", "Subnet", Some(Field(env, "awsProvider")),
                     ByLabels(map["subnet-type" := "compute"]))]
      + KeyIfSet(env, "dataKMSKey", "KMSDataKey") + KeyIfSet(env, "configKMSKey", "KMSConfigKey")
    case Broker =>
      map["VPC" := Vpc(env), "MQSubnetGroup" := RdsSubnetGroup(env)] + KeyIfSet(env, "dataKMSKey", "KMSDataKey")
    case Repository => map["VPC" := Vpc(env)] + KeyIfSet(env, "dataKMSKey", "KMSDataKey")
    case Bucket =>
      map["EKS" := Selector("eks.aws.m.upbound.io/v1beta1", "Cluster", Some(Field(env, "awsProvider")), ByName("eks"))]
      + KeyIfSet(env, "dataKMSKey", "KMSDataKey") + KeyIfSet(env, "configKMSKey", "KMSConfigKey")
    case KafkaUser(clusterName) =>
      map["MSKObserver" := Selector("queue.entigo.com/v1alpha1", "MSK", None, ByName(clusterName + "-observed"))]
      + KeyIfSet(env, "configKMSKey", "KMSConfigKey")
    case Zone(provider, _) =>
      (match provider case AWS => AwsSelectors(env) case OCI => OciSelectors(env))
      + map["IngressClasses" := Any("networking.k8s.io/v1", "IngressClass", None),
            "Gateways" := Any("gateway.networking.k8s.io/v1", "Gateway", None)]
  }

  function Any(apiVersion: string, kind: string, scope: Option<string>): Selector {
    Selector(apiVersion, kind, scope, ByLabels(map[]))
  }

  function Named(apiVersion: string, kind: string, name: string): Selector {
    Selector(apiVersion, kind, None, ByName(name))
  }

  function AwsSelectors(env: Data): Selectors {
    map["VPC" := Named("ec2.aws.upbound.io/v1beta1", "VPC", Field(env, "vpc")),
        "NodeSecurityGroup" := Named("ec2.aws.upbound.io/v1beta1", "SecurityGroup", Field(env, "securityGroup")),
        "Cluster" := Named("eks.aws.upbound.io/v1beta2", "Cluster", Field(env, "cluster")),
        "Subnets" := Any("ec2.aws.upbound.io/v1beta1", "Subnet", None),
        "IngressClassParams" := Any("elbv2.k8s.aws/v1beta1", "IngressClassParams", None),
        "LoadBalancerConfigurations" := Any("gateway.k8s.aws/v1beta1", "LoadBalancerConfiguration", None)]
    + if Field(env, "dataKMSAlias") == "" then map[]
      else map["KMSDataAlias" := Named("kms.aws.upbound.io/v1beta1", "Alias", Field(env, "dataKMSAlias"))]
  }

  function OciSelectors(env: Data): Selectors {
    map["Cluster" := Named("containerengine.oci.upbound.io/v1alpha1", "Cluster", Field(env, "cluster")),
        "NodeSecurityGroup" :=
          Named("networking.oci.upbound.io/v1alpha1", "NetworkSecurityGroup", Field(env, "securityGroup")),
        "Subnets" := Any("networking.oci.upbound.io/v1alpha1", "Subnet", None),
        "IngressClassParams" := Any("ingress.oraclecloud.com/v1beta1", "IngressClassParameters", None),
        "TemplateNodePool" := Named("containerengine.oci.upbound.io/v1alpha1", "NodePool", "template")]
    + if Field(env, "dataKMSKey") == "" then map[]
      else map["KMSDataKey" := Named("kms.oci.upbound.io/v1alpha1", "Key", Field(env, "dataKMSKey"))]
  }

  // ---- The namespaces of a zone ----

  /** The namespaces of the zone, those it lists and those that carry its label and are not being deleted. */
  function UniqueNamespaces(listed: set<string>, items: seq<Item>): set<string> {
    listed + set i | 0 <= i < |items| && !items[i].deleting :: items[i].name
  }

  method GetUniqueNamespaces(listed: set<string>, items: seq<Item>) returns (unique: set<string>)
    ensures unique == UniqueNamespaces(listed, items)
  {
    unique := {};
    for i := 0 to |items|
      invariant unique == set k | 0 <= k < i && !items[k].deleting :: items[k].name
    {
      if items[i].deleting {
        continue;
      }
      unique := unique + {items[i].name};
    }
    unique := unique + listed;
  }

  function Scoped(namespaces: set<string>, suffix: string, apiVersion: string, kind: string): Selectors {
    map key | key in ScopedKeys(namespaces, suffix) :: Any(apiVersion, kind, Some(Unsuffixed(key, suffix)))
  }

  function ScopedKeys(namespaces: set<string>, suffix: string): set<string> {
    set namespace | namespace in namespaces :: namespace + suffix
  }

  function Unsuffixed(key: string, suffix: string): string {
    if |suffix| <= |key| then key[..|key| - |suffix|] else key
  }

  function Ingresses(namespaces: set<string>): Selectors {
    Scoped(namespaces, INGRESS_SUFFIX, "networking.k8s.io/v1", "Ingress")
  }

  function Services(namespaces: set<string>): Selectors { Scoped(namespaces, SERVICE_SUFFIX, "v1", "Service") }

  function Routes(namespaces: set<string>): Selectors {
    Scoped(namespaces, ROUTE_SUFFIX, "gateway.networking.k8s.io/v1", "HTTPRoute")
  }

  function PerNamespace(namespaces: set<string>): Selectors {
    Ingresses(namespaces) + Services(namespaces) + Routes(namespaces)
  }

  // ---- The answer of a call ----

  /** What is asked for whatever is delivered. */
  function Initial(kind: Kind, name: string): Selectors {
    map[ENVIRONMENT_KEY := EnvironmentConfig(EnvironmentName(kind))]
    + if kind.Zone?
      then map[ZONE_NAMESPACES_KEY := Selector("v1", "Namespace", None, ByLabels(map[TENANCY_ZONE_LABEL := name]))]
      else map[]
  }

  function Items(required: Resources, key: string): seq<Item> {
    if key in required then required[key] else []
  }

  /** GetRequiredResources of the groups. */
  function GroupSelectors(composite: Composite, required: Resources): Result<Selectors, Failure> {
    if composite.kind.Constant? then composite.kind.selectors
    else
      var initial := Initial(composite.kind, composite.name);
      if ENVIRONMENT_KEY !in required then Ok(initial)
      else
        match Environment(required, Mandatory(composite.kind))
        case Err(e) => Err(e)
        case Ok(env) =>
          if !composite.kind.Zone? then Ok(initial + Dependent(composite, env))
          else
            match Checked(env, MandatoryFor(composite.kind.provider))
            case Err(e) => Err(e)
            case Ok(_) =>
              var namespaces := UniqueNamespaces(composite.kind.namespaces, Items(required, ZONE_NAMESPACES_KEY)) - {""};
              Ok(initial + Dependent(composite, env) + PerNamespace(namespaces))
  }

  function TenancyZone(required: Resources): string {
    var namespaces := Items(required, NAMESPACE_KEY);
    if namespaces == [] then "" else Field(namespaces[0].labels, TENANCY_ZONE_LABEL)
  }

  /** What every namespaced composite asks for. */
  function NamespaceSelectors(namespace: string, required: Resources): Selectors {
    if namespace == "" then map[]
    else
      map[NAMESPACE_KEY := Selector("v1", "Namespace", None, ByName(namespace))]
      + if TenancyZone(required) == "" then map[]
        else map[ZONE_KEY := Named("tenancy.entigo.com/v1alpha1", "Zone", TenancyZone(required)),
                 ZONE_ENV_KEY := EnvironmentConfig("platform-apis-zone")]
  }

  /** The requirements a call answers with, or the error that ends it. */
  function Answer(composite: Composite, required: Resources): Result<Selectors, Failure> {
    match GroupSelectors(composite, required)
    case Err(e) => Err(e)
    case Ok(selectors) => Ok(selectors + NamespaceSelectors(composite.namespace, required))
  }

  predicate Delivers(selector: Selector, items: seq<Item>) {
    forall i :: 0 <= i < |items| ==> items[i].apiVersion == selector.apiVersion && items[i].kind == selector.kind
  }

  /** Every required key was delivered, at the apiVersion and kind its selector asks for. */
  predicate AllPresent(selectors: Selectors, resources: Resources) {
    forall key :: key in selectors ==> key in resources && Delivers(selectors[key], resources[key])
  }

  method RequiredResourcesPresent(requirements: Selectors, resources: Resources) returns (present: bool)
    ensures present <==> AllPresent(requirements, resources)
  {
    if requirements == map[] {
      return true;
    }
    if resources == map[] {
      var key :| key in requirements;
      assert key !in resources;
      return false;
    }
    var todo := requirements.Keys;
    while todo != {}
      invariant todo <= requirements.Keys
      invariant forall key :: key in requirements && key !in todo ==>
        key in resources && Delivers(requirements[key], resources[key])
      decreases todo
    {
      var key :| key in todo;
      todo := todo - {key};
      if key !in resources {
        return false;
      }
      var items, selector := resources[key], requirements[key];
      for i := 0 to |items|
        invariant forall k :: 0 <= k < i ==>
          items[k].apiVersion == selector.apiVersion && items[k].kind == selector.kind
      {
        if items[i].apiVersion != selector.apiVersion || items[i].kind != selector.kind {
          return false;
        }
      }
    }
    return true;
  }

  /** The whole-cluster answer to a selector. */
  type Cluster = Selector -> seq<Item>

  function Fetch(cluster: Cluster, selectors: Selectors): Resources {
    map key | key in selectors :: cluster(selectors[key])
  }

  // ---- Keys ----

  lemma UnsuffixedKey(namespace: string, suffix: string)
    ensures Unsuffixed(namespace + suffix, suffix) == namespace
  {
    assert (namespace + suffix)[..|namespace|] == namespace;
  }

  lemma ScopedKeysPlus(namespaces: set<string>, namespace: string, suffix: string)
    ensures ScopedKeys(namespaces + {namespace}, suffix) == ScopedKeys(namespaces, suffix) + {namespace + suffix}
  {}

  lemma ScopedPlus(namespaces: set<string>, namespace: string, suffix: string, apiVersion: string, kind: string)
    ensures Scoped(namespaces + {namespace}, suffix, apiVersion, kind)
         == Scoped(namespaces, suffix, apiVersion, kind)[namespace + suffix := Any(apiVersion, kind, Some(namespace))]
  {
    ScopedKeysPlus(namespaces, namespace, suffix);
    UnsuffixedKey(namespace, suffix);
    hide ScopedKeys;
    hide Unsuffixed;
    hide Any;
  }

  /** Where a key's last characters are. */
  predicate EndsWith(s: string, suffix: string) {
    |suffix| <= |s| && s[|s| - |suffix|..] == suffix
  }

  lemma AppendedEnds(namespace: string, suffix: string)
    ensures EndsWith(namespace + suffix, suffix)
  {}

  lemma EndsCompare(s: string, a: string, b: string)
    requires EndsWith(s, a) && EndsWith(s, b) && |a| <= |b|
    ensures b[|b| - |a|..] == a
  {
    assert s[|s| - |b|..][|b| - |a|..] == s[|s| - |a|..];
  }

  lemma SuffixesDiffer()
    ensures |INGRESS_SUFFIX| == 9 && |SERVICE_SUFFIX| == 8 && |ROUTE_SUFFIX| == 10
    ensures INGRESS_SUFFIX[1..] != SERVICE_SUFFIX && ROUTE_SUFFIX[1..] != INGRESS_SUFFIX
    ensures ROUTE_SUFFIX[2..] != SERVICE_SUFFIX
  {
    assert INGRESS_SUFFIX[1..][7] == 's' && INGRESS_SUFFIX[1..][5] == 's' && SERVICE_SUFFIX[5] == 'c';
    assert ROUTE_SUFFIX[1..][7] == 'e' && INGRESS_SUFFIX[7] == 'e';
    assert ROUTE_SUFFIX[1..][0] == 'T' && INGRESS_SUFFIX[0] == 'I';
    assert ROUTE_SUFFIX[2..][0] == 'T' && SERVICE_SUFFIX[0] == 'S';
  }

  /** The keys of different namespaces, or of different kinds in namespaces, never collide. */
  lemma NamespaceKeysDiffer(a: string, b: string)
    ensures a + INGRESS_SUFFIX != b + SERVICE_SUFFIX
    ensures a + INGRESS_SUFFIX != b + ROUTE_SUFFIX
    ensures a + SERVICE_SUFFIX != b + ROUTE_SUFFIX
    ensures a + INGRESS_SUFFIX == b + INGRESS_SUFFIX ==> a == b
    ensures a + SERVICE_SUFFIX == b + SERVICE_SUFFIX ==> a == b
    ensures a + ROUTE_SUFFIX == b + ROUTE_SUFFIX ==> a == b
  {
    SuffixesDiffer();
    UnsuffixedKey(a, INGRESS_SUFFIX);
    UnsuffixedKey(b, INGRESS_SUFFIX);
    UnsuffixedKey(a, SERVICE_SUFFIX);
    UnsuffixedKey(b, SERVICE_SUFFIX);
    UnsuffixedKey(a, ROUTE_SUFFIX);
    UnsuffixedKey(b, ROUTE_SUFFIX);
    hide INGRESS_SUFFIX;
    hide SERVICE_SUFFIX;
    hide ROUTE_SUFFIX;
    hide Unsuffixed;
    hide EndsWith;
    AppendedEnds(a, INGRESS_SUFFIX);
    AppendedEnds(b, SERVICE_SUFFIX);
    AppendedEnds(b, ROUTE_SUFFIX);
    AppendedEnds(a, SERVICE_SUFFIX);
    if a + INGRESS_SUFFIX == b + SERVICE_SUFFIX { EndsCompare(a + INGRESS_SUFFIX, SERVICE_SUFFIX, INGRESS_SUFFIX); }
    if a + INGRESS_SUFFIX == b + ROUTE_SUFFIX { EndsCompare(a + INGRESS_SUFFIX, INGRESS_SUFFIX, ROUTE_SUFFIX); }
    if a + SERVICE_SUFFIX == b + ROUTE_SUFFIX { EndsCompare(a + SERVICE_SUFFIX, SERVICE_SUFFIX, ROUTE_SUFFIX); }
  }

  /** The three entries of one more namespace, written one after the other. */
  lemma OneMoreNamespace(start: Selectors, namespaces: set<string>, namespace: string)
    ensures (start + PerNamespace(namespaces))
              [namespace + INGRESS_SUFFIX := Any("networking.k8s.io/v1", "Ingress", Some(namespace))]
              [namespace + SERVICE_SUFFIX := Any("v1", "Service", Some(namespace))]
              [namespace + ROUTE_SUFFIX := Any("gateway.networking.k8s.io/v1", "HTTPRoute", Some(namespace))]
         == start + PerNamespace(namespaces + {namespace})
  {
    ScopedPlus(namespaces, namespace, INGRESS_SUFFIX, "networking.k8s.io/v1", "Ingress");
    ScopedPlus(namespaces, namespace, SERVICE_SUFFIX, "v1", "Service");
    ScopedPlus(namespaces, namespace, ROUTE_SUFFIX, "gateway.networking.k8s.io/v1", "HTTPRoute");
    forall other: string
      ensures other + SERVICE_SUFFIX != namespace + INGRESS_SUFFIX && other + ROUTE_SUFFIX != namespace + INGRESS_SUFFIX
      ensures other + ROUTE_SUFFIX != namespace + SERVICE_SUFFIX
    {
      NamespaceKeysDiffer(namespace, other);
      NamespaceKeysDiffer(other, namespace);
    }
    assert namespace + INGRESS_SUFFIX !in Services(namespaces) && namespace + INGRESS_SUFFIX !in Routes(namespaces);
    assert namespace + SERVICE_SUFFIX !in Routes(namespaces);
    assert namespace + INGRESS_SUFFIX != namespace + SERVICE_SUFFIX;
    OverridesCommute(start, Ingresses(namespaces), Services(namespaces), Routes(namespaces),
                     namespace + INGRESS_SUFFIX, namespace + SERVICE_SUFFIX, namespace + ROUTE_SUFFIX,
                     Any("networking.k8s.io/v1", "Ingress", Some(namespace)), Any("v1", "Service", Some(namespace)),
                     Any("gateway.networking.k8s.io/v1", "HTTPRoute", Some(namespace)));
  }

  lemma OverridesCommute<K, V>(start: map<K, V>, a: map<K, V>, b: map<K, V>, c: map<K, V>,
                              x: K, y: K, z: K, u: V, v: V, w: V)
    requires x !in b && x !in c && y !in c && x != y && x != z && y != z
    ensures (start + (a + b + c))[x := u][y := v][z := w] == start + (a[x := u] + b[y := v] + c[z := w])
  {}

  method AddNamespaces(start: Selectors, namespaces: set<string>) returns (resources: Selectors)
    ensures resources == start + PerNamespace(namespaces - {""})
  {
    hide PerNamespace;
    hide Any;
    resources := start;
    ghost var done: set<string> := {};
    NoNamespaces(start);
    var todo := namespaces;
    while todo != {}
      invariant todo <= namespaces && done == namespaces - todo - {""}
      invariant resources == start + PerNamespace(done)
      decreases todo
    {
      var namespace :| namespace in todo;
      todo := todo - {namespace};
      if namespace == "" {
        continue;
      }
      OneMoreNamespace(start, done, namespace);
      resources := resources[namespace + INGRESS_SUFFIX := Any("networking.k8s.io/v1", "Ingress", Some(namespace))];
      resources := resources[namespace + SERVICE_SUFFIX := Any("v1", "Service", Some(namespace))];
      resources := resources[namespace + ROUTE_SUFFIX := Any("gateway.networking.k8s.io/v1", "HTTPRoute", Some(namespace))];
      done := done + {namespace};
    }
    assert done == namespaces - {""};
  }

  lemma NoNamespaces(start: Selectors)
    ensures start + PerNamespace({}) == start
  {}

  lemma NamespaceUpdates(start: Selectors, namespace: string, required: Resources)
    ensures var zone := TenancyZone(required);
      var named := start[NAMESPACE_KEY := Selector("v1", "Namespace", None, ByName(namespace))];
      start + NamespaceSelectors(namespace, required) ==
        if namespace == "" then start
        else if zone == "" then named
        else named[ZONE_KEY := Named("tenancy.entigo.com/v1alpha1", "Zone", zone)]
                  [ZONE_ENV_KEY := EnvironmentConfig("platform-apis-zone")]
  {
    hide TenancyZone;
    hide Named;
    hide EnvironmentConfig;
  }

  method AddRequiredResources(composite: Composite, required: Resources) returns (answer: Result<Selectors, Failure>)
    ensures answer == Answer(composite, required)
  {
    hide Dependent;
    hide PerNamespace;
    hide Environment;
    hide Checked;
    hide Initial;
    hide UniqueNamespaces;
    hide TenancyZone;
    var resources: Selectors := map[];
    if composite.kind.Constant? {
      if composite.kind.selectors.Err? {
        return composite.kind.selectors;
      }
      resources := composite.kind.selectors.value;
    } else {
      resources := Initial(composite.kind, composite.name);
      if ENVIRONMENT_KEY in required {
        var env := Environment(required, Mandatory(composite.kind));
        if env.Err? {
          return Err(env.error);
        }
        if composite.kind.Zone? {
          var checked := Checked(env.value, MandatoryFor(composite.kind.provider));
          if checked.Err? {
            return Err(checked.error);
          }
        }
        resources := resources + Dependent(composite, env.value);
        if composite.kind.Zone? {
          var unique := GetUniqueNamespaces(composite.kind.namespaces, Items(required, ZONE_NAMESPACES_KEY));
          resources := AddNamespaces(resources, unique);
        }
      }
    }
    answer := Ok(resources);
    assert answer == GroupSelectors(composite, required);
    hide GroupSelectors;
    NamespaceUpdates(resources, composite.namespace, required);
    if composite.namespace != "" {
      resources := resources[NAMESPACE_KEY := Selector("v1", "Namespace", None, ByName(composite.namespace))];
      var zone := TenancyZone(required);
      if zone != "" {
        resources := resources[ZONE_KEY := Named("tenancy.entigo.com/v1alpha1", "Zone", zone)];
        resources := resources[ZONE_ENV_KEY := EnvironmentConfig("platform-apis-zone")];
      }
      answer := Ok(resources);
    }
  }

  // ---- Fixpoint ----

  /** The keys whose resources an answer depends on. */
  function ReadKeys(composite: Composite): set<string> {
    (if composite.kind.Constant? then {}
     else {ENVIRONMENT_KEY} + if composite.kind.Zone? then {ZONE_NAMESPACES_KEY} else {})
    + if composite.namespace == "" then {} else {NAMESPACE_KEY}
  }

  predicate Agree(keys: set<string>, a: Resources, b: Resources) {
    forall key :: key in keys ==> (key in a <==> key in b) && (key in a ==> a[key] == b[key])
  }

  lemma AnswerReadsOnly(composite: Composite, a: Resources, b: Resources)
    requires Agree(ReadKeys(composite), a, b)
    ensures Answer(composite, a) == Answer(composite, b)
  {
    hide Dependent;
    hide PerNamespace;
    hide Checked;
    hide Initial;
    hide UniqueNamespaces;
    hide Merged;
    if !composite.kind.Constant? {
      assert ENVIRONMENT_KEY in ReadKeys(composite);
      assert Environment(a, Mandatory(composite.kind)) == Environment(b, Mandatory(composite.kind)) || ENVIRONMENT_KEY !in a;
    }
    if composite.kind.Zone? {
      assert ZONE_NAMESPACES_KEY in ReadKeys(composite);
      assert Items(a, ZONE_NAMESPACES_KEY) == Items(b, ZONE_NAMESPACES_KEY);
    }
    if composite.namespace != "" {
      assert NAMESPACE_KEY in ReadKeys(composite);
      assert Items(a, NAMESPACE_KEY) == Items(b, NAMESPACE_KEY);
    }
  }

  /** The selector of a key that answers depend on; it never changes. */
  function ReadSelector(composite: Composite, key: string): Selector {
    if key == NAMESPACE_KEY then Selector("v1", "Namespace", None, ByName(composite.namespace))
    else if key == ZONE_NAMESPACES_KEY then
      Selector("v1", "Namespace", None, ByLabels(map[TENANCY_ZONE_LABEL := composite.name]))
    else EnvironmentConfig(EnvironmentName(composite.kind))
  }

  lemma ReadKeyTexts()
    ensures |ENVIRONMENT_KEY| == 11 && |ZONE_NAMESPACES_KEY| == 10 && |NAMESPACE_KEY| == 9
    ensures ENVIRONMENT_KEY[0] == 'E' && ZONE_NAMESPACES_KEY[0] == 'N'
    ensures |ZONE_KEY| == 4 && |ZONE_ENV_KEY| == 15
  {}

  lemma KeyOfKms(env: Data, field: string, key: string, other: string)
    requires other in KeyIfSet(env, field, key)
    ensures other == key
  {}

  lemma AwsKeys(env: Data, key: string)
    requires key in AwsSelectors(env)
    ensures key in {"VPC", "NodeSecurityGroup", "Cluster", "Subnets", "IngressClassParams", "LoadBalancerConfigurations",
                    "KMSDataAlias"}
  {
    hide Named;
    hide Any;
    hide Field;
  }

  lemma OciKeys(env: Data, key: string)
    requires key in OciSelectors(env)
    ensures key in {"Cluster", "NodeSecurityGroup", "Subnets", "IngressClassParams", "TemplateNodePool", "KMSDataKey"}
  {
    hide Named;
    hide Any;
    hide Field;
  }

  const DEPENDENT_KEYS := {
    "VPC", "DBSubnetGroup", "Secret", "KMSDataKey", "KMSConfigKey", "ElasticacheSubnetGroup", "ComputeSubnets",
    "MQSubnetGroup", "EKS", "MSKObserver", "NodeSecurityGroup", "Cluster", "Subnets", "IngressClassParams",
    "LoadBalancerConfigurations", "KMSDataAlias", "TemplateNodePool", "IngressClasses", "Gateways"}

  lemma KeysOfDependent(composite: Composite, env: Data, key: string)
    requires key in Dependent(composite, env)
    ensures key in DEPENDENT_KEYS
  {
    hide Named;
    hide Any;
    hide Field;
    hide KmsKey;
    hide Vpc;
    hide RdsSubnetGroup;
    hide AwsSelectors;
    hide OciSelectors;
    hide KeyIfSet;
    if key in KeyIfSet(env, "dataKMSKey", "KMSDataKey") { KeyOfKms(env, "dataKMSKey", "KMSDataKey", key); }
    if key in KeyIfSet(env, "configKMSKey", "KMSConfigKey") { KeyOfKms(env, "configKMSKey", "KMSConfigKey", key); }
    if key in AwsSelectors(env) { AwsKeys(env, key); }
    if key in OciSelectors(env) { OciKeys(env, key); }
  }

  lemma DependentKeysDiffer(key: string)
    requires key in DEPENDENT_KEYS
    ensures key != ENVIRONMENT_KEY && key != ZONE_NAMESPACES_KEY
    ensures key != "" && 'A' <= key[0] <= 'Z'
  {}

  lemma FixedKeysEndOtherwise()
    ensures forall key | key in {ENVIRONMENT_KEY, ZONE_NAMESPACES_KEY} ::
      !EndsWith(key, INGRESS_SUFFIX) && !EndsWith(key, SERVICE_SUFFIX) && !EndsWith(key, ROUTE_SUFFIX)
  {
    ReadKeyTexts();
    SuffixesDiffer();
    assert ENVIRONMENT_KEY[10] == 't' && ZONE_NAMESPACES_KEY[6] == 'a';
    assert INGRESS_SUFFIX[8] == 's' && INGRESS_SUFFIX[5] == 's' && SERVICE_SUFFIX[7] == 's' && SERVICE_SUFFIX[4] == 'i';
    assert ROUTE_SUFFIX[9] == 's';
    assert ROUTE_SUFFIX[0] == 'H';
  }

  lemma KeyOfScoped(namespaces: set<string>, suffix: string, apiVersion: string, kind: string, key: string)
    ensures key in Scoped(namespaces, suffix, apiVersion, kind)
       <==> exists namespace :: namespace in namespaces && key == namespace + suffix
    ensures key in Scoped(namespaces, suffix, apiVersion, kind) ==> EndsWith(key, suffix)
  {
    if key in Scoped(namespaces, suffix, apiVersion, kind) {
      var namespace :| namespace in namespaces && key == namespace + suffix;
      AppendedEnds(namespace, suffix);
    }
  }

  lemma FixedKeysAreNotScoped(namespaces: set<string>)
    ensures ENVIRONMENT_KEY !in PerNamespace(namespaces) && ZONE_NAMESPACES_KEY !in PerNamespace(namespaces)
  {
    FixedKeysEndOtherwise();
    hide EndsWith;
    hide Scoped;
    forall key | key in {ENVIRONMENT_KEY, ZONE_NAMESPACES_KEY}
      ensures key !in PerNamespace(namespaces)
    {
      KeyOfScoped(namespaces, INGRESS_SUFFIX, "networking.k8s.io/v1", "Ingress", key);
      KeyOfScoped(namespaces, SERVICE_SUFFIX, "v1", "Service", key);
      KeyOfScoped(namespaces, ROUTE_SUFFIX, "gateway.networking.k8s.io/v1", "HTTPRoute", key);
    }
  }

  lemma LastLayerKeys(namespace: string, required: Resources)
    ensures ENVIRONMENT_KEY !in NamespaceSelectors(namespace, required)
    ensures ZONE_NAMESPACES_KEY !in NamespaceSelectors(namespace, required)
    ensures namespace != "" ==> NAMESPACE_KEY in NamespaceSelectors(namespace, required)
    ensures namespace != "" ==>
      NamespaceSelectors(namespace, required)[NAMESPACE_KEY] == Selector("v1", "Namespace", None, ByName(namespace))
  {
    ReadKeyTexts();
    hide TenancyZone;
    hide EnvironmentConfig;
    hide Named;
  }

  lemma InitialSelectors(composite: Composite)
    requires !composite.kind.Constant?
    ensures var initial := Initial(composite.kind, composite.name);
      && initial.Keys == {ENVIRONMENT_KEY} + (if composite.kind.Zone? then {ZONE_NAMESPACES_KEY} else {})
      && forall key :: key in initial ==> initial[key] == ReadSelector(composite, key)
  {
    ReadKeyTexts();
    hide EnvironmentConfig;
    hide EnvironmentName;
  }

  /** Whatever was delivered, an answer asks for the keys it depends on, with selectors that never change. */
  lemma ReadKeysAreAsked(composite: Composite, required: Resources)
    requires Answer(composite, required).Ok?
    ensures forall key :: key in ReadKeys(composite) ==>
      key in Answer(composite, required).value && Answer(composite, required).value[key] == ReadSelector(composite, key)
  {
    LastLayerKeys(composite.namespace, required);
    hide NamespaceSelectors;
    if !composite.kind.Constant? {
      InitialSelectors(composite);
      GroupKeepsInitial(composite, required);
    }
    hide GroupSelectors;
    hide Initial;
  }

  /** The layers of a group's answer. */
  lemma GroupLayers(composite: Composite, required: Resources) returns (env: Data, namespaces: set<string>)
    requires !composite.kind.Constant? && GroupSelectors(composite, required).Ok?
    ensures var initial, selectors := Initial(composite.kind, composite.name), GroupSelectors(composite, required).value;
      || selectors == initial
      || selectors == initial + Dependent(composite, env)
      || selectors == initial + Dependent(composite, env) + PerNamespace(namespaces)
  {
    hide Initial;
    hide UniqueNamespaces;
    hide Environment;
    hide Checked;
    hide PerNamespace;
    hide Dependent;
    env, namespaces := map[], {};
    if ENVIRONMENT_KEY in required {
      env := Environment(required, Mandatory(composite.kind)).value;
      if composite.kind.Zone? {
        namespaces := UniqueNamespaces(composite.kind.namespaces, Items(required, ZONE_NAMESPACES_KEY)) - {""};
      }
    }
  }

  lemma GroupKeepsInitial(composite: Composite, required: Resources)
    requires !composite.kind.Constant? && GroupSelectors(composite, required).Ok?
    ensures var initial := Initial(composite.kind, composite.name);
      forall key :: key in initial ==>
        key in GroupSelectors(composite, required).value && GroupSelectors(composite, required).value[key] == initial[key]
  {
    hide *;
    InitialSelectors(composite);
    var env, namespaces := GroupLayers(composite, required);
    DependentAsksNoReadKey(composite, env);
    FixedKeysAreNotScoped(namespaces);
  }

  lemma DependentAsksNoReadKey(composite: Composite, env: Data)
    ensures ENVIRONMENT_KEY !in Dependent(composite, env) && ZONE_NAMESPACES_KEY !in Dependent(composite, env)
  {
    hide *;
    if ENVIRONMENT_KEY in Dependent(composite, env) {
      KeysOfDependent(composite, env, ENVIRONMENT_KEY);
      DependentKeysDiffer(ENVIRONMENT_KEY);
    }
    if ZONE_NAMESPACES_KEY in Dependent(composite, env) {
      KeysOfDependent(composite, env, ZONE_NAMESPACES_KEY);
      DependentKeysDiffer(ZONE_NAMESPACES_KEY);
    }
  }

  /** A selector returns resources of its own apiVersion and kind. */
  ghost predicate IsHonest(cluster: Cluster) {
    forall selector :: Delivers(selector, cluster(selector))
  }

  lemma FetchedAgree(composite: Composite, cluster: Cluster, a: Resources, b: Resources)
    requires Answer(composite, a).Ok? && Answer(composite, b).Ok?
    ensures Agree(ReadKeys(composite), Fetch(cluster, Answer(composite, a).value),
                  Fetch(cluster, Answer(composite, b).value))
  {
    ReadKeysAreAsked(composite, a);
    ReadKeysAreAsked(composite, b);
    hide Answer;
    hide ReadKeys;
  }

  lemma FetchedIsPresent(cluster: Cluster, selectors: Selectors)
    requires IsHonest(cluster)
    ensures AllPresent(selectors, Fetch(cluster, selectors))
  {
    hide Delivers;
  }

  /** How a call ends. */
  datatype Outcome = Skips | Fails(failure: Failure) | AsksFor(selectors: Selectors) | Generates(selectors: Selectors)

  function OutcomeOf(composite: Composite, delivered: Resources): Outcome {
    match Answer(composite, delivered)
    case Err(e) => Fails(e)
    case Ok(selectors) => if AllPresent(selectors, delivered) then Generates(selectors) else AsksFor(selectors)
  }

  /** The call goes on to generate exactly when it was given everything it asks for, fails exactly when it
      cannot tell, and otherwise answers with its requirements alone. */
  method RunFunction(skipGeneration: bool, composite: Composite, delivered: Resources) returns (outcome: Outcome)
    ensures var answer := Answer(composite, delivered);
      && (outcome.Skips? <==> skipGeneration)
      && (outcome.Fails? <==> !skipGeneration && answer.Err?)
      && (outcome.Generates? <==> !skipGeneration && answer.Ok? && AllPresent(answer.value, delivered))
      && (outcome.Generates? || outcome.AsksFor? ==> outcome.selectors == answer.value)
    ensures !skipGeneration ==> outcome == OutcomeOf(composite, delivered)
  {
    hide Answer;
    if skipGeneration {
      return Skips;
    }
    var answer := AddRequiredResources(composite, delivered);
    if answer.Err? {
      return Fails(answer.error);
    }
    var present := RequiredResourcesPresent(answer.value, delivered);
    if !present {
      return AsksFor(answer.value);
    }
    return Generates(answer.value);
  }

  /** For a static cluster and any seed, stale or not: each call answers with what it requires, and is called
      again with exactly that. Either one of the first three calls reports an error, or the third repeats the
      second's answer, so that it is called with everything it asks for and generates. */
  lemma DiscoveryEndsByTheThirdCall(composite: Composite, cluster: Cluster, seed: Resources)
    requires IsHonest(cluster)
    ensures var first := Answer(composite, seed);
      first.Ok? ==>
        var second := Answer(composite, Fetch(cluster, first.value));
        second.Ok? ==>
          var delivered := Fetch(cluster, second.value);
          OutcomeOf(composite, delivered) == Generates(second.value)
  {
    hide Answer;
    hide AllPresent;
    hide Fetch;
    var first := Answer(composite, seed);
    if first.Ok? {
      var second := Answer(composite, Fetch(cluster, first.value));
      if second.Ok? {
        FetchedAgree(composite, cluster, seed, Fetch(cluster, first.value));
        AnswerReadsOnly(composite, Fetch(cluster, first.value), Fetch(cluster, second.value));
        FetchedIsPresent(cluster, second.value);
      }
    }
  }

  // ---- What a zone asks for ----

  /** Kubernetes names start with a lower-case letter or a digit. */
  predicate IsNamespaceName(name: string) {
    name != "" && ('a' <= name[0] <= 'z' || '0' <= name[0] <= '9')
  }

  lemma DependentKeysAreNotScoped(namespaces: set<string>, key: string)
    requires forall namespace :: namespace in namespaces ==> IsNamespaceName(namespace)
    requires key in DEPENDENT_KEYS
    ensures key !in PerNamespace(namespaces)
  {
    DependentKeysDiffer(key);
    forall namespace: string, suffix: string | namespace in namespaces
      ensures namespace + suffix != key
    {
      assert (namespace + suffix)[0] == namespace[0];
    }
    hide Scoped;
    hide DEPENDENT_KEYS;
    KeyOfScoped(namespaces, INGRESS_SUFFIX, "networking.k8s.io/v1", "Ingress", key);
    KeyOfScoped(namespaces, SERVICE_SUFFIX, "v1", "Service", key);
    KeyOfScoped(namespaces, ROUTE_SUFFIX, "gateway.networking.k8s.io/v1", "HTTPRoute", key);
  }

  lemma ThreeUpdates<K, V>(m: map<K, V>, x: K, y: K, z: K, u: V, v: V, w: V)
    requires x != y && x != z && y != z
    ensures var n := m[x := u][y := v][z := w];
      x in n && y in n && z in n && n[x] == u && n[y] == v && n[z] == w
  {}

  lemma NothingAdded(selectors: Selectors)
    ensures map[] + selectors == selectors
  {}

  /** The entries of a namespace among the scoped selectors. */
  predicate HasNamespace(selectors: Selectors, namespace: string) {
    && namespace + INGRESS_SUFFIX in selectors && namespace + SERVICE_SUFFIX in selectors
    && namespace + ROUTE_SUFFIX in selectors
    && selectors[namespace + INGRESS_SUFFIX] == Any("networking.k8s.io/v1", "Ingress", Some(namespace))
    && selectors[namespace + SERVICE_SUFFIX] == Any("v1", "Service", Some(namespace))
    && selectors[namespace + ROUTE_SUFFIX] == Any("gateway.networking.k8s.io/v1", "HTTPRoute", Some(namespace))
  }

  lemma ScopedSelectors(namespaces: set<string>, namespace: string)
    requires namespace in namespaces
    ensures HasNamespace(PerNamespace(namespaces), namespace)
  {
    hide PerNamespace;
    hide Any;
    hide INGRESS_SUFFIX;
    hide SERVICE_SUFFIX;
    hide ROUTE_SUFFIX;
    assert namespaces - {namespace} + {namespace} == namespaces;
    OneMoreNamespace(map[], namespaces - {namespace}, namespace);
    NothingAdded(PerNamespace(namespaces));
    NamespaceKeysDiffer(namespace, namespace);
    ThreeUpdates(map[] + PerNamespace(namespaces - {namespace}),
                 namespace + INGRESS_SUFFIX, namespace + SERVICE_SUFFIX, namespace + ROUTE_SUFFIX,
                 Any("networking.k8s.io/v1", "Ingress", Some(namespace)), Any("v1", "Service", Some(namespace)),
                 Any("gateway.networking.k8s.io/v1", "HTTPRoute", Some(namespace)));
  }

  lemma UpperLayerKeeps(lower: Selectors, upper: Selectors, namespace: string)
    requires HasNamespace(upper, namespace)
    ensures HasNamespace(lower + upper, namespace)
  {
    hide Any;
  }

  lemma ZoneSelectorsForm(composite: Composite, required: Resources, env: Data)
    requires composite.kind.Zone? && ENVIRONMENT_KEY in required
    requires Environment(required, Mandatory(composite.kind)) == Ok(env)
    requires GroupSelectors(composite, required).Ok?
    ensures GroupSelectors(composite, required).value
         == Initial(composite.kind, composite.name) + Dependent(composite, env)
            + PerNamespace(ZoneNamespaces(composite, required))
  {
    hide UniqueNamespaces;
    hide Dependent;
    hide PerNamespace;
    hide Environment;
    hide Checked;
    hide Initial;
  }

  function ZoneNamespaces(composite: Composite, required: Resources): set<string>
    requires composite.kind.Zone?
  {
    UniqueNamespaces(composite.kind.namespaces, Items(required, ZONE_NAMESPACES_KEY)) - {""}
  }

  /** No selector of a zone overwrites another: every fixed key keeps its selector, and every namespace gets its
      own ingresses, services and routes. */
  lemma ZoneKeepsEverySelector(composite: Composite, required: Resources, env: Data)
    requires composite.kind.Zone? && ENVIRONMENT_KEY in required
    requires Environment(required, Mandatory(composite.kind)) == Ok(env)
    requires GroupSelectors(composite, required).Ok?
    requires forall namespace :: namespace in ZoneNamespaces(composite, required) ==> IsNamespaceName(namespace)
    ensures var selectors := GroupSelectors(composite, required).value;
      && (forall key :: key in Dependent(composite, env) ==>
           key in selectors && selectors[key] == Dependent(composite, env)[key])
      && (forall namespace :: namespace in ZoneNamespaces(composite, required) ==> HasNamespace(selectors, namespace))
  {
    hide *;
    var namespaces := ZoneNamespaces(composite, required);
    var lower := Initial(composite.kind, composite.name) + Dependent(composite, env);
    ZoneSelectorsForm(composite, required, env);
    forall namespace | namespace in namespaces
      ensures HasNamespace(lower + PerNamespace(namespaces), namespace)
    {
      ScopedSelectors(namespaces, namespace);
      UpperLayerKeeps(lower, PerNamespace(namespaces), namespace);
    }
    forall key | key in Dependent(composite, env)
      ensures key !in PerNamespace(namespaces)
    {
      KeysOfDependent(composite, env, key);
      DependentKeysAreNotScoped(namespaces, key);
    }
  }
}
