/** The placement of an OCI node pool: functions/tenancy/service/zone_oci.go. */
module OciPlacements {
  import opened Sorting
  import opened Wrappers

  datatype Subnet = Subnet(name: string, subnetType: string, id: string)

  datatype Placement = Placement(domain: string, subnetId: string)

  datatype PlacementError = NoSubnets | NoDomains

  /** What decides about the placement of a pool. An entry of `template` is the availability domain of a
      placement of the template node pool, empty when it has none; no `zones` means any. */
  datatype Request = Request(subnets: seq<Subnet>, subnetType: string, template: seq<string>, zones: set<string>)

  // ---- Availability domains ----

  predicate Eligible(request: Request, domain: string) {
    domain in request.template && domain != "" && (request.zones != {} ==> domain in request.zones)
  }

  method GetAvailabilityDomains(request: Request) returns (domains: seq<string>)
    ensures Ascends(domains)
    ensures forall domain :: domain in domains <==> Eligible(request, domain)
  {
    var found: seq<string> := [];
    for i := 0 to |request.template|
      invariant AllDiffer(found)
      invariant forall domain :: domain in found <==>
        domain in request.template[..i] && domain != "" && (request.zones != {} ==> domain in request.zones)
    {
      var domain := request.template[i];
      assert request.template[..i + 1] == request.template[..i] + [domain];
      if domain == "" || domain in found {
        continue;
      }
      if |request.zones| > 0 && domain !in request.zones {
        continue;
      }
      found := found + [domain];
    }
    assert request.template[..|request.template|] == request.template;
    domains := Sort(found, (x: string) => x);
    SortedDifferingAscends(found, domains);
    forall domain
      ensures domain in domains <==> domain in found
    {
      assert domain in multiset(domains) <==> domain in multiset(found);
    }
  }

  // ---- Subnets ----

  function NameOf(subnet: Subnet): string { subnet.name }

  function OfType(subnets: seq<Subnet>, subnetType: string): seq<Subnet> {
    if subnets == [] then []
    else OfType(subnets[..|subnets| - 1], subnetType)
         + if subnets[|subnets| - 1].subnetType == subnetType then [subnets[|subnets| - 1]] else []
  }

  /** The ids of the subnets that have one. */
  function Ids(subnets: seq<Subnet>): seq<string> {
    if subnets == [] then []
    else Ids(subnets[..|subnets| - 1]) + if subnets[|subnets| - 1].id != "" then [subnets[|subnets| - 1].id] else []
  }

  /** The compute subnets, in some order by name. */
  ghost predicate IsArrangement(request: Request, arranged: seq<Subnet>) {
    SortedBy(arranged, NameOf) && multiset(arranged) == multiset(OfType(request.subnets, request.subnetType))
  }

  /** The ids of the compute subnets, in some order by name. */
  ghost predicate AreSubnetIds(request: Request, ids: seq<string>) {
    exists arranged :: IsArrangement(request, arranged) && ids == Ids(arranged)
  }

  method GetComputeSubnetIDs(request: Request) returns (ids: seq<string>)
    ensures AreSubnetIds(request, ids)
  {
    var subnets: seq<Subnet> := [];
    for i := 0 to |request.subnets|
      invariant subnets == OfType(request.subnets[..i], request.subnetType)
    {
      assert request.subnets[..i + 1][..i] == request.subnets[..i];
      if request.subnets[i].subnetType == request.subnetType {
        subnets := subnets + [request.subnets[i]];
      }
    }
    assert request.subnets[..|request.subnets|] == request.subnets;
    var sorted := Sort(subnets, NameOf);
    ids := [];
    for i := 0 to |sorted|
      invariant ids == Ids(sorted[..i])
    {
      assert sorted[..i + 1][..i] == sorted[..i];
      if sorted[i].id != "" {
        ids := ids + [sorted[i].id];
      }
    }
    assert sorted[..|sorted|] == sorted;
    assert IsArrangement(request, sorted);
  }

  lemma {:induction false} OfTypeCounts(subnets: seq<Subnet>, subnetType: string, x: Subnet)
    ensures multiset(OfType(subnets, subnetType))[x] == if x.subnetType == subnetType then multiset(subnets)[x] else 0
  {
    if subnets != [] {
      OfTypeCounts(subnets[..|subnets| - 1], subnetType, x);
      assert subnets == subnets[..|subnets| - 1] + [subnets[|subnets| - 1]];
    }
  }

  lemma OfTypeKeepsMultisets(a: seq<Subnet>, b: seq<Subnet>, subnetType: string)
    requires multiset(a) == multiset(b)
    ensures multiset(OfType(a, subnetType)) == multiset(OfType(b, subnetType))
  {
    forall x
      ensures multiset(OfType(a, subnetType))[x] == multiset(OfType(b, subnetType))[x]
    {
      OfTypeCounts(a, subnetType, x);
      OfTypeCounts(b, subnetType, x);
    }
  }

  // ---- Placements ----

  ghost predicate AreDomains(request: Request, domains: seq<string>) {
    Ascends(domains) && forall domain :: domain in domains <==> Eligible(request, domain)
  }

  /** Round robin over the subnets in the order of the domains, or the error for what is missing. */
  predicate IsRoundRobin(domains: seq<string>, ids: seq<string>, result: Result<seq<Placement>, PlacementError>) {
    match result
    case Err(NoSubnets) => ids == []
    case Err(NoDomains) => ids != [] && domains == []
    case Ok(placements) =>
      && ids != [] && domains != [] && |placements| == |domains|
      && forall i :: 0 <= i < |placements| ==> placements[i] == Placement(domains[i], ids[i % |ids|])
  }

  ghost predicate IsResult(request: Request, result: Result<seq<Placement>, PlacementError>) {
    exists domains, ids :: AreDomains(request, domains) && AreSubnetIds(request, ids) && IsRoundRobin(domains, ids, result)
  }

  method GetPlacements(request: Request) returns (result: Result<seq<Placement>, PlacementError>)
    ensures IsResult(request, result)
  {
    hide AreSubnetIds;
    var ids := GetComputeSubnetIDs(request);
    var domains := GetAvailabilityDomains(request);
    assert AreDomains(request, domains);
    hide AreDomains;
    if |ids| == 0 {
      result := Err(NoSubnets);
    } else if |domains| == 0 {
      result := Err(NoDomains);
    } else {
      var placements: seq<Placement> := [];
      for i := 0 to |domains|
        invariant |placements| == i
        invariant forall k :: 0 <= k < i ==> placements[k] == Placement(domains[k], ids[k % |ids|])
      {
        placements := placements + [Placement(domains[i], ids[i % |ids|])];
      }
      result := Ok(placements);
    }
    assert IsRoundRobin(domains, ids, result);
  }

  /** The subnets of one type have different names. */
  ghost predicate NamesAreUnique(request: Request) {
    KeysTellApart(OfType(request.subnets, request.subnetType), NameOf)
  }

  lemma SubnetIdsAreUnique(a: Request, b: Request, idsA: seq<string>, idsB: seq<string>)
    requires multiset(a.subnets) == multiset(b.subnets) && a.subnetType == b.subnetType && NamesAreUnique(a)
    requires AreSubnetIds(a, idsA) && AreSubnetIds(b, idsB)
    ensures idsA == idsB
  {
    hide Ids;
    hide OfType;
    hide SortedBy;
    var arrangedA :| IsArrangement(a, arrangedA) && idsA == Ids(arrangedA);
    var arrangedB :| IsArrangement(b, arrangedB) && idsB == Ids(arrangedB);
    OfTypeKeepsMultisets(a.subnets, b.subnets, a.subnetType);
    ArrangementIsUnique(a, arrangedA, arrangedB);
  }

  lemma RoundRobinIsUnique(domains: seq<string>, ids: seq<string>, a: Result<seq<Placement>, PlacementError>,
                           b: Result<seq<Placement>, PlacementError>)
    requires IsRoundRobin(domains, ids, a) && IsRoundRobin(domains, ids, b)
    ensures a == b
  {
    if a.Ok? {
      assert a.value == b.value;
    }
  }

  /** The result depends neither on the order of the template's placements, nor on how often they repeat, nor
      on the order of uniquely named subnets. */
  lemma PlacementIgnoresOrder(a: Request, b: Request, resultA: Result<seq<Placement>, PlacementError>,
                              resultB: Result<seq<Placement>, PlacementError>)
    requires multiset(a.subnets) == multiset(b.subnets) && a.subnetType == b.subnetType && a.zones == b.zones
    requires forall domain :: domain in a.template <==> domain in b.template
    requires NamesAreUnique(a)
    requires IsResult(a, resultA) && IsResult(b, resultB)
    ensures resultA == resultB
  {
    hide NamesAreUnique;
    hide AreSubnetIds;
    hide IsRoundRobin;
    hide Ascends;
    var domainsA, idsA :| AreDomains(a, domainsA) && AreSubnetIds(a, idsA) && IsRoundRobin(domainsA, idsA, resultA);
    var domainsB, idsB :| AreDomains(b, domainsB) && AreSubnetIds(b, idsB) && IsRoundRobin(domainsB, idsB, resultB);
    SubnetIdsAreUnique(a, b, idsA, idsB);
    AscendingIsUnique(domainsA, domainsB);
    RoundRobinIsUnique(domainsA, idsA, resultA, resultB);
  }

  lemma ArrangementIsUnique(request: Request, a: seq<Subnet>, b: seq<Subnet>)
    requires NamesAreUnique(request)
    requires IsArrangement(request, a) && SortedBy(b, NameOf)
    requires multiset(b) == multiset(OfType(request.subnets, request.subnetType))
    ensures a == b
  {
    hide Less;
    hide NameOf;
    var chosen := OfType(request.subnets, request.subnetType);
    hide OfType;
    forall x | x in a
      ensures x in chosen
    {
      assert x in multiset(a);
    }
    SortedIsUnique(a, b, NameOf);
  }

  // ---- Balance ----

  /** How often round robin over `m` uses slot `j` in `n` turns. */
  function Uses(n: nat, m: nat, j: nat): nat
    requires m > 0
  {
    if n == 0 then 0 else Uses(n - 1, m, j) + if (n - 1) % m == j then 1 else 0
  }

  lemma MultipleIsLarge(k: int, m: int)
    requires k >= 1 && m > 0
    ensures k * m >= m
  {}

  lemma Remainder(q: nat, m: nat, r: nat)
    requires r < m
    ensures (q * m + r) % m == r
  {
    var n := q * m + r;
    var p, t := n / m, n % m;
    assert n == p * m + t;
    assert (q - p) * m == t - r && (p - q) * m == r - t;
    if q > p { MultipleIsLarge(q - p, m); }
    if q < p { MultipleIsLarge(p - q, m); }
  }

  lemma {:induction false} UsesForm(q: nat, m: nat, r: nat, j: nat)
    requires r < m && j < m
    ensures q * m + r >= 0
    ensures Uses(q * m + r, m, j) == q + if j < r then 1 else 0
    decreases q, r
  {
    if r > 0 {
      UsesForm(q, m, r - 1, j);
      Remainder(q, m, r - 1);
    } else if q > 0 {
      UsesForm(q - 1, m, m - 1, j);
      Remainder(q - 1, m, m - 1);
      assert q * m + 0 == (q - 1) * m + (m - 1) + 1;
    } else {
      assert q * m + r == 0;
    }
  }

  function UsesOf(placements: seq<Placement>, subnetId: string): nat {
    if placements == [] then 0
    else
      UsesOf(placements[..|placements| - 1], subnetId)
      + if placements[|placements| - 1].subnetId == subnetId then 1 else 0
  }

  lemma {:induction false} UsesOfSlot(placements: seq<Placement>, domains: seq<string>, ids: seq<string>, j: nat)
    requires ids != [] && AllDiffer(ids) && j < |ids| && |placements| == |domains|
    requires forall i :: 0 <= i < |placements| ==> placements[i] == Placement(domains[i], ids[i % |ids|])
    ensures UsesOf(placements, ids[j]) == Uses(|placements|, |ids|, j)
  {
    if placements != [] {
      var n := |placements| - 1;
      UsesOfSlot(placements[..n], domains[..n], ids, j);
      assert ids[n % |ids|] == ids[j] <==> n % |ids| == j;
    }
  }

  lemma UsesOfTurns(n: nat, m: nat, j: nat)
    requires j < m
    ensures Uses(n, m, j) == n / m + if j < n % m then 1 else 0
  {
    var q, r := n / m, n % m;
    assert n == q * m + r;
    UsesForm(q, m, r, j);
    hide Uses;
  }

  lemma DomainsArePlacedOnce(request: Request, domains: seq<string>, ids: seq<string>, placements: seq<Placement>)
    requires AreDomains(request, domains) && IsRoundRobin(domains, ids, Ok(placements))
    ensures forall domain :: Eligible(request, domain) <==>
      exists i :: 0 <= i < |placements| && placements[i].domain == domain
    ensures forall a, b :: 0 <= a < b < |placements| ==> Less(placements[a].domain, placements[b].domain)
  {
    hide Less;
    hide Eligible;
    forall domain
      ensures Eligible(request, domain) <==> exists i :: 0 <= i < |placements| && placements[i].domain == domain
    {
      if Eligible(request, domain) {
        var i :| 0 <= i < |domains| && domains[i] == domain;
        assert placements[i].domain == domain;
      }
    }
  }

  lemma SubnetsAreUsedInTurn(domains: seq<string>, ids: seq<string>, placements: seq<Placement>, j: nat)
    requires IsRoundRobin(domains, ids, Ok(placements)) && AllDiffer(ids) && j < |ids|
    ensures UsesOf(placements, ids[j]) == Uses(|placements|, |ids|, j)
  {
    hide Uses;
    hide UsesOf;
    UsesOfSlot(placements, domains, ids, j);
  }

  lemma PlacementsUseSubnets(domains: seq<string>, ids: seq<string>, placements: seq<Placement>)
    requires IsRoundRobin(domains, ids, Ok(placements))
    ensures ids != [] && forall i :: 0 <= i < |placements| ==> placements[i].subnetId in ids
  {
    forall i | 0 <= i < |placements|
      ensures placements[i].subnetId in ids
    {
      assert placements[i].subnetId == ids[i % |ids|];
    }
  }

  /** Each eligible domain is placed exactly once, in ascending order, and only in the subnets of the request. When
      their ids differ, each subnet is used as often as the even share rounded down, and the first ones once more
      until all domains are placed, so the uses of any two differ by at most one. */
  lemma PlacementsAreBalanced(request: Request, placements: seq<Placement>) returns (ids: seq<string>)
    requires IsResult(request, Ok(placements))
    ensures forall domain :: Eligible(request, domain) <==>
      exists i :: 0 <= i < |placements| && placements[i].domain == domain
    ensures forall a, b :: 0 <= a < b < |placements| ==> Less(placements[a].domain, placements[b].domain)
    ensures AreSubnetIds(request, ids) && ids != []
    ensures forall i :: 0 <= i < |placements| ==> placements[i].subnetId in ids
    ensures AllDiffer(ids) ==> forall j :: 0 <= j < |ids| ==>
      UsesOf(placements, ids[j]) == |placements| / |ids| + if j < |placements| % |ids| then 1 else 0
    ensures AllDiffer(ids) ==> forall j, k :: 0 <= j < |ids| && 0 <= k < |ids| ==>
      -1 <= UsesOf(placements, ids[j]) - UsesOf(placements, ids[k]) <= 1
  {
    hide AreDomains;
    hide AreSubnetIds;
    hide IsRoundRobin;
    hide Eligible;
    hide Less;
    hide UsesOf;
    hide Uses;
    hide AllDiffer;
    var domains: seq<string>, found: seq<string> :|
      AreDomains(request, domains) && AreSubnetIds(request, found) && IsRoundRobin(domains, found, Ok(placements));
    ids := found;
    DomainsArePlacedOnce(request, domains, ids, placements);
    PlacementsUseSubnets(domains, ids, placements);
    if AllDiffer(ids) {
      forall j | 0 <= j < |ids|
        ensures UsesOf(placements, ids[j]) == |placements| / |ids| + if j < |placements| % |ids| then 1 else 0
      {
        SubnetsAreUsedInTurn(domains, ids, placements, j);
        UsesOfTurns(|placements|, |ids|, j);
      }
    }
  }
}
