/** The backend's poll: one pass over every cluster's nodes, counted by provider, billing tier and machine type. */
module FleetAccounting {
  import opened Prelude
  import opened MachineNames

  datatype Node = Node(ready: bool, instanceType: string, billing: string)

  function ProviderOf(it: string): string {
    if HasPrefix(it, "bare-metal") || HasPrefix(it, "onprem") then "On-prem"
    else if HasPrefix(it, "n2-") || HasPrefix(it, "e2-") || HasPrefix(it, "n1-") then "GCP"
    else "AWS"
  }

  function BillingOf(it: string): string {
    if HasPrefix(it, "bare-metal") || HasPrefix(it, "onprem") then "owned"
    else if HasPrefix(it, "m6i") then "reserved"
    else "on-demand"
  }

  function NodeTier(n: Node): string { if n.billing != "" then n.billing else BillingOf(n.instanceType) }

  function Clamp(v: int, lo: int, hi: int): int { if v < lo then lo else if v > hi then hi else v }

  /** The tiers, as questions about a node: every label the switch does not name counts as on-demand. */
  predicate Ready(n: Node) { n.ready }
  predicate Committed(n: Node) { n.ready && (NodeTier(n) == "owned" || NodeTier(n) == "reserved") }
  predicate Spot(n: Node) { n.ready && NodeTier(n) == "spot" }
  predicate Cloud(n: Node) { n.ready && !Committed(n) }
  predicate OnDemand(n: Node) { Cloud(n) && !Spot(n) }
  function Provider(n: Node): string { ProviderOf(n.instanceType) }
  function Sku(n: Node): string { n.instanceType }

  // ---- counting ----

  function Count(ns: seq<Node>, p: Node -> bool): nat {
    if ns == [] then 0 else Count(ns[..|ns| - 1], p) + (if p(ns[|ns| - 1]) then 1 else 0)
  }

  function CountAt(ns: seq<Node>, p: Node -> bool, key: Node -> string, k: string): nat {
    if ns == [] then 0
    else CountAt(ns[..|ns| - 1], p, key, k) + (if p(ns[|ns| - 1]) && key(ns[|ns| - 1]) == k then 1 else 0)
  }

  function At(m: map<string, int>, k: string): int { if k in m then m[k] else 0 }

  /** m[k]++ on a Go map. */
  function Bump(m: map<string, int>, k: string): map<string, int> { m[k := At(m, k) + 1] }

  function BumpIf(c: bool, m: map<string, int>, k: string): map<string, int> { if c then Bump(m, k) else m }

  /** m holds, under each key that occurs, how many of the nodes have it. */
  ghost predicate Tallies(m: map<string, int>, ns: seq<Node>, p: Node -> bool, key: Node -> string) {
    forall k ::
      && (k in m <==> CountAt(ns, p, key, k) > 0)
      && At(m, k) == CountAt(ns, p, key, k)
  }

  lemma TalliesStep(m: map<string, int>, ns: seq<Node>, p: Node -> bool, key: Node -> string, n: Node)
    requires Tallies(m, ns, p, key)
    ensures Tallies(BumpIf(p(n), m, key(n)), ns + [n], p, key)
  {
    var m' := BumpIf(p(n), m, key(n));
    assert (ns + [n])[..|ns|] == ns;
    forall k
      ensures k in m' <==> CountAt(ns + [n], p, key, k) > 0
      ensures At(m', k) == CountAt(ns + [n], p, key, k)
    {
      assert At(m, k) == CountAt(ns, p, key, k);
    }
  }

  ghost function MapSum(m: map<string, int>): int {
    if m == map[] then 0 else var k :| k in m; m[k] + MapSum(m - {k})
  }

  lemma {:induction false} MapSumTakesOut(m: map<string, int>, k: string)
    requires k in m
    ensures MapSum(m) == m[k] + MapSum(m - {k})
  {
    var j :| j in m && MapSum(m) == m[j] + MapSum(m - {j});
    if j != k {
      MapSumTakesOut(m - {j}, k);
      MapSumTakesOut(m - {k}, j);
      assert m - {j} - {k} == m - {k} - {j};
    }
  }

  lemma MapSumBump(m: map<string, int>, k: string)
    ensures MapSum(Bump(m, k)) == MapSum(m) + 1
  {
    MapSumTakesOut(Bump(m, k), k);
    if k in m {
      MapSumTakesOut(m, k);
      assert Bump(m, k) - {k} == m - {k};
    } else {
      assert Bump(m, k) - {k} == m;
    }
  }

  /** Any map that tallies the nodes sums to their number. */
  lemma {:induction false} TalliesSum(m: map<string, int>, ns: seq<Node>, p: Node -> bool, key: Node -> string)
    requires Tallies(m, ns, p, key)
    ensures MapSum(m) == Count(ns, p)
  {
    if ns == [] {
      forall k ensures k !in m {
        assert CountAt(ns, p, key, k) == 0;
      }
      assert m == map[];
    } else {
      var before, n := ns[..|ns| - 1], ns[|ns| - 1];
      var m' := TallyOf(before, p, key);
      TalliesStep(m', before, p, key, n);
      assert before + [n] == ns;
      TalliesSum(m', before, p, key);
      MapSumBump(m', key(n));
      TalliesUnique(m, BumpIf(p(n), m', key(n)), ns, p, key);
    }
  }

  function TallyOf(ns: seq<Node>, p: Node -> bool, key: Node -> string): (m: map<string, int>)
    ensures Tallies(m, ns, p, key)
  {
    if ns == [] then map[]
    else
      var before, n := ns[..|ns| - 1], ns[|ns| - 1];
      var m := TallyOf(before, p, key);
      assert before + [n] == ns;
      TalliesStep(m, before, p, key, n);
      BumpIf(p(n), m, key(n))
  }

  lemma TalliesUnique(a: map<string, int>, b: map<string, int>, ns: seq<Node>, p: Node -> bool, key: Node -> string)
    requires Tallies(a, ns, p, key) && Tallies(b, ns, p, key)
    ensures a == b
  {
    forall k ensures (k in a <==> k in b) && At(a, k) == At(b, k) {
      assert At(a, k) == CountAt(ns, p, key, k);
    }
    assert forall k :: k in a ==> a[k] == At(a, k) && b[k] == At(b, k);
  }

  // ---- the pass ----

  datatype ClusterState = ClusterState(nodes: int, nodesReady: int, nodesByCloud: map<string, int>)

  datatype Capacity = Capacity(
    onpremTotal: int, onpremInUse: int, onpremIdle: int,
    committedByProvider: map<string, int>, committedByType: map<string, int>,
    cloudTotal: int, cloudInUse: int, cloudAvailable: int,
    cloudByCloud: map<string, int>, cloudByType: map<string, int>,
    onDemandInUse: int, spotInUse: int, spotByType: map<string, int>, costPerHour: real)

  datatype FleetState = FleetState(fleetByCloud: map<string, int>, clusters: seq<ClusterState>, capacity: Capacity)

  datatype CapConfig = CapConfig(onprem: int, cloud: int, nodeHourly: real, spotHourly: real)

  /** The running totals of the pass. */
  datatype Totals = Totals(
    committed: int, cloud: int, onDemand: int, spot: int, fleetByCloud: map<string, int>,
    committedByProv: map<string, int>, cloudByProv: map<string, int>,
    committedByType: map<string, int>, cloudByType: map<string, int>, spotByType: map<string, int>)

  ghost predicate CountsAgree(t: Totals, ns: seq<Node>) {
    && t.committed == Count(ns, Committed)
    && t.cloud == Count(ns, Cloud)
    && t.onDemand == Count(ns, OnDemand)
    && t.spot == Count(ns, Spot)
  }

  /** Every total is a count of the nodes taken so far. */
  ghost predicate Books(t: Totals, ns: seq<Node>) {
    && CountsAgree(t, ns)
    && Tallies(t.fleetByCloud, ns, Ready, Provider)
    && Tallies(t.committedByProv, ns, Committed, Provider)
    && Tallies(t.cloudByProv, ns, Cloud, Provider)
    && Tallies(t.committedByType, ns, Committed, Sku)
    && Tallies(t.cloudByType, ns, OnDemand, Sku)
    && Tallies(t.spotByType, ns, Spot, Sku)
  }

  function TotalsOf(ns: seq<Node>): (t: Totals)
    ensures Books(t, ns)
  {
    Totals(Count(ns, Committed), Count(ns, Cloud), Count(ns, OnDemand), Count(ns, Spot), TallyOf(ns, Ready, Provider),
      TallyOf(ns, Committed, Provider), TallyOf(ns, Cloud, Provider),
      TallyOf(ns, Committed, Sku), TallyOf(ns, OnDemand, Sku), TallyOf(ns, Spot, Sku))
  }

  lemma BooksUnique(t: Totals, ns: seq<Node>)
    requires Books(t, ns)
    ensures t == TotalsOf(ns)
  {
    var u := TotalsOf(ns);
    TalliesUnique(t.fleetByCloud, u.fleetByCloud, ns, Ready, Provider);
    TalliesUnique(t.committedByProv, u.committedByProv, ns, Committed, Provider);
    TalliesUnique(t.cloudByProv, u.cloudByProv, ns, Cloud, Provider);
    TalliesUnique(t.committedByType, u.committedByType, ns, Committed, Sku);
    TalliesUnique(t.cloudByType, u.cloudByType, ns, OnDemand, Sku);
    TalliesUnique(t.spotByType, u.spotByType, ns, Spot, Sku);
  }

  ghost function Entered(t: Totals, n: Node): Totals {
    if !n.ready then t
    else
      var it, prov := n.instanceType, ProviderOf(n.instanceType);
      var u := t.(fleetByCloud := Bump(t.fleetByCloud, prov));
      match NodeTier(n)
      case "owned" | "reserved" =>
        u.(committed := t.committed + 1, committedByProv := Bump(t.committedByProv, prov),
          committedByType := Bump(t.committedByType, it))
      case "spot" =>
        u.(cloud := t.cloud + 1, spot := t.spot + 1, cloudByProv := Bump(t.cloudByProv, prov),
          spotByType := Bump(t.spotByType, it))
      case _ =>
        u.(cloud := t.cloud + 1, onDemand := t.onDemand + 1, cloudByProv := Bump(t.cloudByProv, prov),
          cloudByType := Bump(t.cloudByType, it))
  }

  function AddIf(c: bool, n: int): int { if c then n + 1 else n }

  /** The switch, total by total. */
  lemma EnteredIs(t: Totals, n: Node)
    ensures Entered(t, n) == Totals(
      AddIf(Committed(n), t.committed), AddIf(Cloud(n), t.cloud), AddIf(OnDemand(n), t.onDemand), AddIf(Spot(n), t.spot),
      BumpIf(Ready(n), t.fleetByCloud, Provider(n)),
      BumpIf(Committed(n), t.committedByProv, Provider(n)), BumpIf(Cloud(n), t.cloudByProv, Provider(n)),
      BumpIf(Committed(n), t.committedByType, Sku(n)), BumpIf(OnDemand(n), t.cloudByType, Sku(n)),
      BumpIf(Spot(n), t.spotByType, Sku(n)))
  {}

  lemma BooksStep(t: Totals, ns: seq<Node>, n: Node)
    requires Books(t, ns)
    ensures Books(Entered(t, n), ns + [n])
  {
    EnteredIs(t, n);
    assert (ns + [n])[..|ns|] == ns;
    assert Tallies(Entered(t, n).fleetByCloud, ns + [n], Ready, Provider) by {
      TalliesStep(t.fleetByCloud, ns, Ready, Provider, n);
    }
    assert Tallies(Entered(t, n).committedByProv, ns + [n], Committed, Provider) by {
      TalliesStep(t.committedByProv, ns, Committed, Provider, n);
    }
    assert Tallies(Entered(t, n).cloudByProv, ns + [n], Cloud, Provider) by {
      TalliesStep(t.cloudByProv, ns, Cloud, Provider, n);
    }
    assert Tallies(Entered(t, n).committedByType, ns + [n], Committed, Sku) by {
      TalliesStep(t.committedByType, ns, Committed, Sku, n);
    }
    assert Tallies(Entered(t, n).cloudByType, ns + [n], OnDemand, Sku) by {
      TalliesStep(t.cloudByType, ns, OnDemand, Sku, n);
    }
    assert Tallies(Entered(t, n).spotByType, ns + [n], Spot, Sku) by {
      TalliesStep(t.spotByType, ns, Spot, Sku, n);
    }
  }

  /** One cluster's row; a list that fails leaves it at zero. */
  ghost predicate Describes(cs: ClusterState, listed: Option<seq<Node>>) {
    var ns := NodesOf(listed);
    && cs.nodes == |ns|
    && cs.nodesReady == Count(ns, Ready)
    && Tallies(cs.nodesByCloud, ns, Ready, Provider)
  }

  function NodesOf(listed: Option<seq<Node>>): seq<Node> { if listed.Some? then listed.value else [] }

  function AllNodes(lists: seq<Option<seq<Node>>>): seq<Node> {
    if lists == [] then [] else AllNodes(lists[..|lists| - 1]) + NodesOf(lists[|lists| - 1])
  }

  function Cost(onDemand: int, spot: int, cfg: CapConfig): real {
    onDemand as real * cfg.nodeHourly + spot as real * cfg.spotHourly
  }

  /** What the totals are turned into. */
  ghost function CapacityOf(t: Totals, cfg: CapConfig): Capacity {
    var onprem, cloud := Clamp(t.committed, 0, cfg.onprem), Clamp(t.cloud, 0, cfg.cloud);
    Capacity(cfg.onprem, onprem, cfg.onprem - onprem, t.committedByProv, t.committedByType,
      cfg.cloud, cloud, cfg.cloud - cloud, t.cloudByProv, t.cloudByType,
      t.onDemand, t.spot, t.spotByType, Cost(t.onDemand, t.spot, cfg))
  }

  /** The totals as one round of pollLoop runs them up. */
  class Round {
    var committedReady: int
    var cloudReady: int
    var onDemandReady: int
    var spotReady: int
    var fleetByCloud: map<string, int>
    var committedByProv: map<string, int>
    var cloudByProv: map<string, int>
    var committedByType: map<string, int>
    var cloudByType: map<string, int>
    var spotByType: map<string, int>

    function View(): Totals
      reads this
    {
      Totals(committedReady, cloudReady, onDemandReady, spotReady, fleetByCloud, committedByProv, cloudByProv,
        committedByType, cloudByType, spotByType)
    }

    constructor ()
      ensures View() == Totals(0, 0, 0, 0, map[], map[], map[], map[], map[], map[])
    {
      committedReady, cloudReady, onDemandReady, spotReady := 0, 0, 0, 0;
      fleetByCloud, committedByProv, cloudByProv := map[], map[], map[];
      committedByType, cloudByType, spotByType := map[], map[], map[];
    }

    /** What the node loop does with a ready node. */
    method CountReady(n: Node)
      requires n.ready
      modifies this
      ensures View() == Entered(old(View()), n)
    {
      var it := n.instanceType;
      var prov := ProviderOf(it);
      fleetByCloud := Bump(fleetByCloud, prov);
      match NodeTier(n) {
        case "owned" | "reserved" =>
          committedReady := committedReady + 1;
          committedByProv := Bump(committedByProv, prov);
          committedByType := Bump(committedByType, it);
        case "spot" =>
          cloudReady, spotReady := cloudReady + 1, spotReady + 1;
          cloudByProv := Bump(cloudByProv, prov);
          spotByType := Bump(spotByType, it);
        case _ =>
          cloudReady, onDemandReady := cloudReady + 1, onDemandReady + 1;
          cloudByProv := Bump(cloudByProv, prov);
          cloudByType := Bump(cloudByType, it);
      }
    }

    /** What the round makes of its totals. */
    method Capacities(cfg: CapConfig) returns (cp: Capacity)
      ensures cp == CapacityOf(View(), cfg)
    {
      var onpremInUse := Clamp(committedReady, 0, cfg.onprem);
      var cloudInUse := Clamp(cloudReady, 0, cfg.cloud);
      cp := Capacity(cfg.onprem, onpremInUse, cfg.onprem - onpremInUse, committedByProv, committedByType,
        cfg.cloud, cloudInUse, cfg.cloud - cloudInUse, cloudByProv, cloudByType,
        onDemandReady, spotReady, spotByType, Cost(onDemandReady, spotReady, cfg));
    }

    method Finish(cfg: CapConfig, clusters: seq<ClusterState>, ghost all: seq<Node>) returns (st: FleetState)
      requires Books(View(), all)
      ensures st.clusters == clusters && st.fleetByCloud == TotalsOf(all).fleetByCloud
      ensures st.capacity == CapacityOf(TotalsOf(all), cfg)
    {
      BooksUnique(View(), all);
      var cp := Capacities(cfg);
      st := FleetState(fleetByCloud, clusters, cp);
    }

    method Advance(n: Node, nodesReady: int, nodesByCloud: map<string, int>, ghost before: seq<Node>, ghost taken: seq<Node>)
      returns (ready: int, byCloud: map<string, int>)
      requires Books(View(), before + taken) && Describes(ClusterState(|taken|, nodesReady, nodesByCloud), Some(taken))
      modifies this
      ensures Books(View(), before + (taken + [n]))
      ensures Describes(ClusterState(|taken| + 1, ready, byCloud), Some(taken + [n]))
    {
      DescribesStep(ClusterState(|taken|, nodesReady, nodesByCloud), taken, n);
      BooksStep(View(), before + taken, n);
      assert before + taken + [n] == before + (taken + [n]);
      ready, byCloud := nodesReady, nodesByCloud;
      if n.ready {
        ready := nodesReady + 1;
        byCloud := Bump(nodesByCloud, ProviderOf(n.instanceType));
        CountReady(n);
      }
    }

    /** One cluster's turn. */
    method CountCluster(listed: Option<seq<Node>>, ghost before: seq<Node>) returns (cs: ClusterState)
      requires Books(View(), before)
      modifies this
      ensures Books(View(), before + NodesOf(listed)) && Describes(cs, listed)
    {
      var items := NodesOf(listed);
      var nodesReady, nodesByCloud: map<string, int> := 0, map[];
      assert before + items[..0] == before;
      for i := 0 to |items|
        invariant Books(View(), before + items[..i])
        invariant Describes(ClusterState(i, nodesReady, nodesByCloud), Some(items[..i]))
      {
        assert items[..i] + [items[i]] == items[..i + 1];
        nodesReady, nodesByCloud := Advance(items[i], nodesReady, nodesByCloud, before, items[..i]);
      }
      assert items[..|items|] == items;
      cs := ClusterState(|items|, nodesReady, nodesByCloud);
    }
  }

  lemma DescribesStep(cs: ClusterState, ns: seq<Node>, n: Node)
    requires Describes(cs, Some(ns))
    ensures Describes(ClusterState(cs.nodes + 1, AddIf(n.ready, cs.nodesReady),
      BumpIf(n.ready, cs.nodesByCloud, Provider(n))), Some(ns + [n]))
  {
    assert (ns + [n])[..|ns|] == ns;
    TalliesStep(cs.nodesByCloud, ns, Ready, Provider, n);
  }

  /** One round of pollLoop's node accounting; lists[i] is None when listing cluster i's nodes fails. */
  method AccountFleet(lists: seq<Option<seq<Node>>>, cfg: CapConfig) returns (st: FleetState)
    ensures |st.clusters| == |lists|
    ensures forall i :: 0 <= i < |lists| ==> Describes(st.clusters[i], lists[i])
    ensures st.fleetByCloud == TotalsOf(AllNodes(lists)).fleetByCloud
    ensures st.capacity == CapacityOf(TotalsOf(AllNodes(lists)), cfg)
  {
    var round := new Round();
    var clusters := [];
    for c := 0 to |lists|
      invariant fresh(round) && Books(round.View(), AllNodes(lists[..c]))
      invariant |clusters| == c && forall i :: 0 <= i < c ==> Describes(clusters[i], lists[i])
    {
      var cs := round.CountCluster(lists[c], AllNodes(lists[..c]));
      assert lists[..c + 1][..c] == lists[..c];
      clusters := clusters + [cs];
    }
    assert lists[..|lists|] == lists;
    st := round.Finish(cfg, clusters, AllNodes(lists));
  }

  // ---- conservation ----

  /** Every ready node is in exactly one of committed, on-demand and spot. */
  lemma {:induction false} TiersPartition(ns: seq<Node>)
    ensures Count(ns, Ready) == Count(ns, Committed) + Count(ns, OnDemand) + Count(ns, Spot)
    ensures Count(ns, Cloud) == Count(ns, OnDemand) + Count(ns, Spot)
  {
    if ns != [] {
      TiersPartition(ns[..|ns| - 1]);
    }
  }

  /** All six maps sum to the tier totals they break down. */
  lemma MapsSumToTiers(t: Totals, ns: seq<Node>)
    requires t == TotalsOf(ns)
    ensures MapSum(t.fleetByCloud) == t.committed + t.onDemand + t.spot
    ensures t.cloud == t.onDemand + t.spot
    ensures MapSum(t.committedByProv) == t.committed == MapSum(t.committedByType)
    ensures MapSum(t.cloudByProv) == t.cloud == MapSum(t.cloudByType) + MapSum(t.spotByType)
    ensures MapSum(t.cloudByType) == t.onDemand && MapSum(t.spotByType) == t.spot
  {
    TiersPartition(ns);
    TalliesSum(t.fleetByCloud, ns, Ready, Provider);
    TalliesSum(t.committedByProv, ns, Committed, Provider);
    TalliesSum(t.committedByType, ns, Committed, Sku);
    TalliesSum(t.cloudByProv, ns, Cloud, Provider);
    TalliesSum(t.cloudByType, ns, OnDemand, Sku);
    TalliesSum(t.spotByType, ns, Spot, Sku);
  }

  lemma {:induction false} CountAtConcat(a: seq<Node>, b: seq<Node>, p: Node -> bool, key: Node -> string, k: string)
    ensures CountAt(a + b, p, key, k) == CountAt(a, p, key, k) + CountAt(b, p, key, k)
  {
    if b == [] {
      assert a + b == a;
    } else {
      CountAtConcat(a, b[..|b| - 1], p, key, k);
      assert (a + b)[..|a + b| - 1] == a + b[..|b| - 1];
    }
  }

  /** One provider's count, summed over the clusters' rows. */
  function RowSum(rows: seq<ClusterState>, k: string): int {
    if rows == [] then 0 else RowSum(rows[..|rows| - 1], k) + At(rows[|rows| - 1].nodesByCloud, k)
  }

  lemma {:induction false} RowsAddUp(rows: seq<ClusterState>, lists: seq<Option<seq<Node>>>, k: string)
    requires |rows| == |lists| && forall i :: 0 <= i < |lists| ==> Describes(rows[i], lists[i])
    ensures RowSum(rows, k) == CountAt(AllNodes(lists), Ready, Provider, k)
  {
    if rows != [] {
      var last := |rows| - 1;
      RowsAddUp(rows[..last], lists[..last], k);
      CountAtConcat(AllNodes(lists[..last]), NodesOf(lists[last]), Ready, Provider, k);
      assert AllNodes(lists) == AllNodes(lists[..last]) + NodesOf(lists[last]);
      assert At(rows[last].nodesByCloud, k) == CountAt(NodesOf(lists[last]), Ready, Provider, k) by {
        assert Describes(rows[last], lists[last]);
      }
    }
  }

  /** Provider by provider, the clusters' rows add up to the fleet's. */
  lemma FleetIsItsClusters(st: FleetState, lists: seq<Option<seq<Node>>>, k: string)
    requires |st.clusters| == |lists| && forall i :: 0 <= i < |lists| ==> Describes(st.clusters[i], lists[i])
    requires st.fleetByCloud == TotalsOf(AllNodes(lists)).fleetByCloud
    ensures RowSum(st.clusters, k) == At(st.fleetByCloud, k)
  {
    RowsAddUp(st.clusters, lists, k);
    assert At(st.fleetByCloud, k) == CountAt(AllNodes(lists), Ready, Provider, k);
  }

  /**
   * After clamping, in use plus idle is the pool, with no part negative exactly when the pool is
   * not; the on-demand and spot parts are not clamped, and add up to the cloud in use exactly when
   * the fleet is within its quota.
   */
  lemma PoolsBalance(ns: seq<Node>, cfg: CapConfig)
    ensures var cp := CapacityOf(TotalsOf(ns), cfg);
      && cp.onpremInUse + cp.onpremIdle == cp.onpremTotal == cfg.onprem
      && cp.cloudInUse + cp.cloudAvailable == cp.cloudTotal == cfg.cloud
      && (cp.onpremInUse >= 0 && cp.onpremIdle >= 0 <==> cfg.onprem >= 0)
      && (cp.cloudInUse >= 0 && cp.cloudAvailable >= 0 <==> cfg.cloud >= 0)
      && (cp.onDemandInUse + cp.spotInUse == cp.cloudInUse <==> Count(ns, Cloud) <= cfg.cloud)
      && (cp.onpremInUse == Count(ns, Committed) <==> Count(ns, Committed) <= cfg.onprem)
  {
    TiersPartition(ns);
  }

  // ---- what the counts mean ----

  /** A ready node's own label decides its tier; without one, its machine type does. A node not ready is in none. */
  lemma TierByLabel(n: Node)
    ensures !n.ready ==> !Ready(n) && !Committed(n) && !Cloud(n) && !OnDemand(n) && !Spot(n)
    ensures n.ready && (n.billing == "owned" || n.billing == "reserved") ==> Committed(n)
    ensures n.ready && n.billing == "spot" ==> Spot(n)
    ensures n.ready && n.billing != "" && n.billing != "owned" && n.billing != "reserved" && n.billing != "spot" ==> OnDemand(n)
    ensures n.ready && n.billing == "" ==> !Spot(n)
    ensures n.ready && n.billing == "" ==>
      (Committed(n) <==> HasPrefix(n.instanceType, "bare-metal") || HasPrefix(n.instanceType, "onprem") || HasPrefix(n.instanceType, "m6i"))
  {}

  function DisplayName(cloud: string): string { if cloud == "onprem" then "On-prem" else if cloud == "gcp" then "GCP" else "AWS" }

  /** The backend and node-creator tell providers apart alike, on every machine type. */
  lemma ProvidersAgree(it: string)
    ensures ProviderOf(it) == DisplayName(CloudOf(it))
  {}

  /** A fleet machine's node is counted under its own cloud, and as committed exactly when the machine is an idle one the fleet owns or reserves. */
  lemma FleetMachineIsCounted(o: Options, m: Instance, cloud: string, n: nat)
    requires Numbered(Subs(o), m, cloud, n)
    ensures var node := Node(true, m.instanceType, m.billing);
      && Provider(node) == DisplayName(cloud)
      && (Committed(node) <==> m.state == Idle) && (Spot(node) <==> m.billing == "spot")
      && (OnDemand(node) <==> m.billing == "on-demand")
  {
    InstanceTypeNamesCloud(o, m, cloud, n);
    ProvidersAgree(m.instanceType);
    TierOfIsOneOf(Subs(o)[cloud].tiers, n);
  }

  /** What is shown of the fleet's capacity is, number by number and key by key, a count of its ready nodes. */
  lemma CapacityShows(ns: seq<Node>, cfg: CapConfig, k: string)
    ensures var cp := CapacityOf(TotalsOf(ns), cfg);
      && cp.onDemandInUse == Count(ns, OnDemand) && cp.spotInUse == Count(ns, Spot)
      && At(cp.committedByProvider, k) == CountAt(ns, Committed, Provider, k)
      && At(cp.committedByType, k) == CountAt(ns, Committed, Sku, k)
      && At(cp.cloudByCloud, k) == CountAt(ns, Cloud, Provider, k)
      && At(cp.cloudByType, k) == CountAt(ns, OnDemand, Sku, k)
      && At(cp.spotByType, k) == CountAt(ns, Spot, Sku, k)
  {
    var t := TotalsOf(ns);
    assert Books(t, ns);
  }

  /** Each node's price an hour, summed node by node. */
  function CostOf(ns: seq<Node>, cfg: CapConfig): real {
    if ns == [] then 0.0
    else
      var n := ns[|ns| - 1];
      CostOf(ns[..|ns| - 1], cfg) + (if OnDemand(n) then cfg.nodeHourly else if Spot(n) then cfg.spotHourly else 0.0)
  }

  lemma CostOneMore(a: int, b: int, cfg: CapConfig)
    ensures Cost(a + 1, b, cfg) == Cost(a, b, cfg) + cfg.nodeHourly
    ensures Cost(a, b + 1, cfg) == Cost(a, b, cfg) + cfg.spotHourly
  {
    assert (a + 1) as real * cfg.nodeHourly == a as real * cfg.nodeHourly + cfg.nodeHourly;
    assert (b + 1) as real * cfg.spotHourly == b as real * cfg.spotHourly + cfg.spotHourly;
  }

  lemma {:induction false} CostByCounts(ns: seq<Node>, cfg: CapConfig, a: int, b: int)
    requires a == Count(ns, OnDemand) && b == Count(ns, Spot)
    ensures CostOf(ns, cfg) == Cost(a, b, cfg)
  {
    if ns != [] {
      var before, n := ns[..|ns| - 1], ns[|ns| - 1];
      var a0, b0 := Count(before, OnDemand), Count(before, Spot);
      CostByCounts(before, cfg, a0, b0);
      CostOneMore(a0, b0, cfg);
    }
  }

  /** The cost shown is the metered nodes' prices: committed ones are free. */
  lemma CostIsPerNode(ns: seq<Node>, cfg: CapConfig)
    ensures CapacityOf(TotalsOf(ns), cfg).costPerHour == CostOf(ns, cfg)
  {
    CostByCounts(ns, cfg, Count(ns, OnDemand), Count(ns, Spot));
  }
}
