/** The backend's demand model: a level of node-equivalents split into whole pods per service. */
module Apportion {
  import opened Prelude

  datatype Service = Service(name: string, milliCPU: nat, weight: nat)

  const PRODUCTION: seq<Service> := [
    Service("web-frontend", 1500, 6), Service("checkout", 500, 4), Service("payments-api", 500, 1),
    Service("api-gateway", 1500, 4), Service("search", 3000, 2), Service("inventory", 500, 3),
    Service("user-auth", 500, 2), Service("recommendations", 1500, 3), Service("cart-service", 500, 3),
    Service("order-processor", 3000, 1)]

  const BATCH: seq<Service> := [
    Service("etl-pipeline", 3000, 3), Service("ml-training", 3000, 2), Service("analytics-rollup", 1500, 3),
    Service("data-export", 500, 4), Service("log-archival", 500, 2), Service("nightly-report", 1500, 2),
    Service("backup-runner", 500, 3), Service("clickstream-agg", 1500, 3)]

  function TierServices(tier: string): seq<Service> { if tier == "baseline" then BATCH else PRODUCTION }

  /** math.Round: to the nearest integer, halves away from zero. */
  function Round(x: real): int { if x >= 0.0 then (x + 0.5).Floor else -((0.5 - x).Floor) }

  lemma RoundNear(x: real)
    ensures -0.5 <= Round(x) as real - x <= 0.5
  {}

  lemma RoundMonotone(x: real, y: real)
    requires x <= y
    ensures Round(x) <= Round(y)
  {}

  function TotalWeight(svcs: seq<Service>): nat { if svcs == [] then 0 else TotalWeight(svcs[..|svcs| - 1]) + svcs[|svcs| - 1].weight }

  function TotalSize(svcs: seq<Service>): nat { if svcs == [] then 0 else TotalSize(svcs[..|svcs| - 1]) + svcs[|svcs| - 1].milliCPU }

  /** A service's part of a tier's target, in millicores. */
  function Share(target: int, totalW: nat, weight: nat): real
    requires totalW > 0
  {
    target as real * weight as real / totalW as real
  }

  /** The replicas one service gets out of a tier's target. */
  function Replicas(target: int, totalW: nat, s: Service): int {
    if totalW == 0 || s.milliCPU == 0 then 0 else Round(Share(target, totalW, s.weight) / s.milliCPU as real)
  }

  /** Millicores requested by all the pods of a tier. */
  function Requested(target: int, totalW: nat, svcs: seq<Service>): int {
    if svcs == [] then 0
    else
      var s := svcs[|svcs| - 1];
      Requested(target, totalW, svcs[..|svcs| - 1]) + Replicas(target, totalW, s) * s.milliCPU
  }

  ghost predicate Sized(svcs: seq<Service>) { forall i :: 0 <= i < |svcs| ==> svcs[i].milliCPU > 0 }

  /** Twice the error, in the integers the request is counted in. */
  lemma OneServiceError(target: int, totalW: nat, s: Service)
    requires totalW > 0 && s.milliCPU > 0
    ensures Near((Replicas(target, totalW, s) * s.milliCPU) as real, Share(target, totalW, s.weight), s.milliCPU as real)
  {
    var share, size := Share(target, totalW, s.weight), s.milliCPU as real;
    RoundNear(share / size);
    ScaleError(Replicas(target, totalW, s) as real, share, size, share / size);
  }

  /** x is within half of `size` of y. */
  predicate Near(x: real, y: real, size: real) { -size <= 2.0 * (x - y) <= size }

  lemma ScaleError(r: real, share: real, size: real, q: real)
    requires size > 0.0 && q == share / size && -0.5 <= r - q <= 0.5
    ensures Near(r * size, share, size)
  {
    assert q * size == share;
    var d := r - q;
    assert r * size == d * size + q * size;
    TimesPositive(-0.5, d, size);
    TimesPositive(d, 0.5, size);
  }

  lemma TimesPositive(a: real, b: real, m: real)
    requires a <= b && m > 0.0
    ensures a * m <= b * m
  {}

  lemma SharesAdd(target: int, totalW: nat, a: nat, b: nat)
    requires totalW > 0
    ensures Share(target, totalW, a + b) == Share(target, totalW, a) + Share(target, totalW, b)
  {
    DivideSum(target as real, a as real, b as real, totalW as real);
  }

  lemma DivideSum(t: real, a: real, b: real, w: real)
    requires w > 0.0
    ensures t * (a + b) / w == t * a / w + t * b / w
  {
    assert t * (a + b) == t * a + t * b;
  }

  lemma NearAdds(x: real, y: real, s: real, x': real, y': real, s': real)
    requires Near(x, y, s) && Near(x', y', s')
    ensures Near(x + x', y + y', s + s')
  {}

  /** Any prefix of the services requests its share of the target, give or take half its sizes. */
  lemma {:induction false} PrefixError(target: int, totalW: nat, svcs: seq<Service>)
    requires totalW > 0 && Sized(svcs)
    ensures Near(Requested(target, totalW, svcs) as real, Share(target, totalW, TotalWeight(svcs)), TotalSize(svcs) as real)
  {
    if svcs == [] {
      assert Share(target, totalW, 0) == 0.0;
    } else {
      var rest, s := svcs[..|svcs| - 1], svcs[|svcs| - 1];
      PrefixError(target, totalW, rest);
      OneServiceError(target, totalW, s);
      SharesAdd(target, totalW, TotalWeight(rest), s.weight);
      NearAdds(Requested(target, totalW, rest) as real, Share(target, totalW, TotalWeight(rest)), TotalSize(rest) as real,
        (Replicas(target, totalW, s) * s.milliCPU) as real, Share(target, totalW, s.weight), s.milliCPU as real);
    }
  }

  /** The whole tier requests level x node budget, give or take half the sum of the service sizes. */
  lemma ApportionmentError(target: int, svcs: seq<Service>)
    requires TotalWeight(svcs) > 0 && Sized(svcs)
    ensures var twice := 2 * (Requested(target, TotalWeight(svcs), svcs) - target);
      twice <= TotalSize(svcs) && -twice <= TotalSize(svcs)
  {
    var w, size := TotalWeight(svcs), TotalSize(svcs);
    var requested := Requested(target, w, svcs);
    assert Near(requested as real, target as real, size as real) by {
      PrefixError(target, w, svcs);
      WholeShare(target, w);
    }
    assert (requested - target) as real == requested as real - target as real;
  }

  lemma WholeShare(target: int, w: nat)
    requires w > 0
    ensures Share(target, w, w) == target as real
  {}

  lemma {:induction false} Totals(svcs: seq<Service>)
    requires svcs != []
    ensures TotalSize(svcs) == svcs[0].milliCPU + TotalSize(svcs[1..])
    ensures TotalWeight(svcs) == svcs[0].weight + TotalWeight(svcs[1..])
  {
    var init := svcs[..|svcs| - 1];
    if |svcs| == 1 {
      assert init == [] && svcs[1..] == [];
    } else {
      Totals(init);
      assert svcs[1..][..|svcs| - 2] == init[1..];
    }
  }

  function SizeFrom(svcs: seq<Service>, i: nat): nat
    requires i <= |svcs|
    decreases |svcs| - i
  {
    if i == |svcs| then 0 else svcs[i].milliCPU + SizeFrom(svcs, i + 1)
  }

  lemma {:induction false} SizeFromStart(svcs: seq<Service>, i: nat)
    requires i <= |svcs|
    ensures SizeFrom(svcs, i) == TotalSize(svcs[i..])
    decreases |svcs| - i
  {
    if i < |svcs| {
      SizeFromStart(svcs, i + 1);
      Totals(svcs[i..]);
      assert svcs[i..][1..] == svcs[i + 1..];
    }
  }

  /** With the actual tables: at most 6500m off for production and critical, 6000m for batch, under one 7000m node. */
  lemma ActualError(tier: string, target: int)
    ensures var svcs := TierServices(tier);
      var off := Requested(target, TotalWeight(svcs), svcs) - target;
      if tier == "baseline" then -6000 <= off <= 6000 else -6500 <= off <= 6500
  {
    var svcs := TierServices(tier);
    SizeFromStart(svcs, 0);
    assert svcs[0..] == svcs;
    assert TotalWeight(svcs) >= svcs[0].weight by { Totals(svcs); }
    ApportionmentError(target, svcs);
    if tier == "baseline" {
      BatchSize();
    } else {
      ProductionSize();
    }
  }

  lemma BatchSize()
    ensures SizeFrom(BATCH, 0) == 12000
  {
    assert SizeFrom(BATCH, 4) == 4000;
  }

  lemma ProductionSize()
    ensures SizeFrom(PRODUCTION, 0) == 13000
  {
    assert SizeFrom(PRODUCTION, 8) == 3500;
    assert SizeFrom(PRODUCTION, 4) == 9000;
  }

  /** Raising the level never takes a replica away from any service. */
  lemma ReplicasMonotone(low: int, high: int, totalW: nat, s: Service)
    requires low <= high
    ensures Replicas(low, totalW, s) <= Replicas(high, totalW, s)
  {
    if totalW > 0 && s.milliCPU > 0 {
      var w, t, z := s.weight as real, totalW as real, s.milliCPU as real;
      assert low as real * w <= high as real * w;
      DivideMonotone(low as real * w, high as real * w, t);
      DivideMonotone(Share(low, totalW, s.weight), Share(high, totalW, s.weight), z);
      RoundMonotone(Share(low, totalW, s.weight) / z, Share(high, totalW, s.weight) / z);
    }
  }

  lemma DivideMonotone(a: real, b: real, m: real)
    requires a <= b && m > 0.0
    ensures a / m <= b / m
  {}

  /** A service of the tier whose patch goes through. */
  ghost predicate Patched(svcs: seq<Service>, unpatched: set<string>, name: string) {
    name !in unpatched && exists i :: 0 <= i < |svcs| && svcs[i].name == name
  }

  /** One cluster's tiers: the last level set, and the deployments' replica counts. */
  class ClusterDemand {
    const nodeBudgetMilli: int
    var demandLevel: map<string, int>
    var replicas: map<(string, string), int>

    constructor (nodeBudgetMilli: int)
      ensures demandLevel == map[] && replicas == map[] && this.nodeBudgetMilli == nodeBudgetMilli
    {
      this.nodeBudgetMilli := nodeBudgetMilli;
      this.demandLevel, this.replicas := map[], map[];
    }

    /** setTierReplicas; `unpatched` are the services whose four patch attempts all fail. */
    method SetTierReplicas(tier: string, level: int, unpatched: set<string>)
      modifies this
      ensures demandLevel == old(demandLevel)[tier := level]
      ensures var svcs := TierServices(tier);
        forall i :: 0 <= i < |svcs| && svcs[i].name !in unpatched ==>
          (tier, svcs[i].name) in replicas
          && replicas[(tier, svcs[i].name)] == Replicas(level * nodeBudgetMilli, TotalWeight(svcs), svcs[i])
      ensures forall k: (string, string) :: k.0 != tier || !Patched(TierServices(tier), unpatched, k.1) ==>
        (k in replicas <==> k in old(replicas)) && (k in replicas ==> replicas[k] == old(replicas)[k])
    {
      demandLevel := demandLevel[tier := level];
      var svcs := TierServices(tier);
      var targetMilli := level * nodeBudgetMilli;
      var totalW := 0;
      for i := 0 to |svcs|
        invariant totalW == TotalWeight(svcs[..i])
      {
        assert svcs[..i + 1][..i] == svcs[..i];
        totalW := totalW + svcs[i].weight;
      }
      assert svcs[..|svcs|] == svcs;
      for i := 0 to |svcs|
        invariant demandLevel == old(demandLevel)[tier := level]
        invariant forall j :: 0 <= j < i && svcs[j].name !in unpatched ==>
          (tier, svcs[j].name) in replicas
          && replicas[(tier, svcs[j].name)] == Replicas(targetMilli, TotalWeight(svcs), svcs[j])
        invariant forall k: (string, string) :: k.0 != tier || !Patched(svcs, unpatched, k.1) ==>
          (k in replicas <==> k in old(replicas)) && (k in replicas ==> replicas[k] == old(replicas)[k])
      {
        DistinctNames(tier);
        var r := Replicas(targetMilli, totalW, svcs[i]);
        if svcs[i].name !in unpatched {
          assert Patched(svcs, unpatched, svcs[i].name);
          replicas := replicas[(tier, svcs[i].name) := r];
        }
      }
    }
  }

  lemma DistinctNames(tier: string)
    ensures var svcs := TierServices(tier); forall i, j :: 0 <= i < j < |svcs| ==> svcs[i].name != svcs[j].name
  {}
}
