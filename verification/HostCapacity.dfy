/** What demohost promises about room: the reported headroom, and how fast the warm pool fills. */
module HostCapacity {
  import opened Prelude
  import opened HostRegistry
  import opened HostSystem

  // ---- arithmetic of the two limits ----

  /** Sessions that still fit beside n, under the reservation budget and the session limit. */
  function Room(c: Config, n: int): (k: int)
    requires c.sessionMB > 0
    ensures k >= 0
  {
    Max(0, Min(TruncDiv(c.demoBudgetMB - n * c.sessionMB, c.sessionMB), c.maxSessions - n))
  }

  lemma RoomMeans(c: Config, n: int, k: int)
    requires c.sessionMB > 0 && k >= 1
    ensures k <= Room(c, n) <==> (n + k) * c.sessionMB <= c.demoBudgetMB && n + k <= c.maxSessions
  {
    TruncDivBounds(c.demoBudgetMB - n * c.sessionMB, c.sessionMB, k);
    MulDistributes(n, k, c.sessionMB);
  }

  lemma RoomShrinks(c: Config, n: int)
    requires c.sessionMB > 0 && Room(c, n) >= 1
    ensures Room(c, n + 1) == Room(c, n) - 1
  {
    var k := Room(c, n);
    RoomMeans(c, n, k);
    RoomMeans(c, n, k + 1);
    RoomMeans(c, n + 1, k);
    if k > 1 {
      RoomMeans(c, n + 1, k - 1);
    }
  }

  predicate OverMeasure(c: Config, mem: int) { mem > 0 && mem + c.sessionMB > c.demoBudgetMB }

  lemma AdmitMeansRoom(c: Config, n: int, mem: int)
    requires c.sessionMB > 0
    ensures Admit(c, n, mem).Admitted? <==> Room(c, n) >= 1 && !OverMeasure(c, mem)
  {
    RoomMeans(c, n, 1);
  }

  /** Further admissions from n sessions on, while the memory sample stays what it is. */
  function AdmitRoom(c: Config, n: int, mem: int): (k: int)
    requires c.sessionMB > 0
    ensures k >= 0
  {
    if OverMeasure(c, mem) then 0 else Room(c, n)
  }

  // ---- headroom ----

  /** capacityView's HeadroomSessions, step by step as the source clamps it. */
  function Headroom(c: Config, n: int, mem: int, warm: int): int
    requires c.sessionMB > 0
  {
    var byReserve := TruncDiv(c.demoBudgetMB - n * c.sessionMB, c.sessionMB);
    var measured :=
      if mem > 0 then Min(TruncDiv(c.demoBudgetMB - mem, c.sessionMB), byReserve) else byReserve;
    Max(0, Min(c.maxSessions - n, measured)) + warm
  }

  ghost function HeadroomOf<R>(c: Config, h: Registry<R>): int
    requires c.sessionMB > 0
  {
    Headroom(c, |Live(h)|, h.memActualMB, |WarmReady(h)|)
  }

  /** How one POST /v1/sessions ends, up to the spawn. */
  datatype Outcome<R> =
    | Handed(r: R, now: int)
    | Started(r: R, id: Id, bindable: set<int>, now: int)
    | Refused
    | NoPort(bindable: set<int>)

  ghost predicate Possible<R>(c: Config, h: Registry<R>, o: Outcome<R>) {
    var noneWarm := forall q :: q in h.recs ==> !CanTake(h, q);
    match o
    case Handed(r, now) => CanTake(h, r)
    case Refused => noneWarm && !AdmitNow(c, h).Admitted?
    case NoPort(bindable) => noneWarm && AdmitNow(c, h).Admitted? && Alloc(c, h.usedBases, bindable).None?
    case Started(r, id, bindable, now) =>
      noneWarm && AdmitNow(c, h).Admitted? && r !in h.recs && id !in h.sessions
      && Alloc(c, h.usedBases, bindable).Some?
  }

  ghost function After<R>(c: Config, h: Registry<R>, o: Outcome<R>): Registry<R>
    requires Possible(c, h, o)
  {
    match o
    case Handed(r, now) => SetRec(h, r, Taken(c, h.recs[r], now))
    case Started(r, id, bindable, now) =>
      Register(h, r, NewRec(c, id, Alloc(c, h.usedBases, bindable).value, now, false))
    case Refused => h
    case NoPort(bindable) => h
  }

  /** A create is a step of the system: the hand-out or the start it ends in, or, refused, no step at all. */
  lemma CreateIsAStep<R>(c: Config, s: System<R>, o: Outcome<R>, tid: nat)
    requires Wf(s.reg) && Possible(c, s.reg, o) && tid !in s.threads
    ensures match o
      case Handed(r, now) =>
        Enabled(c, s, CreateTake(r, now)) && Apply(c, s, CreateTake(r, now)).reg == After(c, s.reg, o)
      case Started(r, id, bindable, now) =>
        && Enabled(c, s, CreateDirect(tid, r, id, bindable, now))
        && Apply(c, s, CreateDirect(tid, r, id, bindable, now)).reg == After(c, s.reg, o)
      case Refused =>
        && After(c, s.reg, o) == s.reg
        && (forall r, now :: !Enabled(c, s, CreateTake(r, now)))
        && forall r, id, bindable, now :: !Enabled(c, s, CreateDirect(tid, r, id, bindable, now))
      case NoPort(bindable) =>
        && After(c, s.reg, o) == s.reg
        && (forall r, now :: !Enabled(c, s, CreateTake(r, now)))
        && forall r, id, now :: !Enabled(c, s, CreateDirect(tid, r, id, bindable, now))
  {
    assert forall r :: CanTake(s.reg, r) ==> r in s.reg.recs;
  }

  /** Consecutive creates with no other step between them, none of them failing for want of a port. */
  ghost predicate Creates<R>(c: Config, h: Registry<R>, outs: seq<Outcome<R>>)
    decreases |outs|
  {
    outs == [] || (Possible(c, h, outs[0]) && !outs[0].NoPort? && Creates(c, After(c, h, outs[0]), outs[1..]))
  }

  /** How many creates in a row can be served from here. */
  ghost function Servable<R>(c: Config, h: Registry<R>): (k: int)
    requires c.sessionMB > 0
    ensures k >= 0
  {
    |WarmReady(h)| + AdmitRoom(c, |Live(h)|, h.memActualMB)
  }

  lemma HandOutCounts<R>(c: Config, h: Registry<R>, r: R, now: int)
    requires Wf(h) && CanTake(h, r)
    ensures var g := SetRec(h, r, Taken(c, h.recs[r], now));
      Wf(g) && |Live(g)| == |Live(h)| && |WarmReady(g)| == |WarmReady(h)| - 1
  {
    var g := SetRec(h, r, Taken(c, h.recs[r], now));
    var id := h.recs[r].id;
    forall i | i in h.sessions
      ensures LiveAt(g, i) <==> LiveAt(h, i)
      ensures ReadyAt(g, i) <==> ReadyAt(h, i) && i != id
    {}
    assert Live(g) == Live(h);
    assert ReadyAt(h, id);
    assert WarmReady(h) == WarmReady(g) + {id};
  }

  lemma StartCounts<R>(h: Registry<R>, r: R, rec: Rec)
    requires Wf(h) && r !in h.recs && rec.id !in h.sessions && rec.phase == Starting
    ensures var g := Register(h, r, rec);
      Wf(g) && |Live(g)| == |Live(h)| + 1 && WarmReady(g) == WarmReady(h)
  {
    RegisterCounts(h, r, rec);
    SplitCard(Live(Register(h, r, rec)), Live(h), {rec.id});
    WarmKept(h, r, rec);
  }

  lemma WarmKept<R>(h: Registry<R>, r: R, rec: Rec)
    requires Wf(h) && r !in h.recs && rec.id !in h.sessions && rec.phase == Starting
    ensures WarmReady(Register(h, r, rec)) == WarmReady(h)
  {
    forall i ensures ReadyAt(Register(h, r, rec), i) <==> ReadyAt(h, i) {}
  }

  lemma WarmMeansTakeable<R>(h: Registry<R>)
    requires Wf(h)
    ensures |WarmReady(h)| > 0 <==> exists r :: r in h.recs && CanTake(h, r)
  {
    if |WarmReady(h)| > 0 {
      var id :| id in WarmReady(h);
      assert CanTake(h, h.sessions[id]);
    }
    if r :| r in h.recs && CanTake(h, r) {
      assert h.recs[r].id in WarmReady(h);
    }
  }

  lemma ServableStep<R>(c: Config, h: Registry<R>, o: Outcome<R>)
    requires Wf(h) && h.poolInFlight == 0 && c.sessionMB > 0 && Possible(c, h, o) && !o.NoPort?
    ensures var g := After(c, h, o);
      && Wf(g) && g.poolInFlight == 0 && g.memActualMB == h.memActualMB
      && (o.Refused? <==> Servable(c, h) == 0)
      && Servable(c, g) == Max(0, Servable(c, h) - 1)
  {
    WarmMeansTakeable(h);
    AdmitMeansRoom(c, |Live(h)|, h.memActualMB);
    match o
    case Handed(r, now) => HandOutCounts(c, h, r, now);
    case Started(r, id, bindable, now) =>
      StartCounts(h, r, NewRec(c, id, Alloc(c, h.usedBases, bindable).value, now, false));
      RoomShrinks(c, |Live(h)|);
    case Refused =>
  }

  /** Of any run of consecutive creates, exactly the first Servable ones are served. */
  lemma {:induction false} CreatesServed<R>(c: Config, h: Registry<R>, outs: seq<Outcome<R>>, i: nat)
    requires Wf(h) && h.poolInFlight == 0 && c.sessionMB > 0
    requires Creates(c, h, outs) && i < |outs|
    ensures outs[i].Refused? <==> i >= Servable(c, h)
    decreases i
  {
    ServableStep(c, h, outs[0]);
    if i > 0 {
      CreatesServed(c, After(c, h, outs[0]), outs[1..], i - 1);
    }
  }

  lemma HeadroomVsServable(c: Config, n: int, mem: int, warm: int)
    requires c.sessionMB > 0
    ensures Headroom(c, n, mem, warm) <= warm + AdmitRoom(c, n, mem)
    ensures mem <= 0 ==> Headroom(c, n, mem, warm) == warm + AdmitRoom(c, n, mem)
  {
    TruncDivBounds(c.demoBudgetMB - mem, c.sessionMB, 1);
  }

  /**
   * The reported headroom is sound: that many creates in a row, with nothing else going on, are
   * all handed a warm session or admitted. Without a memory sample it is also exact.
   */
  lemma HeadroomSound<R>(c: Config, h: Registry<R>, outs: seq<Outcome<R>>, i: nat)
    requires Wf(h) && h.poolInFlight == 0 && c.sessionMB > 0
    requires Creates(c, h, outs) && i < |outs|
    ensures i < HeadroomOf(c, h) ==> !outs[i].Refused?
    ensures h.memActualMB <= 0 ==> (outs[i].Refused? <==> i >= HeadroomOf(c, h))
  {
    HeadroomVsServable(c, |Live(h)|, h.memActualMB, |WarmReady(h)|);
    CreatesServed(c, h, outs, i);
  }

  /**
   * What the reported headroom means: k sessions more than the warm ones, exactly as long as k more
   * fit under the session limit, the reservation budget and, once memory is sampled, the measured one.
   */
  lemma HeadroomMeans(c: Config, n: int, mem: int, warm: int, k: int)
    requires c.sessionMB > 0 && k >= 1
    ensures k <= Headroom(c, n, mem, warm) - warm <==>
      && n + k <= c.maxSessions
      && (n + k) * c.sessionMB <= c.demoBudgetMB
      && (mem > 0 ==> mem + k * c.sessionMB <= c.demoBudgetMB)
  {
    TruncDivBounds(c.demoBudgetMB - n * c.sessionMB, c.sessionMB, k);
    TruncDivBounds(c.demoBudgetMB - mem, c.sessionMB, k);
    MulDistributes(n, k, c.sessionMB);
  }

  lemma HeadroomMeansOne(c: Config, n: int, mem: int, warm: int)
    requires c.sessionMB > 0 && warm >= 0
    ensures Headroom(c, n, mem, warm) > 0 <==> warm > 0 || Admit(c, n, mem).Admitted?
  {
    HeadroomMeans(c, n, mem, warm, 1);
  }

  /** With nothing in flight, headroom is reported exactly when the next create is served, whether memory has been sampled or not. */
  lemma HeadroomServesTheNext<R>(c: Config, h: Registry<R>, o: Outcome<R>)
    requires Wf(h) && h.poolInFlight == 0 && c.sessionMB > 0 && Possible(c, h, o) && !o.NoPort?
    ensures HeadroomOf(c, h) > 0 <==> o.Handed? || o.Started?
  {
    HeadroomMeansOne(c, |Live(h)|, h.memActualMB, |WarmReady(h)|);
    WarmMeansTakeable(h);
  }

  // ---- filling the warm pool ----

  function CeilHalf(d: int): int { if d <= 0 then 0 else (d + 1) / 2 }

  /**
   * What one tick launches: each launch is counted twice against the pool's size, so half the
   * deficit rounded up, or as many as admission still allows.
   */
  lemma {:induction false} TickLaunches(c: Config, pooled: int, inFlight: int, launch: int, active: int, mem: int)
    requires c.sessionMB > 0
    ensures LaunchLoop(c, pooled, inFlight, launch, active, mem)
      == Min(CeilHalf(c.warmPool - (pooled + inFlight + launch)), AdmitRoom(c, active + inFlight, mem))
    decreases c.warmPool - (pooled + inFlight + launch)
  {
    AdmitMeansRoom(c, active + inFlight, mem);
    if pooled + inFlight + launch < c.warmPool && Admit(c, active + inFlight, mem).Admitted? {
      TickLaunches(c, pooled, inFlight + 1, launch + 1, active, mem);
      RoomShrinks(c, active + inFlight);
    }
  }

  /** Warm sessions still missing, counting those on their way. */
  ghost function Deficit<R>(c: Config, h: Registry<R>): int {
    Max(0, c.warmPool) - (|PooledLive(h)| + h.poolInFlight)
  }

  /** The id a removing step drops from the registry. */
  ghost function Dropped<R>(s: System<R>, step: Step<R>): Option<Id> {
    if step.Cleanup? && At(s, step.tid) && s.threads[step.tid].SpawnFailed? then Some(s.threads[step.tid].id)
    else if step.DeleteRemove? && At(s, step.tid) && s.threads[step.tid].Deleting? then Some(s.threads[step.tid].id)
    else if step.RecycleRemove? && At(s, step.tid) && s.threads[step.tid].RecyclerAt? && s.threads[step.tid].stale != []
      && s.threads[step.tid].stale[0] in s.reg.recs then Some(s.reg.recs[s.threads[step.tid].stale[0]].id)
    else if step.ReapRemove? && At(s, step.tid) && s.threads[step.tid].ReaperAt? && s.threads[step.tid].due != []
      && s.threads[step.tid].due[0] in s.reg.recs then Some(s.reg.recs[s.threads[step.tid].due[0]].id)
    else if step.DeleteMark? then Some(step.id)
    else None
  }

  /** No hand-out, no recycling, no failed launch, and no pooled session deleted or dropped. */
  ghost predicate Quiet<R>(s: System<R>, step: Step<R>) {
    && !step.CreateTake? && !step.PoolNoPort?
    && (step.PoolTick? ==> step.stale == [])
    && (Dropped(s, step).Some? ==> !PooledAt(s.reg, Dropped(s, step).value))
  }

  lemma QuietKeepsSession<R>(c: Config, s: System<R>, step: Step<R>, id: Id)
    requires Lively(c, s) && Enabled(c, s, step) && Quiet(s, step) && PooledAt(s.reg, id)
    ensures Dropped(s, step) != Some(id)
    ensures id in Apply(c, s, step).reg.sessions && Apply(c, s, step).reg.sessions[id] == s.reg.sessions[id]
  {
    if step.CreateDirect? || step.PoolRegister? {
      assert step.id != id;
    } else {
      OnlyDroppedGo(c, s, step, id);
    }
  }

  lemma OnlyDroppedGo<R>(c: Config, s: System<R>, step: Step<R>, id: Id)
    requires Enabled(c, s, step) && !step.CreateDirect? && !step.PoolRegister?
    requires id in s.reg.sessions && Dropped(s, step) != Some(id)
    ensures id in Apply(c, s, step).reg.sessions && Apply(c, s, step).reg.sessions[id] == s.reg.sessions[id]
  {}

  lemma QuietKeepsPooled<R>(c: Config, s: System<R>, step: Step<R>, id: Id)
    requires Lively(c, s) && Enabled(c, s, step) && Quiet(s, step) && PooledAt(s.reg, id)
    ensures var k' := Apply(c, s, step).reg.recs;
      s.reg.sessions[id] in k' && k'[s.reg.sessions[id]].pooled && k'[s.reg.sessions[id]].phase != Reaping
  {
    var r := s.reg.sessions[id];
    assert RecOk(s, r);
    if step.PoolTick? {
      assert !StaleAt(c, s.reg, step.now, r);
    } else if Moves(s, step, r) {
      assert PcOk(s, s.threads[step.tid]);
    } else if !step.ReapMark? && !step.DeleteMark? {
      NotReaped(c, s, step, r);
    }
  }

  lemma NotReaped<R>(c: Config, s: System<R>, step: Step<R>, r: R)
    requires Enabled(c, s, step) && r in s.reg.recs && !Moves(s, step, r)
    requires !step.PoolTick? && !step.ReapMark? && !step.DeleteMark?
    ensures r in Apply(c, s, step).reg.recs && Apply(c, s, step).reg.recs[r] == s.reg.recs[r]
  {}

  lemma QuietPool<R>(c: Config, s: System<R>, step: Step<R>)
    requires Lively(c, s) && Enabled(c, s, step) && Quiet(s, step) && !step.PoolRegister?
    ensures PooledLive(Apply(c, s, step).reg) == PooledLive(s.reg)
  {
    PooledShrinks(c, s, step);
    var g := Apply(c, s, step).reg;
    forall id | id in PooledLive(s.reg) ensures id in PooledLive(g) {
      QuietKeepsSession(c, s, step, id);
      QuietKeepsPooled(c, s, step, id);
    }
  }

  ghost predicate FreeTick<R>(c: Config, s: System<R>, step: Step<R>)
    requires c.sessionMB > 0
  {
    step.PoolTick? ==>
      AdmitRoom(c, |Live(s.reg)| + s.reg.poolInFlight, s.reg.memActualMB) >= CeilHalf(Deficit(c, s.reg))
  }

  lemma InFlightOf<R>(c: Config, s: System<R>, step: Step<R>)
    requires Enabled(c, s, step) && Quiet(s, step)
    ensures Apply(c, s, step).reg.poolInFlight == s.reg.poolInFlight
      + (if step.PoolTick? then Launches(c, RecycleScan(c, s.reg, step.now)) else if step.PoolRegister? then -1 else 0)
  {}

  lemma NothingStale<R>(c: Config, h: Registry<R>, now: int)
    requires forall r :: r in h.recs ==> !StaleAt(c, h, now, r)
    ensures RecycleScan(c, h, now) == h
  {
    var swept := RecycleScan(c, h, now);
    forall r | r in h.recs ensures swept.recs[r] == h.recs[r] {
      assert !StaleAt(c, h, now, r);
    }
    assert swept.recs == h.recs;
  }

  lemma QuietTickLaunches<R>(c: Config, s: System<R>, step: Step<R>)
    requires Inv(c, s) && c.sessionMB > 0 && Enabled(c, s, step) && Quiet(s, step) && step.PoolTick?
    requires FreeTick(c, s, step)
    ensures Launches(c, RecycleScan(c, s.reg, step.now)) == CeilHalf(Deficit(c, s.reg))
  {
    assert forall r :: r in s.reg.recs ==> !StaleAt(c, s.reg, step.now, r);
    NothingStale(c, s.reg, step.now);
    TickLaunches(c, |PooledLive(s.reg)|, s.reg.poolInFlight, 0, |Live(s.reg)|, s.reg.memActualMB);
  }

  /** A quiet step leaves the deficit alone, except that a tick with room to launch halves it. */
  lemma DeficitStep<R>(c: Config, s: System<R>, step: Step<R>)
    requires Inv(c, s) && c.sessionMB > 0 && Enabled(c, s, step) && Quiet(s, step) && FreeTick(c, s, step)
    ensures Deficit(c, s.reg) >= 0
    ensures Deficit(c, Apply(c, s, step).reg)
      == if step.PoolTick? then Deficit(c, s.reg) / 2 else Deficit(c, s.reg)
  {
    InFlightOf(c, s, step);
    if step.PoolRegister? {
      PooledRegister(c, s, step);
    } else {
      QuietPool(c, s, step);
      if step.PoolTick? {
        QuietTickLaunches(c, s, step);
      }
    }
  }

  ghost function Ticks<R>(steps: seq<Step<R>>): nat
    decreases |steps|
  {
    if steps == [] then 0 else (if steps[0].PoolTick? then 1 else 0) + Ticks(steps[1..])
  }

  ghost predicate QuietRun<R>(c: Config, s: System<R>, steps: seq<Step<R>>)
    requires Valid(c, s, steps) && c.sessionMB > 0
    decreases |steps|
  {
    steps == [] || (Quiet(s, steps[0]) && FreeTick(c, s, steps[0]) && QuietRun(c, Apply(c, s, steps[0]), steps[1..]))
  }

  function Halved(d: int, times: nat): int
    decreases times
  {
    if times == 0 then d else Halved(d / 2, times - 1)
  }

  /** What a quiet step with room to launch does to the deficit, and that the invariant goes on. */
  lemma QuietStep<R>(c: Config, s: System<R>, step: Step<R>)
    requires Inv(c, s) && c.sessionMB > 0 && Enabled(c, s, step) && Quiet(s, step) && FreeTick(c, s, step)
    ensures Inv(c, Apply(c, s, step))
    ensures Halved(Deficit(c, s.reg), if step.PoolTick? then 1 else 0) == Deficit(c, Apply(c, s, step).reg)
  {
    InvStep(c, s, step);
    DeficitStep(c, s, step);
  }

  lemma {:induction false} HalvedTwice(d: int, a: nat, b: nat)
    ensures Halved(Halved(d, a), b) == Halved(d, a + b)
    decreases a
  {
    if a > 0 {
      HalvedTwice(d / 2, a - 1, b);
    }
  }

  /** Over a quiet run with room to launch, every tick halves the deficit, whatever happens in between. */
  lemma {:induction false} DeficitHalves<R>(c: Config, s: System<R>, steps: seq<Step<R>>)
    requires Inv(c, s) && c.sessionMB > 0 && Valid(c, s, steps) && QuietRun(c, s, steps)
    ensures Deficit(c, Exec(c, s, steps).reg) == Halved(Deficit(c, s.reg), Ticks(steps))
    decreases |steps|
  {
    if steps != [] {
      var s1, rest := Apply(c, s, steps[0]), steps[1..];
      var tick: nat := if steps[0].PoolTick? then 1 else 0;
      var d, d1 := Deficit(c, s.reg), Deficit(c, s1.reg);
      assert Inv(c, s1) && d1 == Halved(d, tick) by { QuietStep(c, s, steps[0]); }
      DeficitHalves(c, s1, rest);
      ExecTail(c, s, steps);
      HalvedTwice(d, tick, Ticks(rest));
    }
  }

  lemma ExecTail<R>(c: Config, s: System<R>, steps: seq<Step<R>>)
    requires Valid(c, s, steps) && steps != []
    ensures Exec(c, s, steps) == Exec(c, Apply(c, s, steps[0]), steps[1..])
    ensures Ticks(steps) == (if steps[0].PoolTick? then 1 else 0) + Ticks(steps[1..])
  {}

  lemma {:induction false} HalvedIsQuotient(d: nat, times: nat)
    ensures Halved(d, times) == d / Pow2(times)
    decreases times
  {
    if times > 0 {
      HalvedIsQuotient(d / 2, times - 1);
      HalvingsCompose(d, times - 1);
    }
  }

  lemma HalvingsCompose(d: nat, k: nat)
    ensures (d / 2) / Pow2(k) == d / Pow2(k + 1)
  {
    var p := Pow2(k);
    var q := (d / 2) / p;
    var r := (d / 2) % p;
    assert d / 2 == q * p + r;
    assert d == q * (2 * p) + (2 * r + d % 2);
    QuotientIs(d, 2 * p, q, 2 * r + d % 2);
  }

  lemma QuotientIs(d: int, p: int, q: int, r: int)
    requires p > 0 && 0 <= r < p && d == q * p + r
    ensures d / p == q
  {
    if d / p > q {
      MulMonotone(q + 1, d / p, p);
    } else if d / p < q {
      MulMonotone(d / p + 1, q, p);
    }
  }

  /** floor(log2 d), for positive d. */
  function Log2(d: int): (k: nat)
    requires d >= 1
    ensures Pow2(k) <= d < Pow2(k + 1)
  {
    if d == 1 then 0 else 1 + Log2(d / 2)
  }

  lemma {:induction false} Pow2Monotone(a: nat, b: nat)
    requires a <= b
    ensures Pow2(a) <= Pow2(b)
    decreases b
  {
    if a < b {
      Pow2Monotone(a, b - 1);
    }
  }

  lemma HalvedToZero(d: int, times: nat)
    requires d >= 1
    ensures Halved(d, times) == 0 <==> times >= Log2(d) + 1
  {
    HalvedIsQuotient(d, times);
    var l := Log2(d);
    if times >= l + 1 {
      Pow2Monotone(l + 1, times);
      QuotientIs(d, Pow2(times), 0, d);
    } else {
      Pow2Monotone(times, l);
    }
  }

  /** So the pool is full after floor(log2 d) + 1 such ticks, and not before. */
  lemma PoolFills<R>(c: Config, s: System<R>, steps: seq<Step<R>>)
    requires Inv(c, s) && c.sessionMB > 0 && Valid(c, s, steps) && QuietRun(c, s, steps)
    requires Deficit(c, s.reg) >= 1
    ensures Deficit(c, Exec(c, s, steps).reg) == 0 <==> Ticks(steps) >= Log2(Deficit(c, s.reg)) + 1
  {
    DeficitHalves(c, s, steps);
    HalvedToZero(Deficit(c, s.reg), Ticks(steps));
  }
}
