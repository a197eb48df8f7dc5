/**
 * The session registry of cmd/demohost: what each critical section of the host's mutex
 * computes, as functions on values. `R` is the identity of a session object, which the host
 * shares by pointer with its goroutines and HTTP handlers; ids are only registry keys, and may
 * be drawn again once free.
 */
module HostRegistry {
  import opened Prelude

  type Id = string

  /** Times and durations are nanoseconds. */
  datatype Config = Config(
    portBase: int, stride: int, maxSessions: int, demoBudgetMB: int, sessionMB: int,
    ttl: int, warmPool: int, warmMaxAge: int)

  const BACKEND_GRACE := 60_000_000_000
  const NANOS_PER_SEC := 1_000_000_000
  const MAX_COMPLETIONS := 1000

  /** The five values of the source's State string; Ready is its "pooled". */
  datatype Phase = Starting | Warming | Ready | Running | Reaping

  /** The fields of one session object. assignedAt None is the zero time: never given to a visitor. */
  datatype Rec = Rec(
    id: Id, base: int, createdAt: int, expiresAt: int,
    phase: Phase, pooled: bool, lastSeenOK: int, assignedAt: Option<int>)

  datatype Completion = Completion(endedAt: int, duration: int, reason: string)

  datatype Registry<R> = Registry(
    sessions: map<Id, R>, recs: map<R, Rec>, usedBases: set<int>,
    completions: seq<Completion>, poolInFlight: int, memActualMB: int)

  // ---- who is where ----

  ghost predicate Registered<R>(h: Registry<R>, r: R) {
    r in h.recs && h.recs[r].id in h.sessions && h.sessions[h.recs[r].id] == r
  }

  /** Every registered id names a session object that carries that id. */
  ghost predicate Wf<R>(h: Registry<R>) {
    forall id :: id in h.sessions ==> h.sessions[id] in h.recs && h.recs[h.sessions[id]].id == id
  }

  ghost predicate LiveAt<R>(h: Registry<R>, id: Id) {
    id in h.sessions && h.sessions[id] in h.recs && h.recs[h.sessions[id]].phase != Reaping
  }

  ghost predicate PooledAt<R>(h: Registry<R>, id: Id) {
    LiveAt(h, id) && h.recs[h.sessions[id]].pooled
  }

  ghost predicate ReadyAt<R>(h: Registry<R>, id: Id) {
    LiveAt(h, id) && h.recs[h.sessions[id]].pooled && h.recs[h.sessions[id]].phase == Ready
  }

  ghost predicate VisitorAt<R>(h: Registry<R>, id: Id) {
    LiveAt(h, id) && h.recs[h.sessions[id]].assignedAt.Some?
  }

  /** Ids that hold a reservation: registered and not reaping. */
  ghost function Live<R>(h: Registry<R>): set<Id> { set id | id in h.sessions && LiveAt(h, id) }

  ghost function PooledLive<R>(h: Registry<R>): set<Id> { set id | id in h.sessions && PooledAt(h, id) }

  ghost function WarmReady<R>(h: Registry<R>): set<Id> { set id | id in h.sessions && ReadyAt(h, id) }

  ghost function Visitors<R>(h: Registry<R>): set<Id> { set id | id in h.sessions && VisitorAt(h, id) }

  // ---- admission ----

  datatype Admission = Admitted | AtMax | OverReservation | OverMeasured

  /** admitLocked for n reservations already held (registered and in flight). */
  function Admit(c: Config, n: int, memActualMB: int): Admission {
    if n >= c.maxSessions then AtMax
    else if (n + 1) * c.sessionMB > c.demoBudgetMB then OverReservation
    else if memActualMB > 0 && memActualMB + c.sessionMB > c.demoBudgetMB then OverMeasured
    else Admitted
  }

  ghost function AdmitNow<R>(c: Config, h: Registry<R>): Admission {
    Admit(c, |Live(h)| + h.poolInFlight, h.memActualMB)
  }

  /** n sessions stay within both limits. No session at all is always fine. */
  ghost predicate Fits(c: Config, n: int) {
    n > 0 ==> n <= c.maxSessions && n * c.sessionMB <= c.demoBudgetMB
  }

  // ---- port blocks ----

  function Blocks(c: Config): int { c.maxSessions * 4 + 8 }

  function Block(c: Config, k: int): int { c.portBase + k * c.stride }

  /** allocBaseLocked from block k on: the first one neither in use nor unbindable. */
  function AllocFrom(c: Config, used: set<int>, bindable: set<int>, k: int): Option<int>
    decreases Blocks(c) - k
  {
    if k >= Blocks(c) then None
    else if Block(c, k) !in used && Block(c, k) in bindable then Some(Block(c, k))
    else AllocFrom(c, used, bindable, k + 1)
  }

  function Alloc(c: Config, used: set<int>, bindable: set<int>): Option<int> {
    AllocFrom(c, used, bindable, 0)
  }

  /** The result is the lowest block that is free and bindable, and None only when there is none. */
  lemma AllocIsLowest(c: Config, used: set<int>, bindable: set<int>, from: int)
    requires 0 <= from
    ensures var a := AllocFrom(c, used, bindable, from);
      match a {
        case None => forall k :: from <= k < Blocks(c) ==> Block(c, k) in used || Block(c, k) !in bindable
        case Some(b) =>
          b !in used && b in bindable &&
          exists k :: from <= k < Blocks(c) && b == Block(c, k)
            && forall j :: from <= j < k ==> Block(c, j) in used || Block(c, j) !in bindable
      }
    decreases Blocks(c) - from
  {
    if from < Blocks(c) && !(Block(c, from) !in used && Block(c, from) in bindable) {
      AllocIsLowest(c, used, bindable, from + 1);
    } else if from < Blocks(c) {
      assert Block(c, from) == AllocFrom(c, used, bindable, from).value;
    }
  }

  ghost function Grid(c: Config, n: nat): set<int> { set k | 0 <= k < n :: Block(c, k) }

  /** Two different blocks start at least a stride apart. */
  lemma BlocksApart(c: Config, k: int, l: int)
    requires c.stride > 0 && k < l
    ensures Block(c, l) - Block(c, k) >= c.stride
  {
    MulDistributes(l, k, c.stride);
    MulMonotone(1, l - k, c.stride);
  }

  lemma GridSize(c: Config, n: nat)
    requires c.stride > 0
    ensures |Grid(c, n)| == n
  {
    if n > 0 {
      GridSize(c, n - 1);
      GridGrows(c, n - 1);
    }
  }

  lemma GridGrows(c: Config, n: nat)
    requires c.stride > 0
    ensures Grid(c, n + 1) == Grid(c, n) + {Block(c, n)} && Block(c, n) !in Grid(c, n)
  {
    forall k | 0 <= k < n ensures Block(c, k) != Block(c, n) {
      BlocksApart(c, k, n);
    }
  }

  /** Pigeonhole: fewer blocks in use than there are, and every block bindable, so one is found. */
  lemma AllocComplete(c: Config, used: set<int>, bindable: set<int>)
    requires c.stride > 0
    requires |used| < Blocks(c)
    requires forall k :: 0 <= k < Blocks(c) ==> Block(c, k) in bindable
    ensures Alloc(c, used, bindable).Some?
    ensures var b := Alloc(c, used, bindable).value;
      exists k :: 0 <= k < Blocks(c) && b == Block(c, k) && b !in used && forall j :: 0 <= j < k ==> Block(c, j) in used
  {
    AllocIsLowest(c, used, bindable, 0);
    if Alloc(c, used, bindable).None? {
      GridSize(c, Blocks(c));
      SubsetCard(Grid(c, Blocks(c)), used);
      assert false;
    }
  }

  // ---- critical sections ----

  function NewRec(c: Config, id: Id, base: int, now: int, pooled: bool): Rec {
    Rec(id, base, now, now + c.ttl, Starting, pooled, now, if pooled then None else Some(now))
  }

  ghost function SetRec<R>(h: Registry<R>, r: R, rec: Rec): Registry<R> { h.(recs := h.recs[r := rec]) }

  ghost function Register<R>(h: Registry<R>, r: R, rec: Rec): Registry<R> {
    h.(sessions := h.sessions[rec.id := r], recs := h.recs[r := rec], usedBases := h.usedBases + {rec.base})
  }

  /** removeLocked: by id, whatever session object is registered under it now. */
  ghost function Remove<R>(h: Registry<R>, id: Id): Registry<R> {
    if id in h.sessions && h.sessions[id] in h.recs
    then h.(sessions := h.sessions - {id}, usedBases := h.usedBases - {h.recs[h.sessions[id]].base})
    else h
  }

  function Last1000(cs: seq<Completion>): seq<Completion> {
    if |cs| > MAX_COMPLETIONS then cs[|cs| - MAX_COMPLETIONS..] else cs
  }

  /** What appendCompletionLocked adds: nothing for a session no visitor ever had. */
  function CompletionOf(rec: Rec, reason: string, now: int): seq<Completion> {
    if rec.assignedAt.None? then []
    else [Completion(now / NANOS_PER_SEC, now - rec.assignedAt.value, reason)]
  }

  ghost function AppendCompletion<R>(h: Registry<R>, rec: Rec, reason: string, now: int): Registry<R> {
    h.(completions := Last1000(h.completions + CompletionOf(rec, reason, now)))
  }

  /** takePooledLocked's effect on the session it claims. */
  function Taken(c: Config, rec: Rec, now: int): Rec {
    rec.(pooled := false, phase := Running, lastSeenOK := now, assignedAt := Some(now), expiresAt := now + c.ttl)
  }

  ghost predicate CanTake<R>(h: Registry<R>, r: R) {
    Registered(h, r) && h.recs[r].pooled && h.recs[r].phase == Ready
  }

  function DirectUp(rec: Rec, now: int): Rec { rec.(phase := Running, lastSeenOK := now) }

  function PoolUp(rec: Rec, now: int): Rec {
    rec.(phase := if rec.phase == Starting then Warming else rec.phase, lastSeenOK := now)
  }

  function Settled(rec: Rec): Rec { if rec.phase == Warming then rec.(phase := Ready) else rec }

  /** One answer of a session backend's /api/session to the reaper. */
  datatype Poll = Unreachable | Garbled | Answer(expired: bool)

  function PollOf(polls: map<Id, Poll>, id: Id): Poll { if id in polls then polls[id] else Unreachable }

  predicate Due(rec: Rec, now: int, poll: Poll) {
    || now > rec.expiresAt
    || (poll.Answer? && poll.expired)
    || (poll.Unreachable? && now - rec.lastSeenOK > BACKEND_GRACE)
  }

  /** The reaper's loop body for one registered session. */
  function Reaped(rec: Rec, now: int, poll: Poll): Rec {
    if rec.phase != Running then rec
    else
      var seen := if poll.Unreachable? then rec else rec.(lastSeenOK := now);
      if Due(rec, now, poll) then seen.(phase := Reaping) else seen
  }

  ghost function ReapScan<R>(h: Registry<R>, now: int, polls: map<Id, Poll>): Registry<R> {
    h.(recs := map r | r in h.recs ::
      if Registered(h, r) then Reaped(h.recs[r], now, PollOf(polls, h.recs[r].id)) else h.recs[r])
  }

  ghost predicate DueAt<R>(h: Registry<R>, now: int, polls: map<Id, Poll>, r: R) {
    Registered(h, r) && h.recs[r].phase == Running && Due(h.recs[r], now, PollOf(polls, h.recs[r].id))
  }

  predicate Stale(c: Config, rec: Rec, now: int) {
    rec.pooled && rec.phase != Reaping && now - rec.createdAt > c.warmMaxAge
  }

  function Recycled(c: Config, rec: Rec, now: int): Rec {
    if Stale(c, rec, now) then rec.(phase := Reaping) else rec
  }

  ghost function RecycleScan<R>(c: Config, h: Registry<R>, now: int): Registry<R> {
    h.(recs := map r | r in h.recs :: if Registered(h, r) then Recycled(c, h.recs[r], now) else h.recs[r])
  }

  /** poolTick's launch loop: `launch` sessions are already reserved, and `inFlight` counts them too. */
  function LaunchLoop(c: Config, pooled: int, inFlight: int, launch: int, active: int, mem: int): (more: nat)
    decreases c.warmPool - (pooled + inFlight + launch)
  {
    if pooled + inFlight + launch < c.warmPool && Admit(c, active + inFlight, mem).Admitted?
    then 1 + LaunchLoop(c, pooled, inFlight + 1, launch + 1, active, mem)
    else 0
  }

  ghost function Launches<R>(c: Config, h: Registry<R>): nat {
    LaunchLoop(c, |PooledLive(h)|, h.poolInFlight, 0, |Live(h)|, h.memActualMB)
  }

  ghost function PoolScan<R>(c: Config, h: Registry<R>, now: int): Registry<R> {
    var swept := RecycleScan(c, h, now);
    swept.(poolInFlight := swept.poolInFlight + Launches(c, swept))
  }

  // ---- how the critical sections move the counts ----

  /** A step that rewrites session fields in place: same objects, same ids, same ports. */
  ghost predicate InPlace<R>(h: Registry<R>, g: Registry<R>) {
    && g.sessions == h.sessions && g.usedBases == h.usedBases && g.recs.Keys == h.recs.Keys
    && forall r :: r in h.recs ==> g.recs[r].id == h.recs[r].id && g.recs[r].base == h.recs[r].base
  }

  ghost function BaseAt<R>(h: Registry<R>, id: Id): int {
    if id in h.sessions && h.sessions[id] in h.recs then h.recs[h.sessions[id]].base else 0
  }

  /**
   * The port registry: used bases are exactly those of the registered sessions, one session a
   * base, and every base starts a block of the configured range.
   */
  ghost predicate PortsOk<R>(c: Config, h: Registry<R>) {
    && Wf(h)
    && (forall id :: id in h.sessions ==> BaseAt(h, id) in h.usedBases)
    && (forall b :: b in h.usedBases ==> Owned(h, b))
    && (forall i, j :: i in h.sessions && j in h.sessions && i != j ==> BaseAt(h, i) != BaseAt(h, j))
    && (forall id :: id in h.sessions ==> OnGrid(c, BaseAt(h, id)))
  }

  ghost predicate Owned<R>(h: Registry<R>, b: int) { exists id :: id in h.sessions && BaseAt(h, id) == b }

  ghost predicate OnGrid(c: Config, b: int) { exists k :: 0 <= k < Blocks(c) && b == Block(c, k) }

  lemma PortsInPlace<R>(c: Config, h: Registry<R>, g: Registry<R>)
    requires PortsOk(c, h) && InPlace(h, g)
    ensures PortsOk(c, g)
  {
    assert forall id :: id in h.sessions ==> BaseAt(g, id) == BaseAt(h, id);
    forall b | b in g.usedBases ensures Owned(g, b) {
      assert Owned(h, b);
    }
  }

  lemma PortsRegister<R>(c: Config, h: Registry<R>, r: R, rec: Rec, bindable: set<int>)
    requires PortsOk(c, h)
    requires r !in h.recs && rec.id !in h.sessions && Alloc(c, h.usedBases, bindable) == Some(rec.base)
    ensures PortsOk(c, Register(h, r, rec))
  {
    var g := Register(h, r, rec);
    assert OnGrid(c, rec.base) && rec.base !in h.usedBases by { AllocIsLowest(c, h.usedBases, bindable, 0); }
    assert BaseAt(g, rec.id) == rec.base;
    assert forall id :: id in h.sessions ==> BaseAt(g, id) == BaseAt(h, id);
    forall b | b in g.usedBases ensures Owned(g, b) {
      assert b != rec.base ==> Owned(h, b);
    }
  }

  lemma PortsRemove<R>(c: Config, h: Registry<R>, id: Id)
    requires PortsOk(c, h)
    ensures PortsOk(c, Remove(h, id))
  {
    var g := Remove(h, id);
    assert forall i :: i in g.sessions ==> BaseAt(g, i) == BaseAt(h, i);
    forall b | b in g.usedBases ensures Owned(g, b) {
      assert Owned(h, b);
      var i :| i in h.sessions && BaseAt(h, i) == b;
      assert id in h.sessions ==> i != id;
    }
  }

  /** A registration with a fresh object and id adds that one id to the counts it belongs to. */
  lemma RegisterCounts<R>(h: Registry<R>, r: R, rec: Rec)
    requires Wf(h) && r !in h.recs && rec.id !in h.sessions && rec.phase != Reaping
    ensures Live(Register(h, r, rec)) == Live(h) + {rec.id} && rec.id !in Live(h)
    ensures PooledLive(Register(h, r, rec)) == PooledLive(h) + (if rec.pooled then {rec.id} else {})
    ensures rec.id !in PooledLive(h)
  {
    var g := Register(h, r, rec);
    forall id ensures LiveAt(g, id) <==> LiveAt(h, id) || id == rec.id {}
    forall id ensures PooledAt(g, id) <==> PooledAt(h, id) || (id == rec.id && rec.pooled) {}
  }

  /** With a stride of at least 13, the ports base+0 .. base+12 of two registered sessions never meet. */
  lemma PortBlocksDisjoint<R>(c: Config, h: Registry<R>, i: Id, j: Id, x: int, y: int)
    requires PortsOk(c, h) && c.stride >= 13
    requires i in h.sessions && j in h.sessions && i != j
    requires 0 <= x <= 12 && 0 <= y <= 12
    ensures BaseAt(h, i) + x != BaseAt(h, j) + y
  {
    var a, b := BaseAt(h, i), BaseAt(h, j);
    assert OnGrid(c, a) && OnGrid(c, b);
    var k :| 0 <= k < Blocks(c) && a == Block(c, k);
    var l :| 0 <= l < Blocks(c) && b == Block(c, l);
    if k < l {
      BlocksApart(c, k, l);
    } else if l < k {
      BlocksApart(c, l, k);
    }
  }

  /** As many bases are in use as sessions are registered. */
  lemma UsedBasesSize<R>(c: Config, h: Registry<R>)
    requires PortsOk(c, h)
    ensures |h.usedBases| == |h.sessions|
  {
    var bases := set id | id in h.sessions.Keys :: BaseAt(h, id);
    forall b | b in h.usedBases ensures b in bases {
      assert Owned(h, b);
    }
    assert h.usedBases == bases;
    BasesSize(h, h.sessions.Keys);
  }

  lemma {:induction false} BasesSize<R>(h: Registry<R>, ids: set<Id>)
    requires forall i, j :: i in ids && j in ids && i != j ==> BaseAt(h, i) != BaseAt(h, j)
    ensures |set id | id in ids :: BaseAt(h, id)| == |ids|
  {
    if ids != {} {
      var id :| id in ids;
      BasesSize(h, ids - {id});
      assert (set i | i in ids :: BaseAt(h, i)) == (set i | i in ids - {id} :: BaseAt(h, i)) + {BaseAt(h, id)};
    }
  }

  /** Fewer registered sessions than port blocks, all ports bindable: a block is always found. */
  lemma PortAllocationComplete<R>(c: Config, h: Registry<R>, bindable: set<int>)
    requires PortsOk(c, h) && c.stride > 0
    requires |h.sessions| < c.maxSessions * 4 + 8
    requires forall k :: 0 <= k < c.maxSessions * 4 + 8 ==> Block(c, k) in bindable
    ensures Alloc(c, h.usedBases, bindable).Some?
    ensures var b := Alloc(c, h.usedBases, bindable).value;
      exists k ::
        && 0 <= k < c.maxSessions * 4 + 8 && b == Block(c, k) == c.portBase + k * c.stride && b !in h.usedBases
        && forall j :: 0 <= j < k ==> Block(c, j) in h.usedBases
  {
    UsedBasesSize(c, h);
    AllocComplete(c, h.usedBases, bindable);
  }

  /** Whatever one pool tick reserves, it stays within both session limits and the pool's size. */
  lemma {:induction false} LaunchLoopSafe(c: Config, pooled: int, inFlight: int, launch: int, active: int, mem: int)
    requires launch >= 0
    ensures var k := LaunchLoop(c, pooled, inFlight, launch, active, mem);
      k > 0 ==> Fits(c, active + inFlight + k) && pooled + inFlight + launch + k <= c.warmPool
    decreases c.warmPool - (pooled + inFlight + launch)
  {
    if pooled + inFlight + launch < c.warmPool && Admit(c, active + inFlight, mem).Admitted? {
      LaunchLoopSafe(c, pooled, inFlight + 1, launch + 1, active, mem);
    }
  }

  lemma FitsDown(c: Config, n: int, m: int)
    requires c.sessionMB >= 0 && Fits(c, n) && m <= n
    ensures Fits(c, m)
  {
    MulMonotone(m, n, c.sessionMB);
  }

  lemma AdmitBeside<R>(c: Config, h: Registry<R>, inFlight: int)
    ensures AdmitNow(c, h.(poolInFlight := inFlight)) == Admit(c, |Live(h)| + inFlight, h.memActualMB)
  {
    assert Live(h.(poolInFlight := inFlight)) == Live(h);
  }

  lemma RingAppend(xs: seq<Completion>, ys: seq<Completion>)
    ensures Last1000(Last1000(xs) + ys) == Last1000(xs + ys)
  {}
}
