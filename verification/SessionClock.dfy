/**
 * The two clocks of a hosted session: the backend's own (backend/cmd/demo-backend) and the
 * host's reaper (cmd/demohost), over every order of hand-out, begin, heartbeat and reaper poll.
 */
module SessionClock {
  import opened Prelude
  import opened HostRegistry

  datatype ClockState = ClockState(ttl: int, idle: int, begun: bool, startedAt: int, hardDeadline: int, lastBeat: int)

  function Dormant(ttl: int, idle: int, now: int): ClockState { ClockState(ttl, idle, false, 0, 0, now) }

  function Begun(k: ClockState, now: int): ClockState {
    if k.begun then k
    else k.(begun := true, startedAt := now, hardDeadline := now + k.ttl, lastBeat := now)
  }

  datatype Status = Status(hardDeadline: int, idleDeadline: int, expiresAt: int, reason: string, remaining: int, expired: bool)

  function StatusAt(k: ClockState, now: int): Status {
    if !k.begun then
      Status(now + k.ttl, now + k.ttl, now + k.ttl, "pending", TruncDiv(k.ttl, NANOS_PER_SEC), false)
    else
      var idleDeadline := k.lastBeat + k.idle;
      var byIdle := idleDeadline < k.hardDeadline;
      var exp := if byIdle then idleDeadline else k.hardDeadline;
      Status(k.hardDeadline, idleDeadline, exp, if byIdle then "idle" else "scheduled",
        Max(0, TruncDiv(exp - now, NANOS_PER_SEC)), now > k.hardDeadline || now > idleDeadline)
  }

  /** What the visitor is shown agrees with the verdict: expired exactly past the announced instant, with no time left. */
  lemma StatusConsistent(k: ClockState, now: int)
    ensures var st := StatusAt(k, now);
      && (k.begun ==> (st.expired <==> now > st.expiresAt))
      && (k.begun && st.expired ==> st.remaining == 0)
      && (!k.begun ==> !st.expired && st.expiresAt == now + k.ttl)
  {
    TruncDivBounds(StatusAt(k, now).expiresAt - now, NANOS_PER_SEC, 1);
  }

  /** What a begun clock shows: the earlier of the two deadlines, which one it is, and the whole seconds left until it. */
  lemma StatusShows(k: ClockState, now: int)
    requires k.begun
    ensures var st := StatusAt(k, now);
      && st.hardDeadline == k.hardDeadline && st.idleDeadline - k.lastBeat == k.idle
      && (st.expiresAt == st.hardDeadline || st.expiresAt == st.idleDeadline)
      && st.expiresAt <= st.hardDeadline && st.expiresAt <= st.idleDeadline
      && (st.reason == "idle" <==> st.idleDeadline < st.hardDeadline)
      && (st.reason == "scheduled" <==> st.hardDeadline <= st.idleDeadline)
      && (now <= st.expiresAt ==> st.remaining * 1_000_000_000 <= st.expiresAt - now < (st.remaining + 1) * 1_000_000_000)
      && (st.expiresAt <= now ==> st.remaining == 0)
  {}

  /** A dormant one shows a whole ttl that rolls along with the clock, and why. */
  lemma DormantShows(k: ClockState, now: int)
    requires !k.begun && k.ttl >= 0
    ensures var st := StatusAt(k, now);
      && st.hardDeadline - now == k.ttl && st.idleDeadline - now == k.ttl && st.reason == "pending"
      && st.remaining * 1_000_000_000 <= k.ttl < (st.remaining + 1) * 1_000_000_000
  {}

  /** The backend's clock object. */
  class Clock {
    const ttl: int
    const idle: int
    var startedAt: int
    var hardDeadline: int
    var lastBeat: int
    var begun: bool

    function State(): ClockState
      reads this
    {
      ClockState(ttl, idle, begun, startedAt, hardDeadline, lastBeat)
    }

    constructor (ttl: int, idle: int, now: int)
      ensures State() == Dormant(ttl, idle, now)
    {
      this.ttl, this.idle := ttl, idle;
      this.startedAt, this.hardDeadline, this.lastBeat, this.begun := 0, 0, now, false;
    }

    method Beat(now: int)
      modifies this
      ensures State() == old(State()).(lastBeat := now)
    {
      lastBeat := now;
    }

    method Begin(now: int)
      modifies this
      ensures State() == Begun(old(State()), now)
    {
      if begun {
        return;
      }
      begun := true;
      startedAt := now;
      hardDeadline := now + ttl;
      lastBeat := now;
    }

    method Snapshot(now: int) returns (st: Status)
      ensures st == StatusAt(State(), now)
    {
      if !begun {
        var full := now + ttl;
        return Status(full, full, full, "pending", TruncDiv(ttl, NANOS_PER_SEC), false);
      }
      var idleDeadline := lastBeat + idle;
      var exp, reason := hardDeadline, "scheduled";
      if idleDeadline < exp {
        exp, reason := idleDeadline, "idle";
      }
      var rem := TruncDiv(exp - now, NANOS_PER_SEC);
      if rem < 0 {
        rem := 0;
      }
      return Status(hardDeadline, idleDeadline, exp, reason, rem, now > hardDeadline || now > idleDeadline);
    }
  }

  // ---- one session, both clocks ----

  datatype Reach = Down | Broken | Fine

  /**
   * Host events: Warm, Settle and Take for a pooled session, Up for a directly created one, Check
   * for the reaper's look at it. `started` is when that pass of the reaper took its own time,
   * before it got the mutex; `at` is when the backend answers. Begin and Beat reach the backend.
   */
  datatype Event =
    | Warm(at: int) | Settle(at: int) | Take(at: int) | Up(at: int)
    | Begin(at: int) | Beat(at: int)
    | Check(started: int, at: int, reach: Reach)

  datatype World = World(rec: Rec, clock: ClockState)

  function Answered(k: ClockState, reach: Reach, at: int): Poll {
    match reach
    case Down => Unreachable
    case Broken => Garbled
    case Fine => Answer(StatusAt(k, at).expired)
  }

  function After(c: Config, w: World, e: Event): World {
    match e
    case Warm(at) => w.(rec := PoolUp(w.rec, at))
    case Settle(at) => w.(rec := Settled(w.rec))
    case Take(at) => w.(rec := Taken(c, w.rec, at))
    case Up(at) => w.(rec := DirectUp(w.rec, at))
    case Begin(at) => w.(clock := Begun(w.clock, at))
    case Beat(at) => w.(clock := w.clock.(lastBeat := at))
    case Check(started, at, reach) => w.(rec := Reaped(w.rec, started, Answered(w.clock, reach, at)))
  }

  /**
   * A session reports to begin only once it is handed out: the host calls it after hand-out, and
   * the public proxy forwards to running sessions only.
   */
  predicate CanHappen(w: World, e: Event) {
    match e
    case Warm(at) => w.rec.pooled
    case Settle(at) => w.rec.pooled
    case Take(at) => w.rec.pooled && w.rec.phase == Ready
    case Up(at) => !w.rec.pooled
    case Begin(at) => w.rec.assignedAt.Some?
    case Beat(at) => true
    case Check(started, at, reach) => w.rec.phase == Running && started <= at
  }

  function Last<T>(xs: seq<T>): T
    requires xs != []
  {
    xs[|xs| - 1]
  }

  function Init<T>(xs: seq<T>): seq<T>
    requires xs != []
  {
    xs[..|xs| - 1]
  }

  function Exec(c: Config, w0: World, evs: seq<Event>): World {
    if evs == [] then w0 else After(c, Exec(c, w0, Init(evs)), Last(evs))
  }

  /** A fresh session, its dormant backend clock, and events in time order from its creation on. */
  ghost predicate History(c: Config, idle: int, w0: World, evs: seq<Event>) {
    && w0.rec == NewRec(c, w0.rec.id, w0.rec.base, w0.rec.createdAt, w0.rec.pooled)
    && w0.clock == Dormant(c.ttl, idle, w0.clock.lastBeat)
    && Ordered(w0.rec.createdAt, evs)
    && AllCanHappen(c, w0, evs)
  }

  ghost predicate Ordered(from: int, evs: seq<Event>) {
    evs == [] || (Ordered(from, Init(evs)) && Last(evs).at >= NowOf(from, Init(evs)))
  }

  ghost predicate AllCanHappen(c: Config, w0: World, evs: seq<Event>) {
    evs == [] || (AllCanHappen(c, w0, Init(evs)) && CanHappen(Exec(c, w0, Init(evs)), Last(evs)))
  }

  function NowOf(from: int, evs: seq<Event>): int { if evs == [] then from else Last(evs).at }

  // ---- what the history says, without looking at either clock ----

  function FirstBegin(evs: seq<Event>): Option<int> {
    if evs == [] then None
    else if FirstBegin(Init(evs)).Some? then FirstBegin(Init(evs))
    else if Last(evs).Begin? then Some(Last(evs).at)
    else None
  }

  /** The instant the idle gap counts from: the last heartbeat, or the first begin if that is later. */
  function LastBeat(boot: int, evs: seq<Event>): int {
    if evs == [] then boot
    else if Last(evs).Beat? || (Last(evs).Begin? && FirstBegin(Init(evs)).None?) then Last(evs).at
    else LastBeat(boot, Init(evs))
  }

  /** The last time the reaper's grace clock was reset. */
  function LastSeen(created: int, evs: seq<Event>): int {
    if evs == [] then created
    else match Last(evs) {
      case Warm(at) => at
      case Take(at) => at
      case Up(at) => at
      case Check(started, at, reach) => if reach.Down? then LastSeen(created, Init(evs)) else started
      case _ => LastSeen(created, Init(evs))
    }
  }

  /** When a visitor was given the session. */
  function HandOut(w0: World, evs: seq<Event>): Option<int> {
    if evs == [] then w0.rec.assignedAt
    else if Last(evs).Take? then Some(Last(evs).at)
    else HandOut(w0, Init(evs))
  }

  lemma {:induction false} ClocksFollowHistory(c: Config, idle: int, w0: World, evs: seq<Event>)
    requires History(c, idle, w0, evs)
    ensures var w := Exec(c, w0, evs);
      && w.clock.ttl == c.ttl && w.clock.idle == idle
      && (w.clock.begun <==> FirstBegin(evs).Some?)
      && (w.clock.begun ==> w.clock.hardDeadline == FirstBegin(evs).value + c.ttl && w.clock.startedAt == FirstBegin(evs).value)
      && w.clock.lastBeat == LastBeat(w0.clock.lastBeat, evs)
      && w.rec.lastSeenOK == LastSeen(w0.rec.createdAt, evs)
      && w.rec.assignedAt == HandOut(w0, evs)
      && (w.rec.pooled <==> w.rec.assignedAt.None?)
      && (w.rec.phase == Running ==> w.rec.assignedAt.Some?)
      && (w.rec.assignedAt.Some? ==> w.rec.expiresAt == w.rec.assignedAt.value + c.ttl)
      && (w.rec.assignedAt.Some? ==> w.rec.assignedAt.value <= NowOf(w0.rec.createdAt, evs))
      && (FirstBegin(evs).Some? ==> w.rec.assignedAt.Some? && w.rec.assignedAt.value <= FirstBegin(evs).value)
  {
    if evs != [] {
      ClocksFollowHistory(c, idle, w0, Init(evs));
    }
  }

  /** Why a reaper pass may take a session down, in terms of the history alone. */
  ghost predicate PastCap(c: Config, w0: World, evs: seq<Event>, t: int) {
    HandOut(w0, evs).Some? && t > HandOut(w0, evs).value + c.ttl
  }

  ghost predicate IdleGap(idle: int, w0: World, evs: seq<Event>, t: int) {
    FirstBegin(evs).Some? && t - LastBeat(w0.clock.lastBeat, evs) > idle
  }

  ghost predicate Gone(w0: World, evs: seq<Event>, t: int) {
    t - LastSeen(w0.rec.createdAt, evs) > 60 * 1_000_000_000
  }

  /**
   * Exactly when a reaper pass marks the session: its own clock is past hand-out plus ttl, or a
   * healthy backend is past its deadline or idle for longer than allowed, or the backend is down
   * and was last seen longer ago than the grace.
   */
  lemma ReaperMarksExactlyWhenDue(c: Config, idle: int, w0: World, evs: seq<Event>, started: int, at: int, reach: Reach)
    requires History(c, idle, w0, evs + [Check(started, at, reach)])
    ensures Exec(c, w0, evs + [Check(started, at, reach)]).rec.phase == Reaping <==>
      || PastCap(c, w0, evs, started)
      || (reach.Fine? && (IdleGap(idle, w0, evs, at) || (FirstBegin(evs).Some? && at > FirstBegin(evs).value + c.ttl)))
      || (reach.Down? && Gone(w0, evs, started))
  {
    assert Init(evs + [Check(started, at, reach)]) == evs;
    ClocksFollowHistory(c, idle, w0, evs);
  }

  /** No heartbeat for longer than the idle timeout. */
  ghost predicate NoBeatWithin(idle: int, evs: seq<Event>, t: int) {
    forall i :: 0 <= i < |evs| && evs[i].Beat? ==> t - evs[i].at > idle
  }

  /**
   * So every marking has one of the three causes, an idle one after no heartbeat for longer than
   * the timeout; the backend's own cap is never earlier than the host's.
   */
  lemma ReaperIsJustified(c: Config, idle: int, w0: World, evs: seq<Event>, started: int, at: int, reach: Reach)
    requires History(c, idle, w0, evs + [Check(started, at, reach)])
    requires Exec(c, w0, evs + [Check(started, at, reach)]).rec.phase == Reaping
    ensures
      || PastCap(c, w0, evs, at)
      || (IdleGap(idle, w0, evs, at) && NoBeatWithin(idle, evs, at))
      || (reach.Down? && Gone(w0, evs, at))
  {
    assert Init(evs + [Check(started, at, reach)]) == evs;
    forall i | 0 <= i < |evs| && evs[i].Beat? ensures evs[i].at <= LastBeat(w0.clock.lastBeat, evs) {
      LastBeatIsLatest(w0.rec.createdAt, w0.clock.lastBeat, evs, i);
    }
    ReaperMarksExactlyWhenDue(c, idle, w0, evs, started, at, reach);
    ClocksFollowHistory(c, idle, w0, evs);
  }

  /** Until begin first reaches it, a session never reports itself expired, however long it waits. */
  lemma NotBegunNotExpired(c: Config, idle: int, w0: World, evs: seq<Event>, t: int)
    requires History(c, idle, w0, evs)
    requires forall i :: 0 <= i < |evs| ==> !evs[i].Begin?
    ensures !StatusAt(Exec(c, w0, evs).clock, t).expired
  {
    ClocksFollowHistory(c, idle, w0, evs);
    NoBeginNoFirst(evs);
  }

  lemma {:induction false} NoBeginNoFirst(evs: seq<Event>)
    ensures FirstBegin(evs).None? <==> forall i :: 0 <= i < |evs| ==> !evs[i].Begin?
  {
    if evs != [] {
      NoBeginNoFirst(Init(evs));
      assert forall i :: 0 <= i < |Init(evs)| ==> Init(evs)[i] == evs[i];
    }
  }

  /** Nothing after the first begin moves the hard deadline, and the host's cap is never after it. */
  lemma {:induction false} DeadlineFixedAtFirstBegin(c: Config, idle: int, w0: World, evs: seq<Event>, more: seq<Event>)
    requires History(c, idle, w0, evs + more) && FirstBegin(evs).Some?
    ensures var w := Exec(c, w0, evs + more);
      && w.clock.begun && w.clock.hardDeadline == FirstBegin(evs).value + c.ttl
      && w.rec.expiresAt <= w.clock.hardDeadline
    decreases |more|
  {
    ClocksFollowHistory(c, idle, w0, evs + more);
    if more != [] {
      assert Init(evs + more) == evs + Init(more);
      DeadlineFixedAtFirstBegin(c, idle, w0, evs, Init(more));
      ClocksFollowHistory(c, idle, w0, evs + Init(more));
    } else {
      assert evs + more == evs;
    }
  }

  /** LastBeat really is the latest: no heartbeat of the history comes after it. */
  lemma {:induction false} LastBeatIsLatest(from: int, boot: int, evs: seq<Event>, i: nat)
    requires Ordered(from, evs) && i < |evs| && evs[i].Beat?
    ensures evs[i].at <= LastBeat(boot, evs) <= NowOf(from, evs)
  {
    if i < |evs| - 1 {
      LastBeatIsLatest(from, boot, Init(evs), i);
    }
  }
}
