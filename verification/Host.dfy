/**
 * The session registry as the source keeps it: session objects shared by pointer, updated in
 * place under the host's mutex. One method a critical section; each computes its step of the
 * transition system exactly.
 */
module HostService {
  import opened Prelude
  import opened HostRegistry
  import opened HostCapacity

  class Session {
    const id: string
    const base: int
    const createdAt: int
    var expiresAt: int
    var phase: Phase
    var pooled: bool
    var lastSeenOK: int
    var assignedAt: Option<int>

    constructor (c: Config, id: string, base: int, now: int, pooled: bool)
      ensures Record() == NewRec(c, id, base, now, pooled)
    {
      this.id, this.base, this.createdAt := id, base, now;
      this.expiresAt := now + c.ttl;
      this.phase, this.pooled := Starting, pooled;
      this.lastSeenOK := now;
      this.assignedAt := if pooled then None else Some(now);
    }

    function Record(): Rec
      reads this
    {
      Rec(id, base, createdAt, expiresAt, phase, pooled, lastSeenOK, assignedAt)
    }
  }

  function Since(cs: seq<Completion>, since: int): seq<Completion> {
    if cs == [] then []
    else
      var rest := Since(cs[..|cs| - 1], since);
      if cs[|cs| - 1].endedAt > since then rest + [cs[|cs| - 1]] else rest
  }

  class Host {
    const c: Config
    var sessions: map<string, Session>
    var usedBases: set<int>
    var completions: seq<Completion>
    var poolInFlight: int
    var memActualMB: int
    /** Every session object ever made for this host, dropped ones included. */
    ghost var known: set<Session>

    ghost function View(): Registry<Session>
      reads this, known
    {
      Registry(sessions, map s | s in known :: s.Record(), usedBases, completions, poolInFlight, memActualMB)
    }

    ghost predicate Valid()
      reads this
    {
      && (forall id :: id in sessions ==> sessions[id] in known && sessions[id].id == id)
      && c.sessionMB > 0
      && |completions| <= MAX_COMPLETIONS
    }

    constructor (c: Config)
      requires c.sessionMB > 0
      ensures Valid() && this.c == c && fresh(known)
      ensures View() == Registry(map[], map[], {}, [], 0, 0)
    {
      this.c := c;
      this.sessions, this.usedBases, this.completions := map[], {}, [];
      this.poolInFlight, this.memActualMB := 0, 0;
      this.known := {};
    }

    method ActiveCount() returns (n: int)
      requires Valid()
      ensures n == |Live(View())|
    {
      n := 0;
      var todo := sessions.Keys;
      ghost var seen: set<string> := {};
      while todo != {}
        invariant todo <= sessions.Keys && seen == set id | id in sessions.Keys - todo && LiveAt(View(), id)
        invariant n == |seen|
        decreases |todo|
      {
        var id :| id in todo;
        todo := todo - {id};
        if sessions[id].phase != Reaping {
          n := n + 1;
          seen := seen + {id};
        }
      }
      assert seen == Live(View());
    }

    method AdmitLocked() returns (a: Admission)
      requires Valid()
      ensures a == AdmitNow(c, View())
    {
      var n := ActiveCount();
      n := n + poolInFlight;
      if n >= c.maxSessions {
        return AtMax;
      }
      var reserved := (n + 1) * c.sessionMB;
      if reserved > c.demoBudgetMB {
        return OverReservation;
      }
      if memActualMB > 0 && memActualMB + c.sessionMB > c.demoBudgetMB {
        return OverMeasured;
      }
      return Admitted;
    }

    /** `bindable` stands for the outcome of probing each port with a listen. */
    method AllocBaseLocked(bindable: set<int>) returns (base: Option<int>)
      ensures base == Alloc(c, usedBases, bindable)
    {
      var k := 0;
      while k < Blocks(c)
        invariant 0 <= k
        invariant Alloc(c, usedBases, bindable) == AllocFrom(c, usedBases, bindable, k)
        decreases Blocks(c) - k
      {
        var b := Block(c, k);
        if b !in usedBases && b in bindable {
          return Some(b);
        }
        k := k + 1;
      }
      return None;
    }

    method RemoveLocked(id: string)
      requires Valid()
      modifies this`sessions, this`usedBases
      ensures Valid() && View() == Remove(old(View()), id)
    {
      if id in sessions {
        usedBases := usedBases - {sessions[id].base};
        sessions := sessions - {id};
      }
    }

    method AppendCompletionLocked(s: Session, reason: string, now: int)
      requires Valid() && s in known
      modifies this`completions
      ensures Valid() && View() == AppendCompletion(old(View()), old(View()).recs[s], reason, now)
    {
      if s.assignedAt.None? {
        return;
      }
      completions := completions + [Completion(now / NANOS_PER_SEC, now - s.assignedAt.value, reason)];
      if |completions| > MAX_COMPLETIONS {
        completions := completions[|completions| - MAX_COMPLETIONS..];
      }
    }

    method Claim(s: Session, now: int)
      requires Valid() && s in known
      modifies s
      ensures Valid() && View() == SetRec(old(View()), s, Taken(c, old(View()).recs[s], now))
    {
      s.pooled := false;
      s.phase := Running;
      s.lastSeenOK := now;
      s.assignedAt := Some(now);
      s.expiresAt := now + c.ttl;
      assert View().recs == old(View()).recs[s := Taken(c, old(View()).recs[s], now)];
    }

    /** Claims some ready pooled session, whichever the map iteration meets first. */
    method TakePooledLocked(now: int) returns (s: Session?)
      requires Valid()
      modifies known
      ensures Valid()
      ensures s == null ==> View() == old(View()) && forall r :: r in known ==> !CanTake(View(), r)
      ensures s != null ==> CanTake(old(View()), s)
      ensures s != null ==> View() == SetRec(old(View()), s, Taken(c, old(View()).recs[s], now))
    {
      var todo := sessions.Keys;
      while todo != {}
        invariant todo <= sessions.Keys && View() == old(View())
        invariant forall id :: id in sessions && id !in todo ==> !ReadyAt(View(), id)
        decreases |todo|
      {
        var id :| id in todo;
        todo := todo - {id};
        s := sessions[id];
        if s.pooled && s.phase == Ready {
          assert CanTake(View(), s);
          Claim(s, now);
          return;
        }
      }
      forall r | r in known ensures !CanTake(View(), r) {
        assert Registered(View(), r) ==> !ReadyAt(View(), r.id);
      }
      return null;
    }

    method NewSession(id: string, base: int, now: int, pooled: bool) returns (s: Session)
      requires Valid() && id !in sessions
      modifies this`sessions, this`usedBases, this`known
      ensures Valid() && fresh(s) && s !in old(known)
      ensures View() == Register(old(View()), s, NewRec(c, id, base, now, pooled))
    {
      s := new Session(c, id, base, now, pooled);
      sessions := sessions[id := s];
      usedBases := usedBases + {base};
      known := known + {s};
      assert View().recs == old(View()).recs[s := NewRec(c, id, base, now, pooled)];
    }

    /** createSession up to the spawn. `id` is the random id drawn: any one not taken. */
    method CreateSession(id: string, bindable: set<int>, now: int) returns (o: Outcome<Session>)
      requires Valid() && id !in sessions
      modifies this`sessions, this`usedBases, this`known, known
      ensures Valid() && Possible(c, old(View()), o) && View() == After(c, old(View()), o)
    {
      var s := TakePooledLocked(now);
      if s != null {
        return Handed(s, now);
      }
      var a := AdmitLocked();
      if !a.Admitted? {
        return Refused;
      }
      var base := AllocBaseLocked(bindable);
      if base.None? {
        return NoPort(bindable);
      }
      var n := NewSession(id, base.value, now, false);
      return Started(n, id, bindable, now);
    }

    /** createSession once the spawn is back: `running`, whatever the state was. */
    method DirectSpawned(s: Session, now: int)
      requires Valid() && s in known
      modifies s
      ensures Valid() && View() == SetRec(old(View()), s, DirectUp(old(View()).recs[s], now))
    {
      s.phase := Running;
      s.lastSeenOK := now;
      assert View().recs == old(View()).recs[s := DirectUp(old(View()).recs[s], now)];
    }

    /** createPooled's first critical section; the launch leaves the in-flight count either way. */
    method CreatePooled(id: string, bindable: set<int>, now: int) returns (s: Session?)
      requires Valid() && id !in sessions
      modifies this`sessions, this`usedBases, this`known, this`poolInFlight
      ensures Valid()
      ensures s == null <==> Alloc(c, old(usedBases), bindable).None?
      ensures s == null ==> View() == old(View()).(poolInFlight := old(poolInFlight) - 1)
      ensures s != null ==>
        var h := Register(old(View()), s, NewRec(c, id, Alloc(c, old(usedBases), bindable).value, now, true));
        s !in old(known) && View() == h.(poolInFlight := old(poolInFlight) - 1)
    {
      var base := AllocBaseLocked(bindable);
      if base.None? {
        poolInFlight := poolInFlight - 1;
        return null;
      }
      s := NewSession(id, base.value, now, true);
      poolInFlight := poolInFlight - 1;
    }

    method PoolSpawned(s: Session, now: int)
      requires Valid() && s in known
      modifies s
      ensures Valid() && View() == SetRec(old(View()), s, PoolUp(old(View()).recs[s], now))
    {
      if s.phase == Starting {
        s.phase := Warming;
      }
      s.lastSeenOK := now;
      assert View().recs == old(View()).recs[s := PoolUp(old(View()).recs[s], now)];
    }

    method PoolSettled(s: Session)
      requires Valid() && s in known
      modifies s
      ensures Valid() && View() == SetRec(old(View()), s, Settled(old(View()).recs[s]))
    {
      if s.phase == Warming {
        s.phase := Ready;
      }
      assert View().recs == old(View()).recs[s := Settled(old(View()).recs[s])];
    }

    /**
     * Partway through a marking pass that takes `before` to `after` and marks exactly `all`: the
     * sessions still to do are as before, the others as after.
     */
    ghost predicate Pass(before: Registry<Session>, after: Registry<Session>, all: set<Session>, todo: set<string>)
      reads this, known
    {
      && Valid() && todo <= sessions.Keys
      && known <= before.recs.Keys && known <= after.recs.Keys
      && (forall r :: r in known ==> r.Record() == if r.id in todo then before.recs[r] else after.recs[r])
      && (forall r :: r in known && !(r.id in sessions && sessions[r.id] == r) ==> after.recs[r] == before.recs[r])
      && (forall r :: r in all ==> r.id in sessions && sessions[r.id] == r)
    }

    /** A marking pass so far: each of the sessions it is to mark and has come to, once. */
    ghost predicate Found(all: set<Session>, todo: set<string>, found: seq<Session>)
      reads all
    {
      && Distinct(found)
      && (forall r :: r in found ==> r in all && r.id !in todo)
      && (forall r :: r in all && r.id !in todo ==> r in found)
    }

    lemma FoundNext(all: set<Session>, todo: set<string>, found: seq<Session>, id: string)
      requires Valid() && Found(all, todo, found) && id in todo && todo <= sessions.Keys
      requires forall r :: r in all ==> r.id in sessions && sessions[r.id] == r
      ensures Found(all, todo - {id}, if sessions[id] in all then found + [sessions[id]] else found)
    {}

    /** reapOnce's loop body for one session. */
    method MarkIfDue(s: Session, now: int, poll: Poll) returns (due: bool)
      modifies s
      ensures s.Record() == Reaped(old(s.Record()), now, poll)
      ensures due <==> old(s.phase) == Running && Due(old(s.Record()), now, poll)
    {
      if s.phase != Running {
        return false;
      }
      var hardExpired := now > s.expiresAt;
      var idleExpired := poll.Answer? && poll.expired;
      if !poll.Unreachable? {
        s.lastSeenOK := now;
      }
      var unreachable := poll.Unreachable? && now - s.lastSeenOK > BACKEND_GRACE;
      due := hardExpired || idleExpired || unreachable;
      if due {
        s.phase := Reaping;
      }
    }

    method ReapOne(id: string, now: int, poll: Poll, ghost before: Registry<Session>, ghost after: Registry<Session>,
        ghost all: set<Session>, ghost todo: set<string>) returns (due: bool)
      requires Pass(before, after, all, todo) && id in todo
      requires after.recs[sessions[id]] == Reaped(before.recs[sessions[id]], now, poll)
      requires sessions[id] in all <==>
        before.recs[sessions[id]].phase == Running && Due(before.recs[sessions[id]], now, poll)
      modifies sessions[id]
      ensures Pass(before, after, all, todo - {id})
      ensures due <==> sessions[id] in all
    {
      var s := sessions[id];
      assert s.Record() == before.recs[s];
      due := MarkIfDue(s, now, poll);
    }

    method ReapLoop(now: int, polls: map<string, Poll>, ghost before: Registry<Session>, ghost after: Registry<Session>,
        ghost all: set<Session>) returns (due: seq<Session>)
      requires Pass(before, after, all, sessions.Keys)
      requires forall id :: id in sessions ==>
        after.recs[sessions[id]] == Reaped(before.recs[sessions[id]], now, PollOf(polls, id))
      requires forall id :: id in sessions ==> (sessions[id] in all <==>
        before.recs[sessions[id]].phase == Running && Due(before.recs[sessions[id]], now, PollOf(polls, id)))
      modifies known
      ensures Pass(before, after, all, {}) && Found(all, {}, due)
    {
      due := [];
      var todo := sessions.Keys;
      while todo != {}
        invariant Pass(before, after, all, todo) && Found(all, todo, due)
        decreases |todo|
      {
        var id :| id in todo;
        var marked := ReapOne(id, now, PollOf(polls, id), before, after, all, todo);
        FoundNext(all, todo, due, id);
        todo := todo - {id};
        if marked {
          due := due + [sessions[id]];
        }
      }
    }

    /** reapOnce's marking pass; `polls` holds each backend's answer. */
    method ReapMark(now: int, polls: map<string, Poll>) returns (due: seq<Session>)
      requires Valid()
      modifies known
      ensures Valid() && View() == ReapScan(old(View()), now, polls) && Distinct(due)
      ensures forall r :: r in due ==> DueAt(old(View()), now, polls, r)
      ensures forall r :: r in known && DueAt(old(View()), now, polls, r) ==> r in due
    {
      ghost var before := View();
      ghost var after := ReapScan(before, now, polls);
      ghost var all := set r | r in before.recs && DueAt(before, now, polls, r);
      due := ReapLoop(now, polls, before, after, all);
      assert View().recs == after.recs;
    }

    /** reapOnce's second pass for one session, once its stack is gone. */
    method ReapRemove(s: Session, started: int)
      requires Valid() && s in known
      modifies this`sessions, this`usedBases, this`completions
      ensures var rec := old(View()).recs[s];
        Valid() && View() == AppendCompletion(Remove(old(View()), rec.id), rec,
          if started > rec.expiresAt then "hard cap" else "idle", started)
    {
      var reason := "idle";
      if started > s.expiresAt {
        reason := "hard cap";
      }
      RemoveLocked(s.id);
      AppendCompletionLocked(s, reason, started);
    }

    method DeleteMark(id: string) returns (s: Session?)
      requires Valid()
      modifies known
      ensures Valid()
      ensures s == null ==> id !in sessions && View() == old(View())
      ensures s != null ==> id in old(sessions) && s == old(sessions)[id]
      ensures s != null ==> View() == SetRec(old(View()), s, old(View()).recs[s].(phase := Reaping))
    {
      if id !in sessions {
        return null;
      }
      s := sessions[id];
      s.phase := Reaping;
      assert View().recs == old(View()).recs[s := old(View()).recs[s].(phase := Reaping)];
    }

    method DeleteRemove(id: string, s: Session, now: int)
      requires Valid() && s in known
      modifies this`sessions, this`usedBases, this`completions
      ensures Valid() && View() == AppendCompletion(Remove(old(View()), id), old(View()).recs[s], "manual", now)
    {
      RemoveLocked(id);
      AppendCompletionLocked(s, "manual", now);
    }

    /** poolTick's loop body for one session. */
    method RecycleIfStale(s: Session, now: int) returns (stale: bool)
      modifies s
      ensures s.Record() == Recycled(c, old(s.Record()), now)
      ensures stale <==> Stale(c, old(s.Record()), now)
    {
      stale := s.pooled && s.phase != Reaping && now - s.createdAt > c.warmMaxAge;
      if stale {
        s.phase := Reaping;
      }
    }

    method RecycleOne(id: string, now: int, ghost before: Registry<Session>, ghost after: Registry<Session>,
        ghost all: set<Session>, ghost todo: set<string>) returns (stale: bool, counts: bool)
      requires Pass(before, after, all, todo) && id in todo
      requires after.recs[sessions[id]] == Recycled(c, before.recs[sessions[id]], now)
      requires sessions[id] in all <==> Stale(c, before.recs[sessions[id]], now)
      modifies sessions[id]
      ensures Pass(before, after, all, todo - {id})
      ensures stale <==> sessions[id] in all
      ensures counts <==> PooledIn(after, id)
    {
      var s := sessions[id];
      assert s.Record() == before.recs[s];
      stale := RecycleIfStale(s, now);
      counts := !stale && s.pooled && s.phase != Reaping;
    }

    method RecycleLoop(now: int, ghost before: Registry<Session>, ghost after: Registry<Session>, ghost all: set<Session>)
      returns (stale: seq<Session>, pooled: int)
      requires Pass(before, after, all, sessions.Keys)
      requires forall id :: id in sessions ==>
        && after.recs[sessions[id]] == Recycled(c, before.recs[sessions[id]], now)
        && (sessions[id] in all <==> Stale(c, before.recs[sessions[id]], now))
      modifies known
      ensures Pass(before, after, all, {})
      ensures Found(all, {}, stale)
      ensures pooled == |set id | id in sessions.Keys && PooledIn(after, id)|
    {
      stale, pooled := [], 0;
      var todo := sessions.Keys;
      while todo != {}
        invariant Pass(before, after, all, todo)
        invariant Found(all, todo, stale) && pooled == |PooledDone(after, todo)|
        decreases |todo|
      {
        var id :| id in todo;
        var tooOld, counts := RecycleOne(id, now, before, after, all, todo);
        FoundNext(all, todo, stale, id);
        PooledNext(after, todo, id);
        todo := todo - {id};
        if tooOld {
          stale := stale + [sessions[id]];
        }
        if counts {
          pooled := pooled + 1;
        }
      }
      assert PooledDone(after, {}) == set id | id in sessions.Keys && PooledIn(after, id);
    }

    ghost function PooledDone(after: Registry<Session>, todo: set<string>): set<string>
      reads this
    {
      set id | id in sessions.Keys - todo && PooledIn(after, id)
    }

    lemma PooledNext(after: Registry<Session>, todo: set<string>, id: string)
      requires id in todo && todo <= sessions.Keys
      ensures |PooledDone(after, todo - {id})| == |PooledDone(after, todo)| + if PooledIn(after, id) then 1 else 0
    {
      if PooledIn(after, id) {
        assert PooledDone(after, todo - {id}) == PooledDone(after, todo) + {id};
      } else {
        assert PooledDone(after, todo - {id}) == PooledDone(after, todo);
      }
    }

    ghost predicate PooledIn(h: Registry<Session>, id: string)
      reads this
    {
      id in sessions && sessions[id] in h.recs && h.recs[sessions[id]].pooled && h.recs[sessions[id]].phase != Reaping
    }

    /** poolTick's marking pass: recycle what is too old, count the rest. */
    method RecycleMark(now: int) returns (stale: seq<Session>, pooled: int)
      requires Valid()
      modifies known
      ensures Valid() && View() == RecycleScan(c, old(View()), now) && Distinct(stale)
      ensures pooled == |PooledLive(View())|
      ensures forall r :: r in stale ==> Registered(old(View()), r) && Stale(c, old(View()).recs[r], now)
      ensures forall r :: r in known && Registered(old(View()), r) && Stale(c, old(View()).recs[r], now) ==> r in stale
    {
      ghost var before := View();
      ghost var after := RecycleScan(c, before, now);
      ghost var all := set r | r in before.recs && Registered(before, r) && Stale(c, before.recs[r], now);
      stale, pooled := RecycleLoop(now, before, after, all);
      assert View().recs == after.recs;
      assert PooledLive(View()) == set id | id in sessions.Keys && PooledIn(after, id);
    }

    /** Reserve one more launch, and ask whether yet another may follow. */
    method ReserveOne(ghost before: Registry<Session>) returns (admit: Admission)
      requires Valid() && View() == before.(poolInFlight := poolInFlight)
      modifies this`poolInFlight
      ensures Valid() && View() == before.(poolInFlight := poolInFlight) && poolInFlight == old(poolInFlight) + 1
      ensures admit == Admit(c, |Live(before)| + poolInFlight, before.memActualMB)
    {
      poolInFlight := poolInFlight + 1;
      assert View().recs == before.recs;
      AdmitBeside(c, before, poolInFlight);
      admit := AdmitLocked();
    }

    /** poolTick's launch loop: reserve slots one by one while the pool and admission have room. */
    method ReserveLaunches(pooled: int) returns (launch: int)
      requires Valid() && pooled == |PooledLive(View())|
      modifies this`poolInFlight
      ensures Valid() && launch == Launches(c, old(View()))
      ensures View() == old(View()).(poolInFlight := old(poolInFlight) + launch)
    {
      ghost var before := View();
      ghost var live, mem, goal := |Live(before)|, before.memActualMB, Launches(c, before);
      launch := 0;
      var admit := AdmitLocked();
      while pooled + poolInFlight + launch < c.warmPool && admit.Admitted?
        invariant Valid() && View() == before.(poolInFlight := poolInFlight)
        invariant launch >= 0 && poolInFlight == old(poolInFlight) + launch
        invariant admit == Admit(c, live + poolInFlight, mem)
        invariant launch + LaunchLoop(c, pooled, poolInFlight, launch, live, mem) == goal
        decreases c.warmPool - (pooled + poolInFlight + launch)
      {
        admit := ReserveOne(before);
        launch := launch + 1;
      }
    }

    /** poolTick's critical section. */
    method PoolTick(now: int) returns (stale: seq<Session>, launch: int)
      requires Valid()
      modifies known, this`poolInFlight
      ensures Valid() && View() == PoolScan(c, old(View()), now) && Distinct(stale)
      ensures launch == Launches(c, RecycleScan(c, old(View()), now))
      ensures forall r :: r in stale ==> Registered(old(View()), r) && Stale(c, old(View()).recs[r], now)
      ensures forall r :: r in known && Registered(old(View()), r) && Stale(c, old(View()).recs[r], now) ==> r in stale
    {
      var pooled;
      stale, pooled := RecycleMark(now);
      launch := ReserveLaunches(pooled);
    }

    /** capacityView's counts and headroom. */
    method CapacityView() returns (running: int, visitors: int, warmReady: int, headroom: int)
      requires Valid()
      ensures running == |Live(View())| && visitors == |Visitors(View())| && warmReady == |WarmReady(View())|
      ensures headroom == HeadroomOf(c, View())
    {
      running := ActiveCount();
      visitors := VisitorCount();
      var reserved := running * c.sessionMB;
      headroom := TruncDiv(c.demoBudgetMB - reserved, c.sessionMB);
      if memActualMB > 0 {
        var byActual := TruncDiv(c.demoBudgetMB - memActualMB, c.sessionMB);
        if byActual < headroom {
          headroom := byActual;
        }
      }
      var byMax := c.maxSessions - running;
      if byMax < headroom {
        headroom := byMax;
      }
      if headroom < 0 {
        headroom := 0;
      }
      warmReady := WarmCount();
      headroom := headroom + warmReady;
    }

    method VisitorCount() returns (n: int)
      requires Valid()
      ensures n == |Visitors(View())|
    {
      n := 0;
      var todo := sessions.Keys;
      ghost var seen: set<string> := {};
      while todo != {}
        invariant todo <= sessions.Keys && seen == set id | id in sessions.Keys - todo && VisitorAt(View(), id)
        invariant n == |seen|
        decreases |todo|
      {
        var id :| id in todo;
        todo := todo - {id};
        if sessions[id].assignedAt.Some? && sessions[id].phase != Reaping {
          n := n + 1;
          seen := seen + {id};
        }
      }
      assert seen == Visitors(View());
    }

    method WarmCount() returns (n: int)
      requires Valid()
      ensures n == |WarmReady(View())|
    {
      n := 0;
      var todo := sessions.Keys;
      ghost var seen: set<string> := {};
      while todo != {}
        invariant todo <= sessions.Keys && seen == set id | id in sessions.Keys - todo && ReadyAt(View(), id)
        invariant n == |seen|
        decreases |todo|
      {
        var id :| id in todo;
        todo := todo - {id};
        if sessions[id].pooled && sessions[id].phase == Ready {
          n := n + 1;
          seen := seen + {id};
        }
      }
      assert seen == WarmReady(View());
    }

    method Stats(since: int) returns (out: seq<Completion>)
      ensures out == Since(completions, since)
    {
      out := [];
      for i := 0 to |completions|
        invariant out == Since(completions[..i], since)
      {
        assert completions[..i + 1][..i] == completions[..i];
        if completions[i].endedAt > since {
          out := out + [completions[i]];
        }
      }
      assert completions[..|completions|] == completions;
    }

    method SampleMemory(mb: int)
      requires Valid()
      modifies this`memActualMB
      ensures Valid() && View() == old(View()).(memActualMB := mb)
    {
      memActualMB := mb;
    }
  }
}
