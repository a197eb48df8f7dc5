/** What single steps of cmd/demohost do, field by field, and how old a pooled session can get. */
module HostEffects {
  import opened Prelude
  import opened HostRegistry
  import opened HostSystem
  import opened HostRuns

  // ---- admission ----

  /** One more session is admitted exactly within all three limits; a refusal names the first one that is full. */
  lemma AdmittedExactlyWhen(c: Config, n: int, mem: int)
    ensures Admit(c, n, mem) == Admitted <==>
      n + 1 <= c.maxSessions && (n + 1) * c.sessionMB <= c.demoBudgetMB && (mem > 0 ==> c.demoBudgetMB - mem >= c.sessionMB)
    ensures Admit(c, n, mem) == AtMax <==> n + 1 > c.maxSessions
    ensures Admit(c, n, mem) == OverMeasured ==> n + 1 <= c.maxSessions && (n + 1) * c.sessionMB <= c.demoBudgetMB
  {}

  // ---- a session's fields ----

  /** A step that registers a session, at `now` on the host's clock, starts its life then. */
  lemma RegisteredAfresh<R>(c: Config, s: System<R>, step: Step<R>)
    requires Enabled(c, s, step) && (step.CreateDirect? || step.PoolRegister?)
    ensures var h := Apply(c, s, step).reg;
      && step.r in h.recs && step.id in h.sessions && h.sessions[step.id] == step.r
      && var k := h.recs[step.r];
        && k.id == step.id && k.phase == Starting && k.createdAt == step.now && k.lastSeenOK == step.now
        && k.expiresAt - step.now == c.ttl
        && (k.pooled <==> step.PoolRegister?)
        && (k.assignedAt == Some(step.now) <==> step.CreateDirect?)
        && h.usedBases - s.reg.usedBases == {k.base} && k.base !in s.reg.usedBases
  {
    AllocIsLowest(c, s.reg.usedBases, step.bindable, 0);
  }

  /** A warm session handed out is a visitor's, running, from now for a whole ttl. */
  lemma HandedOutRuns<R>(c: Config, s: System<R>, r: R, now: int)
    requires Enabled(c, s, CreateTake(r, now))
    ensures var k := Apply(c, s, CreateTake(r, now)).reg.recs[r];
      && k.phase == Running && !k.pooled && k.assignedAt == Some(now) && k.lastSeenOK == now && k.expiresAt - now == c.ttl
  {}

  /** A direct spawn that succeeds runs, whatever the state was, seen healthy now. */
  lemma SpawnedRuns<R>(c: Config, s: System<R>, tid: nat, now: int)
    requires Enabled(c, s, DirectSpawnOk(tid, now))
    ensures var k := Apply(c, s, DirectSpawnOk(tid, now)).reg.recs[s.threads[tid].r];
      k.phase == Running && k.lastSeenOK == now
  {}

  /** A launch that comes to its end leaves its session ready to be handed out, unless it was marked or dropped meanwhile. */
  lemma SettledIsReady<R>(c: Config, s: System<R>, tid: nat)
    requires Inv(c, s) && Enabled(c, s, PoolSettled(tid))
    ensures var r := s.threads[tid].r;
      && (r !in s.marked && Registered(s.reg, r) <==> CanTake(Apply(c, s, PoolSettled(tid)).reg, r))
      && (r in s.marked ==> Apply(c, s, PoolSettled(tid)).reg.recs[r] == s.reg.recs[r])
  {
    assert PcOk(s, s.threads[tid]) && RecOk(s, s.threads[tid].r);
  }

  // ---- removal ----

  /** The id a removing step drops. */
  ghost function RemovedId<R>(s: System<R>, step: Step<R>): Option<Id> {
    match step
    case Cleanup(tid) => if At(s, tid) && s.threads[tid].SpawnFailed? then Some(s.threads[tid].id) else None
    case DeleteRemove(tid, _) => if At(s, tid) && s.threads[tid].Deleting? then Some(s.threads[tid].id) else None
    case RecycleRemove(tid) =>
      if At(s, tid) && s.threads[tid].RecyclerAt? && s.threads[tid].stale != [] && s.threads[tid].stale[0] in s.reg.recs
      then Some(s.reg.recs[s.threads[tid].stale[0]].id) else None
    case ReapRemove(tid) =>
      if At(s, tid) && s.threads[tid].ReaperAt? && s.threads[tid].due != [] && s.threads[tid].due[0] in s.reg.recs
      then Some(s.reg.recs[s.threads[tid].due[0]].id) else None
    case _ => None
  }

  /** After a removal the id is unknown, its port block is free again, and every other session is registered as before. */
  lemma RemovalFrees<R>(c: Config, s: System<R>, step: Step<R>)
    requires PortsOk(c, s.reg) && Enabled(c, s, step) && RemovedId(s, step).Some?
    ensures var id, h := RemovedId(s, step).value, Apply(c, s, step).reg;
      && id !in h.sessions
      && (id in s.reg.sessions ==> BaseAt(s.reg, id) !in h.usedBases)
      && (forall i :: i in s.reg.sessions && i != id ==> i in h.sessions && h.sessions[i] == s.reg.sessions[i])
  {}

  /** What a removal records: when it ended, for how long it was a visitor's, and why. */
  lemma RemovalRecords<R>(c: Config, s: System<R>, step: Step<R>, r: R)
    requires Enabled(c, s, step) && r in s.reg.recs && s.reg.recs[r].assignedAt.Some?
    requires (step.ReapRemove? && s.threads[step.tid].due[0] == r) || (step.DeleteRemove? && s.threads[step.tid].r == r)
    ensures var k, history := s.reg.recs[r], Apply(c, s, step).history;
      && |history| == |s.history| + 1
      && var done := history[|s.history|];
        var ended := if step.ReapRemove? then s.threads[step.tid].started else step.now;
        && done.endedAt == ended / 1_000_000_000 && k.assignedAt.value + done.duration == ended
        && (done.reason == "manual" <==> step.DeleteRemove?)
        && (done.reason == "hard cap" <==> step.ReapRemove? && k.expiresAt < ended)
        && (done.reason == "idle" <==> step.ReapRemove? && ended <= k.expiresAt)
  {}

  /** A session no visitor ever had leaves no record. */
  lemma UnclaimedLeavesNoRecord<R>(c: Config, s: System<R>, step: Step<R>, r: R)
    requires Enabled(c, s, step) && r in s.reg.recs && s.reg.recs[r].assignedAt.None?
    requires (step.ReapRemove? && s.threads[step.tid].due[0] == r) || (step.DeleteRemove? && s.threads[step.tid].r == r)
    ensures Apply(c, s, step).history == s.history
  {}

  // ---- how old a pooled session can get ----

  /** A tick's sweep marks a live pooled session exactly when it is older than the pool allows, and no other session. */
  lemma RecycledExactlyWhen<R>(c: Config, h: Registry<R>, now: int, r: R)
    requires r in h.recs && h.recs[r].phase != Reaping
    ensures r in PoolScan(c, h, now).recs
    ensures PoolScan(c, h, now).recs[r].phase == Reaping <==>
      Registered(h, r) && h.recs[r].pooled && h.recs[r].createdAt + c.warmMaxAge < now
    ensures PoolScan(c, h, now).recs[r] == h.recs[r].(phase := PoolScan(c, h, now).recs[r].phase)
  {}

  /** Every session still in the pool was created at or after `born`. */
  ghost predicate NoneOlder<R>(h: Registry<R>, born: int) {
    forall r :: r in h.recs && Registered(h, r) && h.recs[r].pooled && h.recs[r].phase != Reaping ==> h.recs[r].createdAt >= born
  }

  /** After a tick no pooled session is older than the limit, and all it hands to the recycler were. */
  lemma TickLeavesNoneOlder<R>(c: Config, s: System<R>, step: Step<R>)
    requires Enabled(c, s, step) && step.PoolTick?
    ensures NoneOlder(Apply(c, s, step).reg, step.now - c.warmMaxAge)
    ensures forall r :: r in step.stale ==> r in s.reg.recs && s.reg.recs[r].createdAt < step.now - c.warmMaxAge
  {
    var h := Apply(c, s, step).reg;
    forall r | Registered(h, r) && h.recs[r].pooled && h.recs[r].phase != Reaping
      ensures h.recs[r].createdAt >= step.now - c.warmMaxAge
    {
      if s.reg.recs[r].phase != Reaping {
        RecycledExactlyWhen(c, s.reg, step.now, r);
      }
    }
    forall r | r in step.stale ensures r in s.reg.recs && s.reg.recs[r].createdAt < step.now - c.warmMaxAge {
      assert StaleAt(c, s.reg, step.now, r);
      RecycledExactlyWhen(c, s.reg, step.now, r);
    }
  }

  /** Launches register no session created before `born`. */
  ghost predicate LaunchedSince<R>(steps: seq<Step<R>>, born: int) {
    forall k :: 0 <= k < |steps| && steps[k].PoolRegister? ==> steps[k].now >= born
  }

  lemma RegistrationKept<R>(c: Config, s: System<R>, step: Step<R>, r: R)
    requires Enabled(c, s, step) && r in s.reg.recs && Registered(Apply(c, s, step).reg, r)
    ensures Registered(s.reg, r)
  {}

  lemma NoneOlderStep<R>(c: Config, s: System<R>, step: Step<R>, born: int)
    requires Lively(c, s) && Enabled(c, s, step) && NoneOlder(s.reg, born)
    requires step.PoolRegister? ==> step.now >= born
    ensures NoneOlder(Apply(c, s, step).reg, born)
  {
    var h := Apply(c, s, step).reg;
    forall r | Registered(h, r) && h.recs[r].pooled && h.recs[r].phase != Reaping ensures h.recs[r].createdAt >= born {
      if r in s.reg.recs {
        RegistrationKept(c, s, step, r);
        PooledBefore(c, s, step, r);
        assert RecOk(s, r);
        EvolvesStep(c, s, step, r);
      } else {
        NewRecord(c, s, step, r);
      }
    }
  }

  lemma NewRecord<R>(c: Config, s: System<R>, step: Step<R>, r: R)
    requires Enabled(c, s, step) && r in Apply(c, s, step).reg.recs && r !in s.reg.recs
    ensures (step.CreateDirect? || step.PoolRegister?) && Apply(c, s, step).reg.recs[r].createdAt == step.now
    ensures Apply(c, s, step).reg.recs[r].pooled <==> step.PoolRegister?
  {}

  lemma TakenIsYoung<R>(c: Config, s: System<R>, step: Step<R>, born: int)
    requires Enabled(c, s, step) && step.CreateTake? && NoneOlder(s.reg, born)
    ensures step.r in s.reg.recs && s.reg.recs[step.r].createdAt >= born
  {}

  /** So whatever is handed out before the next tick is no older than the limit was at the last one. */
  lemma {:induction false} HandedOutIsYoung<R>(c: Config, s: System<R>, steps: seq<Step<R>>, born: int, i: nat)
    requires Inv(c, s) && c.sessionMB >= 0 && Valid(c, s, steps) && NoneOlder(s.reg, born) && LaunchedSince(steps, born)
    requires i < |steps| && steps[i].CreateTake?
    ensures var r := steps[i].r; r in Exec(c, s, steps).reg.recs && Exec(c, s, steps).reg.recs[r].createdAt >= born
    decreases |steps|
  {
    if i == 0 {
      TakenIsYoung(c, s, steps[0], born);
      AssignmentIsForGood(c, s, steps, steps[0].r);
    } else {
      assert NoneOlder(Apply(c, s, steps[0]).reg, born) && Inv(c, Apply(c, s, steps[0])) by {
        NoneOlderStep(c, s, steps[0], born);
        InvStep(c, s, steps[0]);
      }
      assert LaunchedSince(steps[1..], born) && steps[1..][i - 1] == steps[i];
      HandedOutIsYoung(c, Apply(c, s, steps[0]), steps[1..], born, i - 1);
    }
  }
}
