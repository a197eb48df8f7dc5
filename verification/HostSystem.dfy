/**
 * cmd/demohost as a transition system: one atomic step per critical section of the host's
 * mutex, any number of requests and goroutines in flight between them. Spawning, settling and
 * reaping a stack are the unlocked gaps; their outcome is chosen by which step comes next.
 */
module HostSystem {
  import opened Prelude
  import opened HostRegistry

  /** Where an in-flight request or goroutine stands, and what it still holds on to. */
  datatype Pc<R> =
    | DirectSpawning(r: R)                  // createSession, between its two critical sections
    | PoolReserved                          // createPooled counted by poolTick, not yet registered
    | PoolSpawning(r: R)
    | PoolSettling(r: R)
    | SpawnFailed(id: Id)                   // either create, about to drop its registration
    | ReaperAt(due: seq<R>, started: int)   // reapOnce's second loop
    | RecyclerAt(stale: seq<R>)             // poolTick's recycling loop
    | Deleting(id: Id, r: R)                // deleteSession, between its critical sections

  /** `marked` and `history` only remember: objects ever set to reaping, completions ever appended. */
  datatype System<R> = System(
    reg: Registry<R>, threads: map<nat, Pc<R>>, marked: set<R>, history: seq<Completion>)

  datatype Step<R> =
    | CreateTake(r: R, now: int)
    | CreateDirect(tid: nat, r: R, id: Id, bindable: set<int>, now: int)
    | DirectSpawnOk(tid: nat, now: int)
    | SpawnFail(tid: nat)
    | Cleanup(tid: nat)
    | PoolTick(tid: nat, launched: set<nat>, stale: seq<R>, now: int)
    | PoolRegister(tid: nat, r: R, id: Id, bindable: set<int>, now: int)
    | PoolNoPort(tid: nat, bindable: set<int>)
    | PoolSpawnOk(tid: nat, now: int)
    | PoolSettled(tid: nat)
    | RecycleRemove(tid: nat)
    | ReapMark(tid: nat, due: seq<R>, now: int, polls: map<Id, Poll>)
    | ReapRemove(tid: nat)
    | DeleteMark(tid: nat, id: Id)
    | DeleteRemove(tid: nat, now: int)
    | SampleMemory(mb: int)

  ghost predicate At<R>(s: System<R>, tid: nat) { tid in s.threads }

  ghost function Reason(rec: Rec, started: int): string { if started > rec.expiresAt then "hard cap" else "idle" }

  ghost predicate StaleAt<R>(c: Config, h: Registry<R>, now: int, r: R) {
    Registered(h, r) && Stale(c, h.recs[r], now)
  }

  ghost predicate Enabled<R>(c: Config, s: System<R>, step: Step<R>) {
    match step
    case CreateTake(r, now) => CanTake(s.reg, r)
    case CreateDirect(tid, r, id, bindable, now) =>
      && tid !in s.threads && r !in s.reg.recs && id !in s.reg.sessions
      && (forall q :: q in s.reg.recs ==> !CanTake(s.reg, q))
      && AdmitNow(c, s.reg).Admitted?
      && Alloc(c, s.reg.usedBases, bindable).Some?
    case DirectSpawnOk(tid, now) =>
      At(s, tid) && s.threads[tid].DirectSpawning? && s.threads[tid].r in s.reg.recs
    case SpawnFail(tid) =>
      At(s, tid) && (s.threads[tid].DirectSpawning? || s.threads[tid].PoolSpawning?) && s.threads[tid].r in s.reg.recs
    case Cleanup(tid) => At(s, tid) && s.threads[tid].SpawnFailed?
    case PoolTick(tid, launched, stale, now) =>
      && tid !in s.threads && tid !in launched && launched !! s.threads.Keys
      && |launched| == Launches(c, RecycleScan(c, s.reg, now))
      && Distinct(stale)
      && (forall r :: r in stale ==> StaleAt(c, s.reg, now, r))
      && (forall r :: r in s.reg.recs && StaleAt(c, s.reg, now, r) ==> r in stale)
    case PoolRegister(tid, r, id, bindable, now) =>
      && At(s, tid) && s.threads[tid].PoolReserved? && r !in s.reg.recs && id !in s.reg.sessions
      && Alloc(c, s.reg.usedBases, bindable).Some?
    case PoolNoPort(tid, bindable) =>
      At(s, tid) && s.threads[tid].PoolReserved? && Alloc(c, s.reg.usedBases, bindable).None?
    case PoolSpawnOk(tid, now) => At(s, tid) && s.threads[tid].PoolSpawning? && s.threads[tid].r in s.reg.recs
    case PoolSettled(tid) => At(s, tid) && s.threads[tid].PoolSettling? && s.threads[tid].r in s.reg.recs
    case RecycleRemove(tid) =>
      At(s, tid) && s.threads[tid].RecyclerAt? && s.threads[tid].stale != [] && s.threads[tid].stale[0] in s.reg.recs
    case ReapMark(tid, due, now, polls) =>
      && tid !in s.threads && Distinct(due)
      && (forall r :: r in due ==> DueAt(s.reg, now, polls, r))
      && (forall r :: r in s.reg.recs && DueAt(s.reg, now, polls, r) ==> r in due)
    case ReapRemove(tid) =>
      At(s, tid) && s.threads[tid].ReaperAt? && s.threads[tid].due != [] && s.threads[tid].due[0] in s.reg.recs
    case DeleteMark(tid, id) => tid !in s.threads && id in s.reg.sessions && s.reg.sessions[id] in s.reg.recs
    case DeleteRemove(tid, now) => At(s, tid) && s.threads[tid].Deleting? && s.threads[tid].r in s.reg.recs
    case SampleMemory(mb) => true
  }

  ghost function Done<R>(s: System<R>, tid: nat): map<nat, Pc<R>> { s.threads - {tid} }

  ghost function NowAt<R>(s: System<R>, tid: nat, pc: Pc<R>): map<nat, Pc<R>> { s.threads[tid := pc] }

  ghost function Launched<R>(tids: set<nat>): map<nat, Pc<R>> { map t | t in tids :: PoolReserved }

  ghost function Apply<R>(c: Config, s: System<R>, step: Step<R>): System<R>
    requires Enabled(c, s, step)
  {
    match step
    case CreateTake(r, now) => s.(reg := SetRec(s.reg, r, Taken(c, s.reg.recs[r], now)))
    case CreateDirect(tid, r, id, bindable, now) =>
      s.(reg := Register(s.reg, r, NewRec(c, id, Alloc(c, s.reg.usedBases, bindable).value, now, false)),
         threads := NowAt(s, tid, DirectSpawning(r)))
    case DirectSpawnOk(tid, now) =>
      var r := s.threads[tid].r;
      s.(reg := SetRec(s.reg, r, DirectUp(s.reg.recs[r], now)), threads := Done(s, tid))
    case SpawnFail(tid) => s.(threads := NowAt(s, tid, SpawnFailed(s.reg.recs[s.threads[tid].r].id)))
    case Cleanup(tid) => s.(reg := Remove(s.reg, s.threads[tid].id), threads := Done(s, tid))
    case PoolTick(tid, launched, stale, now) =>
      s.(reg := PoolScan(c, s.reg, now),
         threads := NowAt(s, tid, RecyclerAt(stale)) + Launched(launched),
         marked := s.marked + set r | r in stale)
    case PoolRegister(tid, r, id, bindable, now) =>
      var h := Register(s.reg, r, NewRec(c, id, Alloc(c, s.reg.usedBases, bindable).value, now, true));
      s.(reg := h.(poolInFlight := h.poolInFlight - 1), threads := NowAt(s, tid, PoolSpawning(r)))
    case PoolNoPort(tid, bindable) =>
      s.(reg := s.reg.(poolInFlight := s.reg.poolInFlight - 1), threads := Done(s, tid))
    case PoolSpawnOk(tid, now) =>
      var r := s.threads[tid].r;
      s.(reg := SetRec(s.reg, r, PoolUp(s.reg.recs[r], now)), threads := NowAt(s, tid, PoolSettling(r)))
    case PoolSettled(tid) =>
      var r := s.threads[tid].r;
      s.(reg := SetRec(s.reg, r, Settled(s.reg.recs[r])), threads := Done(s, tid))
    case RecycleRemove(tid) =>
      var stale := s.threads[tid].stale;
      s.(reg := Remove(s.reg, s.reg.recs[stale[0]].id), threads := NowAt(s, tid, RecyclerAt(stale[1..])))
    case ReapMark(tid, due, now, polls) =>
      s.(reg := ReapScan(s.reg, now, polls), threads := NowAt(s, tid, ReaperAt(due, now)),
         marked := s.marked + set r | r in due)
    case ReapRemove(tid) =>
      var due, started := s.threads[tid].due, s.threads[tid].started;
      var rec := s.reg.recs[due[0]];
      Ended(s, rec.id, rec, Reason(rec, started), started).(threads := NowAt(s, tid, ReaperAt(due[1..], started)))
    case DeleteMark(tid, id) =>
      var r := s.reg.sessions[id];
      s.(reg := SetRec(s.reg, r, s.reg.recs[r].(phase := Reaping)),
         threads := NowAt(s, tid, Deleting(id, r)), marked := s.marked + {r})
    case DeleteRemove(tid, now) =>
      var pc := s.threads[tid];
      Ended(s, pc.id, s.reg.recs[pc.r], "manual", now).(threads := Done(s, tid))
    case SampleMemory(mb) => s.(reg := s.reg.(memActualMB := mb))
  }

  /** removeLocked and appendCompletionLocked in one critical section. */
  ghost function Ended<R>(s: System<R>, id: Id, rec: Rec, reason: string, at: int): System<R> {
    s.(reg := AppendCompletion(Remove(s.reg, id), rec, reason, at),
       history := s.history + CompletionOf(rec, reason, at))
  }

  ghost predicate Init<R>(s: System<R>) {
    s.reg.sessions == map[] && s.reg.recs == map[] && s.reg.usedBases == {} && s.reg.completions == []
    && s.reg.poolInFlight == 0 && s.threads == map[] && s.marked == {} && s.history == []
  }

  ghost predicate Valid<R>(c: Config, s: System<R>, steps: seq<Step<R>>)
    decreases |steps|
  {
    steps != [] ==> Enabled(c, s, steps[0]) && Valid(c, Apply(c, s, steps[0]), steps[1..])
  }

  /** The state a run ends in. */
  ghost function Exec<R>(c: Config, s: System<R>, steps: seq<Step<R>>): System<R>
    requires Valid(c, s, steps)
    decreases |steps|
  {
    if steps == [] then s else Exec(c, Apply(c, s, steps[0]), steps[1..])
  }

  // ---- the inductive invariant ----

  ghost predicate Owns<R>(pc: Pc<R>, r: R) {
    (pc.DirectSpawning? || pc.PoolSpawning? || pc.PoolSettling?) && pc.r == r
  }

  /** The life cycle of every session object, registered or already dropped. */
  ghost predicate RecOk<R>(s: System<R>, r: R)
    requires r in s.reg.recs
  {
    var k := s.reg.recs[r];
    && (k.pooled <==> k.assignedAt.None?)
    && (k.phase == Warming || k.phase == Ready ==> k.pooled)
    && (k.phase == Running ==> !k.pooled)
    && (k.phase == Reaping ==> r in s.marked)
    && (r in s.marked ==> k.phase == Reaping || k.phase == Running)
  }

  ghost predicate LifeOk<R>(s: System<R>) { forall r :: r in s.reg.recs ==> RecOk(s, r) }

  ghost predicate PcOk<R>(s: System<R>, pc: Pc<R>) {
    match pc
    case DirectSpawning(r) =>
      r in s.reg.recs && !s.reg.recs[r].pooled && (s.reg.recs[r].phase == Starting || s.reg.recs[r].phase == Reaping)
    case PoolSpawning(r) =>
      r in s.reg.recs && s.reg.recs[r].pooled && (s.reg.recs[r].phase == Starting || s.reg.recs[r].phase == Reaping)
    case PoolSettling(r) =>
      r in s.reg.recs && s.reg.recs[r].pooled && (s.reg.recs[r].phase == Warming || s.reg.recs[r].phase == Reaping)
    case PoolReserved => true
    case SpawnFailed(id) => true
    case ReaperAt(due, started) => forall r :: r in due ==> r in s.reg.recs && r in s.marked
    case RecyclerAt(stale) => forall r :: r in stale ==> r in s.reg.recs && r in s.marked
    case Deleting(id, r) => r in s.reg.recs && r in s.marked
  }

  ghost predicate ThreadsOk<R>(s: System<R>) { forall t :: t in s.threads ==> PcOk(s, s.threads[t]) }

  /** A session object is being brought up by one goroutine at most. */
  ghost predicate OwnersOk<R>(s: System<R>) {
    forall t, u, r :: t in s.threads && u in s.threads && r in s.reg.recs && Owns(s.threads[t], r) && Owns(s.threads[u], r) ==> t == u
  }

  ghost function Reserved<R>(s: System<R>): set<nat> { set t | t in s.threads && s.threads[t].PoolReserved? }

  /** Registered sessions never marked for removal. */
  ghost function Unmarked<R>(s: System<R>): set<Id> { set id | id in s.reg.sessions && s.reg.sessions[id] !in s.marked }

  ghost predicate AdmissionOk<R>(c: Config, s: System<R>) { Fits(c, |Unmarked(s)| + s.reg.poolInFlight) }

  ghost predicate PoolOk<R>(c: Config, h: Registry<R>) { |PooledLive(h)| + h.poolInFlight <= Max(0, c.warmPool) }

  ghost predicate Lively<R>(c: Config, s: System<R>) {
    PortsOk(c, s.reg) && LifeOk(s) && ThreadsOk(s) && OwnersOk(s) && s.marked <= s.reg.recs.Keys
  }

  ghost predicate Inv<R>(c: Config, s: System<R>) {
    && Lively(c, s)
    && s.reg.poolInFlight == |Reserved(s)|
    && AdmissionOk(c, s)
    && PoolOk(c, s.reg)
    && s.reg.completions == Last1000(s.history)
  }

  // ---- preservation, one conjunct at a time ----

  lemma PortsOnRegister<R>(c: Config, s: System<R>, step: Step<R>)
    requires PortsOk(c, s.reg) && Enabled(c, s, step) && (step.CreateDirect? || step.PoolRegister?)
    ensures PortsOk(c, Apply(c, s, step).reg)
  {
    var rec := NewRec(c, step.id, Alloc(c, s.reg.usedBases, step.bindable).value, step.now, step.PoolRegister?);
    PortsRegister(c, s.reg, step.r, rec, step.bindable);
    PortsInPlace(c, Register(s.reg, step.r, rec), Apply(c, s, step).reg);
  }

  lemma PortsOnRemove<R>(c: Config, s: System<R>, step: Step<R>, id: Id)
    requires PortsOk(c, s.reg) && Enabled(c, s, step)
    requires Apply(c, s, step).reg == Remove(s.reg, id).(completions := Apply(c, s, step).reg.completions)
    ensures PortsOk(c, Apply(c, s, step).reg)
  {
    PortsRemove(c, s.reg, id);
    PortsInPlace(c, Remove(s.reg, id), Apply(c, s, step).reg);
  }

  /** Neither registers nor drops a session. */
  ghost predicate Updates<R>(step: Step<R>) {
    && !step.CreateDirect? && !step.PoolRegister?
    && !step.Cleanup? && !step.RecycleRemove? && !step.ReapRemove? && !step.DeleteRemove?
  }

  lemma UpdateInPlace<R>(c: Config, s: System<R>, step: Step<R>)
    requires Enabled(c, s, step) && Updates(step)
    ensures InPlace(s.reg, Apply(c, s, step).reg)
  {}

  lemma PortsOnUpdate<R>(c: Config, s: System<R>, step: Step<R>)
    requires PortsOk(c, s.reg) && Enabled(c, s, step) && Updates(step)
    ensures PortsOk(c, Apply(c, s, step).reg)
  {
    UpdateInPlace(c, s, step);
    PortsInPlace(c, s.reg, Apply(c, s, step).reg);
  }

  lemma PortsStep<R>(c: Config, s: System<R>, step: Step<R>)
    requires PortsOk(c, s.reg) && Enabled(c, s, step)
    ensures PortsOk(c, Apply(c, s, step).reg)
  {
    match step
    case CreateDirect(tid, r, id, bindable, now) => PortsOnRegister(c, s, step);
    case PoolRegister(tid, r, id, bindable, now) => PortsOnRegister(c, s, step);
    case Cleanup(tid) => PortsOnRemove(c, s, step, s.threads[tid].id);
    case RecycleRemove(tid) => PortsOnRemove(c, s, step, s.reg.recs[s.threads[tid].stale[0]].id);
    case ReapRemove(tid) => PortsOnRemove(c, s, step, s.reg.recs[s.threads[tid].due[0]].id);
    case DeleteRemove(tid, now) => PortsOnRemove(c, s, step, s.threads[tid].id);
    case _ => assert Updates(step); PortsOnUpdate(c, s, step);
  }

  lemma LifeOnMarking<R>(c: Config, s: System<R>, step: Step<R>, r: R)
    requires Enabled(c, s, step) && (step.PoolTick? || step.ReapMark? || step.DeleteMark?)
    requires r in s.reg.recs && RecOk(s, r)
    ensures RecOk(Apply(c, s, step), r)
  {
    match step
    case PoolTick(tid, launched, stale, now) => assert r in stale <==> StaleAt(c, s.reg, now, r);
    case ReapMark(tid, due, now, polls) => assert r in due <==> DueAt(s.reg, now, polls, r);
    case _ =>
  }

  lemma LifeOnMove<R>(c: Config, s: System<R>, step: Step<R>, r: R)
    requires Enabled(c, s, step) && !step.PoolTick? && !step.ReapMark? && !step.DeleteMark?
    requires ThreadsOk(s) && s.marked <= s.reg.recs.Keys
    requires r in Apply(c, s, step).reg.recs && (r in s.reg.recs ==> RecOk(s, r))
    ensures RecOk(Apply(c, s, step), r)
  {
    if step.DirectSpawnOk? || step.PoolSpawnOk? {
      assert PcOk(s, s.threads[step.tid]);
    }
  }

  lemma LifeStep<R>(c: Config, s: System<R>, step: Step<R>)
    requires Lively(c, s) && Enabled(c, s, step)
    ensures LifeOk(Apply(c, s, step))
  {
    forall r | r in Apply(c, s, step).reg.recs ensures RecOk(Apply(c, s, step), r) {
      if step.PoolTick? || step.ReapMark? || step.DeleteMark? {
        LifeOnMarking(c, s, step, r);
      } else {
        LifeOnMove(c, s, step, r);
      }
    }
  }

  /** Only registering gives a goroutine a session to bring up, and then a new one. */
  lemma OwnedBefore<R>(c: Config, s: System<R>, step: Step<R>, t: nat, r: R)
    requires Enabled(c, s, step) && t in Apply(c, s, step).threads && Owns(Apply(c, s, step).threads[t], r)
    ensures (t in s.threads && Owns(s.threads[t], r))
      || ((step.CreateDirect? || step.PoolRegister?) && t == step.tid && r == step.r && r !in s.reg.recs)
  {}

  lemma OneOwner<R>(c: Config, s: System<R>, step: Step<R>, t: nat, u: nat, r: R)
    requires ThreadsOk(s) && OwnersOk(s) && Enabled(c, s, step)
    requires var threads := Apply(c, s, step).threads;
      t in threads && u in threads && Owns(threads[t], r) && Owns(threads[u], r)
    ensures t == u
  {
    OwnedBefore(c, s, step, t, r);
    OwnedBefore(c, s, step, u, r);
    OwnedIsThere(s, t, r);
    OwnedIsThere(s, u, r);
  }

  lemma OwnedIsThere<R>(s: System<R>, t: nat, r: R)
    requires ThreadsOk(s)
    ensures t in s.threads && Owns(s.threads[t], r) ==> r in s.reg.recs
  {
    if t in s.threads {
      assert PcOk(s, s.threads[t]);
    }
  }

  lemma OwnersStep<R>(c: Config, s: System<R>, step: Step<R>)
    requires ThreadsOk(s) && OwnersOk(s) && Enabled(c, s, step)
    ensures OwnersOk(Apply(c, s, step))
  {
    var threads := Apply(c, s, step).threads;
    forall t, u, r | t in threads && u in threads && Owns(threads[t], r) && Owns(threads[u], r) ensures t == u {
      OneOwner(c, s, step, t, u, r);
    }
  }

  /** What any other goroutine may do to a session one is still bringing up: mark it for removal. */
  ghost predicate Kept(k: Rec, k': Rec) { k'.pooled == k.pooled && (k'.phase == k.phase || k'.phase == Reaping) }

  /** The session a step hands out, or moves on in its goroutine's life. */
  ghost predicate Moves<R>(s: System<R>, step: Step<R>, r: R) {
    (step.CreateTake? && step.r == r)
    || ((step.DirectSpawnOk? || step.PoolSpawnOk? || step.PoolSettled?)
        && At(s, step.tid) && Owns(s.threads[step.tid], r))
  }

  lemma RecKept<R>(c: Config, s: System<R>, step: Step<R>, r: R)
    requires Enabled(c, s, step) && r in s.reg.recs && !Moves(s, step, r)
    ensures r in Apply(c, s, step).reg.recs && Kept(s.reg.recs[r], Apply(c, s, step).reg.recs[r])
  {}

  lemma RecStays<R>(c: Config, s: System<R>, step: Step<R>, r: R)
    requires Enabled(c, s, step) && r in s.reg.recs
    ensures r in Apply(c, s, step).reg.recs
  {}

  /** A goroutine whose session moves on has itself moved on. */
  lemma MoverChanges<R>(c: Config, s: System<R>, step: Step<R>)
    requires Enabled(c, s, step) && (step.DirectSpawnOk? || step.PoolSpawnOk? || step.PoolSettled?)
    ensures var threads := Apply(c, s, step).threads;
      step.tid in threads ==> threads[step.tid] != s.threads[step.tid]
  {}

  lemma PcKept<R>(s: System<R>, s': System<R>, pc: Pc<R>)
    requires PcOk(s, pc)
    requires s.reg.recs.Keys <= s'.reg.recs.Keys && s.marked <= s'.marked
    requires forall r :: r in s.reg.recs && Owns(pc, r) ==> Kept(s.reg.recs[r], s'.reg.recs[r])
    ensures PcOk(s', pc)
  {}

  lemma OtherThreadsKept<R>(c: Config, s: System<R>, step: Step<R>, t: nat, r: R)
    requires Lively(c, s) && Enabled(c, s, step)
    requires t in s.threads && r in s.reg.recs && Owns(s.threads[t], r)
    requires t in Apply(c, s, step).threads && Apply(c, s, step).threads[t] == s.threads[t]
    ensures !Moves(s, step, r)
  {
    assert PcOk(s, s.threads[t]);
    if step.DirectSpawnOk? || step.PoolSpawnOk? || step.PoolSettled? {
      MoverChanges(c, s, step);
    }
  }

  lemma MarkedGrows<R>(c: Config, s: System<R>, step: Step<R>)
    requires Enabled(c, s, step)
    ensures s.marked <= Apply(c, s, step).marked
  {}

  lemma ThreadsStep<R>(c: Config, s: System<R>, step: Step<R>)
    requires Lively(c, s) && Enabled(c, s, step)
    ensures ThreadsOk(Apply(c, s, step))
  {
    var s' := Apply(c, s, step);
    forall t | t in s'.threads ensures PcOk(s', s'.threads[t]) {
      if t in s.threads && s'.threads[t] == s.threads[t] {
        forall r | r in s.reg.recs
          ensures r in s'.reg.recs && (Owns(s.threads[t], r) ==> Kept(s.reg.recs[r], s'.reg.recs[r]))
        {
          RecStays(c, s, step, r);
          if Owns(s.threads[t], r) {
            OtherThreadsKept(c, s, step, t, r);
            RecKept(c, s, step, r);
          }
        }
        MarkedGrows(c, s, step);
        PcKept(s, s', s.threads[t]);
      } else {
        NewPcOk(c, s, step, t);
      }
    }
  }

  lemma NewPcOk<R>(c: Config, s: System<R>, step: Step<R>, t: nat)
    requires Lively(c, s) && Enabled(c, s, step)
    requires t in Apply(c, s, step).threads
    requires t in s.threads ==> Apply(c, s, step).threads[t] != s.threads[t]
    ensures PcOk(Apply(c, s, step), Apply(c, s, step).threads[t])
  {
    if step.PoolTick? || step.ReapMark? || step.DeleteMark? {
      MarkerOk(c, s, step, t);
    } else {
      MoverOk(c, s, step, t);
    }
  }

  lemma MarkerOk<R>(c: Config, s: System<R>, step: Step<R>, t: nat)
    requires Enabled(c, s, step) && (step.PoolTick? || step.ReapMark? || step.DeleteMark?)
    requires t in Apply(c, s, step).threads
    requires t in s.threads ==> Apply(c, s, step).threads[t] != s.threads[t]
    ensures PcOk(Apply(c, s, step), Apply(c, s, step).threads[t])
  {}

  lemma MoverOk<R>(c: Config, s: System<R>, step: Step<R>, t: nat)
    requires ThreadsOk(s) && Enabled(c, s, step) && !step.PoolTick? && !step.ReapMark? && !step.DeleteMark?
    requires t in Apply(c, s, step).threads
    requires t in s.threads ==> Apply(c, s, step).threads[t] != s.threads[t]
    ensures PcOk(Apply(c, s, step), Apply(c, s, step).threads[t])
  {
    assert t in s.threads ==> PcOk(s, s.threads[t]);
  }

  lemma ReservedSame<R>(c: Config, s: System<R>, step: Step<R>, t: nat)
    requires Enabled(c, s, step) && !step.PoolTick? && !step.PoolRegister? && !step.PoolNoPort?
    ensures var s' := Apply(c, s, step); t in Reserved(s') <==> t in Reserved(s)
    ensures Apply(c, s, step).reg.poolInFlight == s.reg.poolInFlight
  {}

  lemma ReservedTick<R>(c: Config, s: System<R>, step: Step<R>, t: nat)
    requires Enabled(c, s, step) && step.PoolTick?
    ensures t in Reserved(Apply(c, s, step)) <==> t in Reserved(s) || t in step.launched
  {}

  lemma InFlightTick<R>(c: Config, s: System<R>, step: Step<R>)
    requires step.PoolTick? && Enabled(c, s, step) && s.reg.poolInFlight == |Reserved(s)|
    ensures var s' := Apply(c, s, step); s'.reg.poolInFlight == |Reserved(s')|
  {
    forall t: nat { ReservedTick(c, s, step, t); }
    SplitCard(Reserved(Apply(c, s, step)), Reserved(s), step.launched);
  }

  lemma InFlightLeaves<R>(c: Config, s: System<R>, step: Step<R>)
    requires step.PoolRegister? || step.PoolNoPort?
    requires Enabled(c, s, step) && s.reg.poolInFlight == |Reserved(s)|
    ensures var s' := Apply(c, s, step); s'.reg.poolInFlight == |Reserved(s')|
  {
    var s' := Apply(c, s, step);
    assert forall t :: t in Reserved(s') <==> t in Reserved(s) && t != step.tid;
    SplitCard(Reserved(s), Reserved(s'), {step.tid});
  }

  /** The in-flight counter is exactly the number of launches not yet registered. */
  lemma InFlightStep<R>(c: Config, s: System<R>, step: Step<R>)
    requires Enabled(c, s, step) && s.reg.poolInFlight == |Reserved(s)|
    ensures var s' := Apply(c, s, step); s'.reg.poolInFlight == |Reserved(s')|
  {
    var s' := Apply(c, s, step);
    if step.PoolTick? {
      InFlightTick(c, s, step);
    } else if step.PoolRegister? || step.PoolNoPort? {
      InFlightLeaves(c, s, step);
    } else {
      forall t: nat { ReservedSame(c, s, step, t); }
      assert Reserved(s') == Reserved(s);
    }
  }

  /** Only the two registering steps add to the registry; every other step keeps or drops entries. */
  lemma SessionsShrink<R>(c: Config, s: System<R>, step: Step<R>, id: Id)
    requires Enabled(c, s, step) && !step.CreateDirect? && !step.PoolRegister?
    ensures var s' := Apply(c, s, step);
      && (id in s'.reg.sessions ==> id in s.reg.sessions && s'.reg.sessions[id] == s.reg.sessions[id])
      && s.marked <= s'.marked
  {}

  lemma UnmarkedShrinks<R>(c: Config, s: System<R>, step: Step<R>)
    requires Enabled(c, s, step) && !step.CreateDirect? && !step.PoolRegister?
    ensures |Unmarked(Apply(c, s, step))| <= |Unmarked(s)|
  {
    var s' := Apply(c, s, step);
    forall id | id in Unmarked(s') ensures id in Unmarked(s) {
      SessionsShrink(c, s, step, id);
    }
    SubsetCard(Unmarked(s'), Unmarked(s));
  }

  lemma UnmarkedLive<R>(s: System<R>)
    requires LifeOk(s) && Wf(s.reg)
    ensures |Unmarked(s)| <= |Live(s.reg)|
  {
    forall id | id in Unmarked(s) ensures id in Live(s.reg) {
      assert RecOk(s, s.reg.sessions[id]);
    }
    SubsetCard(Unmarked(s), Live(s.reg));
  }

  lemma UnmarkedRegister<R>(s: System<R>, s': System<R>, r: R, id: Id)
    requires Wf(s.reg) && s.marked <= s.reg.recs.Keys && r !in s.reg.recs && id !in s.reg.sessions
    requires s'.reg.sessions == s.reg.sessions[id := r] && s'.marked == s.marked
    ensures |Unmarked(s')| == |Unmarked(s)| + 1
  {
    assert Unmarked(s') == Unmarked(s) + {id};
  }

  /** Sessions never marked for removal, together with the launches in flight, stay within both limits. */
  lemma AdmissionStep<R>(c: Config, s: System<R>, step: Step<R>)
    requires Lively(c, s) && AdmissionOk(c, s) && c.sessionMB >= 0 && Enabled(c, s, step)
    ensures AdmissionOk(c, Apply(c, s, step))
  {
    var s' := Apply(c, s, step);
    if step.CreateDirect? {
      DirectFits(c, s, step);
    } else if step.PoolRegister? {
      UnmarkedRegister(s, s', step.r, step.id);
    } else if step.PoolTick? {
      LifeStep(c, s, step);
      PortsStep(c, s, step);
      UnmarkedLive(s');
      UnmarkedShrinks(c, s, step);
      TickFits(c, s, step);
    } else {
      UnmarkedShrinks(c, s, step);
      InFlightFalls(c, s, step);
      FitsDown(c, |Unmarked(s)| + s.reg.poolInFlight, |Unmarked(s')| + s'.reg.poolInFlight);
    }
  }

  lemma DirectFits<R>(c: Config, s: System<R>, step: Step<R>)
    requires Lively(c, s) && c.sessionMB >= 0 && step.CreateDirect? && Enabled(c, s, step)
    ensures AdmissionOk(c, Apply(c, s, step))
  {
    var s' := Apply(c, s, step);
    UnmarkedLive(s);
    UnmarkedRegister(s, s', step.r, step.id);
    var n := |Live(s.reg)| + s.reg.poolInFlight + 1;
    assert Fits(c, n);
    FitsDown(c, n, |Unmarked(s')| + s'.reg.poolInFlight);
  }

  lemma InFlightFalls<R>(c: Config, s: System<R>, step: Step<R>)
    requires Enabled(c, s, step) && !step.PoolTick?
    ensures Apply(c, s, step).reg.poolInFlight <= s.reg.poolInFlight
  {}

  lemma TickFits<R>(c: Config, s: System<R>, step: Step<R>)
    requires step.PoolTick? && Enabled(c, s, step) && c.sessionMB >= 0
    requires var s' := Apply(c, s, step); |Unmarked(s')| <= |Unmarked(s)| && |Unmarked(s')| <= |Live(s'.reg)|
    requires AdmissionOk(c, s)
    ensures AdmissionOk(c, Apply(c, s, step))
  {
    var s' := Apply(c, s, step);
    var swept := RecycleScan(c, s.reg, step.now);
    assert Live(s'.reg) == Live(swept);
    LaunchLoopSafe(c, |PooledLive(swept)|, swept.poolInFlight, 0, |Live(swept)|, swept.memActualMB);
    if Launches(c, swept) == 0 {
      FitsDown(c, |Unmarked(s)| + s.reg.poolInFlight, |Unmarked(s')| + s'.reg.poolInFlight);
    } else {
      FitsDown(c, |Live(swept)| + swept.poolInFlight + Launches(c, swept), |Unmarked(s')| + s'.reg.poolInFlight);
    }
  }

  lemma PooledRegister<R>(c: Config, s: System<R>, step: Step<R>)
    requires Lively(c, s) && Enabled(c, s, step) && step.PoolRegister?
    ensures |PooledLive(Apply(c, s, step).reg)| == |PooledLive(s.reg)| + 1
  {
    var rec := NewRec(c, step.id, Alloc(c, s.reg.usedBases, step.bindable).value, step.now, true);
    RegisterCounts(s.reg, step.r, rec);
    assert PooledLive(Apply(c, s, step).reg) == PooledLive(Register(s.reg, step.r, rec));
  }

  /** The pool never holds, or has on the way, more sessions than it is sized for. */
  lemma PoolStep<R>(c: Config, s: System<R>, step: Step<R>)
    requires Lively(c, s) && PoolOk(c, s.reg) && Enabled(c, s, step)
    ensures PoolOk(c, Apply(c, s, step).reg)
  {
    var h, g := s.reg, Apply(c, s, step).reg;
    if step.PoolRegister? {
      PooledRegister(c, s, step);
    } else {
      PooledShrinks(c, s, step);
      SubsetCard(PooledLive(g), PooledLive(h));
      if step.PoolTick? {
        TickPool(c, s, step);
      } else {
        InFlightFalls(c, s, step);
      }
    }
  }

  lemma TickPool<R>(c: Config, s: System<R>, step: Step<R>)
    requires step.PoolTick? && Enabled(c, s, step) && PoolOk(c, s.reg)
    requires |PooledLive(Apply(c, s, step).reg)| <= |PooledLive(s.reg)|
    ensures PoolOk(c, Apply(c, s, step).reg)
  {
    var swept := RecycleScan(c, s.reg, step.now);
    assert PooledLive(Apply(c, s, step).reg) == PooledLive(swept);
    LaunchLoopSafe(c, |PooledLive(swept)|, swept.poolInFlight, 0, |Live(swept)|, swept.memActualMB);
  }

  ghost predicate BecamePooled(k: Rec, k': Rec) {
    k'.pooled && k'.phase != Reaping && !(k.pooled && k.phase != Reaping)
  }

  lemma PooledMoves<R>(c: Config, s: System<R>, step: Step<R>, r: R)
    requires Lively(c, s) && Enabled(c, s, step) && r in s.reg.recs && Moves(s, step, r)
    ensures r in Apply(c, s, step).reg.recs && !BecamePooled(s.reg.recs[r], Apply(c, s, step).reg.recs[r])
  {
    if !step.CreateTake? {
      assert PcOk(s, s.threads[step.tid]);
    }
  }

  /** No step turns an existing session into a live pooled one. */
  lemma PooledBefore<R>(c: Config, s: System<R>, step: Step<R>, r: R)
    requires Lively(c, s) && Enabled(c, s, step) && r in s.reg.recs
    ensures r in Apply(c, s, step).reg.recs && !BecamePooled(s.reg.recs[r], Apply(c, s, step).reg.recs[r])
  {
    if Moves(s, step, r) {
      PooledMoves(c, s, step, r);
    } else {
      RecKept(c, s, step, r);
    }
  }

  lemma PooledShrinks<R>(c: Config, s: System<R>, step: Step<R>)
    requires Lively(c, s) && Enabled(c, s, step) && !step.PoolRegister?
    ensures PooledLive(Apply(c, s, step).reg) <= PooledLive(s.reg)
  {
    var g := Apply(c, s, step).reg;
    forall id | id in PooledLive(g) ensures id in PooledLive(s.reg) {
      if !step.CreateDirect? {
        SessionsShrink(c, s, step, id);
      }
      if g.sessions[id] in s.reg.recs {
        PooledBefore(c, s, step, g.sessions[id]);
      }
    }
  }

  lemma RingStep<R>(c: Config, s: System<R>, step: Step<R>)
    requires Enabled(c, s, step) && s.reg.completions == Last1000(s.history)
    ensures var s' := Apply(c, s, step); s'.reg.completions == Last1000(s'.history)
  {
    match step
    case ReapRemove(tid) =>
      var rec := s.reg.recs[s.threads[tid].due[0]];
      RingAppend(s.history, CompletionOf(rec, Reason(rec, s.threads[tid].started), s.threads[tid].started));
    case DeleteRemove(tid, now) => RingAppend(s.history, CompletionOf(s.reg.recs[s.threads[tid].r], "manual", now));
    case _ =>
  }

  lemma MarkedStep<R>(c: Config, s: System<R>, step: Step<R>)
    requires Enabled(c, s, step) && s.marked <= s.reg.recs.Keys
    ensures Apply(c, s, step).marked <= Apply(c, s, step).reg.recs.Keys
  {}

  lemma LivelyStep<R>(c: Config, s: System<R>, step: Step<R>)
    requires Lively(c, s) && Enabled(c, s, step)
    ensures Lively(c, Apply(c, s, step))
  {
    PortsStep(c, s, step);
    LifeStep(c, s, step);
    ThreadsStep(c, s, step);
    OwnersStep(c, s, step);
    MarkedStep(c, s, step);
  }

  lemma InvStep<R>(c: Config, s: System<R>, step: Step<R>)
    requires Inv(c, s) && c.sessionMB >= 0 && Enabled(c, s, step)
    ensures Inv(c, Apply(c, s, step))
  {
    LivelyStep(c, s, step);
    InFlightStep(c, s, step);
    AdmissionStep(c, s, step);
    PoolStep(c, s, step);
    RingStep(c, s, step);
  }

  // ---- theorems over every run ----

  /** Every reachable state satisfies the invariant. */
  lemma {:induction false} InvRun<R>(c: Config, s: System<R>, steps: seq<Step<R>>)
    requires Inv(c, s) && c.sessionMB >= 0 && Valid(c, s, steps)
    ensures Inv(c, Exec(c, s, steps))
    decreases |steps|
  {
    if steps != [] {
      InvStep(c, s, steps[0]);
      InvRun(c, Apply(c, s, steps[0]), steps[1..]);
    }
  }

  lemma InitInv<R>(c: Config, s: System<R>)
    requires Init(s)
    ensures Inv(c, s)
  {
    assert Unmarked(s) == {} && Reserved(s) == {} && PooledLive(s.reg) == {};
  }
}
