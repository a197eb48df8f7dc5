/** What holds over whole runs of cmd/demohost, whatever the interleaving. */
module HostRuns {
  import opened Prelude
  import opened HostRegistry
  import opened HostSystem

  /** Any state some run from an empty host ends in. */
  ghost predicate Reachable<R>(c: Config, s0: System<R>, steps: seq<Step<R>>) { Init(s0) && Valid(c, s0, steps) }

  lemma ReachableInv<R>(c: Config, s0: System<R>, steps: seq<Step<R>>)
    requires Reachable(c, s0, steps) && c.sessionMB >= 0
    ensures Inv(c, Exec(c, s0, steps))
  {
    InitInv(c, s0);
    InvRun(c, s0, steps);
  }

  /**
   * Admission safety: sessions never marked for removal, with the pool launches in flight, never
   * exceed the session limit or the memory budget.
   */
  lemma AdmissionSafety<R>(c: Config, s0: System<R>, steps: seq<Step<R>>)
    requires Reachable(c, s0, steps) && c.sessionMB >= 0
    ensures var s := Exec(c, s0, steps);
      var n := |Unmarked(s)| + s.reg.poolInFlight;
      n == 0 || (0 < n <= c.maxSessions && n * c.sessionMB <= c.demoBudgetMB)
  {
    ReachableInv(c, s0, steps);
    AdmissionMeans(c, Exec(c, s0, steps));
  }

  lemma AdmissionMeans<R>(c: Config, s: System<R>)
    requires AdmissionOk(c, s) && s.reg.poolInFlight == |Reserved(s)|
    ensures var n := |Unmarked(s)| + s.reg.poolInFlight;
      n == 0 || (0 < n <= c.maxSessions && n * c.sessionMB <= c.demoBudgetMB)
  {}

  /** The books of one state: the in-flight counter, the pool's size, the port registry and the ring. */
  ghost predicate BooksOk<R>(c: Config, s: System<R>) {
    && s.reg.poolInFlight == |set t | t in s.threads && s.threads[t] == PoolReserved|
    && |PooledLive(s.reg)| + s.reg.poolInFlight <= Max(0, c.warmPool)
    && s.reg.usedBases == (set id | id in s.reg.sessions :: BaseAt(s.reg, id))
    && |s.reg.usedBases| == |s.reg.sessions|
    && s.reg.completions == Last1000(s.history)
  }

  lemma InvBooks<R>(c: Config, s: System<R>)
    requires Inv(c, s)
    ensures BooksOk(c, s)
  {
    assert Reserved(s) == set t | t in s.threads && s.threads[t] == PoolReserved;
    var bases := set id | id in s.reg.sessions :: BaseAt(s.reg, id);
    forall b | b in s.reg.usedBases ensures b in bases {
      assert Owned(s.reg, b);
    }
    assert s.reg.usedBases == bases;
    UsedBasesSize(c, s.reg);
  }

  /** The in-flight counter, the pool's size and the port registry in every reachable state. */
  lemma BooksBalance<R>(c: Config, s0: System<R>, steps: seq<Step<R>>)
    requires Reachable(c, s0, steps) && c.sessionMB >= 0
    ensures BooksOk(c, Exec(c, s0, steps))
  {
    ReachableInv(c, s0, steps);
    InvBooks(c, Exec(c, s0, steps));
  }

  /** capacityView's two counts: every live session is a visitor's or the pool's, never both. */
  lemma RunningIsVisitorsPlusPool<R>(s: System<R>)
    requires LifeOk(s) && Wf(s.reg)
    ensures |Live(s.reg)| == |Visitors(s.reg)| + |PooledLive(s.reg)|
  {
    forall id | id in s.reg.sessions
      ensures LiveAt(s.reg, id) <==> VisitorAt(s.reg, id) || PooledAt(s.reg, id)
      ensures !(VisitorAt(s.reg, id) && PooledAt(s.reg, id))
    {
      assert RecOk(s, s.reg.sessions[id]);
    }
    SplitCard(Live(s.reg), Visitors(s.reg), PooledLive(s.reg));
  }

  // ---- the bound on sessions that hold a reservation now ----

  /** The same bound for every session not reaping, which is what admission itself counts. */
  ghost predicate ActiveOk<R>(c: Config, s: System<R>) { Fits(c, |Live(s.reg)| + s.reg.poolInFlight) }

  /** createSession's unconditional `running`, reaching a session that was deleted while it spawned. */
  ghost predicate Revives<R>(s: System<R>, step: Step<R>) {
    step.DirectSpawnOk? && At(s, step.tid) && s.threads[step.tid].DirectSpawning?
    && Registered(s.reg, s.threads[step.tid].r) && s.reg.recs[s.threads[step.tid].r].phase == Reaping
  }

  lemma RecLiveBefore<R>(c: Config, s: System<R>, step: Step<R>, r: R)
    requires Enabled(c, s, step) && r in s.reg.recs && s.reg.recs[r].phase == Reaping
    requires !step.DirectSpawnOk? || s.threads[step.tid].r != r
    ensures step.CreateTake? || Apply(c, s, step).reg.recs[r].phase == Reaping
  {}

  lemma LiveShrinks<R>(c: Config, s: System<R>, step: Step<R>)
    requires Lively(c, s) && Enabled(c, s, step) && !step.CreateDirect? && !step.PoolRegister? && !Revives(s, step)
    ensures |Live(Apply(c, s, step).reg)| <= |Live(s.reg)|
  {
    var s' := Apply(c, s, step);
    forall id | id in Live(s'.reg) ensures id in Live(s.reg) {
      SessionsShrink(c, s, step, id);
      var r := s.reg.sessions[id];
      if s.reg.recs[r].phase == Reaping && !step.CreateTake? {
        if !step.DirectSpawnOk? || s.threads[step.tid].r != r {
          RecLiveBefore(c, s, step, r);
        }
      }
    }
    SubsetCard(Live(s'.reg), Live(s.reg));
  }

  lemma LiveRevives<R>(c: Config, s: System<R>, step: Step<R>)
    requires Lively(c, s) && Enabled(c, s, step) && Revives(s, step)
    ensures |Live(Apply(c, s, step).reg)| == |Live(s.reg)| + 1
  {
    var g := Apply(c, s, step).reg;
    var id := s.reg.recs[s.threads[step.tid].r].id;
    forall i | i in s.reg.sessions ensures LiveAt(g, i) <==> LiveAt(s.reg, i) || i == id {}
    SplitCard(Live(g), Live(s.reg), {id});
  }

  ghost function NewcomerOf<R>(c: Config, s: System<R>, step: Step<R>): Rec
    requires Enabled(c, s, step) && (step.CreateDirect? || step.PoolRegister?)
  {
    NewRec(c, step.id, Alloc(c, s.reg.usedBases, step.bindable).value, step.now, step.PoolRegister?)
  }

  lemma LiveAsRegistered<R>(c: Config, s: System<R>, step: Step<R>)
    requires Enabled(c, s, step) && (step.CreateDirect? || step.PoolRegister?)
    ensures Live(Apply(c, s, step).reg) == Live(Register(s.reg, step.r, NewcomerOf(c, s, step)))
  {}

  lemma LiveRegisters<R>(c: Config, s: System<R>, step: Step<R>)
    requires Lively(c, s) && Enabled(c, s, step) && (step.CreateDirect? || step.PoolRegister?)
    ensures |Live(Apply(c, s, step).reg)| == |Live(s.reg)| + 1
  {
    LiveAsRegistered(c, s, step);
    var g := Register(s.reg, step.r, NewcomerOf(c, s, step));
    assert Live(g) == Live(s.reg) + {step.id} && step.id !in Live(s.reg) by {
      RegisterCounts(s.reg, step.r, NewcomerOf(c, s, step));
    }
    SplitCard(Live(g), Live(s.reg), {step.id});
  }

  /**
   * When the bound survives a step: always, except that reviving a deleted session breaks it
   * exactly when there was no room for one more.
   */
  lemma ActiveStep<R>(c: Config, s: System<R>, step: Step<R>)
    requires Lively(c, s) && ActiveOk(c, s) && c.sessionMB >= 0 && s.reg.poolInFlight >= 0 && Enabled(c, s, step)
    ensures ActiveOk(c, Apply(c, s, step)) <==>
      (Revives(s, step) ==> Fits(c, |Live(s.reg)| + s.reg.poolInFlight + 1))
  {
    var s' := Apply(c, s, step);
    if Revives(s, step) {
      LiveRevives(c, s, step);
      InFlightKept(c, s, step);
    } else if step.CreateDirect? || step.PoolRegister? {
      LiveRegisters(c, s, step);
      InFlightRegisters(c, s, step);
    } else if step.PoolTick? {
      ActiveTick(c, s, step);
    } else {
      LiveShrinks(c, s, step);
      InFlightFalls(c, s, step);
      FitsDown(c, |Live(s.reg)| + s.reg.poolInFlight, |Live(s'.reg)| + s'.reg.poolInFlight);
    }
  }

  lemma InFlightKept<R>(c: Config, s: System<R>, step: Step<R>)
    requires Enabled(c, s, step) && step.DirectSpawnOk?
    ensures Apply(c, s, step).reg.poolInFlight == s.reg.poolInFlight
  {}

  lemma InFlightRegisters<R>(c: Config, s: System<R>, step: Step<R>)
    requires Enabled(c, s, step) && (step.CreateDirect? || step.PoolRegister?)
    ensures step.CreateDirect? ==> Fits(c, |Live(s.reg)| + s.reg.poolInFlight + 1)
    ensures Apply(c, s, step).reg.poolInFlight == s.reg.poolInFlight - if step.PoolRegister? then 1 else 0
  {}

  lemma ActiveTick<R>(c: Config, s: System<R>, step: Step<R>)
    requires Lively(c, s) && ActiveOk(c, s) && c.sessionMB >= 0 && Enabled(c, s, step) && step.PoolTick?
    ensures ActiveOk(c, Apply(c, s, step))
  {
    var s' := Apply(c, s, step);
    var swept := RecycleScan(c, s.reg, step.now);
    assert Live(s'.reg) == Live(swept);
    LiveShrinks(c, s, step);
    LaunchLoopSafe(c, |PooledLive(swept)|, swept.poolInFlight, 0, |Live(swept)|, swept.memActualMB);
    if Launches(c, swept) == 0 {
      FitsDown(c, |Live(s.reg)| + s.reg.poolInFlight, |Live(s'.reg)| + s'.reg.poolInFlight);
    }
  }

  /** No DELETE reaches a directly created session that is still starting. */
  ghost predicate Calm<R>(c: Config, s: System<R>, steps: seq<Step<R>>)
    requires Valid(c, s, steps)
    decreases |steps|
  {
    steps == [] ||
    ((steps[0].DeleteMark? ==>
        var k := s.reg.recs[s.reg.sessions[steps[0].id]]; k.pooled || k.phase != Starting)
      && Calm(c, Apply(c, s, steps[0]), steps[1..]))
  }

  /** Every session being started directly is still starting. */
  ghost predicate NoneDeleted<R>(s: System<R>) {
    forall t :: t in s.threads && s.threads[t].DirectSpawning? && s.threads[t].r in s.reg.recs
      ==> s.reg.recs[s.threads[t].r].phase == Starting
  }

  /** Whoever is starting a session directly was so before, unless the session is new. */
  lemma StarterBefore<R>(c: Config, s: System<R>, step: Step<R>, t: nat)
    requires Enabled(c, s, step) && t in Apply(c, s, step).threads && Apply(c, s, step).threads[t].DirectSpawning?
    ensures (t in s.threads && s.threads[t] == Apply(c, s, step).threads[t]) || (step.CreateDirect? && t == step.tid)
  {}

  /** A starting session goes on starting, unless a DELETE marks it or its own goroutine moves it. */
  lemma StaysStarting<R>(c: Config, s: System<R>, step: Step<R>, r: R)
    requires Enabled(c, s, step) && r in s.reg.recs && !s.reg.recs[r].pooled && s.reg.recs[r].phase == Starting
    requires !Moves(s, step, r)
    ensures r in Apply(c, s, step).reg.recs
    ensures Apply(c, s, step).reg.recs[r].phase == Starting || (step.DeleteMark? && s.reg.sessions[step.id] == r)
  {}

  lemma NoneDeletedStep<R>(c: Config, s: System<R>, step: Step<R>)
    requires Lively(c, s) && Enabled(c, s, step) && NoneDeleted(s) && Calm(c, s, [step])
    ensures NoneDeleted(Apply(c, s, step))
  {
    var s' := Apply(c, s, step);
    forall t | t in s'.threads && s'.threads[t].DirectSpawning? && s'.threads[t].r in s'.reg.recs
      ensures s'.reg.recs[s'.threads[t].r].phase == Starting
    {
      StarterBefore(c, s, step, t);
      if t in s.threads && s.threads[t] == s'.threads[t] {
        var r := s.threads[t].r;
        assert PcOk(s, s.threads[t]);
        OtherThreadsKept(c, s, step, t, r);
        StaysStarting(c, s, step, r);
      }
    }
  }

  /** On every run without such a DELETE, all sessions not reaping stay within the limits too. */
  lemma {:induction false} ActiveBoundOnCalmRuns<R>(c: Config, s: System<R>, steps: seq<Step<R>>)
    requires Inv(c, s) && ActiveOk(c, s) && NoneDeleted(s) && c.sessionMB >= 0
    requires Valid(c, s, steps) && Calm(c, s, steps)
    ensures ActiveOk(c, Exec(c, s, steps))
    decreases |steps|
  {
    if steps != [] {
      InvStep(c, s, steps[0]);
      NoneDeletedStep(c, s, steps[0]);
      ActiveStep(c, s, steps[0]);
      ActiveBoundOnCalmRuns(c, Apply(c, s, steps[0]), steps[1..]);
    }
  }

  /** The bound holds all along a run. */
  ghost predicate ActiveThroughout<R>(c: Config, s: System<R>, steps: seq<Step<R>>)
    requires Valid(c, s, steps)
    decreases |steps|
  {
    ActiveOk(c, s) && (steps != [] ==> ActiveThroughout(c, Apply(c, s, steps[0]), steps[1..]))
  }

  /** Every revival in a run finds room for one more. */
  ghost predicate RevivalsFindRoom<R>(c: Config, s: System<R>, steps: seq<Step<R>>)
    requires Valid(c, s, steps)
    decreases |steps|
  {
    steps == [] ||
    ((Revives(s, steps[0]) ==> Fits(c, |Live(s.reg)| + s.reg.poolInFlight + 1))
      && RevivalsFindRoom(c, Apply(c, s, steps[0]), steps[1..]))
  }

  lemma ThroughoutHead<R>(c: Config, s: System<R>, steps: seq<Step<R>>)
    requires Valid(c, s, steps) && steps != [] && ActiveOk(c, s)
    ensures ActiveThroughout(c, s, steps) <==> ActiveThroughout(c, Apply(c, s, steps[0]), steps[1..])
    ensures RevivalsFindRoom(c, s, steps) <==>
      (Revives(s, steps[0]) ==> Fits(c, |Live(s.reg)| + s.reg.poolInFlight + 1))
      && RevivalsFindRoom(c, Apply(c, s, steps[0]), steps[1..])
  {}

  lemma ThroughoutStarts<R>(c: Config, s: System<R>, steps: seq<Step<R>>)
    requires Valid(c, s, steps)
    ensures ActiveThroughout(c, s, steps) ==> ActiveOk(c, s)
  {}

  lemma ActiveStepInv<R>(c: Config, s: System<R>, step: Step<R>)
    requires Inv(c, s) && ActiveOk(c, s) && c.sessionMB >= 0 && Enabled(c, s, step)
    ensures Inv(c, Apply(c, s, step))
    ensures ActiveOk(c, Apply(c, s, step)) <==> (Revives(s, step) ==> Fits(c, |Live(s.reg)| + s.reg.poolInFlight + 1))
  {
    InvStep(c, s, step);
    ActiveStep(c, s, step);
  }

  lemma {:induction false} ActiveThroughoutFrom<R>(c: Config, s: System<R>, steps: seq<Step<R>>)
    requires Inv(c, s) && ActiveOk(c, s) && c.sessionMB >= 0 && Valid(c, s, steps)
    ensures ActiveThroughout(c, s, steps) <==> RevivalsFindRoom(c, s, steps)
    decreases |steps|
  {
    if steps != [] {
      var s1, rest := Apply(c, s, steps[0]), steps[1..];
      ThroughoutHead(c, s, steps);
      ThroughoutStarts(c, s1, rest);
      var fits := Revives(s, steps[0]) ==> Fits(c, |Live(s.reg)| + s.reg.poolInFlight + 1);
      assert Inv(c, s1) && (ActiveOk(c, s1) <==> fits) by { ActiveStepInv(c, s, steps[0]); }
      if fits {
        ActiveThroughoutFrom(c, s1, rest);
      }
    }
  }

  /** The bound on sessions not reaping holds all along a run from an empty host exactly when every revival finds room. */
  lemma ActiveThroughoutExactlyWhen<R>(c: Config, s0: System<R>, steps: seq<Step<R>>)
    requires Reachable(c, s0, steps) && c.sessionMB >= 0
    ensures ActiveThroughout(c, s0, steps) <==> RevivalsFindRoom(c, s0, steps)
  {
    InitInv(c, s0);
    assert Live(s0.reg) == {};
    ActiveThroughoutFrom(c, s0, steps);
  }

  // ---- a session's life ----

  /** What no step takes back about a session object. */
  ghost predicate Evolves(k: Rec, k': Rec) {
    && k'.id == k.id && k'.base == k.base && k'.createdAt == k.createdAt
    && (k.assignedAt.Some? ==> k'.assignedAt == k.assignedAt && k'.expiresAt == k.expiresAt && !k'.pooled)
  }

  lemma RecsKept<R>(c: Config, s: System<R>, step: Step<R>, r: R)
    requires Enabled(c, s, step) && r in s.reg.recs
    ensures r in Apply(c, s, step).reg.recs
    ensures r in s.marked ==> r in Apply(c, s, step).marked
  {}

  lemma EvolvesStep<R>(c: Config, s: System<R>, step: Step<R>, r: R)
    requires Enabled(c, s, step) && r in s.reg.recs && RecOk(s, r)
    ensures r in Apply(c, s, step).reg.recs && Evolves(s.reg.recs[r], Apply(c, s, step).reg.recs[r])
  {
    RecsKept(c, s, step, r);
    if step.CreateTake? {
      assert step.r == r ==> s.reg.recs[r].assignedAt.None?;
    }
  }

  /** Once given to a visitor, a session keeps its hand-out time and its hard cap, and never rejoins the pool. */
  lemma {:induction false} AssignmentIsForGood<R>(c: Config, s: System<R>, steps: seq<Step<R>>, r: R)
    requires Inv(c, s) && c.sessionMB >= 0 && Valid(c, s, steps) && r in s.reg.recs
    ensures r in Exec(c, s, steps).reg.recs && Evolves(s.reg.recs[r], Exec(c, s, steps).reg.recs[r])
    decreases |steps|
  {
    if steps != [] {
      InvStep(c, s, steps[0]);
      assert RecOk(s, r);
      EvolvesStep(c, s, steps[0], r);
      AssignmentIsForGood(c, Apply(c, s, steps[0]), steps[1..], r);
    }
  }

  /** No later hand-out of a session that a visitor already has or that was marked for removal. */
  lemma {:induction false} NeverHandedOutAgain<R>(c: Config, s: System<R>, steps: seq<Step<R>>, r: R, i: nat)
    requires Inv(c, s) && c.sessionMB >= 0 && Valid(c, s, steps) && i < |steps|
    requires r in s.reg.recs && (s.reg.recs[r].assignedAt.Some? || r in s.marked)
    ensures !(steps[i].CreateTake? && steps[i].r == r)
    decreases |steps|
  {
    assert RecOk(s, r);
    if i > 0 {
      InvStep(c, s, steps[0]);
      RecsKept(c, s, steps[0], r);
      EvolvesStep(c, s, steps[0], r);
      NeverHandedOutAgain(c, Apply(c, s, steps[0]), steps[1..], r, i - 1);
    }
  }

  // ---- the revival, concretely ----

  const ONE_SLOT := Config(21000, 16, 1, 16384, 2304, 3600, 0, 1800)

  ghost function RecA(phase: Phase): Rec { Rec("a", 21000, 0, 3600, phase, false, 0, Some(0)) }

  ghost function RecB(): Rec { Rec("b", 21016, 0, 3600, Starting, false, 0, Some(0)) }

  ghost function OnlyA(phase: Phase): Registry<nat> {
    Registry(map["a" := 0], map[0 := RecA(phase)], {21000}, [], 0, 0)
  }

  ghost function BothWith(phase: Phase): Registry<nat> {
    Registry(map["a" := 0, "b" := 1], map[0 := RecA(phase), 1 := RecB()], {21000, 21016}, [], 0, 0)
  }

  /** Nothing yet; a spawning; a deleted; b spawning beside it; a running again. */
  ghost function Story(i: nat): System<nat> {
    if i == 0 then System(Registry(map[], map[], {}, [], 0, 0), map[], {}, [])
    else if i == 1 then System(OnlyA(Starting), map[0 := DirectSpawning(0)], {}, [])
    else if i == 2 then System(OnlyA(Reaping), map[0 := DirectSpawning(0), 1 := Deleting("a", 0)], {0}, [])
    else if i == 3 then
      System(BothWith(Reaping), map[0 := DirectSpawning(0), 1 := Deleting("a", 0), 2 := DirectSpawning(1)], {0}, [])
    else System(BothWith(Running), map[1 := Deleting("a", 0), 2 := DirectSpawning(1)], {0}, [])
  }

  ghost function StoryStep(i: nat): Step<nat> {
    if i == 0 then CreateDirect(0, 0, "a", {21000}, 0)
    else if i == 1 then DeleteMark(1, "a")
    else if i == 2 then CreateDirect(2, 1, "b", {21016}, 0)
    else DirectSpawnOk(0, 0)
  }

  lemma StoryCreates(i: nat)
    requires i == 0 || i == 2
    ensures Enabled(ONE_SLOT, Story(i), StoryStep(i)) && Apply(ONE_SLOT, Story(i), StoryStep(i)) == Story(i + 1)
  {
    assert Block(ONE_SLOT, 0) == 21000 && Block(ONE_SLOT, 1) == 21016;
    assert Live(Story(i).reg) == {};
    assert AllocFrom(ONE_SLOT, {}, {21000}, 0) == Some(21000);
    assert AllocFrom(ONE_SLOT, {21000}, {21016}, 1) == Some(21016);
  }

  lemma StoryDeletes()
    ensures Enabled(ONE_SLOT, Story(1), StoryStep(1)) && Apply(ONE_SLOT, Story(1), StoryStep(1)) == Story(2)
  {}

  lemma StoryRevives()
    ensures Enabled(ONE_SLOT, Story(3), StoryStep(3)) && Apply(ONE_SLOT, Story(3), StoryStep(3)) == Story(4)
  {}

  lemma StoryGoesOn(i: nat)
    requires i < 4
    ensures Enabled(ONE_SLOT, Story(i), StoryStep(i)) && Apply(ONE_SLOT, Story(i), StoryStep(i)) == Story(i + 1)
  {
    if i == 0 {
      StoryCreates(0);
    } else if i == 1 {
      StoryDeletes();
    } else if i == 2 {
      StoryCreates(2);
    } else {
      StoryRevives();
    }
  }

  ghost function StoryFrom(i: nat): seq<Step<nat>>
    decreases 4 - i
  {
    if i >= 4 then [] else [StoryStep(i)] + StoryFrom(i + 1)
  }

  lemma {:induction false} StoryValid(i: nat)
    requires i <= 4
    ensures Valid(ONE_SLOT, Story(i), StoryFrom(i)) && Exec(ONE_SLOT, Story(i), StoryFrom(i)) == Story(4)
    decreases 4 - i
  {
    if i < 4 {
      StoryGoesOn(i);
      StoryValid(i + 1);
      ValidCons(ONE_SLOT, Story(i), StoryStep(i), StoryFrom(i + 1));
    }
  }

  lemma StoryEnd()
    ensures Init(Story(0)) && |Live(Story(4).reg)| == 2
  {
    assert Live(Story(4).reg) == {"a", "b"};
  }

  /**
   * Create a, delete a while it spawns, create b in the slot that frees, and let a's spawn
   * finish: two sessions run where one is allowed.
   */
  lemma RevivalBreaksTheBound()
    ensures Reachable(ONE_SLOT, Story(0), StoryFrom(0))
    ensures !ActiveOk(ONE_SLOT, Exec(ONE_SLOT, Story(0), StoryFrom(0)))
  {
    StoryEnd();
    StoryValid(0);
  }

  lemma ValidCons(c: Config, s: System<nat>, step: Step<nat>, rest: seq<Step<nat>>)
    requires Enabled(c, s, step) && Valid(c, Apply(c, s, step), rest)
    ensures Valid(c, s, [step] + rest)
    ensures Exec(c, s, [step] + rest) == Exec(c, Apply(c, s, step), rest)
  {
    assert ([step] + rest)[1..] == rest;
  }

  // ---- one session, two completions ----

  ghost function Gone(ended: seq<Completion>): Registry<nat> {
    Registry(map[], map[0 := RecA(Reaping)], {}, ended, 0, 0)
  }

  const REAPED := Completion(0, 4000, "hard cap")
  const DELETED := Completion(0, 5000, "manual")

  /** Nothing yet; a spawning; running; the reaper has marked it; a DELETE holds it too; the one and then the other drops it. */
  ghost function Race(i: nat): System<nat> {
    if i <= 1 then Story(i)
    else if i == 2 then System(OnlyA(Running), map[], {}, [])
    else if i == 3 then System(OnlyA(Reaping), map[1 := ReaperAt([0], 4000)], {0}, [])
    else if i == 4 then System(OnlyA(Reaping), map[1 := ReaperAt([0], 4000), 2 := Deleting("a", 0)], {0}, [])
    else if i == 5 then System(Gone([REAPED]), map[1 := ReaperAt([], 4000), 2 := Deleting("a", 0)], {0}, [REAPED])
    else System(Gone([REAPED, DELETED]), map[1 := ReaperAt([], 4000)], {0}, [REAPED, DELETED])
  }

  ghost function RaceStep(i: nat): Step<nat> {
    if i == 0 then StoryStep(0)
    else if i == 1 then DirectSpawnOk(0, 0)
    else if i == 2 then ReapMark(1, [0], 4000, map[])
    else if i == 3 then DeleteMark(2, "a")
    else if i == 4 then ReapRemove(1)
    else DeleteRemove(2, 5000)
  }

  lemma RaceReaps()
    ensures Enabled(ONE_SLOT, Race(2), RaceStep(2)) && Apply(ONE_SLOT, Race(2), RaceStep(2)) == Race(3)
  {
    assert DueAt(Race(2).reg, 4000, map[], 0);
    assert ReapScan(Race(2).reg, 4000, map[]).recs == map[0 := RecA(Reaping)];
  }

  lemma RaceMoves(i: nat)
    requires i == 1 || i == 3
    ensures Enabled(ONE_SLOT, Race(i), RaceStep(i)) && Apply(ONE_SLOT, Race(i), RaceStep(i)) == Race(i + 1)
  {}

  lemma RaceRemoves(i: nat)
    requires i == 4 || i == 5
    ensures Enabled(ONE_SLOT, Race(i), RaceStep(i)) && Apply(ONE_SLOT, Race(i), RaceStep(i)) == Race(i + 1)
  {
    var s := Race(i);
    assert Remove(s.reg, "a") == Gone(s.reg.completions);
    assert i == 4 ==> CompletionOf(RecA(Reaping), "hard cap", 4000) == [REAPED];
    assert i == 5 ==> CompletionOf(RecA(Reaping), "manual", 5000) == [DELETED];
    assert [0][1..] == [] && Last1000([REAPED]) == [REAPED] && Last1000([REAPED, DELETED]) == [REAPED, DELETED];
    assert i == 5 ==> Done(s, 2) == Race(6).threads;
    assert i == 4 ==> NowAt(s, 1, ReaperAt([], 4000)) == Race(5).threads;
  }

  ghost function RaceFrom(i: nat): seq<Step<nat>>
    decreases 6 - i
  {
    if i >= 6 then [] else [RaceStep(i)] + RaceFrom(i + 1)
  }

  lemma {:induction false} RaceValid(i: nat)
    requires i <= 6
    ensures Valid(ONE_SLOT, Race(i), RaceFrom(i)) && Exec(ONE_SLOT, Race(i), RaceFrom(i)) == Race(6)
    decreases 6 - i
  {
    if i < 6 {
      if i == 0 {
        StoryCreates(0);
      } else if i == 2 {
        RaceReaps();
      } else if i < 4 {
        RaceMoves(i);
      } else {
        RaceRemoves(i);
      }
      RaceValid(i + 1);
      ValidCons(ONE_SLOT, Race(i), RaceStep(i), RaceFrom(i + 1));
    }
  }

  /** A DELETE racing the reaper records one visit twice: one session was ever created, and two completions stand. */
  lemma OneVisitRecordedTwice()
    ensures Reachable(ONE_SLOT, Race(0), RaceFrom(0))
    ensures var s := Exec(ONE_SLOT, Race(0), RaceFrom(0));
      |s.reg.recs| == 1 && s.reg.completions == [REAPED, DELETED]
  {
    RaceValid(0);
    StoryEnd();
  }
}
