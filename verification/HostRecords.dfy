/** How often cmd/demohost records one visit: which goroutines hold a session they will record, and how many. */
module HostRecords {
  import opened Prelude
  import opened HostRegistry
  import opened HostSystem
  import opened HostRuns

  /** Goroutines that will drop and record r: a reaper pass it is due in, a DELETE of it. */
  ghost predicate Holds<R>(pc: Pc<R>, r: R) { (pc.ReaperAt? && r in pc.due) || (pc.Deleting? && pc.r == r) }

  ghost function Holders<R>(s: System<R>, r: R): set<nat> { set t | t in s.threads && Holds(s.threads[t], r) }

  /** The steps that make a goroutine a holder of r. */
  ghost predicate Takes<R>(s: System<R>, step: Step<R>, r: R) {
    || (step.ReapMark? && r in step.due)
    || (step.DeleteMark? && step.id in s.reg.sessions && s.reg.sessions[step.id] == r)
  }

  /** Taking a session that had been marked for removal before. */
  ghost predicate Retakes<R>(s: System<R>, step: Step<R>, r: R) { Takes(s, step, r) && r in s.marked }

  /** The session a holder is done with at this step. */
  ghost function Finishes<R>(s: System<R>, step: Step<R>): Option<R> {
    if step.ReapRemove? && At(s, step.tid) && s.threads[step.tid].ReaperAt? && s.threads[step.tid].due != []
    then Some(s.threads[step.tid].due[0])
    else if step.DeleteRemove? && At(s, step.tid) && s.threads[step.tid].Deleting? then Some(s.threads[step.tid].r)
    else None
  }

  /** A reaper pass lists nothing twice. */
  ghost predicate DueOk<R>(s: System<R>) {
    forall t :: t in s.threads && s.threads[t].ReaperAt? ==> Distinct(s.threads[t].due)
  }

  lemma DueStep<R>(c: Config, s: System<R>, step: Step<R>)
    requires Enabled(c, s, step) && DueOk(s)
    ensures DueOk(Apply(c, s, step))
  {}

  lemma HolderAt<R>(c: Config, s: System<R>, step: Step<R>, r: R, t: nat)
    requires Enabled(c, s, step) && DueOk(s)
    ensures t in Holders(Apply(c, s, step), r) <==>
      (t in Holders(s, r) && !(Finishes(s, step) == Some(r) && t == step.tid))
      || (Takes(s, step, r) && t == step.tid)
  {}

  lemma TakerAndFinisher<R>(c: Config, s: System<R>, step: Step<R>, r: R)
    requires Enabled(c, s, step)
    ensures Takes(s, step, r) ==> step.tid !in Holders(s, r) && Finishes(s, step) != Some(r)
    ensures Finishes(s, step) == Some(r) ==> step.tid in Holders(s, r)
  {}

  lemma HoldersSet<R>(c: Config, s: System<R>, step: Step<R>, r: R)
    requires Enabled(c, s, step) && DueOk(s)
    ensures Holders(Apply(c, s, step), r) ==
      if Takes(s, step, r) then Holders(s, r) + {step.tid}
      else if Finishes(s, step) == Some(r) then Holders(s, r) - {step.tid}
      else Holders(s, r)
  {
    forall t: nat { HolderAt(c, s, step, r, t); }
  }

  /** Exactly when a session already marked gets one more holder. */
  lemma NewHolderExactlyWhen<R>(c: Config, s: System<R>, step: Step<R>, r: R)
    requires Enabled(c, s, step) && DueOk(s)
    ensures r in s.marked && !(Holders(Apply(c, s, step), r) <= Holders(s, r)) <==> Retakes(s, step, r)
  {
    HoldersSet(c, s, step, r);
    TakerAndFinisher(c, s, step, r);
  }

  lemma HoldersCount<R>(c: Config, s: System<R>, step: Step<R>, r: R)
    requires Enabled(c, s, step) && DueOk(s)
    ensures |Holders(Apply(c, s, step), r)| == |Holders(s, r)|
      + (if Takes(s, step, r) then 1 else 0) - (if Finishes(s, step) == Some(r) then 1 else 0)
  {
    HoldersSet(c, s, step, r);
    TakerAndFinisher(c, s, step, r);
  }

  lemma MarkedWhen<R>(c: Config, s: System<R>, step: Step<R>, r: R)
    requires Enabled(c, s, step)
    ensures r in Apply(c, s, step).marked <==>
      r in s.marked || Takes(s, step, r) || (step.PoolTick? && r in step.stale)
  {}

  /** Holders beyond the one that a marked session has, or had. */
  ghost function Excess<R>(s: System<R>, r: R): int { |Holders(s, r)| - if r in s.marked then 1 else 0 }

  ghost function Ones(b: bool): nat { if b then 1 else 0 }

  lemma ExcessStep<R>(c: Config, s: System<R>, step: Step<R>, r: R)
    requires Enabled(c, s, step) && DueOk(s) && !(step.PoolTick? && r in step.stale)
    ensures Excess(Apply(c, s, step), r)
      == Excess(s, r) + Ones(Retakes(s, step, r)) - Ones(Finishes(s, step) == Some(r))
  {
    HoldersCount(c, s, step, r);
    MarkedWhen(c, s, step, r);
  }

  // ---- what is recorded over a run ----

  /** Whose completion a step appends. */
  ghost function Logged<R>(s: System<R>, step: Step<R>): seq<R> {
    var f := Finishes(s, step);
    if f.Some? && f.value in s.reg.recs && s.reg.recs[f.value].assignedAt.Some? then [f.value] else []
  }

  /** Whose completions a run appends, in order. */
  ghost function Log<R>(c: Config, s: System<R>, steps: seq<Step<R>>): seq<R>
    requires Valid(c, s, steps)
    decreases |steps|
  {
    if steps == [] then [] else Logged(s, steps[0]) + Log(c, Apply(c, s, steps[0]), steps[1..])
  }

  ghost function Recorded<R>(c: Config, s: System<R>, steps: seq<Step<R>>, r: R): nat
    requires Valid(c, s, steps)
  {
    multiset(Log(c, s, steps))[r]
  }

  /** How many steps of a run take r when it is already marked. */
  ghost function Retaken<R>(c: Config, s: System<R>, steps: seq<Step<R>>, r: R): nat
    requires Valid(c, s, steps)
    decreases |steps|
  {
    if steps == [] then 0 else Ones(Retakes(s, steps[0], r)) + Retaken(c, Apply(c, s, steps[0]), steps[1..], r)
  }

  /** A completion of this session's visit: it ended its duration after the hand-out. */
  ghost predicate RecordOf(done: Completion, k: Rec) {
    k.assignedAt.Some? && done.endedAt == (k.assignedAt.value + done.duration) / NANOS_PER_SEC
  }

  lemma LoggedIsAppended<R>(c: Config, s: System<R>, step: Step<R>)
    requires Enabled(c, s, step)
    ensures Logged(s, step) == [] ==> Apply(c, s, step).history == s.history
    ensures Logged(s, step) != [] ==>
      var r, history := Logged(s, step)[0], Apply(c, s, step).history;
      && Logged(s, step) == [r] && r in s.reg.recs
      && |history| == |s.history| + 1 && history[..|s.history|] == s.history
      && RecordOf(history[|s.history|], s.reg.recs[r])
  {}

  /** Every completion from position `from` on is of the session the log names for it. */
  ghost predicate Tells<R>(log: seq<R>, s: System<R>, from: nat) {
    && |s.history| == from + |log|
    && forall k :: 0 <= k < |log| ==> log[k] in s.reg.recs && RecordOf(s.history[from + k], s.reg.recs[log[k]])
  }

  lemma {:induction false} HistoryGrows<R>(c: Config, s: System<R>, steps: seq<Step<R>>)
    requires Valid(c, s, steps)
    ensures s.history <= Exec(c, s, steps).history
    decreases |steps|
  {
    if steps != [] {
      LoggedIsAppended(c, s, steps[0]);
      HistoryGrows(c, Apply(c, s, steps[0]), steps[1..]);
    }
  }

  lemma FirstRecordStands<R>(c: Config, s: System<R>, steps: seq<Step<R>>)
    requires Inv(c, s) && c.sessionMB >= 0 && Valid(c, s, steps) && steps != [] && Logged(s, steps[0]) != []
    ensures var r, end := Logged(s, steps[0])[0], Exec(c, s, steps);
      r in end.reg.recs && |end.history| > |s.history| && RecordOf(end.history[|s.history|], end.reg.recs[r])
  {
    LoggedIsAppended(c, s, steps[0]);
    var s1 := Apply(c, s, steps[0]);
    HistoryGrows(c, s1, steps[1..]);
    ExecHead(c, s, steps);
    assert Exec(c, s, steps).history[|s.history|] == s1.history[|s.history|];
    AssignmentIsForGood(c, s, steps, Logged(s, steps[0])[0]);
  }

  lemma ExecHead<R>(c: Config, s: System<R>, steps: seq<Step<R>>)
    requires Valid(c, s, steps) && steps != []
    ensures Exec(c, s, steps) == Exec(c, Apply(c, s, steps[0]), steps[1..])
    ensures Log(c, s, steps) == Logged(s, steps[0]) + Log(c, Apply(c, s, steps[0]), steps[1..])
  {}

  lemma TellsFrom<R>(first: seq<R>, rest: seq<R>, s: System<R>, from: nat)
    requires |first| <= 1 && Tells(rest, s, from + |first|)
    requires first != [] ==> first[0] in s.reg.recs && RecordOf(s.history[from], s.reg.recs[first[0]])
    ensures Tells(first + rest, s, from)
  {
    var log := first + rest;
    forall k | 0 <= k < |log| ensures log[k] in s.reg.recs && RecordOf(s.history[from + k], s.reg.recs[log[k]]) {
      if k >= |first| {
        assert log[k] == rest[k - |first|];
      }
    }
  }

  /** The log is the history, entry by entry: completion k of a run is of the visit to Log[k], by its hand-out time and length. */
  lemma {:induction false} LogIsHistory<R>(c: Config, s: System<R>, steps: seq<Step<R>>)
    requires Inv(c, s) && c.sessionMB >= 0 && Valid(c, s, steps)
    ensures s.history <= Exec(c, s, steps).history && Tells(Log(c, s, steps), Exec(c, s, steps), |s.history|)
    decreases |steps|
  {
    if steps != [] {
      HistoryGrows(c, s, steps);
      var s1 := Apply(c, s, steps[0]);
      assert Inv(c, s1) by { InvStep(c, s, steps[0]); }
      LoggedIsAppended(c, s, steps[0]);
      LogIsHistory(c, s1, steps[1..]);
      if Logged(s, steps[0]) != [] {
        FirstRecordStands(c, s, steps);
      }
      ExecHead(c, s, steps);
      TellsFrom(Logged(s, steps[0]), Log(c, s1, steps[1..]), Exec(c, s, steps), |s.history|);
    }
  }

  ghost predicate Unassigned<R>(s: System<R>, r: R) { r in s.reg.recs && s.reg.recs[r].assignedAt.None? }

  lemma UnassignedStep<R>(c: Config, s: System<R>, step: Step<R>, r: R)
    requires Enabled(c, s, step) && Unassigned(s, r) && RecOk(s, r) && r in s.marked
    ensures Unassigned(Apply(c, s, step), r) && r in Apply(c, s, step).marked
  {}

  /** A session marked before any visitor had it never has one. */
  lemma {:induction false} NeverAssigned<R>(c: Config, s: System<R>, steps: seq<Step<R>>, r: R)
    requires Inv(c, s) && c.sessionMB >= 0 && Valid(c, s, steps) && Unassigned(s, r) && r in s.marked
    ensures Unassigned(Exec(c, s, steps), r)
    decreases |steps|
  {
    if steps != [] {
      assert RecOk(s, r);
      UnassignedStep(c, s, steps[0], r);
      InvStep(c, s, steps[0]);
      NeverAssigned(c, Apply(c, s, steps[0]), steps[1..], r);
    }
  }

  ghost predicate Assigned<R>(s: System<R>, r: R) { r in s.reg.recs && s.reg.recs[r].assignedAt.Some? }

  lemma HeldIsMarked<R>(c: Config, s: System<R>, step: Step<R>, r: R)
    requires ThreadsOk(s) && Enabled(c, s, step) && Finishes(s, step) == Some(r)
    ensures r in s.reg.recs && r in s.marked
  {
    assert PcOk(s, s.threads[step.tid]);
  }

  /** What a finish finds: the session is marked; if it is a visitor's in the end, it is now. */
  lemma FinishLogs<R>(c: Config, s: System<R>, steps: seq<Step<R>>, r: R)
    requires Inv(c, s) && c.sessionMB >= 0 && Valid(c, s, steps) && steps != []
    requires Assigned(Exec(c, s, steps), r)
    ensures multiset(Logged(s, steps[0]))[r] == Ones(Finishes(s, steps[0]) == Some(r))
  {
    if Finishes(s, steps[0]) == Some(r) {
      HeldIsMarked(c, s, steps[0], r);
      if Unassigned(s, r) {
        NeverAssigned(c, s, steps, r);
        assert false;
      }
    }
  }

  lemma StaleNeverAssigned<R>(c: Config, s: System<R>, steps: seq<Step<R>>, r: R)
    requires Inv(c, s) && c.sessionMB >= 0 && Valid(c, s, steps) && steps != []
    requires steps[0].PoolTick? && r in steps[0].stale
    ensures Unassigned(Exec(c, s, steps), r)
  {
    assert StaleAt(c, s.reg, steps[0].now, r) && RecOk(s, r);
    StaleUnassigned(c, s, steps[0], r);
    InvStep(c, s, steps[0]);
    NeverAssigned(c, Apply(c, s, steps[0]), steps[1..], r);
  }

  lemma StaleUnassigned<R>(c: Config, s: System<R>, step: Step<R>, r: R)
    requires Enabled(c, s, step) && step.PoolTick? && r in step.stale && Unassigned(s, r)
    ensures Unassigned(Apply(c, s, step), r) && r in Apply(c, s, step).marked
  {}

  /** The balance that every run keeps, for a session that some visitor has in the end. */
  lemma {:induction false} RecordsBalance<R>(c: Config, s: System<R>, steps: seq<Step<R>>, r: R)
    requires Inv(c, s) && DueOk(s) && c.sessionMB >= 0 && Valid(c, s, steps) && Assigned(Exec(c, s, steps), r)
    ensures Recorded(c, s, steps, r) + Excess(Exec(c, s, steps), r) == Excess(s, r) + Retaken(c, s, steps, r)
    decreases |steps|
  {
    if steps != [] {
      var s1, rest := Apply(c, s, steps[0]), steps[1..];
      if steps[0].PoolTick? && r in steps[0].stale {
        StaleNeverAssigned(c, s, steps, r);
        assert false;
      }
      ExcessStep(c, s, steps[0], r);
      FinishLogs(c, s, steps, r);
      assert Inv(c, s1) && DueOk(s1) by {
        InvStep(c, s, steps[0]);
        DueStep(c, s, steps[0]);
      }
      RecordsBalance(c, s1, rest, r);
      RecordedHead(c, s, steps, r);
    }
  }

  lemma RecordedHead<R>(c: Config, s: System<R>, steps: seq<Step<R>>, r: R)
    requires Valid(c, s, steps) && steps != []
    ensures Recorded(c, s, steps, r)
      == multiset(Logged(s, steps[0]))[r] + Recorded(c, Apply(c, s, steps[0]), steps[1..], r)
    ensures Retaken(c, s, steps, r) == Ones(Retakes(s, steps[0], r)) + Retaken(c, Apply(c, s, steps[0]), steps[1..], r)
    ensures Exec(c, s, steps) == Exec(c, Apply(c, s, steps[0]), steps[1..])
  {}

  /**
   * Over every run from an empty host: the completions of a visitor's session and the goroutines
   * still to record it are together one if it was ever marked, and one more for every time it was
   * taken again.
   */
  lemma RecordsOfAVisit<R>(c: Config, s0: System<R>, steps: seq<Step<R>>, r: R)
    requires Reachable(c, s0, steps) && c.sessionMB >= 0 && Assigned(Exec(c, s0, steps), r)
    ensures var s := Exec(c, s0, steps);
      Recorded(c, s0, steps, r) + |Holders(s, r)| == Ones(r in s.marked) + Retaken(c, s0, steps, r)
  {
    InitInv(c, s0);
    assert Holders(s0, r) == {};
    RecordsBalance(c, s0, steps, r);
  }

  /** So, once nothing holds it, it was recorded twice or more exactly when it was taken when already marked. */
  lemma RecordedTwiceExactlyWhen<R>(c: Config, s0: System<R>, steps: seq<Step<R>>, r: R)
    requires Reachable(c, s0, steps) && c.sessionMB >= 0 && Assigned(Exec(c, s0, steps), r)
    requires Holders(Exec(c, s0, steps), r) == {}
    ensures Recorded(c, s0, steps, r) >= 2 <==> Retaken(c, s0, steps, r) >= 1
  {
    RecordsOfAVisit(c, s0, steps, r);
    RetakenIsMarked(c, s0, steps, r);
  }

  lemma {:induction false} RetakenIsMarked<R>(c: Config, s: System<R>, steps: seq<Step<R>>, r: R)
    requires Valid(c, s, steps)
    ensures r in s.marked || Retaken(c, s, steps, r) > 0 ==> r in Exec(c, s, steps).marked
    decreases |steps|
  {
    if steps != [] {
      MarkedWhen(c, s, steps[0], r);
      RetakenIsMarked(c, Apply(c, s, steps[0]), steps[1..], r);
    }
  }

  /** Only a visitor's session is recorded at all. */
  lemma {:induction false} RecordedIsAssigned<R>(c: Config, s: System<R>, steps: seq<Step<R>>, r: R)
    requires Inv(c, s) && c.sessionMB >= 0 && Valid(c, s, steps) && Recorded(c, s, steps, r) > 0
    ensures Assigned(Exec(c, s, steps), r)
    decreases |steps|
  {
    if steps != [] {
      RecordedHead(c, s, steps, r);
      if r in Logged(s, steps[0]) {
        AssignmentIsForGood(c, s, steps, r);
      } else {
        InvStep(c, s, steps[0]);
        RecordedIsAssigned(c, Apply(c, s, steps[0]), steps[1..], r);
      }
    }
  }

  lemma TwoPlaces<T>(xs: seq<T>, i: nat, j: nat)
    requires i < j < |xs| && xs[i] == xs[j]
    ensures multiset(xs)[xs[i]] >= 2
  {
    assert xs == xs[..j] + xs[j..];
    assert xs[..j][i] in multiset(xs[..j]) && xs[j..][0] in multiset(xs[j..]);
  }

  lemma DistinctByCount<T>(xs: seq<T>)
    requires forall x :: multiset(xs)[x] <= 1
    ensures Distinct(xs)
  {
    forall i, j | 0 <= i < j < |xs| ensures xs[i] != xs[j] {
      if xs[i] == xs[j] {
        TwoPlaces(xs, i, j);
        assert false;
      }
    }
  }

  /** A run that never takes a session already marked records no visit twice. */
  lemma NoVisitRecordedTwice<R>(c: Config, s0: System<R>, steps: seq<Step<R>>)
    requires Reachable(c, s0, steps) && c.sessionMB >= 0
    requires forall r :: Retaken(c, s0, steps, r) == 0
    ensures Distinct(Log(c, s0, steps)) && Tells(Log(c, s0, steps), Exec(c, s0, steps), 0)
  {
    InitInv(c, s0);
    LogIsHistory(c, s0, steps);
    forall r ensures multiset(Log(c, s0, steps))[r] <= 1 {
      if Recorded(c, s0, steps, r) > 0 {
        RecordedIsAssigned(c, s0, steps, r);
        RecordsOfAVisit(c, s0, steps, r);
      }
    }
    DistinctByCount(Log(c, s0, steps));
  }
}
