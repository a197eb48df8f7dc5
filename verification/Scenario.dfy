/** The backend's staged scenarios: launch, cancel and finish, with a generation number against stale finishes. */
module Scenario {
  import opened Prelude

  /** One launched goroutine: what it was started as, and what has become of it. */
  datatype Run = Run(name: string, cancelled: bool, finished: bool)

  /** scenGen, curScenario, the generation scenCancel belongs to, and every run ever launched. */
  datatype Stage = Stage(gen: nat, current: string, cancel: Option<nat>, runs: map<nat, Run>)

  predicate Known(name: string) { name == "saturate" || name == "critical" || name == "move" }

  function Cancelled(runs: map<nat, Run>, g: Option<nat>): map<nat, Run> {
    if g.Some? && g.value in runs then runs[g.value := runs[g.value].(cancelled := true)] else runs
  }

  datatype Step = Launch(name: string) | CancelAll | Finish(g: nat)

  ghost predicate Enabled(s: Stage, step: Step) {
    match step
    case Launch(name) => true
    case CancelAll => true
    case Finish(g) => g in s.runs && !s.runs[g].finished
  }

  function Apply(s: Stage, step: Step): Stage {
    match step
    case Launch(name) =>
      if !Known(name) then s
      else Stage(s.gen + 1, name, Some(s.gen + 1), Cancelled(s.runs, s.cancel)[s.gen + 1 := Run(name, false, false)])
    case CancelAll => Stage(s.gen, "", None, Cancelled(s.runs, s.cancel))
    case Finish(g) =>
      if g !in s.runs then s
      else s.(current := if s.gen == g then "" else s.current, runs := s.runs[g := s.runs[g].(finished := true)])
  }

  const START := Stage(0, "", None, map[])

  ghost predicate Valid(s: Stage, steps: seq<Step>)
    decreases |steps|
  {
    steps == [] || (Enabled(s, steps[0]) && Valid(Apply(s, steps[0]), steps[1..]))
  }

  function Exec(s: Stage, steps: seq<Step>): Stage
    decreases |steps|
  {
    if steps == [] then s else Exec(Apply(s, steps[0]), steps[1..])
  }

  /** A run that is still going and that nobody has cancelled. */
  ghost predicate LiveRun(s: Stage, g: nat) { g in s.runs && !s.runs[g].finished && !s.runs[g].cancelled }

  ghost predicate Inv(s: Stage) {
    && (forall g :: g in s.runs <==> 1 <= g <= s.gen)
    && (forall g :: g in s.runs ==> Known(s.runs[g].name))
    && (forall g :: g in s.runs && g < s.gen ==> s.runs[g].cancelled)
    && (s.cancel.Some? ==> s.cancel.value == s.gen && s.gen in s.runs)
    && (s.gen in s.runs && !s.runs[s.gen].cancelled ==> s.cancel.Some?)
    && s.current == if LiveRun(s, s.gen) then s.runs[s.gen].name else ""
  }

  lemma InvStep(s: Stage, step: Step)
    requires Inv(s) && Enabled(s, step)
    ensures Inv(Apply(s, step))
  {}

  lemma {:induction false} InvRun(s: Stage, steps: seq<Step>)
    requires Inv(s) && Valid(s, steps)
    ensures Inv(Exec(s, steps))
    decreases |steps|
  {
    if steps != [] {
      InvStep(s, steps[0]);
      InvRun(Apply(s, steps[0]), steps[1..]);
    }
  }

  /**
   * After any interleaving: the only run that can be going uncancelled is the newest, and the
   * scenario shown is its name, or nothing when there is none.
   */
  lemma OneLiveScenario(steps: seq<Step>, g: nat)
    requires Valid(START, steps)
    ensures var s := Exec(START, steps);
      && (LiveRun(s, g) ==> g == s.gen && s.current == s.runs[g].name != "")
      && (s.current != "" ==> LiveRun(s, s.gen))
  {
    InvRun(START, steps);
  }

  /** A finish that comes late, after a newer launch, leaves what is shown alone, even under the same name. */
  lemma StaleFinishIsSilent(steps: seq<Step>, g: nat)
    requires Valid(START, steps) && Enabled(Exec(START, steps), Finish(g))
    requires Exec(START, steps).runs[g].cancelled
    ensures Apply(Exec(START, steps), Finish(g)).current == Exec(START, steps).current
  {
    InvRun(START, steps);
  }

  /** Each of the three scenarios is launched, and shown, under its own name and the next generation; any other name changes nothing. */
  lemma LaunchIsByName(s: Stage, name: string)
    requires Inv(s)
    ensures name == "saturate" || name == "critical" || name == "move" ==>
      var s' := Apply(s, Launch(name));
      && s'.gen == s.gen + 1 && LiveRun(s', s'.gen) && s'.runs[s'.gen].name == name && s'.current == name
      && forall g :: g in s.runs ==> g in s'.runs && s'.runs[g].name == s.runs[g].name && s'.runs[g].finished == s.runs[g].finished
    ensures name != "saturate" && name != "critical" && name != "move" ==> Apply(s, Launch(name)) == s
  {}

  // ---- what is shown, told from the steps alone ----

  predicate Accepted(step: Step) {
    step.Launch? && (step.name == "saturate" || step.name == "critical" || step.name == "move")
  }

  /** The launches accepted, in order: generation g is the g-th of them. */
  function Accepts(steps: seq<Step>): seq<string> {
    if steps == [] then []
    else
      var before, last := Accepts(steps[..|steps| - 1]), steps[|steps| - 1];
      if Accepted(last) then before + [last.name] else before
  }

  /** The last accepted launch's name, until a cancel or until that launch itself finishes. */
  function Shown(steps: seq<Step>): string {
    if steps == [] then ""
    else
      var before, last := steps[..|steps| - 1], steps[|steps| - 1];
      match last
      case Launch(name) => if Accepted(last) then name else Shown(before)
      case CancelAll => ""
      case Finish(g) => if g == |Accepts(before)| then "" else Shown(before)
  }

  lemma {:induction false} RunSplits(s: Stage, steps: seq<Step>)
    requires steps != [] && Valid(s, steps)
    ensures var before, last := steps[..|steps| - 1], steps[|steps| - 1];
      Valid(s, before) && Enabled(Exec(s, before), last) && Exec(s, steps) == Apply(Exec(s, before), last)
    decreases |steps|
  {
    var before := steps[..|steps| - 1];
    if |steps| == 1 {
      assert steps[1..] == [];
    } else {
      var rest := steps[1..];
      RunSplits(Apply(s, steps[0]), rest);
      assert before[1..] == rest[..|rest| - 1] && before[0] == steps[0];
    }
  }

  /** The stage after some steps agrees with what the steps say. */
  ghost predicate Told(steps: seq<Step>, s: Stage) {
    && s.current == Shown(steps) && s.gen == |Accepts(steps)|
    && forall g :: g in s.runs ==> 1 <= g <= s.gen && s.runs[g].name == Accepts(steps)[g - 1]
  }

  lemma ToldStep(before: seq<Step>, last: Step, steps: seq<Step>, s: Stage)
    requires Told(before, s) && Inv(s) && Enabled(s, last) && steps == before + [last]
    ensures Told(steps, Apply(s, last))
  {
    assert steps[..|steps| - 1] == before;
    match last
    case Launch(name) => LaunchIsByName(s, name);
    case CancelAll =>
    case Finish(g) =>
  }

  /** Over every run: the scenario shown, the generation, and every run's name are what the steps say. */
  lemma {:induction false} ShownIsLastLaunch(steps: seq<Step>)
    requires Valid(START, steps)
    ensures Told(steps, Exec(START, steps))
    decreases |steps|
  {
    if steps != [] {
      var before, last := steps[..|steps| - 1], steps[|steps| - 1];
      RunSplits(START, steps);
      ShownIsLastLaunch(before);
      InvRun(START, before);
      ToldStep(before, last, steps, Exec(START, before));
    }
  }

  /** The package variables under scenMu, and the contexts of the goroutines launched. */
  class Scenarios {
    var scenGen: nat
    var curScenario: string
    var scenCancel: Option<nat>
    var runs: map<nat, Run>

    function View(): Stage
      reads this
    {
      Stage(scenGen, curScenario, scenCancel, runs)
    }

    constructor ()
      ensures View() == START
    {
      this.scenGen, this.curScenario, this.scenCancel, this.runs := 0, "", None, map[];
    }

    method CancelContext()
      modifies this`runs
      ensures runs == Cancelled(old(runs), scenCancel)
    {
      if scenCancel.Some? && scenCancel.value in runs {
        runs := runs[scenCancel.value := runs[scenCancel.value].(cancelled := true)];
      }
    }

    /** cancelScenario. */
    method CancelScenario()
      modifies this
      ensures View() == Apply(old(View()), CancelAll)
    {
      if scenCancel.Some? {
        CancelContext();
        scenCancel := None;
      }
      curScenario := "";
    }

    /** scenarioHandler; None is the bad-request answer. */
    method LaunchScenario(name: string) returns (gen: Option<nat>)
      modifies this
      ensures View() == Apply(old(View()), Launch(name))
      ensures gen == if Known(name) then Some(old(scenGen) + 1) else None
    {
      if !Known(name) {
        return None;
      }
      if scenCancel.Some? {
        CancelContext();
      }
      scenGen := scenGen + 1;
      scenCancel := Some(scenGen);
      runs := runs[scenGen := Run(name, false, false)];
      curScenario := name;
      return Some(scenGen);
    }

    /** The goroutine's last critical section. */
    method FinishScenario(g: nat)
      requires g in runs
      modifies this
      ensures View() == Apply(old(View()), Finish(g))
    {
      if scenGen == g {
        curScenario := "";
      }
      runs := runs[g := runs[g].(finished := true)];
    }
  }
}
