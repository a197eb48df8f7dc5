/**
 * The stats pipeline: a runner keeps its last finished sessions in a ring, and the coordinator's
 * cron asks for those newer than its cursor and writes each as a data point.
 */
module StatsCursor {
  import opened Prelude
  import opened HostRegistry
  import opened HostService

  /** A successful answer of /v1/stats: the ring it was cut from, and the second it reports as now. */
  datatype Answer = Answered(ring: seq<Completion>, now: int)

  /** The coordinator's side: a cursor per runner in the key-value store, and every session point written. */
  datatype Books = Books(cursors: map<string, int>, points: seq<(string, int)>)

  function CursorOf(b: Books, runner: string): int { if runner in b.cursors then b.cursors[runner] else 0 }

  function PointsOf(cs: seq<Completion>): (ps: seq<(string, int)>)
    ensures |ps| == |cs|
  {
    seq(|cs|, i requires 0 <= i < |cs| => (cs[i].reason, cs[i].duration))
  }

  function Scraped(b: Books, runner: string, answer: Option<Answer>): Books {
    if answer.None? then b
    else
      var newer := Since(answer.value.ring, CursorOf(b, runner));
      if newer == [] then b
      else Books(b.cursors[runner := answer.value.now], b.points + PointsOf(newer))
  }

  function SampledUpTo(b: Books, runners: seq<string>, answers: seq<Option<Answer>>, n: nat): Books
    requires n <= |runners| == |answers|
  {
    if n == 0 then b else Scraped(SampledUpTo(b, runners, answers, n - 1), runners[n - 1], answers[n - 1])
  }

  /** What each runner in turn has to tell, judged by the cursors at the start. */
  function NewsOf(b: Books, runners: seq<string>, answers: seq<Option<Answer>>, n: nat): seq<(string, int)>
    requires n <= |runners| == |answers|
  {
    if n == 0 then []
    else
      var before := NewsOf(b, runners, answers, n - 1);
      if answers[n - 1].None? then before
      else before + PointsOf(Since(answers[n - 1].value.ring, CursorOf(b, runners[n - 1])))
  }

  ghost predicate Different(runners: seq<string>) { forall j, k :: 0 <= j < k < |runners| ==> runners[j] != runners[k] }

  lemma {:induction false} NotYetScraped(b: Books, runners: seq<string>, answers: seq<Option<Answer>>, n: nat, r: string)
    requires n <= |runners| == |answers| && forall j :: 0 <= j < n ==> runners[j] != r
    ensures CursorOf(SampledUpTo(b, runners, answers, n), r) == CursorOf(b, r)
  {
    if n > 0 {
      NotYetScraped(b, runners, answers, n - 1, r);
    }
  }

  /** Every runner in the list is scraped once, with the cursor it had: all its news is written, in order, and its cursor moved. */
  lemma {:induction false} EveryRunnerIsScraped(b: Books, runners: seq<string>, answers: seq<Option<Answer>>, n: nat)
    requires n <= |runners| == |answers| && Different(runners)
    ensures var after := SampledUpTo(b, runners, answers, n);
      && after.points == b.points + NewsOf(b, runners, answers, n)
      && forall i :: 0 <= i < n ==>
           CursorOf(after, runners[i]) ==
             if answers[i].None? || Since(answers[i].value.ring, CursorOf(b, runners[i])) == [] then CursorOf(b, runners[i])
             else answers[i].value.now
  {
    if n > 0 {
      EveryRunnerIsScraped(b, runners, answers, n - 1);
      NotYetScraped(b, runners, answers, n - 1, runners[n - 1]);
    }
  }

  class Cron {
    var cursors: map<string, int>
    var points: seq<(string, int)>

    function View(): Books
      reads this
    {
      Books(cursors, points)
    }

    constructor ()
      ensures View() == Books(map[], [])
    {
      cursors, points := map[], [];
    }

    /** The runner loop of sampleStats; answers[i] is what runners[i] says, None when the fetch fails. */
    method SampleStats(runners: seq<string>, answers: seq<Option<Answer>>)
      requires |answers| == |runners|
      modifies this
      ensures View() == SampledUpTo(old(View()), runners, answers, |runners|)
    {
      for i := 0 to |runners|
        invariant View() == SampledUpTo(old(View()), runners, answers, i)
      {
        var r := runners[i];
        var since := if r in cursors then cursors[r] else 0;
        if answers[i].Some? {
          var completions := Since(answers[i].value.ring, since);
          ghost var was := points;
          for j := 0 to |completions|
            invariant cursors == SampledUpTo(old(View()), runners, answers, i).cursors
            invariant points == was + PointsOf(completions)[..j]
          {
            points := points + [(completions[j].reason, completions[j].duration)];
          }
          assert PointsOf(completions)[..|completions|] == PointsOf(completions);
          if |completions| > 0 {
            cursors := cursors[r := answers[i].value.now];
          }
        }
      }
    }
  }

  // ---- one runner's whole history, by position in it ----

  function RingStart(history: seq<Completion>): nat {
    if |history| > 1000 then |history| - 1000 else 0
  }

  /** The positions lo..hi (hi excluded) that finished after `since`. */
  function Newer(history: seq<Completion>, lo: nat, hi: nat, since: int): seq<nat>
    requires lo <= hi <= |history|
    decreases hi
  {
    if lo == hi then []
    else Newer(history, lo, hi - 1, since) + (if history[hi - 1].endedAt > since then [hi - 1] else [])
  }

  /** What /v1/stats lists, as positions. */
  function Listing(history: seq<Completion>, since: int): seq<nat> { Newer(history, RingStart(history), |history|, since) }

  ghost predicate Increasing(ids: seq<nat>) { forall i, j :: 0 <= i < j < |ids| ==> ids[i] < ids[j] }

  lemma {:induction false} NewerIs(history: seq<Completion>, lo: nat, hi: nat, since: int)
    requires lo <= hi <= |history|
    ensures var ids := Newer(history, lo, hi, since);
      && Increasing(ids)
      && forall i: nat :: i in ids <==> lo <= i < hi && history[i].endedAt > since
    decreases hi
  {
    if lo != hi {
      NewerIs(history, lo, hi - 1, since);
      var before := Newer(history, lo, hi - 1, since);
      forall i | 0 <= i < |before| ensures before[i] < hi - 1 {
        assert before[i] in before;
      }
    }
  }

  ghost predicate SameAs(history: seq<Completion>, ids: seq<nat>, cs: seq<Completion>) {
    |ids| == |cs| && forall i :: 0 <= i < |ids| ==> ids[i] < |history| && history[ids[i]] == cs[i]
  }

  lemma {:induction false} NewerIsSince(history: seq<Completion>, lo: nat, hi: nat, since: int)
    requires lo <= hi <= |history|
    ensures SameAs(history, Newer(history, lo, hi, since), Since(history[lo..hi], since))
    decreases hi
  {
    if lo != hi {
      NewerIsSince(history, lo, hi - 1, since);
      var cs := history[lo..hi];
      assert cs[..|cs| - 1] == history[lo..hi - 1];
      assert cs[|cs| - 1] == history[hi - 1];
    }
  }

  /** The positions listed are, one for one, the completions the runner's handler answers with. */
  lemma ListingIsStats(history: seq<Completion>, since: int)
    ensures SameAs(history, Listing(history, since), Since(Last1000(history), since))
  {
    NewerIsSince(history, RingStart(history), |history|, since);
    assert history[RingStart(history)..|history|] == Last1000(history);
  }

  /** now in nanoseconds, the cursor in the seconds it is kept in. */
  datatype Pipe = Pipe(now: int, history: seq<Completion>, cursor: int, pending: Option<seq<nat>>, written: seq<nat>)

  /**
   * A session is booked as ended at or before the time it is appended, since a slow teardown comes
   * between. A scrape reads the ring at one time and the clock at a later one, or fails.
   */
  datatype Step =
    | Append(at: int, ended: int, duration: int, reason: string)
    | List(at: int)
    | Reply(at: int)
    | Fail(at: int)

  ghost predicate Enabled(p: Pipe, step: Step) {
    && p.now <= step.at
    && match step
       case Append(at, ended, _, _) => ended <= at
       case List(_) => p.pending.None?
       case Reply(_) => p.pending.Some?
       case Fail(_) => p.pending.Some?
  }

  function Apply(p: Pipe, step: Step): Pipe {
    var q := p.(now := step.at);
    match step
    case Append(_, ended, duration, reason) =>
      q.(history := p.history + [Completion(ended / NANOS_PER_SEC, duration, reason)])
    case List(_) => q.(pending := Some(Listing(p.history, p.cursor)))
    case Reply(at) =>
      if p.pending.None? || p.pending.value == [] then q.(pending := None)
      else q.(cursor := at / NANOS_PER_SEC, pending := None, written := p.written + p.pending.value)
    case Fail(_) => q.(pending := None)
  }

  function Start(now: int): Pipe { Pipe(now, [], 0, None, []) }

  ghost predicate Valid(p: Pipe, steps: seq<Step>)
    decreases |steps|
  {
    steps == [] || (Enabled(p, steps[0]) && Valid(Apply(p, steps[0]), steps[1..]))
  }

  function Exec(p: Pipe, steps: seq<Step>): Pipe
    decreases |steps|
  {
    if steps == [] then p else Exec(Apply(p, steps[0]), steps[1..])
  }

  /** The cron's scrape of a runner is a List and its Reply: the same cursor, and one point for each position written. */
  lemma ScrapeIsListAndReply(b: Books, runner: string, p: Pipe, at: int, replied: int)
    requires CursorOf(b, runner) == p.cursor && p.pending.None?
    ensures
      var b' := Scraped(b, runner, Some(Answered(Last1000(p.history), replied / NANOS_PER_SEC)));
      var p' := Apply(Apply(p, List(at)), Reply(replied));
      var ids := Listing(p.history, p.cursor);
      && CursorOf(b', runner) == p'.cursor
      && (forall r :: r != runner ==> CursorOf(b', r) == CursorOf(b, r))
      && p'.written == p.written + ids
      && |b'.points| == |b.points| + |ids|
      && b'.points[..|b.points|] == b.points
      && forall i :: 0 <= i < |ids| ==>
           ids[i] < |p.history|
           && b'.points[|b.points| + i] == (p.history[ids[i]].reason, p.history[ids[i]].duration)
  {
    ListingIsStats(p.history, p.cursor);
  }

  // ---- written at most once ----

  /** Each of these finished, and was booked in the seconds (low, high]. */
  ghost predicate BookedIn(p: Pipe, ids: seq<nat>, low: int, high: int) {
    forall i :: i in ids ==> i < |p.history| && low < p.history[i].endedAt <= high
  }

  ghost predicate Past(p: Pipe) {
    forall i :: 0 <= i < |p.history| ==> p.history[i].endedAt <= p.now / NANOS_PER_SEC
  }

  ghost predicate WrittenBehind(p: Pipe) {
    forall i :: i in p.written ==> i < |p.history| && p.history[i].endedAt <= p.cursor
  }

  ghost predicate Inv(p: Pipe) {
    && Past(p)
    && WrittenBehind(p)
    && Distinct(p.written)
    && (p.pending.Some? ==>
          && Increasing(p.pending.value)
          && BookedIn(p, p.pending.value, p.cursor, p.now / NANOS_PER_SEC))
  }

  lemma LaterSecond(a: int, b: int)
    requires a <= b
    ensures a / NANOS_PER_SEC <= b / NANOS_PER_SEC
  {}

  lemma DistinctAppend(p: Pipe, done: seq<nat>, ids: seq<nat>)
    requires Distinct(done) && Increasing(ids)
    requires forall i :: i in done ==> i < |p.history| && p.history[i].endedAt <= p.cursor
    requires forall i :: i in ids ==> i < |p.history| && p.history[i].endedAt > p.cursor
    ensures Distinct(done + ids)
  {
    var all := done + ids;
    forall i, j | 0 <= i < j < |all| ensures all[i] != all[j] {
      if i < |done| <= j {
        assert all[i] in done && all[j] in ids;
      }
    }
  }

  lemma InvStep(p: Pipe, step: Step)
    requires Inv(p) && Enabled(p, step)
    ensures Inv(Apply(p, step))
  {
    LaterSecond(p.now, step.at);
    match step
    case Append(at, ended, _, _) => LaterSecond(ended, at);
    case List(at) => NewerIs(p.history, RingStart(p.history), |p.history|, p.cursor);
    case Reply(at) =>
      if p.pending.value != [] {
        assert p.pending.value[0] in p.pending.value;
        DistinctAppend(p, p.written, p.pending.value);
      }
    case Fail(_) =>
  }

  lemma {:induction false} InvRun(p: Pipe, steps: seq<Step>)
    requires Inv(p) && Valid(p, steps)
    ensures Inv(Exec(p, steps))
    decreases |steps|
  {
    if steps != [] {
      InvStep(p, steps[0]);
      InvRun(Apply(p, steps[0]), steps[1..]);
    }
  }

  /** Over any run of finishes and scrapes, no finished session is written twice. */
  lemma WrittenAtMostOnce(now: int, steps: seq<Step>)
    requires Valid(Start(now), steps)
    ensures Distinct(Exec(Start(now), steps).written)
  {
    InvRun(Start(now), steps);
  }

  /** A scrape that brings nothing leaves the cursor; one that brings something moves it strictly on, past all it brought. */
  lemma CursorMoves(p: Pipe, step: Step)
    requires Inv(p) && Enabled(p, step)
    ensures var p' := Apply(p, step);
      var brought := step.Reply? && p.pending.value != [];
      && (!brought ==> p'.cursor == p.cursor && p'.written == p.written)
      && (brought ==> p.cursor < p'.cursor && BookedIn(p, p.pending.value, p.cursor, p'.cursor))
  {
    LaterSecond(p.now, step.at);
    if step.Reply? && p.pending.value != [] {
      assert p.pending.value[0] in p.pending.value;
    }
  }

  // ---- and exactly which are still written ----

  /** Finished, but never going to be listed: booked at or before the cursor, or pushed out of the ring. */
  ghost predicate Lost(p: Pipe, i: nat) {
    && i < |p.history|
    && i !in p.written
    && (p.pending.Some? ==> i !in p.pending.value)
    && (p.history[i].endedAt <= p.cursor || i < RingStart(p.history))
  }

  lemma LostStays(p: Pipe, step: Step, i: nat)
    requires Inv(p) && Enabled(p, step) && Lost(p, i)
    ensures Lost(Apply(p, step), i)
  {
    CursorMoves(p, step);
    if step.List? {
      NewerIs(p.history, RingStart(p.history), |p.history|, p.cursor);
    }
  }

  lemma {:induction false} LostForever(p: Pipe, steps: seq<Step>, i: nat)
    requires Inv(p) && Valid(p, steps) && Lost(p, i)
    ensures i !in Exec(p, steps).written
    decreases |steps|
  {
    if steps != [] {
      InvStep(p, steps[0]);
      LostStays(p, steps[0], i);
      LostForever(Apply(p, steps[0]), steps[1..], i);
    }
  }

  /** Between scrapes, a session still unwritten is written by some later run exactly when it is not lost. */
  lemma StillWrittenExactlyWhen(p: Pipe, i: nat)
    requires Inv(p) && p.pending.None? && i < |p.history| && i !in p.written
    ensures (exists steps :: Valid(p, steps) && i in Exec(p, steps).written) <==> !Lost(p, i)
  {
    if Lost(p, i) {
      forall steps | Valid(p, steps) ensures i !in Exec(p, steps).written {
        LostForever(p, steps, i);
      }
    } else {
      NextScrapeWrites(p, i, p.now, p.now);
      assert Valid(p, [List(p.now), Reply(p.now)]);
    }
  }

  /** Indeed by the very next scrape that succeeds, whenever it runs. */
  lemma NextScrapeWrites(p: Pipe, i: nat, at: int, replied: int)
    requires Inv(p) && p.pending.None? && i < |p.history| && i !in p.written && !Lost(p, i)
    requires p.now <= at <= replied
    ensures Valid(p, [List(at), Reply(replied)]) && i in Exec(p, [List(at), Reply(replied)]).written
  {
    var steps := [List(at), Reply(replied)];
    var listed := Apply(p, steps[0]);
    NewerIs(p.history, RingStart(p.history), |p.history|, p.cursor);
    assert i in listed.pending.value;
    assert steps[1..] == [Reply(replied)] && steps[1..][1..] == [];
    assert Enabled(listed, Reply(replied));
    var replies := steps[1..];
    assert Exec(p, steps) == Exec(listed, replies);
    assert Exec(listed, replies) == Exec(Apply(listed, replies[0]), replies[1..]);
  }

  function Second(n: int): int { n * NANOS_PER_SEC }

  const SLOW_TEARDOWN: seq<Step> := [
    Append(Second(1), Second(1), 5, "idle"), List(Second(2)),
    Append(Second(3), Second(2), 9, "hard cap"), Reply(Second(3))]

  /** At-least-once does fail: a session appended between the listing and the reply can fall behind the cursor. */
  lemma SlowTeardownIsLost()
    ensures Valid(Start(0), SLOW_TEARDOWN) && Lost(Exec(Start(0), SLOW_TEARDOWN), 1)
  {
    var s0 := Start(0);
    var s1 := Apply(s0, SLOW_TEARDOWN[0]);
    var s2 := Apply(s1, SLOW_TEARDOWN[1]);
    NewerIs(s1.history, 0, 1, 0);
    assert Listing(s1.history, 0) == [0];
    var s3 := Apply(s2, SLOW_TEARDOWN[2]);
    var s4 := Apply(s3, SLOW_TEARDOWN[3]);
    assert SLOW_TEARDOWN[1..][1..][1..] == [SLOW_TEARDOWN[3]];
    assert SLOW_TEARDOWN[1..][1..][0] == SLOW_TEARDOWN[2];
    assert SLOW_TEARDOWN[1..][0] == SLOW_TEARDOWN[1];
    assert s4.written == [0] && s4.cursor == 3;
  }
}
