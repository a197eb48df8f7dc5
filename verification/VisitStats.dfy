/** From end to end: a visit, the completion the host appends for it, and the data point the cron writes. */
module VisitStats {
  import opened Prelude
  import H = HostSystem
  import R = HostRuns
  import opened HostRecords
  import opened StatsCursor
  import HostRegistry

  /** The sessions behind the points a pipeline has written. */
  ghost function VisitsWritten<R>(log: seq<R>, written: seq<nat>): seq<R>
    requires forall i :: 0 <= i < |written| ==> written[i] < |log|
  {
    seq(|written|, i requires 0 <= i < |written| => log[written[i]])
  }

  /**
   * Over any run of the host that never takes a session already marked, and any run of scrapes
   * that fed on that host's completions: every point written is of some visit, and no visit's
   * point is written twice.
   */
  lemma NoVisitWrittenTwice<R>(
    c: HostRegistry.Config, s0: H.System<R>, steps: seq<H.Step<R>>, now: int, scrapes: seq<Step>)
    requires R.Reachable(c, s0, steps) && c.sessionMB >= 0 && forall r :: Retaken(c, s0, steps, r) == 0
    requires Valid(Start(now), scrapes) && Exec(Start(now), scrapes).history == H.Exec(c, s0, steps).history
    ensures var log, p := Log(c, s0, steps), Exec(Start(now), scrapes);
      && Tells(log, H.Exec(c, s0, steps), 0)
      && (forall i :: 0 <= i < |p.written| ==> p.written[i] < |log|)
      && Distinct(VisitsWritten(log, p.written))
  {
    NoVisitRecordedTwice(c, s0, steps);
    InvRun(Start(now), scrapes);
    var log, p := Log(c, s0, steps), Exec(Start(now), scrapes);
    forall i | 0 <= i < |p.written| ensures p.written[i] < |log| {
      assert p.written[i] in p.written;
    }
  }
}
