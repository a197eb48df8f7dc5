/** The coordinator's choice meets the runners' reported headroom. */
module Placement {
  import opened Prelude
  import HostRegistry
  import HostCapacity
  import opened Coordinator

  /**
   * Runner i answers for the registry h: it reports h's headroom, and creates a session exactly
   * when the create o, which is what happens to h next, hands one out or starts one.
   */
  ghost predicate AnswersFor<R>(o: Offer, c: HostRegistry.Config, h: HostRegistry.Registry<R>, outcome: HostCapacity.Outcome<R>)
    requires c.sessionMB > 0
  {
    && o.headroom == Some(HostCapacity.HeadroomOf(c, h))
    && HostCapacity.Possible(c, h, outcome)
    && (o.created.Some? <==> outcome.Handed? || outcome.Started?)
  }

  /**
   * If some runner, with no pool launch in flight, reports headroom and finds a port, the visitor
   * is seated; and the runner is one with at least as much room, since all better ranked ones refused.
   */
  lemma HeadroomSeatsAVisitor<R>(
    offers: seq<Offer>, i: nat, c: HostRegistry.Config, h: HostRegistry.Registry<R>, outcome: HostCapacity.Outcome<R>)
    requires i < |offers| && HostRegistry.Wf(h) && h.poolInFlight == 0 && c.sessionMB > 0
    requires AnswersFor(offers[i], c, h, outcome) && !outcome.NoPort?
    requires HostCapacity.HeadroomOf(c, h) > 0
    ensures AssignNew(offers).Some?
    ensures exists j: nat ::
      && Chosen(offers, j)
      && AssignNew(offers).value.runner == offers[j].runner
      && RoomAt(offers, j) >= HostCapacity.HeadroomOf(c, h)
  {
    HostCapacity.HeadroomSound(c, h, [outcome], 0);
    assert Creates(offers, i) && RoomAt(offers, i) > 0;
    AssignNewChooses(offers);
    var j: nat :| Chosen(offers, j) && AssignNew(offers).value == OnRunner(offers[j]);
  }
}
