/** From a fleet of machines to the cluster's nodes: each configured machine ends up with one node of its own. */
module FleetNodes {
  import opened Prelude
  import opened MachineNames
  import opened NodeNames
  import opened NodeCreator
  import opened NodeCreatorRuns

  /** The node names of some machines. */
  function Names(ms: seq<Instance>): (ns: seq<string>)
    ensures |ns| == |ms|
  {
    seq(|ms|, i requires 0 <= i < |ms| => NodeNameOf(ms[i]))
  }

  /** The UpcomingNodes of machines that are all configured. */
  function UpnsOf(ms: seq<Instance>): (upns: seq<Upn>)
    ensures |upns| == |ms|
  {
    seq(|ms|, i requires 0 <= i < |ms| => UpcomingNode("un-" + ms[i].id, ms[i].instanceType, true))
  }

  lemma UpnIsNamed(ms: seq<Instance>, i: nat)
    requires i < |ms|
    ensures UpnsOf(ms)[i].ready && UpnsOf(ms)[i].node == Names(ms)[i]
  {}

  /** What the controller wants is all a list of UpcomingNodes names, when they are all Ready. */
  lemma AllWanted(upns: seq<Upn>, ns: seq<string>)
    requires |upns| == |ns| && forall i :: 0 <= i < |ns| ==> upns[i].ready && upns[i].node == ns[i]
    ensures forall n :: n in Wanted(upns) <==> n in ns
  {
    forall n ensures n in Wanted(upns) <==> n in ns {
      if n in ns {
        var i :| 0 <= i < |ns| && ns[i] == n;
        assert upns[i] in upns;
      }
    }
  }

  lemma NamesAreDistinct(o: Options, ms: seq<Instance>)
    requires NamesDiffer(o) && Distinct(ms) && forall i :: 0 <= i < |ms| ==> InFleet(o, ms[i])
    ensures Distinct(Names(ms))
  {
    var ns := Names(ms);
    forall i, j | 0 <= i < j < |ns| ensures ns[i] != ns[j] {
      assert InFleet(o, ms[i]) && InFleet(o, ms[j]);
      NameAt(ms, i);
      NameAt(ms, j);
    }
  }

  lemma NameAt(ms: seq<Instance>, i: nat)
    requires i < |ms|
    ensures Names(ms)[i] == NodeNameOf(ms[i])
  {}

  lemma {:induction false} DistinctCard(xs: seq<string>, s: set<string>)
    requires Distinct(xs) && forall x :: x in s <==> x in xs
    ensures |s| == |xs|
  {
    if xs == [] {
      assert s == {};
    } else {
      var init, last := xs[..|xs| - 1], xs[|xs| - 1];
      assert xs == init + [last];
      DistinctCard(init, s - {last});
    }
  }

  /** In a cluster of nobody else's nodes, machines of a fleet whose names differ converge to one node each, and no other. */
  lemma EveryMachineItsNode(t: Timing, o: Options, ms: seq<Instance>, w: World, times: seq<int>)
    requires NamesDiffer(o) && Distinct(ms) && forall i :: 0 <= i < |ms| ==> InFleet(o, ms[i])
    requires |times| >= 2 && Seasoned(t, w, times[0]) && times[|times| - 1] >= times[0] + Longest(t)
    requires forall n :: !Unmanaged(w, n)
    ensures var nodes := Settle(t, w, times, UpnsOf(ms)).nodes;
      && |nodes.Keys| == |ms|
      && forall n :: n in nodes <==> n in Names(ms)
  {
    NamesAreDistinct(o, ms);
    forall i | 0 <= i < |ms| ensures UpnsOf(ms)[i].ready && UpnsOf(ms)[i].node == Names(ms)[i] {
      UpnIsNamed(ms, i);
    }
    AllWanted(UpnsOf(ms), Names(ms));
    Convergence(t, w, times, UpnsOf(ms));
    OwnNodesOnly(w, Settle(t, w, times, UpnsOf(ms)), UpnsOf(ms), Names(ms));
  }

  lemma OwnNodesOnly(w: World, w': World, upns: seq<Upn>, ns: seq<string>)
    requires Converged(w, w', upns) && Distinct(ns) && forall n :: !Unmanaged(w, n)
    requires forall n :: n in Wanted(upns) <==> n in ns
    ensures |w'.nodes.Keys| == |ns| && forall n :: n in w'.nodes <==> n in ns
  {
    forall n ensures n in w'.nodes <==> n in ns {
      assert n in w'.nodes <==> Managed(w', n) || Unmanaged(w', n);
    }
    DistinctCard(ns, w'.nodes.Keys);
  }
}
