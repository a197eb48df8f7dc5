/** What node-creator guarantees over whole runs of ticks. */
module NodeCreatorRuns {
  import opened Prelude
  import opened MachineNames
  import opened NodeCreator

  ghost predicate Managed(w: World, n: string) { n in w.nodes && w.nodes[n].managed }

  ghost predicate Unmanaged(w: World, n: string) { n in w.nodes && !w.nodes[n].managed }

  // ---- minting ----

  lemma {:induction false} MintKeeps(t: Timing, now: int, api: Api, w: World, upns: seq<Upn>)
    ensures var m := Mint(t, now, api, w, upns).w;
      && m.drainAt == w.drainAt
      && (forall n :: n in w.nodes ==> n in m.nodes && m.nodes[n] == w.nodes[n])
      && (forall n :: n in m.nodes && n !in w.nodes ==> n in Wanted(upns) && m.nodes[n] == Node(true, false))
      && (forall k :: k in w.firstReady ==> k in m.firstReady && m.firstReady[k] == w.firstReady[k])
      && (forall k :: k in m.firstReady && k !in w.firstReady ==> m.firstReady[k] == now)
  {
    if upns != [] {
      MintKeeps(t, now, api, w, upns[..|upns| - 1]);
      WantedGrows(upns, |upns| - 1);
      assert upns[..|upns| - 1 + 1] == upns;
    }
  }

  /** Without API errors a minting pass completes, and a Ready UpcomingNode lacks a node only while it dwells. */
  lemma {:induction false} MintHealthy(t: Timing, now: int, w: World, upns: seq<Upn>, u: Upn)
    ensures Mint(t, now, HEALTHY, w, upns).ok
    ensures var m := Mint(t, now, HEALTHY, w, upns).w;
      u in upns && u.ready && u.node !in m.nodes ==>
        u.name in m.firstReady && now >= t.warmupUntil && now - m.firstReady[u.name] < DwellFor(t, u.name)
  {
    if upns != [] {
      var shorter := upns[..|upns| - 1];
      MintHealthy(t, now, w, shorter, u);
      assert u in upns ==> u in shorter || u == upns[|upns| - 1];
    }
  }

  /** Nodes that are not node-creator's are never patched, deleted or replaced, whatever fails. */
  lemma UnmanagedUntouched(t: Timing, now: int, api: Api, w: World, upns: seq<Upn>, n: string)
    requires Unmanaged(w, n)
    ensures n in Tick(t, now, api, w, upns).w.nodes && Tick(t, now, api, w, upns).w.nodes[n] == w.nodes[n]
  {
    MintKeeps(t, now, api, w, upns);
  }

  /** Becoming wanted again in mid-drain cancels the drain: the node stays, and is uncordoned. */
  lemma WantedAgainCancels(t: Timing, now: int, api: Api, w: World, upns: seq<Upn>, n: string)
    requires Completes(t, now, api, w, upns) && Managed(w, n) && n in Wanted(upns)
    ensures var w' := Tick(t, now, api, w, upns).w;
      && Managed(w', n) && n !in w'.drainAt
      && (n in w.drainAt && n !in api.patchFails ==> !w'.nodes[n].unschedulable)
  {
    MintKeeps(t, now, api, w, upns);
  }

  // ---- no node before its time ----

  /** u has been Ready, as far as the controller remembers, for its whole dwell; or it is still warming up. */
  ghost predicate Dwelt(t: Timing, now: int, w: World, u: Upn) {
    || now < t.warmupUntil
    || (u.name in w.firstReady && w.firstReady[u.name] + DwellFor(t, u.name) <= now)
    || (u.name !in w.firstReady && DwellFor(t, u.name) <= 0)
  }

  /** A pass adds a node only for a Ready UpcomingNode of that name whose dwell is over. */
  lemma {:induction false} MintedWhenDwelt(t: Timing, now: int, api: Api, w: World, upns: seq<Upn>, n: string)
    requires n !in w.nodes && n in Mint(t, now, api, w, upns).w.nodes
    ensures exists u :: u in upns && u.ready && u.node == n && Dwelt(t, now, w, u)
  {
    if upns != [] {
      var before, u := upns[..|upns| - 1], upns[|upns| - 1];
      var m := Mint(t, now, api, w, before);
      if n in m.w.nodes {
        MintedWhenDwelt(t, now, api, w, before, n);
      } else {
        MintKeeps(t, now, api, w, before);
        assert u in upns && u.ready && u.node == n && Dwelt(t, now, w, u);
      }
    }
  }

  // ---- drain safety, against any environment ----

  /** One tick's surroundings: the cluster's nodes are whatever others have made of them since the last tick. */
  datatype Look = Look(now: int, api: Api, upns: seq<Upn>, nodes: map<string, Node>)

  /** What the controller remembers after the first m ticks of a run, starting with nothing. */
  ghost function Memory(t: Timing, run: seq<Look>, m: nat): World
    requires m <= |run|
  {
    if m == 0 then World(map[], map[], map[])
    else var l := run[m - 1]; Tick(t, l.now, l.api, Memory(t, run, m - 1).(nodes := l.nodes), l.upns).w
  }

  ghost function WorldAt(t: Timing, run: seq<Look>, m: nat): World
    requires m < |run|
  {
    Memory(t, run, m).(nodes := run[m].nodes)
  }

  ghost predicate CompletedAt(t: Timing, run: seq<Look>, m: nat) {
    m < |run| && Completes(t, run[m].now, run[m].api, WorldAt(t, run, m), run[m].upns)
  }

  ghost function ListedAt(t: Timing, run: seq<Look>, m: nat): World
    requires m < |run|
  {
    Listed(t, run[m].now, run[m].api, WorldAt(t, run, m), run[m].upns)
  }

  /** Tick j saw an UpcomingNode of this name Ready. */
  ghost predicate SawReady(run: seq<Look>, j: nat, name: string) {
    j < |run| && exists u :: u in run[j].upns && u.ready && u.name == name
  }

  /** Tick k collects what it remembers of UpcomingNodes, and this one is not there. */
  ghost predicate Forgets(t: Timing, run: seq<Look>, k: nat, name: string) {
    && k < |run| && run[k].api.listUpnsOk
    && Mint(t, run[k].now, run[k].api, WorldAt(t, run, k), run[k].upns).ok
    && forall u :: u in run[k].upns ==> u.name != name
  }

  ghost predicate ReadySince(t: Timing, run: seq<Look>, j: nat, i: nat, name: string) {
    j < i && SawReady(run, j, name) && forall k: nat :: j <= k < i ==> !Forgets(t, run, k, name)
  }

  lemma {:induction false} FirstReadyIsReady(t: Timing, now: int, api: Api, w: World, upns: seq<Upn>, k: string)
    requires k !in w.firstReady && k in Mint(t, now, api, w, upns).w.firstReady
    ensures exists u :: u in upns && u.ready && u.name == k
  {
    if upns != [] {
      var before, u := upns[..|upns| - 1], upns[|upns| - 1];
      if k in Mint(t, now, api, w, before).w.firstReady {
        FirstReadyIsReady(t, now, api, w, before, k);
      } else {
        assert u in upns && u.ready && u.name == k;
      }
    }
  }

  /** What the controller remembers of an UpcomingNode is the tick that saw it Ready, and no tick since has forgotten it. */
  lemma {:induction false} ReadyOrigin(t: Timing, run: seq<Look>, i: nat, name: string)
    requires i <= |run| && name in Memory(t, run, i).firstReady
    ensures exists j: nat :: ReadySince(t, run, j, i, name) && Memory(t, run, i).firstReady[name] == run[j].now
  {
    if i > 0 {
      var l, w := run[i - 1], WorldAt(t, run, i - 1);
      MintKeeps(t, l.now, l.api, w, l.upns);
      assert !Forgets(t, run, i - 1, name);
      if name in w.firstReady {
        ReadyOrigin(t, run, i - 1, name);
        var j: nat :| ReadySince(t, run, j, i - 1, name) && Memory(t, run, i - 1).firstReady[name] == run[j].now;
        assert ReadySince(t, run, j, i, name);
      } else {
        FirstReadyIsReady(t, l.now, l.api, w, l.upns, name);
        assert ReadySince(t, run, i - 1, i, name);
      }
    }
  }

  /** Why tick m may create a node for u: warmup, or u has been Ready for its dwell since a tick that saw it so. */
  ghost predicate DueFor(t: Timing, run: seq<Look>, m: nat, u: Upn)
    requires m < |run|
  {
    || run[m].now < t.warmupUntil
    || DwellFor(t, u.name) <= 0
    || exists j: nat :: ReadySince(t, run, j, m, u.name) && run[m].now >= run[j].now + DwellFor(t, u.name)
  }

  /**
   * Over any run in any environment: a node the controller creates is that of an UpcomingNode Ready
   * now, first seen Ready by a tick at least its dwell before and never forgotten since, unless the
   * controller is still warming up.
   */
  lemma MintedOnTime(t: Timing, run: seq<Look>, m: nat, n: string)
    requires m < |run| && n !in run[m].nodes && n in Memory(t, run, m + 1).nodes
    ensures exists u :: u in run[m].upns && u.ready && u.node == n && DueFor(t, run, m, u)
  {
    var l, w := run[m], WorldAt(t, run, m);
    MintKeeps(t, l.now, l.api, w, l.upns);
    MintedWhenDwelt(t, l.now, l.api, w, l.upns, n);
    var u :| u in l.upns && u.ready && u.node == n && Dwelt(t, l.now, w, u);
    if l.now >= t.warmupUntil && u.name in w.firstReady {
      ReadyOrigin(t, run, m, u.name);
    }
  }

  ghost predicate Judges(t: Timing, run: seq<Look>, m: nat, n: string, v: Verdict) {
    && CompletedAt(t, run, m) && n in ListedAt(t, run, m).nodes
    && Decide(run[m].now, Wanted(run[m].upns), ListedAt(t, run, m), n) == v
  }

  ghost predicate Wants(t: Timing, run: seq<Look>, m: nat, n: string) {
    CompletedAt(t, run, m) && Managed(ListedAt(t, run, m), n) && n in Wanted(run[m].upns)
  }

  /** The drain of n that is on at tick i was started at tick j, and no completed tick since has wanted n. */
  ghost predicate DrainingSince(t: Timing, run: seq<Look>, j: nat, i: nat, n: string) {
    j < i && Judges(t, run, j, n, StartDrain) && forall k :: j < k < i ==> !Wants(t, run, k, n)
  }

  lemma {:induction false} DrainOrigin(t: Timing, run: seq<Look>, i: nat, n: string)
    requires i <= |run| && n in Memory(t, run, i).drainAt
    ensures exists j: nat :: DrainingSince(t, run, j, i, n) && Memory(t, run, i).drainAt[n] == run[j].now + t.drainDwell
  {
    if i > 0 {
      var l, w := run[i - 1], WorldAt(t, run, i - 1);
      MintKeeps(t, l.now, l.api, w, l.upns);
      if Judges(t, run, i - 1, n, StartDrain) {
        assert DrainingSince(t, run, i - 1, i, n);
      } else {
        assert !Wants(t, run, i - 1, n);
        assert n in Memory(t, run, i - 1).drainAt;
        DrainOrigin(t, run, i - 1, n);
        var j: nat :| DrainingSince(t, run, j, i - 1, n) && Memory(t, run, i - 1).drainAt[n] == run[j].now + t.drainDwell;
        assert DrainingSince(t, run, j, i, n);
      }
    }
  }

  /**
   * A node is deleted only when it is managed and unwanted, and an earlier completed tick, at least
   * the drain window before, started its drain, and no completed tick in between found it wanted.
   */
  lemma DrainSafety(t: Timing, run: seq<Look>, i: nat, n: string)
    requires Judges(t, run, i, n, Delete)
    ensures Managed(ListedAt(t, run, i), n) && n !in Wanted(run[i].upns)
    ensures exists j: nat :: DrainingSince(t, run, j, i, n) && run[i].now >= run[j].now + t.drainDwell
  {
    MintKeeps(t, run[i].now, run[i].api, WorldAt(t, run, i), run[i].upns);
    DrainOrigin(t, run, i, n);
  }

  // ---- and without exception, where nobody else interferes ----

  /** Up to tick i, nobody but the controller removes a managed node n or takes it over. */
  ghost predicate LeftAlone(t: Timing, run: seq<Look>, i: nat, n: string)
    requires i <= |run|
  {
    forall k: nat :: k < i && Managed(Memory(t, run, k), n) ==> Managed(WorldAt(t, run, k), n)
  }

  ghost predicate UnwantedAt(t: Timing, run: seq<Look>, k: nat, n: string) {
    CompletedAt(t, run, k) ==> n !in Wanted(run[k].upns)
  }

  /** A drain goes on only for a node that is there. */
  lemma {:induction false} DrainingIsManaged(t: Timing, run: seq<Look>, i: nat, n: string)
    requires i <= |run| && LeftAlone(t, run, i, n) && n in Memory(t, run, i).drainAt
    ensures Managed(Memory(t, run, i), n)
  {
    if i > 0 {
      var l, w := run[i - 1], WorldAt(t, run, i - 1);
      MintKeeps(t, l.now, l.api, w, l.upns);
      if !Judges(t, run, i - 1, n, StartDrain) {
        assert n in Memory(t, run, i - 1).drainAt;
        DrainingIsManaged(t, run, i - 1, n);
        assert Managed(w, n);
      }
    }
  }

  /** The drain of n that is on at tick i was started at tick j, and no completed tick since has wanted n at all. */
  ghost predicate UnwantedSince(t: Timing, run: seq<Look>, j: nat, i: nat, n: string) {
    j < i && Judges(t, run, j, n, StartDrain) && forall k: nat :: j < k < i ==> UnwantedAt(t, run, k, n)
  }

  lemma {:induction false} UndisturbedOrigin(t: Timing, run: seq<Look>, i: nat, n: string)
    requires i <= |run| && LeftAlone(t, run, i, n) && n in Memory(t, run, i).drainAt
    ensures exists j: nat :: UnwantedSince(t, run, j, i, n) && Memory(t, run, i).drainAt[n] == run[j].now + t.drainDwell
  {
    if i > 0 {
      var l, w := run[i - 1], WorldAt(t, run, i - 1);
      MintKeeps(t, l.now, l.api, w, l.upns);
      if Judges(t, run, i - 1, n, StartDrain) {
        assert UnwantedSince(t, run, i - 1, i, n);
      } else {
        assert n in Memory(t, run, i - 1).drainAt;
        DrainingIsManaged(t, run, i - 1, n);
        assert Managed(w, n) && UnwantedAt(t, run, i - 1, n);
        UndisturbedOrigin(t, run, i - 1, n);
        var j: nat :| UnwantedSince(t, run, j, i - 1, n) && Memory(t, run, i - 1).drainAt[n] == run[j].now + t.drainDwell;
        assert UnwantedSince(t, run, j, i, n);
      }
    }
  }

  /**
   * As long as nobody else removes or takes over the node: it is deleted only when an earlier
   * completed tick, at least the drain window before, started its drain, and no completed tick in
   * between wanted it.
   */
  lemma UndisturbedDrainSafety(t: Timing, run: seq<Look>, i: nat, n: string)
    requires Judges(t, run, i, n, Delete) && LeftAlone(t, run, i, n)
    ensures exists j: nat :: UnwantedSince(t, run, j, i, n) && run[i].now >= run[j].now + t.drainDwell
  {
    MintKeeps(t, run[i].now, run[i].api, WorldAt(t, run, i), run[i].upns);
    UndisturbedOrigin(t, run, i, n);
  }

  // ---- what interference can do ----

  const X_TIMING := Timing(10, 10, 20, 0)
  const X_WANTED: seq<Upn> := [Upn("u", "x", true)]
  const UNLISTED := Api(true, {}, {}, false, {}, {})

  function X(cordoned: bool): map<string, Node> { map["x" := Node(true, cordoned)] }

  /** Somebody removes x once its drain has started; the last look is the cluster as the controller left it. */
  const X_RUN: seq<Look> := [
    Look(0, HEALTHY, [], X(false)), Look(15, HEALTHY, X_WANTED, map[]), Look(30, UNLISTED, X_WANTED, map[]),
    Look(31, HEALTHY, [], X(false))]

  /** The controller's memory after each tick of that run. */
  ghost function XMemory(m: nat): World {
    if m == 0 then World(map[], map[], map[])
    else if m == 1 then World(map[], map["x" := 20], X(true))
    else if m == 2 then World(map["u" := 15], map["x" := 20], map[])
    else World(map["u" := 15], map["x" := 20], X(false))
  }

  lemma XMint(now: int, api: Api, w: World)
    requires api == HEALTHY || api == UNLISTED
    ensures Mint(X_TIMING, now, api, w, []) == Minted(w, true)
    ensures Mint(X_TIMING, now, api, w, X_WANTED) == MintOne(X_TIMING, now, api, w, X_WANTED[0])
  {
    assert X_WANTED[..0] == [];
  }

  lemma XStep(m: nat)
    requires m < 3
    ensures Tick(X_TIMING, X_RUN[m].now, X_RUN[m].api, XMemory(m).(nodes := X_RUN[m].nodes), X_RUN[m].upns).w == XMemory(m + 1)
  {
    var l, w := X_RUN[m], XMemory(m).(nodes := X_RUN[m].nodes);
    XMint(l.now, l.api, w);
    assert Wanted([]) == {} && Wanted(X_WANTED) == {"x"} && LiveNames([]) == {} && LiveNames(X_WANTED) == {"u"};
  }

  lemma {:induction false} XMemoryIs(m: nat)
    requires m <= 3
    ensures Memory(X_TIMING, X_RUN, m) == XMemory(m)
  {
    if m > 0 {
      XMemoryIs(m - 1);
      XStep(m - 1);
    }
  }

  /**
   * Removed in mid-drain, wanted by a completed tick while absent, and minted anew by a tick that
   * then fails to list the nodes, x still has the old drain time: a tick an instant later finds it
   * unwanted and deletes it with no window of its own.
   */
  lemma RemintedAndDeletedAtOnce()
    ensures CompletedAt(X_TIMING, X_RUN, 1) && "x" in Wanted(X_RUN[1].upns)
    ensures "x" !in X_RUN[2].nodes && "x" in Memory(X_TIMING, X_RUN, 3).nodes
    ensures X_RUN[3].nodes == Memory(X_TIMING, X_RUN, 3).nodes
    ensures X_RUN[3].now == X_RUN[2].now + 1 && Judges(X_TIMING, X_RUN, 3, "x", Delete)
  {
    XMemoryIs(1);
    XMemoryIs(3);
    XMint(15, HEALTHY, WorldAt(X_TIMING, X_RUN, 1));
    XMint(31, HEALTHY, WorldAt(X_TIMING, X_RUN, 3));
    assert X_WANTED[0] in X_WANTED;
    assert Wanted([]) == {};
  }

  /** Deletion is the only way a tick removes a node. */
  lemma OnlyDeleteRemoves(t: Timing, run: seq<Look>, i: nat, n: string)
    requires i < |run| && n in run[i].nodes && n !in Memory(t, run, i + 1).nodes
    ensures Judges(t, run, i, n, Delete)
  {
    MintKeeps(t, run[i].now, run[i].api, WorldAt(t, run, i), run[i].upns);
  }

  /** A drain that starts cordons the node, if the cluster lets it, and a drain that goes on leaves it as it is. */
  lemma DrainCordons(t: Timing, run: seq<Look>, i: nat, n: string)
    requires Judges(t, run, i, n, StartDrain) || Judges(t, run, i, n, KeepDraining)
    ensures n in Memory(t, run, i + 1).nodes && n in Memory(t, run, i + 1).drainAt
    ensures Judges(t, run, i, n, StartDrain) ==>
      && (n !in run[i].api.patchFails ==> Memory(t, run, i + 1).nodes[n].unschedulable)
      && Memory(t, run, i + 1).drainAt[n] == run[i].now + t.drainDwell
    ensures Judges(t, run, i, n, KeepDraining) ==> Memory(t, run, i + 1).nodes[n] == ListedAt(t, run, i).nodes[n]
  {}

  /** A delete that goes through removes the node; one that fails leaves it as it was, to be drained afresh. */
  lemma DeleteEffect(t: Timing, run: seq<Look>, i: nat, n: string)
    requires Judges(t, run, i, n, Delete)
    ensures n !in Memory(t, run, i + 1).drainAt
    ensures n in Memory(t, run, i + 1).nodes <==> n in run[i].api.deleteFails
    ensures n in run[i].api.deleteFails ==> Memory(t, run, i + 1).nodes[n] == ListedAt(t, run, i).nodes[n]
  {}

  /** A cordon or uncordon that fails leaves the node as it was; the drain starts, or is cancelled, all the same. */
  lemma FailedPatch(t: Timing, run: seq<Look>, i: nat, n: string)
    requires Judges(t, run, i, n, StartDrain) || Judges(t, run, i, n, Cancel)
    requires n in run[i].api.patchFails
    ensures n in Memory(t, run, i + 1).nodes && Memory(t, run, i + 1).nodes[n] == ListedAt(t, run, i).nodes[n]
    ensures n in Memory(t, run, i + 1).drainAt <==> Judges(t, run, i, n, StartDrain)
  {}

  /** A tick completes exactly when both lists and every create it comes to succeed; one that does not touches no node and no drain. */
  lemma UnfinishedTickIsHarmless(t: Timing, now: int, api: Api, w: World, upns: seq<Upn>)
    ensures Tick(t, now, api, w, upns).completed <==> api.listUpnsOk && api.listNodesOk && Mint(t, now, api, w, upns).ok
    ensures var r := Tick(t, now, api, w, upns);
      !r.completed ==> r.w.drainAt == w.drainAt && forall n :: n in w.nodes ==> n in r.w.nodes && r.w.nodes[n] == w.nodes[n]
    ensures !api.listUpnsOk ==> Tick(t, now, api, w, upns).w == w
  {
    MintKeeps(t, now, api, w, upns);
  }

  /** A node that is due but cannot be created ends the tick in error, with no node lost and none drained. */
  lemma FailedCreateStops(t: Timing, now: int, api: Api, w: World, u: Upn)
    requires u.ready && u.node !in w.nodes && u.node in api.createFails && Dwelt(t, now, w, u)
    ensures var m := MintOne(t, now, api, w, u); !m.ok && m.w.nodes == w.nodes && m.w.drainAt == w.drainAt
    ensures api.listUpnsOk ==> !Tick(t, now, api, w, [u]).completed && Tick(t, now, api, w, [u]).w.nodes == w.nodes
  {
    var upns := [u];
    assert upns[..|upns| - 1] == [] && upns[|upns| - 1] == u;
    assert Mint(t, now, api, w, upns) == MintOne(t, now, api, w, u);
  }

  // ---- convergence ----

  /** Ticks at these times with nothing failing and nobody else changing the cluster. */
  ghost function Settle(t: Timing, w: World, times: seq<int>, upns: seq<Upn>): World {
    if times == [] then w
    else Tick(t, times[|times| - 1], HEALTHY, Settle(t, w, times[..|times| - 1], upns), upns).w
  }

  /** Memories no younger than a first tick at t0 could have left them. */
  ghost predicate Seasoned(t: Timing, w: World, t0: int) {
    && (forall k :: k in w.firstReady ==> w.firstReady[k] <= t0)
    && (forall n :: n in w.drainAt ==> w.drainAt[n] <= t0 + t.drainDwell)
  }

  /** Which is what any run leaves behind, once the clock has reached t0. */
  lemma {:induction false} MemoryIsSeasoned(t: Timing, run: seq<Look>, i: nat, t0: int)
    requires i <= |run| && forall k :: 0 <= k < i ==> run[k].now <= t0
    ensures Seasoned(t, Memory(t, run, i), t0)
  {
    if i > 0 {
      MemoryIsSeasoned(t, run, i - 1, t0);
      MintKeeps(t, run[i - 1].now, run[i - 1].api, WorldAt(t, run, i - 1), run[i - 1].upns);
    }
  }

  ghost predicate Underway(t: Timing, w0: World, w: World, upns: seq<Upn>, t0: int) {
    && (forall u :: u in upns && u.ready ==> u.node in w.nodes || (u.name in w.firstReady && w.firstReady[u.name] <= t0))
    && (forall n :: Managed(w, n) && n !in Wanted(upns) ==> n in w.drainAt && w.drainAt[n] <= t0 + t.drainDwell)
    && (forall n :: Unmanaged(w, n) <==> Unmanaged(w0, n))
    && (forall n :: Managed(w, n) && n in Wanted(upns) ==> n !in w.drainAt)
  }

  /** The managed nodes are exactly the wanted names that no unmanaged node occupies, and none is draining. */
  ghost predicate Converged(w0: World, w: World, upns: seq<Upn>) {
    && (forall n :: Managed(w, n) <==> n in Wanted(upns) && !Unmanaged(w0, n))
    && (forall n :: Unmanaged(w, n) <==> Unmanaged(w0, n))
    && (forall n :: Managed(w, n) ==> n !in w.drainAt)
  }

  ghost predicate DrainsAreManaged(w: World) { forall n :: n in w.drainAt ==> Managed(w, n) }

  lemma HealthyCompletes(t: Timing, now: int, w: World, upns: seq<Upn>)
    ensures Completes(t, now, HEALTHY, w, upns)
    ensures Tick(t, now, HEALTHY, w, upns).w
      == DrainPass(t, now, Wanted(upns), HEALTHY, Listed(t, now, HEALTHY, w, upns))
  {
    MintHealthy(t, now, w, upns, Upn("", "", false));
  }

  lemma NodesAfterTick(t: Timing, now: int, w: World, upns: seq<Upn>, n: string)
    ensures var l, w' := Listed(t, now, HEALTHY, w, upns), Tick(t, now, HEALTHY, w, upns).w;
      && l.drainAt == w.drainAt
      && (Unmanaged(w', n) <==> Unmanaged(w, n)) && (Unmanaged(l, n) <==> Unmanaged(w, n))
      && (Managed(w', n) ==> Managed(l, n))
      && (Managed(l, n) && n in Wanted(upns) ==> Managed(w', n) && n !in w'.drainAt)
      && (Managed(l, n) && n !in Wanted(upns) ==> Managed(w, n))
      && (Managed(w', n) && n !in Wanted(upns) ==>
            n in w'.drainAt && w'.drainAt[n] == if n in w.drainAt then w.drainAt[n] else now + t.drainDwell)
      && (Managed(w', n) && n !in Wanted(upns) && n in w.drainAt ==> now < w.drainAt[n])
  {
    HealthyCompletes(t, now, w, upns);
    MintKeeps(t, now, HEALTHY, w, upns);
  }

  lemma UpnAfterTick(t: Timing, now: int, w: World, upns: seq<Upn>, u: Upn)
    requires u in upns && u.ready
    ensures var w' := Tick(t, now, HEALTHY, w, upns).w;
      && (u.node in w.nodes ==> u.node in w'.nodes)
      && (u.node in w'.nodes || (u.name in w'.firstReady && now - w'.firstReady[u.name] < DwellFor(t, u.name)
            && w'.firstReady[u.name] == if u.name in w.firstReady then w.firstReady[u.name] else now))
  {
    HealthyCompletes(t, now, w, upns);
    MintKeeps(t, now, HEALTHY, w, upns);
    MintHealthy(t, now, w, upns, u);
    var l := Listed(t, now, HEALTHY, w, upns);
    assert u.node in Wanted(upns) && u.name in LiveNames(upns);
    NodesAfterTick(t, now, w, upns, u.node);
  }

  lemma FirstTick(t: Timing, w: World, upns: seq<Upn>, t0: int)
    requires Seasoned(t, w, t0)
    ensures Underway(t, w, Tick(t, t0, HEALTHY, w, upns).w, upns, t0)
  {
    forall n: string { NodesAfterTick(t, t0, w, upns, n); }
    forall u | u in upns && u.ready { UpnAfterTick(t, t0, w, upns, u); }
  }

  lemma LaterTick(t: Timing, w0: World, w: World, upns: seq<Upn>, t0: int, now: int)
    requires Underway(t, w0, w, upns, t0)
    ensures Underway(t, w0, Tick(t, now, HEALTHY, w, upns).w, upns, t0)
  {
    forall n: string { NodesAfterTick(t, now, w, upns, n); }
    forall u | u in upns && u.ready { UpnAfterTick(t, now, w, upns, u); }
  }

  /** Long enough after the first tick, every dwell and every drain is over. */
  function Longest(t: Timing): int { Max(Max(t.dwellMin, t.dwellMax), t.drainDwell) }

  lemma LastTick(t: Timing, w0: World, w: World, upns: seq<Upn>, t0: int, now: int)
    requires Underway(t, w0, w, upns, t0) && now >= t0 + Longest(t)
    ensures Converged(w0, Tick(t, now, HEALTHY, w, upns).w, upns)
  {
    var w' := Tick(t, now, HEALTHY, w, upns).w;
    forall n ensures Managed(w', n) ==> n in Wanted(upns) {
      NodesAfterTick(t, now, w, upns, n);
    }
    forall n | n in Wanted(upns) ensures n in w'.nodes {
      var u :| u in upns && u.ready && u.node == n;
      UpnAfterTick(t, now, w, upns, u);
      DwellInRange(t, u.name);
    }
    forall n: string { NodesAfterTick(t, now, w, upns, n); }
  }

  lemma {:induction false} SettleUnderway(t: Timing, w: World, times: seq<int>, upns: seq<Upn>)
    requires times != [] && Seasoned(t, w, times[0])
    ensures Underway(t, w, Settle(t, w, times, upns), upns, times[0])
    decreases |times|
  {
    if |times| == 1 {
      assert Settle(t, w, times[..0], upns) == w;
      FirstTick(t, w, upns, times[0]);
    } else {
      var before := times[..|times| - 1];
      SettleUnderway(t, w, before, upns);
      LaterTick(t, w, Settle(t, w, before, upns), upns, times[0], times[|times| - 1]);
    }
  }

  lemma {:induction false} SettleDrains(t: Timing, w: World, times: seq<int>, upns: seq<Upn>)
    requires DrainsAreManaged(w)
    ensures DrainsAreManaged(Settle(t, w, times, upns))
    decreases |times|
  {
    if times != [] {
      var before := Settle(t, w, times[..|times| - 1], upns);
      SettleDrains(t, w, times[..|times| - 1], upns);
      HealthyCompletes(t, times[|times| - 1], before, upns);
      MintKeeps(t, times[|times| - 1], HEALTHY, before, upns);
    }
  }

  /**
   * Convergence: with the UpcomingNodes fixed and nothing failing, any later tick at least the
   * longest dwell or drain after a first one leaves the managed nodes exactly the wanted names,
   * with no drain pending.
   */
  lemma Convergence(t: Timing, w: World, times: seq<int>, upns: seq<Upn>)
    requires |times| >= 2 && Seasoned(t, w, times[0])
    requires times[|times| - 1] >= times[0] + Longest(t)
    ensures var w' := Settle(t, w, times, upns);
      Converged(w, w', upns) && (DrainsAreManaged(w) ==> w'.drainAt == map[])
  {
    var before := times[..|times| - 1];
    SettleUnderway(t, w, before, upns);
    LastTick(t, w, Settle(t, w, before, upns), upns, times[0], times[|times| - 1]);
    if DrainsAreManaged(w) {
      SettleDrains(t, w, times, upns);
    }
  }

  /** And from there on no tick, at any time, creates, deletes, cordons or starts draining anything. */
  lemma ConvergedIsStable(t: Timing, w0: World, w: World, upns: seq<Upn>, now: int)
    requires Converged(w0, w, upns)
    ensures var w' := Tick(t, now, HEALTHY, w, upns).w;
      w'.nodes == w.nodes && w'.drainAt == w.drainAt && Converged(w0, w', upns)
  {
    HealthyCompletes(t, now, w, upns);
    MintKeeps(t, now, HEALTHY, w, upns);
    var l := Listed(t, now, HEALTHY, w, upns);
    assert forall n :: n in l.nodes && n !in w.nodes ==> n in Wanted(upns) && (Managed(w, n) || Unmanaged(w0, n));
    assert l.nodes == w.nodes;
    forall n | n in l.nodes ensures Decide(now, Wanted(upns), l, n) == Leave {
      assert Managed(w, n) || Unmanaged(w, n);
    }
    var w' := DrainPass(t, now, Wanted(upns), HEALTHY, l);
    assert w'.nodes == w.nodes && w'.drainAt == w.drainAt;
  }
}
