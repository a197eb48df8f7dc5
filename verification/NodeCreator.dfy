/**
 * cmd/node-creator's reconcile loop: UpcomingNodes in, kwok Nodes out, with a provisioning dwell
 * on the way up and a cordon-drain-delete window on the way down.
 */
module NodeCreator {
  import opened Prelude
  import opened MachineNames

  /** Durations and times are nanoseconds. */
  datatype Timing = Timing(dwellMin: int, dwellMax: int, drainDwell: int, warmupUntil: int)

  /** An UpcomingNode, with the node name node-creator derives from it. */
  datatype Upn = Upn(name: string, node: string, ready: bool)

  function UpcomingNode(name: string, instanceType: string, ready: bool): Upn {
    Upn(name, RealisticNodeName(name, instanceType), ready)
  }

  datatype Node = Node(managed: bool, unschedulable: bool)

  /** Which API calls of one tick fail. */
  datatype Api = Api(
    listUpnsOk: bool, getFails: set<string>, createFails: set<string>,
    listNodesOk: bool, patchFails: set<string>, deleteFails: set<string>)

  const HEALTHY := Api(true, {}, {}, true, {}, {})

  /** The controller's two maps, and the cluster's nodes by name. */
  datatype World = World(firstReady: map<string, int>, drainAt: map<string, int>, nodes: map<string, Node>)

  const SECOND := 1_000_000_000

  /** dwellFor: jittered by the name's hash, in whole seconds. */
  function DwellFor(t: Timing, upName: string): int {
    if t.dwellMax <= t.dwellMin then t.dwellMin
    else
      var spanSec := TruncDiv(t.dwellMax - t.dwellMin, SECOND);
      if spanSec <= 0 then t.dwellMin else t.dwellMin + Fnv32(upName) % spanSec * SECOND
  }

  /** The dwell never leaves its configured range. */
  lemma DwellInRange(t: Timing, upName: string)
    ensures t.dwellMin <= DwellFor(t, upName) <= Max(t.dwellMin, t.dwellMax)
  {
    if t.dwellMax > t.dwellMin {
      var spanSec := TruncDiv(t.dwellMax - t.dwellMin, SECOND);
      if spanSec > 0 {
        TruncDivBounds(t.dwellMax - t.dwellMin, SECOND, spanSec);
        ModBelow(Fnv32(upName), spanSec);
      }
    }
  }

  /** It is the shortest dwell and as many whole seconds more as the name's hash leaves over the span. */
  lemma DwellByHash(t: Timing, upName: string, span: int)
    requires span > 0 && span * 1_000_000_000 <= t.dwellMax - t.dwellMin < (span + 1) * 1_000_000_000
    ensures exists k :: 0 <= k < span && DwellFor(t, upName) == t.dwellMin + k * 1_000_000_000 && SameResidue(k, Fnv32(upName), span)
  {
    var k := Fnv32(upName) % span;
    ModBelow(Fnv32(upName), span);
    SpanIs(t.dwellMax - t.dwellMin, span);
    ModIsResidue(Fnv32(upName), span);
    assert DwellFor(t, upName) == t.dwellMin + k * 1_000_000_000;
  }

  ghost predicate SameResidue(k: int, h: int, span: int) { exists q :: Splits(h, span, q, k) }

  ghost predicate Splits(h: int, span: int, q: int, k: int) { h == q * span + k }

  lemma ModIsResidue(h: int, span: int)
    requires span > 0
    ensures SameResidue(h % span, h, span)
  {
    assert Splits(h, span, h / span, h % span);
  }

  lemma SpanIs(d: int, span: int)
    requires span > 0 && span * 1_000_000_000 <= d < (span + 1) * 1_000_000_000
    ensures d > 0 && TruncDiv(d, SECOND) == span
  {}

  lemma ModBelow(x: int, m: int)
    requires m > 0
    ensures 0 <= x % m < m
  {}

  // ---- first half of a tick: dwell and mint ----

  datatype Minted = Minted(w: World, ok: bool)

  /** The loop body for one UpcomingNode; not ok is the tick's error return. */
  function MintOne(t: Timing, now: int, api: Api, w: World, u: Upn): Minted {
    var name := u.node;
    if !u.ready || (name in w.nodes && name !in api.getFails) then Minted(w, true)
    else
      var first := if u.name in w.firstReady then w.firstReady[u.name] else now;
      var seen := w.(firstReady := w.firstReady[u.name := first]);
      if now >= t.warmupUntil && now - first < DwellFor(t, u.name) then Minted(seen, true)
      else if name in w.nodes || name in api.createFails then Minted(seen, false)
      else Minted(seen.(nodes := seen.nodes[name := Node(true, false)]), true)
  }

  function Mint(t: Timing, now: int, api: Api, w: World, upns: seq<Upn>): Minted {
    if upns == [] then Minted(w, true)
    else
      var m := Mint(t, now, api, w, upns[..|upns| - 1]);
      if !m.ok then m else MintOne(t, now, api, m.w, upns[|upns| - 1])
  }

  function Wanted(upns: seq<Upn>): set<string> { set u | u in upns && u.ready :: u.node }

  function LiveNames(upns: seq<Upn>): set<string> { set u | u in upns :: u.name }

  function Collect(w: World, upns: seq<Upn>): World {
    w.(firstReady := map k | k in w.firstReady && k in LiveNames(upns) :: w.firstReady[k])
  }

  // ---- second half: drain, cancel, delete ----

  /** What the nodes loop does to one listed node. */
  datatype Verdict = Leave | StartDrain | KeepDraining | Delete | Cancel

  function Decide(now: int, want: set<string>, w: World, n: string): Verdict
    requires n in w.nodes
  {
    if !w.nodes[n].managed then Leave
    else if n !in want then
      if n !in w.drainAt then StartDrain else if now < w.drainAt[n] then KeepDraining else Delete
    else if n in w.drainAt then Cancel else Leave
  }

  function NodeAfter(now: int, want: set<string>, api: Api, w: World, n: string): Option<Node>
    requires n in w.nodes
  {
    var node := w.nodes[n];
    match Decide(now, want, w, n)
    case Leave => Some(node)
    case KeepDraining => Some(node)
    case StartDrain => Some(if n in api.patchFails then node else node.(unschedulable := true))
    case Delete => if n in api.deleteFails then Some(node) else None
    case Cancel => Some(if n in api.patchFails then node else node.(unschedulable := false))
  }

  function DrainAfter(t: Timing, now: int, want: set<string>, w: World, n: string): Option<int> {
    var was := if n in w.drainAt then Some(w.drainAt[n]) else None;
    if n !in w.nodes then was
    else match Decide(now, want, w, n) {
      case Leave => was
      case KeepDraining => was
      case StartDrain => Some(now + t.drainDwell)
      case Delete => None
      case Cancel => None
    }
  }

  /** The whole nodes loop, whatever order the nodes are listed in. */
  function DrainPass(t: Timing, now: int, want: set<string>, api: Api, w: World): World {
    w.(nodes := map n | n in w.nodes && NodeAfter(now, want, api, w, n).Some? :: NodeAfter(now, want, api, w, n).value,
       drainAt := map n | n in w.drainAt.Keys + w.nodes.Keys && DrainAfter(t, now, want, w, n).Some?
         :: DrainAfter(t, now, want, w, n).value)
  }

  datatype Ticked = Ticked(w: World, completed: bool)

  /** The world the nodes loop lists: after minting and forgetting the UpcomingNodes that are gone. */
  function Listed(t: Timing, now: int, api: Api, w: World, upns: seq<Upn>): World {
    Collect(Mint(t, now, api, w, upns).w, upns)
  }

  predicate Completes(t: Timing, now: int, api: Api, w: World, upns: seq<Upn>) {
    api.listUpnsOk && Mint(t, now, api, w, upns).ok && api.listNodesOk
  }

  function Tick(t: Timing, now: int, api: Api, w: World, upns: seq<Upn>): Ticked {
    if !api.listUpnsOk then Ticked(w, false)
    else if !Mint(t, now, api, w, upns).ok then Ticked(Mint(t, now, api, w, upns).w, false)
    else if !api.listNodesOk then Ticked(Listed(t, now, api, w, upns), false)
    else Ticked(DrainPass(t, now, Wanted(upns), api, Listed(t, now, api, w, upns)), true)
  }

  /** Two maps agree at a key. */
  ghost predicate Same<V>(a: map<string, V>, b: map<string, V>, k: string) {
    (k in a <==> k in b) && (k in a ==> a[k] == b[k])
  }

  ghost predicate GoalAt(t: Timing, now: int, want: set<string>, api: Api, w: World, goal: World, n: string)
    requires n in w.nodes
  {
    var node, drain := NodeAfter(now, want, api, w, n), DrainAfter(t, now, want, w, n);
    && (if node.None? then n !in goal.nodes else n in goal.nodes && goal.nodes[n] == node.value)
    && (if drain.None? then n !in goal.drainAt else n in goal.drainAt && goal.drainAt[n] == drain.value)
  }

  lemma SameMaps<V>(a: map<string, V>, b: map<string, V>)
    requires forall k :: Same(a, b, k)
    ensures a == b
  {
    assert forall k :: k in a ==> Same(a, b, k);
    assert forall k :: k in b ==> Same(a, b, k);
  }

  lemma WantedGrows(upns: seq<Upn>, i: nat)
    requires i < |upns|
    ensures Wanted(upns[..i + 1]) == Wanted(upns[..i]) + if upns[i].ready then {upns[i].node} else {}
    ensures upns[..i + 1][..i] == upns[..i]
  {
    assert upns[..i + 1] == upns[..i] + [upns[i]];
  }

  /** The controller as the source runs it: loops over its maps and the cluster's nodes. */
  class Controller {
    const t: Timing
    var firstReady: map<string, int>
    var drainAt: map<string, int>
    /** The API server's Node objects. */
    var nodes: map<string, Node>

    constructor (t: Timing, nodes: map<string, Node>)
      ensures this.t == t && View() == World(map[], map[], nodes)
    {
      this.t := t;
      this.firstReady, this.drainAt, this.nodes := map[], map[], nodes;
    }

    function View(): World
      reads this
    {
      World(firstReady, drainAt, nodes)
    }

    /** The minting loop's body; false is the tick's error return. */
    method MintStep(u: Upn, now: int, api: Api) returns (ok: bool)
      modifies this
      ensures Minted(View(), ok) == MintOne(t, now, api, old(View()), u)
    {
      if !u.ready {
        return true;
      }
      var name := u.node;
      if name in nodes && name !in api.getFails {
        return true;
      }
      if u.name !in firstReady {
        firstReady := firstReady[u.name := now];
      }
      if now >= t.warmupUntil && now - firstReady[u.name] < DwellFor(t, u.name) {
        return true;
      }
      if name in nodes || name in api.createFails {
        return false;
      }
      nodes := nodes[name := Node(true, false)];
      return true;
    }

    method MintLoop(now: int, api: Api, upns: seq<Upn>) returns (want: set<string>, ok: bool)
      modifies this
      ensures var m := Mint(t, now, api, old(View()), upns); View() == m.w && ok == m.ok
      ensures ok ==> want == Wanted(upns)
    {
      want, ok := {}, true;
      ghost var w0 := View();
      for i := 0 to |upns|
        invariant Mint(t, now, api, w0, upns[..i]) == Minted(View(), true)
        invariant ok && want == Wanted(upns[..i])
      {
        MintStops(t, now, api, w0, upns, i + 1);
        WantedGrows(upns, i);
        if upns[i].ready {
          want := want + {upns[i].node};
        }
        ok := MintStep(upns[i], now, api);
        if !ok {
          return;
        }
      }
      assert upns[..|upns|] == upns;
    }

    method ForgetGone(upns: seq<Upn>)
      modifies this`firstReady
      ensures View() == Collect(old(View()), upns)
    {
      var todo := firstReady.Keys;
      ghost var live := LiveNames(upns);
      ghost var was := firstReady;
      while todo != {}
        invariant todo <= was.Keys
        invariant firstReady == map k | k in was && (k in todo || k in live) :: was[k]
        decreases |todo|
      {
        var k :| k in todo;
        if k !in LiveNames(upns) {
          firstReady := firstReady - {k};
        }
        todo := todo - {k};
      }
    }

    /** The nodes loop over a listing in any order; `goal` is the world it is to reach from `w`. */
    method DrainLoop(now: int, want: set<string>, api: Api, ghost w: World, ghost goal: World)
      requires View() == w
      requires forall n :: n in w.nodes ==> GoalAt(t, now, want, api, w, goal, n)
      requires forall n :: n !in w.nodes ==> Same(w.nodes, goal.nodes, n) && Same(w.drainAt, goal.drainAt, n)
      modifies this`drainAt, this`nodes
      ensures nodes == goal.nodes && drainAt == goal.drainAt
    {
      var items := nodes;
      var todo := items.Keys;
      while todo != {}
        invariant todo <= items.Keys && items == w.nodes
        invariant forall n :: n in todo ==> Same(nodes, w.nodes, n) && Same(drainAt, w.drainAt, n)
        invariant forall n :: n !in todo ==> Same(nodes, goal.nodes, n) && Same(drainAt, goal.drainAt, n)
        decreases |todo|
      {
        var n :| n in todo;
        assert Same(nodes, w.nodes, n) && Same(drainAt, w.drainAt, n);
        ghost var nodesBefore, drainBefore := nodes, drainAt;
        DrainOne(n, items[n], now, want, api, w, goal);
        todo := todo - {n};
        assert forall m :: m != n ==> Same(nodes, nodesBefore, m) && Same(drainAt, drainBefore, m);
        forall m ensures m in todo ==> Same(nodes, w.nodes, m) && Same(drainAt, w.drainAt, m)
                 ensures m !in todo ==> Same(nodes, goal.nodes, m) && Same(drainAt, goal.drainAt, m)
        {
          assert m != n ==> Same(nodes, nodesBefore, m) && Same(drainAt, drainBefore, m);
        }
      }
      forall n ensures Same(nodes, goal.nodes, n) && Same(drainAt, goal.drainAt, n) {
        assert n !in todo;
      }
      SameMaps(nodes, goal.nodes);
      SameMaps(drainAt, goal.drainAt);
    }

    /** The nodes loop's body. */
    method DrainOne(n: string, node: Node, now: int, want: set<string>, api: Api, ghost w: World, ghost goal: World)
      requires n in w.nodes && node == w.nodes[n] && Same(nodes, w.nodes, n) && Same(drainAt, w.drainAt, n)
      requires GoalAt(t, now, want, api, w, goal, n)
      modifies this`drainAt, this`nodes
      ensures Same(nodes, goal.nodes, n) && Same(drainAt, goal.drainAt, n)
      ensures forall m :: m != n ==> Same(nodes, old(nodes), m)
      ensures forall m :: m != n ==> Same(drainAt, old(drainAt), m)
    {
      if !node.managed {
        return;
      }
      if n !in want {
        if n !in drainAt {
          if !node.unschedulable && n !in api.patchFails {
            nodes := nodes[n := node.(unschedulable := true)];
          }
          drainAt := drainAt[n := now + t.drainDwell];
          return;
        }
        if now < drainAt[n] {
          return;
        }
        if n !in api.deleteFails {
          nodes := nodes - {n};
        }
        drainAt := drainAt - {n};
        return;
      }
      if n in drainAt {
        drainAt := drainAt - {n};
        if node.unschedulable && n !in api.patchFails {
          nodes := nodes[n := node.(unschedulable := false)];
        }
      }
    }

    method DrainNodes(now: int, want: set<string>, api: Api)
      modifies this`drainAt, this`nodes
      ensures View() == DrainPass(t, now, want, api, old(View()))
    {
      ghost var w := View();
      ghost var goal := DrainPass(t, now, want, api, w);
      DrainLoop(now, want, api, w, goal);
    }

    method DoTick(now: int, api: Api, upns: seq<Upn>) returns (completed: bool)
      modifies this
      ensures Ticked(View(), completed) == Tick(t, now, api, old(View()), upns)
    {
      if !api.listUpnsOk {
        return false;
      }
      var want, ok := MintLoop(now, api, upns);
      if !ok {
        return false;
      }
      ForgetGone(upns);
      if !api.listNodesOk {
        return false;
      }
      DrainNodes(now, want, api);
      return true;
    }
  }

  /** Once minting has failed it stays failed, with the world as the failing UpcomingNode left it. */
  lemma {:induction false} MintStops(t: Timing, now: int, api: Api, w: World, upns: seq<Upn>, i: nat)
    requires i <= |upns|
    ensures !Mint(t, now, api, w, upns[..i]).ok ==> Mint(t, now, api, w, upns) == Mint(t, now, api, w, upns[..i])
    decreases |upns|
  {
    if i < |upns| {
      var shorter := upns[..|upns| - 1];
      assert shorter[..i] == upns[..i];
      MintStops(t, now, api, w, shorter, i);
    } else {
      assert upns[..i] == upns;
    }
  }
}
