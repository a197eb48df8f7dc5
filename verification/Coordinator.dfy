/**
 * The coordinator: visitors, keyed by address, are seated on a runner or wait in a queue of
 * tickets that lapse unless they keep polling. Both live in a key-value store with expiry.
 * Requests are taken one at a time, against a store that reads its own writes.
 */
module Coordinator {
  import opened Prelude

  // ---- choosing a runner ----

  /** What one runner answers: its headroom, None if /v1/capacity fails, and the session it creates if asked. */
  datatype Offer = Offer(runner: string, headroom: Option<int>, created: Option<Session>)

  datatype Session = Session(id: string, expiresAt: int)

  datatype Assignment = Assignment(runner: string, id: string, expiresAt: int)

  function Room(o: Offer): int { if o.headroom.Some? then Max(0, o.headroom.value) else 0 }

  function RoomAt(offers: seq<Offer>, i: nat): int { if i < |offers| then Room(offers[i]) else 0 }

  /** Ranked strictly before: more headroom, or as much and listed earlier. */
  predicate Outranks(offers: seq<Offer>, i: nat, j: nat) {
    RoomAt(offers, i) > RoomAt(offers, j) || (RoomAt(offers, i) == RoomAt(offers, j) && i < j)
  }

  /** A stable insertion: behind everything with as much headroom. */
  function Inserted(offers: seq<Offer>, order: seq<nat>, i: nat): seq<nat> {
    if order != [] && RoomAt(offers, i) > RoomAt(offers, order[|order| - 1])
    then Inserted(offers, order[..|order| - 1], i) + [order[|order| - 1]]
    else order + [i]
  }

  /** The first n runners with room, most headroom first. */
  function Ranked(offers: seq<Offer>, n: nat): seq<nat> {
    if n == 0 then []
    else if RoomAt(offers, n - 1) > 0 then Inserted(offers, Ranked(offers, n - 1), n - 1)
    else Ranked(offers, n - 1)
  }

  ghost predicate InRankOrder(offers: seq<Offer>, order: seq<nat>) {
    forall k, l :: 0 <= k < l < |order| ==> Outranks(offers, order[k], order[l])
  }

  lemma {:induction false} InsertedInOrder(offers: seq<Offer>, order: seq<nat>, i: nat)
    requires InRankOrder(offers, order) && forall j :: j in order ==> j < i
    ensures InRankOrder(offers, Inserted(offers, order, i))
    ensures forall j: nat :: j in Inserted(offers, order, i) <==> j in order || j == i
  {
    if order != [] && RoomAt(offers, i) > RoomAt(offers, order[|order| - 1]) {
      var init, last := order[..|order| - 1], order[|order| - 1];
      forall j | j in init ensures j < i {
        assert j in order;
      }
      InsertedInOrder(offers, init, i);
      var r := Inserted(offers, init, i);
      assert order == init + [last];
      forall k | 0 <= k < |r| ensures Outranks(offers, r[k], last) {
        assert r[k] in r;
      }
    } else {
      forall k | 0 <= k < |order| ensures Outranks(offers, order[k], i) {
        assert order[k] in order;
        if k < |order| - 1 {
          assert Outranks(offers, order[k], order[|order| - 1]);
        }
      }
    }
  }

  lemma RankedNext(offers: seq<Offer>, n: nat, order: seq<nat>)
    requires 0 < n <= |offers| && order == Ranked(offers, n - 1) && InRankOrder(offers, order)
    requires forall i: nat :: i in order <==> i < n - 1 && RoomAt(offers, i) > 0
    ensures InRankOrder(offers, Ranked(offers, n))
    ensures forall i: nat :: i in Ranked(offers, n) <==> i < n && RoomAt(offers, i) > 0
  {
    if RoomAt(offers, n - 1) > 0 {
      InsertedInOrder(offers, order, n - 1);
      assert Ranked(offers, n) == Inserted(offers, order, n - 1);
    } else {
      assert Ranked(offers, n) == order;
    }
  }

  /** The ranking holds exactly the runners with room, each before all it outranks. */
  lemma {:induction false} RankedIs(offers: seq<Offer>, n: nat)
    requires n <= |offers|
    ensures InRankOrder(offers, Ranked(offers, n))
    ensures forall i: nat :: i in Ranked(offers, n) <==> i < n && RoomAt(offers, i) > 0
  {
    if n > 0 {
      RankedIs(offers, n - 1);
      RankedNext(offers, n, Ranked(offers, n - 1));
    }
  }

  predicate Creates(offers: seq<Offer>, i: nat) { i < |offers| && offers[i].created.Some? }

  /** The runner a visitor is sent to, as a position in the list: the best ranked that creates a session. */
  ghost predicate Chosen(offers: seq<Offer>, i: nat) {
    && Creates(offers, i) && RoomAt(offers, i) > 0
    && forall j: nat :: Creates(offers, j) && RoomAt(offers, j) > 0 && j != i ==> Outranks(offers, i, j)
  }

  function OnRunner(o: Offer): Assignment
    requires o.created.Some?
  {
    Assignment(o.runner, o.created.value.id, o.created.value.expiresAt)
  }

  function FirstCreated(offers: seq<Offer>, order: seq<nat>): Option<Assignment> {
    if order == [] then None
    else if Creates(offers, order[0]) then Some(OnRunner(offers[order[0]]))
    else FirstCreated(offers, order[1..])
  }

  function AssignNew(offers: seq<Offer>): Option<Assignment> { FirstCreated(offers, Ranked(offers, |offers|)) }

  /** k is the first place in the order whose runner creates a session. */
  ghost predicate FirstAt(offers: seq<Offer>, order: seq<nat>, k: nat) {
    && k < |order| && Creates(offers, order[k])
    && forall l :: 0 <= l < k ==> !Creates(offers, order[l])
  }

  lemma {:induction false} FirstCreatedIs(offers: seq<Offer>, order: seq<nat>) returns (k: nat)
    ensures FirstCreated(offers, order).None? ==> forall l :: 0 <= l < |order| ==> !Creates(offers, order[l])
    ensures FirstCreated(offers, order).Some? ==>
      FirstAt(offers, order, k) && FirstCreated(offers, order).value == OnRunner(offers[order[k]])
  {
    k := 0;
    if order != [] && !Creates(offers, order[0]) {
      k := FirstCreatedIs(offers, order[1..]);
      k := k + 1;
      forall l | 0 < l < |order| ensures order[l] == order[1..][l - 1] {}
    }
  }

  /** A visitor is seated exactly when some runner with headroom creates a session, and then on the best ranked such runner. */
  lemma AssignNewChooses(offers: seq<Offer>)
    ensures AssignNew(offers).Some? <==> exists i: nat :: Creates(offers, i) && RoomAt(offers, i) > 0
    ensures AssignNew(offers).Some? ==>
      exists i: nat :: Chosen(offers, i) && AssignNew(offers).value == OnRunner(offers[i])
  {
    var order := Ranked(offers, |offers|);
    RankedIs(offers, |offers|);
    var k := FirstCreatedIs(offers, order);
    if AssignNew(offers).Some? {
      assert order[k] in order;
      forall j: nat | Creates(offers, j) && RoomAt(offers, j) > 0 && j != order[k] ensures Outranks(offers, order[k], j) {
        assert j in order;
        var l :| 0 <= l < |order| && order[l] == j;
      }
      assert Chosen(offers, order[k]);
    } else {
      forall i: nat | RoomAt(offers, i) > 0 ensures !Creates(offers, i) {
        assert i < |offers| ==> i in order;
      }
    }
  }

  /** In the runners' own terms: the seat is on one that reported headroom and created, ahead of every other such one by headroom, then by place in the list. */
  lemma AssignNewInOffers(offers: seq<Offer>, i: nat, j: nat)
    requires Chosen(offers, i) && j < |offers| && j != i && offers[j].created.Some? && offers[j].headroom.Some?
    requires offers[j].headroom.value > 0
    ensures offers[i].headroom.Some? && offers[i].headroom.value > 0
    ensures offers[i].headroom.value > offers[j].headroom.value || (offers[i].headroom.value == offers[j].headroom.value && i < j)
  {
    assert Creates(offers, j) && RoomAt(offers, j) > 0;
  }

  // ---- the store ----

  const QUEUE_TTL := 180_000

  datatype Ticket = Ticket(joinedAt: int, expires: int)

  datatype Seat = Seat(a: Assignment, expires: int)

  /** now in milliseconds; seated are the places of all visitors given a seat, in order, promoted those given one by their poll. */
  datatype Desk = Desk(
    now: int, tickets: map<string, Ticket>, seats: map<string, Seat>, seated: seq<int>, promoted: seq<int>)

  predicate Waits(tickets: map<string, Ticket>, ip: string, t: int) { ip in tickets && t < tickets[ip].expires }

  predicate Sits(seats: map<string, Seat>, ip: string, t: int) { ip in seats && t < seats[ip].expires }

  /** The live tickets that joined before. */
  function Before(tickets: map<string, Ticket>, t: int, joinedAt: int): set<string> {
    set ip | ip in tickets && t < tickets[ip].expires && tickets[ip].joinedAt < joinedAt
  }

  function Position(tickets: map<string, Ticket>, t: int, joinedAt: int): nat { |Before(tickets, t, joinedAt)| + 1 }

  /** Where a visitor stands: since its live ticket, or as of now. */
  function Place(tickets: map<string, Ticket>, ip: string, t: int): int {
    if Waits(tickets, ip, t) then tickets[ip].joinedAt else t
  }

  function Touched(tickets: map<string, Ticket>, ip: string, t: int): map<string, Ticket> {
    tickets[ip := Ticket(Place(tickets, ip, t), t + QUEUE_TTL)]
  }

  function SeatFor(a: Assignment, t: int): Seat { Seat(a, t + 1000 * Max(60, (a.expiresAt - t) / 1000)) }

  function Seated(d: Desk, ip: string, place: int, a: Assignment, t: int): Desk {
    d.(tickets := d.tickets - {ip}, seats := d.seats[ip := SeatFor(a, t)], seated := d.seated + [place])
  }

  datatype Check = Pass | NeedV2 | Refuse

  /** The gate's verdict on a token: the v3 score, the v2 checkbox, or neither. */
  function Checked(mode: string, score: real, minScore: real, v2: bool): Check {
    if mode == "v3" then (if score >= minScore then Pass else NeedV2)
    else if mode == "v2" then (if v2 then Pass else Refuse)
    else Refuse
  }

  /** A request reads the store at `at`; once a runner has answered, it writes at `done`. */
  datatype Step =
    | Gate(ip: string, at: int, done: int, check: Check, offers: seq<Offer>)
    | Poll(ip: string, at: int, done: int, offers: seq<Offer>)
    | Home(ip: string, at: int, done: int, human: bool, offers: seq<Offer>)
    | Visit(ip: string, at: int, done: int, gone: bool)

  ghost predicate Enabled(d: Desk, step: Step) { d.now <= step.at <= step.done }

  function GateDesk(d: Desk, ip: string, at: int, done: int, check: Check, offers: seq<Offer>): Desk {
    if Sits(d.seats, ip, at) || !check.Pass? then d
    else if AssignNew(offers).Some? then Seated(d, ip, Place(d.tickets, ip, at), AssignNew(offers).value, done)
    else d.(tickets := Touched(d.tickets, ip, done))
  }

  function PollDesk(d: Desk, ip: string, at: int, done: int, offers: seq<Offer>): Desk {
    if Sits(d.seats, ip, at) then d.(tickets := d.tickets - {ip})
    else
      var q := d.(tickets := Touched(d.tickets, ip, at));
      var joinedAt := q.tickets[ip].joinedAt;
      if Position(q.tickets, at, joinedAt) == 1 && AssignNew(offers).Some?
      then Seated(q, ip, joinedAt, AssignNew(offers).value, done).(promoted := q.promoted + [joinedAt])
      else q
  }

  function HomeDesk(d: Desk, ip: string, at: int, done: int, human: bool, offers: seq<Offer>): Desk {
    if Sits(d.seats, ip, at) || !human || AssignNew(offers).None? then d
    else Seated(d, ip, Place(d.tickets, ip, at), AssignNew(offers).value, done)
  }

  function VisitDesk(d: Desk, ip: string, at: int, gone: bool): Desk {
    if Sits(d.seats, ip, at) && gone then d.(seats := d.seats - {ip}) else d
  }

  function Apply(d: Desk, step: Step): Desk {
    var d' := match step
      case Gate(ip, at, done, check, offers) => GateDesk(d, ip, at, done, check, offers)
      case Poll(ip, at, done, offers) => PollDesk(d, ip, at, done, offers)
      case Home(ip, at, done, human, offers) => HomeDesk(d, ip, at, done, human, offers)
      case Visit(ip, at, _, gone) => VisitDesk(d, ip, at, gone);
    d'.(now := step.done)
  }

  function Opening(now: int): Desk { Desk(now, map[], map[], [], []) }

  ghost predicate Valid(d: Desk, steps: seq<Step>)
    decreases |steps|
  {
    steps == [] || (Enabled(d, steps[0]) && Valid(Apply(d, steps[0]), steps[1..]))
  }

  function Exec(d: Desk, steps: seq<Step>): Desk
    decreases |steps|
  {
    if steps == [] then d else Exec(Apply(d, steps[0]), steps[1..])
  }

  // ---- what every run keeps ----

  ghost predicate Sorted(xs: seq<int>) { forall i, j :: 0 <= i < j < |xs| ==> xs[i] <= xs[j] }

  ghost predicate JoinedInPast(d: Desk) { forall ip :: ip in d.tickets ==> d.tickets[ip].joinedAt <= d.now }

  /** No visitor with a live seat has a ticket. */
  ghost predicate NeverBoth(d: Desk) { forall ip :: Sits(d.seats, ip, d.now) ==> ip !in d.tickets }

  /** Nobody still waiting joined before anybody promoted. */
  ghost predicate PromotedFirst(d: Desk) {
    && Sorted(d.promoted)
    && forall k :: 0 <= k < |d.promoted| ==>
         d.promoted[k] <= d.now && forall ip :: Waits(d.tickets, ip, d.now) ==> d.promoted[k] <= d.tickets[ip].joinedAt
  }

  ghost predicate Inv(d: Desk) { JoinedInPast(d) && NeverBoth(d) && PromotedFirst(d) }

  lemma JoinedInPastStep(d: Desk, step: Step)
    requires JoinedInPast(d) && Enabled(d, step)
    ensures JoinedInPast(Apply(d, step))
  {}

  lemma NeverBothStep(d: Desk, step: Step)
    requires NeverBoth(d) && Enabled(d, step)
    ensures NeverBoth(Apply(d, step))
  {
    var d' := Apply(d, step);
    forall ip | Sits(d'.seats, ip, d'.now) ensures ip !in d'.tickets {
      if ip != step.ip {
        assert Sits(d.seats, ip, d.now);
      }
    }
  }

  /** A ticket still live after a step was live before it, or is brand new; its place never moves. */
  lemma PlacesStand(d: Desk, step: Step, ip: string)
    requires Enabled(d, step) && Waits(Apply(d, step).tickets, ip, step.done)
    ensures var t := Apply(d, step).tickets[ip];
      (Waits(d.tickets, ip, d.now) && t.joinedAt == d.tickets[ip].joinedAt) || t.joinedAt >= step.at
  {}

  /** Position 1 is nobody live ahead. */
  lemma FrontIsMinimum(tickets: map<string, Ticket>, t: int, joinedAt: int)
    ensures Position(tickets, t, joinedAt) == 1 <==> forall ip :: Waits(tickets, ip, t) ==> joinedAt <= tickets[ip].joinedAt
  {
    if Position(tickets, t, joinedAt) == 1 {
      forall ip | Waits(tickets, ip, t) ensures joinedAt <= tickets[ip].joinedAt {
        assert ip !in Before(tickets, t, joinedAt);
      }
    } else {
      var ip :| ip in Before(tickets, t, joinedAt);
      assert Waits(tickets, ip, t);
    }
  }

  ghost predicate Promotes(d: Desk, step: Step) { Apply(d, step).promoted != d.promoted }

  /**
   * A poll promotes exactly when its visitor has no live seat, no live ticket joined before it,
   * and some runner with headroom creates a session; and it promotes that visitor's place.
   */
  lemma PromotesExactlyWhen(d: Desk, step: Step)
    requires Enabled(d, step)
    ensures Promotes(d, step) <==>
      && step.Poll? && !Sits(d.seats, step.ip, step.at)
      && (forall ip :: Waits(d.tickets, ip, step.at) ==> Place(d.tickets, step.ip, step.at) <= d.tickets[ip].joinedAt)
      && (exists i: nat :: Creates(step.offers, i) && RoomAt(step.offers, i) > 0)
    ensures Promotes(d, step) ==> Apply(d, step).promoted == d.promoted + [Place(d.tickets, step.ip, step.at)]
  {
    if step.Poll? {
      AssignNewChooses(step.offers);
      var q := Touched(d.tickets, step.ip, step.at);
      FrontIsMinimum(q, step.at, q[step.ip].joinedAt);
      TouchKeepsOthers(d.tickets, step.ip, step.at);
    }
  }

  lemma TouchKeepsOthers(tickets: map<string, Ticket>, ip: string, t: int)
    ensures var q := Touched(tickets, ip, t);
      (forall x :: Waits(q, x, t) ==> Place(tickets, ip, t) <= q[x].joinedAt)
      <==> (forall x :: Waits(tickets, x, t) ==> Place(tickets, ip, t) <= tickets[x].joinedAt)
  {
    var q := Touched(tickets, ip, t);
    if forall x :: Waits(q, x, t) ==> Place(tickets, ip, t) <= q[x].joinedAt {
      forall x | Waits(tickets, x, t) ensures Place(tickets, ip, t) <= tickets[x].joinedAt {
        if x != ip {
          assert Waits(q, x, t);
        }
      }
    }
  }

  lemma PromotedFirstStep(d: Desk, step: Step)
    requires Inv(d) && Enabled(d, step)
    ensures PromotedFirst(Apply(d, step))
  {
    var d' := Apply(d, step);
    PromotesExactlyWhen(d, step);
    forall ip | Waits(d'.tickets, ip, d'.now)
      ensures forall k :: 0 <= k < |d.promoted| ==> d.promoted[k] <= d'.tickets[ip].joinedAt
    {
      PlacesStand(d, step, ip);
    }
    if Promotes(d, step) {
      var place := Place(d.tickets, step.ip, step.at);
      forall ip | Waits(d'.tickets, ip, d'.now) ensures place <= d'.tickets[ip].joinedAt {
        assert ip != step.ip && Waits(d.tickets, ip, step.at);
      }
      forall k | 0 <= k < |d.promoted| ensures d.promoted[k] <= place {
        if Waits(d.tickets, step.ip, step.at) {
          assert Waits(d.tickets, step.ip, d.now);
        }
      }
    }
  }

  lemma InvStep(d: Desk, step: Step)
    requires Inv(d) && Enabled(d, step)
    ensures Inv(Apply(d, step))
  {
    JoinedInPastStep(d, step);
    NeverBothStep(d, step);
    PromotedFirstStep(d, step);
  }

  lemma {:induction false} InvRun(d: Desk, steps: seq<Step>)
    requires Inv(d) && Valid(d, steps)
    ensures Inv(Exec(d, steps))
    decreases |steps|
  {
    if steps != [] {
      InvStep(d, steps[0]);
      InvRun(Apply(d, steps[0]), steps[1..]);
    }
  }

  /** Over whole runs, the queue promotes in the order of joining, and nobody holds a seat and a place at once. */
  lemma PromotionsInOrder(now: int, steps: seq<Step>)
    requires Valid(Opening(now), steps)
    ensures Sorted(Exec(Opening(now), steps).promoted)
    ensures NeverBoth(Exec(Opening(now), steps))
  {
    InvRun(Opening(now), steps);
  }

  // ---- a place in line ----

  /** Between a visitor's own requests its ticket is not touched. */
  lemma {:induction false} OthersLeaveMyTicket(d: Desk, steps: seq<Step>, ip: string)
    requires forall k :: 0 <= k < |steps| ==> steps[k].ip != ip
    ensures ip in Exec(d, steps).tickets <==> ip in d.tickets
    ensures ip in d.tickets ==> Exec(d, steps).tickets[ip] == d.tickets[ip]
    decreases |steps|
  {
    if steps != [] {
      OthersLeaveMyTicket(Apply(d, steps[0]), steps[1..], ip);
    }
  }

  lemma {:induction false} NobodyGetsAhead(d: Desk, steps: seq<Step>, joinedAt: int)
    requires Valid(d, steps) && joinedAt <= d.now
    ensures Before(Exec(d, steps).tickets, Exec(d, steps).now, joinedAt) <= Before(d.tickets, d.now, joinedAt)
    ensures d.now <= Exec(d, steps).now
    decreases |steps|
  {
    if steps != [] {
      var d' := Apply(d, steps[0]);
      forall ip | ip in Before(d'.tickets, d'.now, joinedAt) ensures ip in Before(d.tickets, d.now, joinedAt) {
        PlacesStand(d, steps[0], ip);
      }
      NobodyGetsAhead(d', steps[1..], joinedAt);
    }
  }

  /** What a poll that does not seat its visitor reports. */
  function Reported(d: Desk, ip: string, t: int): nat {
    var q := Touched(d.tickets, ip, t);
    Position(q, t, q[ip].joinedAt)
  }

  lemma ReportedIsPosition(d: Desk, ip: string, t: int)
    requires Waits(d.tickets, ip, t)
    ensures Reported(d, ip, t) == Position(d.tickets, t, d.tickets[ip].joinedAt)
  {
    var joinedAt := d.tickets[ip].joinedAt;
    assert Before(Touched(d.tickets, ip, t), t, joinedAt) == Before(d.tickets, t, joinedAt);
  }

  /** A poll that does not seat its visitor keeps its place, and holds its ticket for three minutes from now. */
  lemma PollHoldsThreeMinutes(d: Desk, poll: Step)
    requires Enabled(d, poll) && poll.Poll? && poll.ip in Apply(d, poll).tickets
    ensures Apply(d, poll).tickets == Touched(d.tickets, poll.ip, poll.at)
    ensures Apply(d, poll).tickets[poll.ip] == Ticket(Place(d.tickets, poll.ip, poll.at), poll.at + 180 * 1000)
  {}

  /** Time alone lets nobody get ahead. */
  lemma WaitingOnlyShrinks(tickets: map<string, Ticket>, t: int, u: int, joinedAt: int)
    requires t <= u
    ensures Before(tickets, u, joinedAt) <= Before(tickets, t, joinedAt)
  {}

  /**
   * A visitor polls and is told to wait; others do what they like; it polls again within three
   * minutes of the first poll: it has kept its place, and is reported no further back.
   */
  lemma PollNeverMovesBack(d: Desk, poll: Step, others: seq<Step>, t: int)
    requires JoinedInPast(d) && Enabled(d, poll) && poll.Poll? && poll.ip in Apply(d, poll).tickets
    requires Valid(Apply(d, poll), others) && forall k :: 0 <= k < |others| ==> others[k].ip != poll.ip
    requires Exec(Apply(d, poll), others).now <= t < poll.at + 180 * 1000
    ensures var d' := Exec(Apply(d, poll), others);
      && Place(d'.tickets, poll.ip, t) == Place(d.tickets, poll.ip, poll.at)
      && Reported(d', poll.ip, t) <= Reported(d, poll.ip, poll.at)
  {
    var ip, d1 := poll.ip, Apply(d, poll);
    var d' := Exec(d1, others);
    PollHoldsThreeMinutes(d, poll);
    var place := d1.tickets[ip].joinedAt;
    OthersLeaveMyTicket(d1, others, ip);
    NobodyGetsAhead(d1, others, place);
    WaitingOnlyShrinks(d1.tickets, poll.at, d1.now, place);
    WaitingOnlyShrinks(d'.tickets, d'.now, t, place);
    ReportedIsPosition(d', ip, t);
    SubsetCard(Before(d'.tickets, t, place), Before(d1.tickets, poll.at, place));
  }

  /** A visitor whose ticket never lapses and who is not seated, whoever does what. */
  ghost predicate KeepsWaiting(d: Desk, ip: string, steps: seq<Step>)
    decreases |steps|
  {
    && Waits(d.tickets, ip, d.now)
    && (steps != [] ==>
          Waits(d.tickets, ip, steps[0].done) && KeepsWaiting(Apply(d, steps[0]), ip, steps[1..]))
  }

  lemma {:induction false} PlaceKept(d: Desk, steps: seq<Step>, ip: string)
    requires Valid(d, steps) && KeepsWaiting(d, ip, steps)
    ensures Waits(Exec(d, steps).tickets, ip, Exec(d, steps).now)
    ensures Exec(d, steps).tickets[ip].joinedAt == d.tickets[ip].joinedAt
    decreases |steps|
  {
    if steps != [] {
      PlaceKept(Apply(d, steps[0]), steps[1..], ip);
    }
  }

  /** Over a whole run, a waiting visitor's position never grows. */
  lemma PositionNeverGrows(d: Desk, steps: seq<Step>, ip: string)
    requires Inv(d) && Valid(d, steps) && KeepsWaiting(d, ip, steps)
    ensures var d' := Exec(d, steps);
      && ip in d.tickets && ip in d'.tickets
      && Position(d'.tickets, d'.now, d'.tickets[ip].joinedAt) <= Position(d.tickets, d.now, d.tickets[ip].joinedAt)
  {
    PlaceKept(d, steps, ip);
    var d', joinedAt := Exec(d, steps), d.tickets[ip].joinedAt;
    NobodyGetsAhead(d, steps, joinedAt);
    SubsetCard(Before(d'.tickets, d'.now, joinedAt), Before(d.tickets, d.now, joinedAt));
  }

  // ---- seats ----

  /** A live seat is not given away or replaced: only a visit that finds the session gone ends it early. */
  lemma SeatStands(d: Desk, step: Step, ip: string)
    requires Inv(d) && Enabled(d, step) && Sits(d.seats, ip, step.at)
    ensures (ip in Apply(d, step).seats && Apply(d, step).seats[ip] == d.seats[ip]) <==> !(step.Visit? && step.ip == ip && step.gone)
  {}

  /** The store keeps a seat to within a second of its session's end, and never under a minute. */
  lemma SeatOutlastsSession(a: Assignment, t: int)
    ensures var expires := SeatFor(a, t).expires;
      && a.expiresAt - 1000 < expires <= Max(a.expiresAt, t + 60_000)
      && t + 60_000 <= expires
  {}

  ghost predicate Seats(d: Desk, step: Step) { Apply(d, step).seated != d.seated }

  /** A step that seats someone seats its own visitor, who had no live seat, and records its place. */
  lemma SeatsMeans(d: Desk, step: Step)
    requires Enabled(d, step)
    ensures Seats(d, step) ==>
      && !Sits(d.seats, step.ip, step.at)
      && Apply(d, step).tickets == d.tickets - {step.ip}
      && Sits(Apply(d, step).seats, step.ip, step.done)
      && Apply(d, step).seated == d.seated + [Place(d.tickets, step.ip, step.at)]
    ensures !Seats(d, step) ==>
      forall ip :: ip in Apply(d, step).seats ==> ip in d.seats && Apply(d, step).seats[ip] == d.seats[ip]
  {}

  /** a is the session that the runner chosen among these offers created. */
  ghost predicate CreatedFor(offers: seq<Offer>, a: Assignment) {
    exists i: nat :: Chosen(offers, i)
      && a.runner == offers[i].runner
      && a.id == offers[i].created.value.id
      && a.expiresAt == offers[i].created.value.expiresAt
  }

  /** The seat stored is the session created for this visitor, on the runner that created it. */
  lemma SeatIsTheSession(d: Desk, step: Step)
    requires Enabled(d, step) && Seats(d, step)
    ensures !step.Visit? && step.ip in Apply(d, step).seats && CreatedFor(step.offers, Apply(d, step).seats[step.ip].a)
  {
    AssignNewChooses(step.offers);
  }

  ghost predicate SeatedAt(step: Step, ip: string, a: Assignment) {
    !step.Visit? && step.ip == ip && CreatedFor(step.offers, a)
  }

  /** Over every run: whatever session a visitor is proxied to was created for that visitor, by one of its own requests. */
  lemma {:induction false} SeatsAreCreated(d: Desk, steps: seq<Step>, ip: string)
    requires Valid(d, steps) && ip in Exec(d, steps).seats
    ensures (ip in d.seats && Exec(d, steps).seats[ip] == d.seats[ip])
      || exists k :: 0 <= k < |steps| && SeatedAt(steps[k], ip, Exec(d, steps).seats[ip].a)
    decreases |steps|
  {
    if steps != [] {
      var d', rest := Apply(d, steps[0]), steps[1..];
      SeatsAreCreated(d', rest, ip);
      if k :| 0 <= k < |rest| && SeatedAt(rest[k], ip, Exec(d, steps).seats[ip].a) {
        assert rest[k] == steps[k + 1];
      } else if steps[0].ip != ip {
        OthersSeatsStand(d, steps[0], ip);
      } else if Seats(d, steps[0]) {
        SeatIsTheSession(d, steps[0]);
        assert SeatedAt(steps[0], ip, Exec(d, steps).seats[ip].a);
      } else {
        SeatsMeans(d, steps[0]);
      }
    }
  }

  lemma OthersSeatsStand(d: Desk, step: Step, ip: string)
    requires Enabled(d, step) && step.ip != ip
    ensures ip in Apply(d, step).seats <==> ip in d.seats
    ensures ip in d.seats ==> Apply(d, step).seats[ip] == d.seats[ip]
  {}

  /** Who may be given a seat: at the gate a good score, or a passed checkbox; on the front page a good score; in the queue anyone who holds on. */
  lemma RefusedGetsNothing(d: Desk, step: Step)
    requires Enabled(d, step) && ((step.Gate? && step.check != Pass) || (step.Home? && !step.human) || step.Visit?)
    ensures !Seats(d, step) && Apply(d, step).tickets == d.tickets
    ensures step.Gate? || step.Home? ==> Apply(d, step).seats == d.seats
  {}

  lemma CheckedExactlyWhen(mode: string, score: real, minScore: real, v2: bool)
    ensures Checked(mode, score, minScore, v2) == Pass <==> (mode == "v3" && minScore <= score) || (mode == "v2" && v2)
    ensures Checked(mode, score, minScore, v2) == NeedV2 <==> mode == "v3" && score < minScore
  {}

  /** A visitor who is let in gets a seat exactly when a runner will have it; and at the gate, waits for one otherwise. */
  lemma AdmittedIsSeatedOrWaits(d: Desk, step: Step)
    requires Enabled(d, step) && !Sits(d.seats, step.ip, step.at)
    requires (step.Gate? && step.check == Pass) || (step.Home? && step.human)
    ensures Seats(d, step) <==> exists i: nat :: Creates(step.offers, i) && RoomAt(step.offers, i) > 0
    ensures step.Gate? && !Seats(d, step) ==>
      step.ip in Apply(d, step).tickets
      && Apply(d, step).tickets[step.ip] == Ticket(Place(d.tickets, step.ip, step.done), step.done + 180 * 1000)
  {
    AssignNewChooses(step.offers);
  }

  // ---- the order of all seats ----

  /** The desks of a run: before each step, and at the end. */
  function Desks(d: Desk, steps: seq<Step>): (ds: seq<Desk>)
    ensures |ds| == |steps| + 1 && ds[0] == d
    decreases |steps|
  {
    if steps == [] then [d] else [d] + Desks(Apply(d, steps[0]), steps[1..])
  }

  ghost predicate PlacesKept(d: Desk, step: Step, d': Desk) {
    forall x :: Waits(d'.tickets, x, d'.now) ==>
      (Waits(d.tickets, x, d.now) && d'.tickets[x].joinedAt == d.tickets[x].joinedAt) || d'.tickets[x].joinedAt >= step.at
  }

  /** What a step keeps, as far as the order of places goes. */
  ghost predicate Advances(d: Desk, step: Step, d': Desk) {
    && d.now <= step.at <= step.done == d'.now
    && PlacesKept(d, step, d')
    && JoinedInPast(d) && JoinedInPast(d')
    && (d'.seated != d.seated ==>
          d'.seated == d.seated + [Place(d.tickets, step.ip, step.at)] && d'.tickets == d.tickets - {step.ip})
  }

  lemma StepAdvances(d: Desk, step: Step)
    requires Enabled(d, step) && JoinedInPast(d)
    ensures Advances(d, step, Apply(d, step))
  {
    var d' := Apply(d, step);
    JoinedInPastStep(d, step);
    SeatsMeans(d, step);
    forall x | Waits(d'.tickets, x, d'.now)
      ensures (Waits(d.tickets, x, d.now) && d'.tickets[x].joinedAt == d.tickets[x].joinedAt) || d'.tickets[x].joinedAt >= step.at
    {
      PlacesStand(d, step, x);
    }
  }

  ghost predicate Trace(ds: seq<Desk>, steps: seq<Step>) {
    && |ds| == |steps| + 1
    && forall k :: 0 <= k < |steps| ==> Advances(ds[k], steps[k], ds[k + 1])
  }

  lemma {:induction false} RunTraces(d: Desk, steps: seq<Step>)
    requires Valid(d, steps) && JoinedInPast(d)
    ensures Trace(Desks(d, steps), steps) && Desks(d, steps)[|steps|] == Exec(d, steps)
    ensures forall k :: 0 <= k < |steps| ==>
      Enabled(Desks(d, steps)[k], steps[k]) && Desks(d, steps)[k + 1] == Apply(Desks(d, steps)[k], steps[k])
    decreases |steps|
  {
    if steps != [] {
      var d1, rest := Apply(d, steps[0]), steps[1..];
      StepAdvances(d, steps[0]);
      RunTraces(d1, rest);
      var ds, ds1 := Desks(d, steps), Desks(d1, rest);
      assert ds == [d] + ds1;
      forall k | 0 <= k < |steps|
        ensures Advances(ds[k], steps[k], ds[k + 1]) && Enabled(ds[k], steps[k]) && ds[k + 1] == Apply(ds[k], steps[k])
      {
        if k > 0 {
          assert ds[k] == ds1[k - 1] && ds[k + 1] == ds1[k] && steps[k] == rest[k - 1];
        }
      }
    }
  }

  function PlaceAt(ds: seq<Desk>, steps: seq<Step>, k: nat): int {
    if k < |ds| && k < |steps| then Place(ds[k].tickets, steps[k].ip, steps[k].at) else 0
  }

  ghost predicate SeatsAt(ds: seq<Desk>, k: nat) { k + 1 < |ds| && ds[k + 1].seated != ds[k].seated }

  /** x has a ticket with this joining time at all the desks i..j (j included). */
  ghost predicate HoldsPlace(ds: seq<Desk>, x: string, joinedAt: int, i: nat, j: nat) {
    j < |ds| && forall k :: i <= k <= j ==> x in ds[k].tickets && ds[k].tickets[x].joinedAt == joinedAt
  }

  /**
   * Step i seats a visitor while the visitor of step j has a live ticket with an earlier joining
   * time; that one keeps its place all the way, and is seated at step j.
   */
  ghost predicate Overtakes(ds: seq<Desk>, steps: seq<Step>, i: nat, j: nat) {
    && i < j < |steps| < |ds| && SeatsAt(ds, i) && SeatsAt(ds, j)
    && Waits(ds[i].tickets, steps[j].ip, steps[i].at)
    && Waits(ds[j].tickets, steps[j].ip, steps[j].at)
    && ds[i].tickets[steps[j].ip].joinedAt < PlaceAt(ds, steps, i)
    && HoldsPlace(ds, steps[j].ip, ds[i].tickets[steps[j].ip].joinedAt, i, j)
  }

  lemma {:induction false} SeatedGrows(ds: seq<Desk>, steps: seq<Step>, k: nat, l: nat)
    requires Trace(ds, steps) && k <= l <= |steps|
    ensures ds[k].seated <= ds[l].seated && ds[k].now <= ds[l].now
    decreases l
  {
    if k < l {
      SeatedGrows(ds, steps, k, l - 1);
      assert Advances(ds[l - 1], steps[l - 1], ds[l]);
    }
  }

  lemma LaterStep(ds: seq<Desk>, steps: seq<Step>, i: nat, j: nat)
    requires Trace(ds, steps) && i < j < |steps|
    ensures steps[i].done <= ds[j].now <= steps[j].at
  {
    SeatedGrows(ds, steps, i + 1, j);
    assert Advances(ds[i], steps[i], ds[i + 1]) && Advances(ds[j], steps[j], ds[j + 1]);
  }

  /** Once an overtaken visitor is seated, the seats are out of order. */
  lemma OvertakingShows(ds: seq<Desk>, steps: seq<Step>, i: nat, j: nat)
    requires Trace(ds, steps) && Overtakes(ds, steps, i, j)
    ensures !Sorted(ds[|steps|].seated)
  {
    assert Advances(ds[i], steps[i], ds[i + 1]) && Advances(ds[j], steps[j], ds[j + 1]);
    SeatedGrows(ds, steps, i + 1, j);
    SeatedGrows(ds, steps, j + 1, |steps|);
    var all, a, b := ds[|steps|].seated, |ds[i].seated|, |ds[j].seated|;
    assert all[b] == ds[j + 1].seated[b] == PlaceAt(ds, steps, j);
    assert all[a] == ds[j + 1].seated[a] == ds[j].seated[a] == ds[i + 1].seated[a] == PlaceAt(ds, steps, i);
  }

  /** Every place recorded is some earlier step's. */
  lemma {:induction false} SeatOrigin(ds: seq<Desk>, steps: seq<Step>, n: nat, q: int) returns (i: nat)
    requires Trace(ds, steps) && ds[0].seated == [] && n <= |steps| && q in ds[n].seated
    ensures i < n && SeatsAt(ds, i) && PlaceAt(ds, steps, i) == q
  {
    assert Advances(ds[n - 1], steps[n - 1], ds[n]);
    if q in ds[n - 1].seated {
      i := SeatOrigin(ds, steps, n - 1, q);
    } else {
      i := n - 1;
    }
  }

  /** A live ticket that joined before step i was there all the way back to it. */
  lemma {:induction false} TracedBack(ds: seq<Desk>, steps: seq<Step>, x: string, joinedAt: int, i: nat, j: nat)
    requires Trace(ds, steps) && i <= j <= |steps| && Waits(ds[j].tickets, x, ds[j].now)
    requires ds[j].tickets[x].joinedAt == joinedAt && (i < j ==> joinedAt < steps[i].at)
    ensures Waits(ds[i].tickets, x, ds[i].now) && HoldsPlace(ds, x, joinedAt, i, j)
    decreases j - i
  {
    if i < j {
      if i < j - 1 {
        LaterStep(ds, steps, i, j - 1);
        assert Advances(ds[i], steps[i], ds[i + 1]);
      }
      assert Advances(ds[j - 1], steps[j - 1], ds[j]);
      TracedBack(ds, steps, x, joinedAt, i, j - 1);
    }
  }

  /** A seat given behind an earlier one was overtaken by it. */
  lemma BehindMeansOvertaken(ds: seq<Desk>, steps: seq<Step>, i: nat, j: nat)
    requires Trace(ds, steps) && i < j < |steps| && SeatsAt(ds, i) && SeatsAt(ds, j)
    requires PlaceAt(ds, steps, j) < PlaceAt(ds, steps, i)
    ensures Overtakes(ds, steps, i, j)
  {
    var x, place := steps[j].ip, PlaceAt(ds, steps, j);
    assert Advances(ds[i], steps[i], ds[i + 1]) && Advances(ds[j], steps[j], ds[j + 1]);
    LaterStep(ds, steps, i, j);
    assert PlaceAt(ds, steps, i) <= steps[i].at;
    assert Waits(ds[j].tickets, x, steps[j].at) && ds[j].tickets[x].joinedAt == place;
    TracedBack(ds, steps, x, place, i, j);
    if i + 1 < j {
      LaterStep(ds, steps, i, i + 1);
    }
    TracedBack(ds, steps, x, place, i + 1, j);
    assert ds[i + 1].tickets == ds[i].tickets - {steps[i].ip};
  }

  lemma {:induction false} SortedUnlessOvertaken(ds: seq<Desk>, steps: seq<Step>, n: nat)
    requires Trace(ds, steps) && ds[0].seated == [] && n <= |steps|
    requires forall i: nat, j: nat :: !Overtakes(ds, steps, i, j)
    ensures Sorted(ds[n].seated)
  {
    if n > 0 {
      SortedUnlessOvertaken(ds, steps, n - 1);
      assert Advances(ds[n - 1], steps[n - 1], ds[n]);
      if SeatsAt(ds, n - 1) {
        var before := ds[n - 1].seated;
        forall k | 0 <= k < |before| ensures before[k] <= PlaceAt(ds, steps, n - 1) {
          var i := SeatOrigin(ds, steps, n - 1, before[k]);
          if before[k] > PlaceAt(ds, steps, n - 1) {
            BehindMeansOvertaken(ds, steps, i, n - 1);
            assert false;
          }
        }
      }
    }
  }

  /** Over a whole run, all seats are given in order of joining exactly when no visitor seated later was overtaken. */
  lemma SeatsInOrderExactlyWhen(now: int, steps: seq<Step>)
    requires Valid(Opening(now), steps)
    ensures Sorted(Exec(Opening(now), steps).seated)
      <==> forall i: nat, j: nat :: !Overtakes(Desks(Opening(now), steps), steps, i, j)
  {
    var ds := Desks(Opening(now), steps);
    RunTraces(Opening(now), steps);
    if i: nat, j: nat :| Overtakes(ds, steps, i, j) {
      OvertakingShows(ds, steps, i, j);
    } else {
      SortedUnlessOvertaken(ds, steps, |steps|);
    }
  }

  /** Step k, if it seats someone at the gate or the front page, finds that visitor first: the guard only polling has. */
  ghost predicate Guarded(ds: seq<Desk>, steps: seq<Step>, k: nat) {
    k < |steps| < |ds| && SeatsAt(ds, k) && !steps[k].Poll? ==>
      Position(ds[k].tickets, steps[k].at, PlaceAt(ds, steps, k)) == 1
  }

  lemma NoOvertakingFromTheFront(d: Desk, step: Step, x: string)
    requires Enabled(d, step) && Seats(d, step) && Waits(d.tickets, x, step.at)
    requires step.Poll? || Position(d.tickets, step.at, Place(d.tickets, step.ip, step.at)) == 1
    ensures Place(d.tickets, step.ip, step.at) <= d.tickets[x].joinedAt
  {
    FrontIsMinimum(d.tickets, step.at, Place(d.tickets, step.ip, step.at));
    if step.Poll? {
      PromotesExactlyWhen(d, step);
    }
  }

  /** So with the poll's guard at every door, the whole front door is first-in first-out. */
  lemma GuardedSeatsInOrder(now: int, steps: seq<Step>)
    requires Valid(Opening(now), steps)
    requires forall k: nat :: Guarded(Desks(Opening(now), steps), steps, k)
    ensures Sorted(Exec(Opening(now), steps).seated)
  {
    var ds := Desks(Opening(now), steps);
    RunTraces(Opening(now), steps);
    forall i: nat, j: nat ensures !Overtakes(ds, steps, i, j) {
      if Overtakes(ds, steps, i, j) {
        assert Guarded(ds, steps, i) && Enabled(ds[i], steps[i]);
        NoOvertakingFromTheFront(ds[i], steps[i], steps[j].ip);
        assert false;
      }
    }
    SeatsInOrderExactlyWhen(now, steps);
  }

  // ---- a condition the desk itself shows ----

  /** No live ticket joined before any seat given so far. */
  ghost predicate SeatedFirst(d: Desk) {
    forall k, x :: 0 <= k < |d.seated| && Waits(d.tickets, x, d.now) ==> d.seated[k] <= d.tickets[x].joinedAt
  }

  ghost predicate SeatedInPast(d: Desk) { forall k :: 0 <= k < |d.seated| ==> d.seated[k] <= d.now }

  /** From here on, whoever is given a seat is given it by a poll. */
  ghost predicate SeatsByPolls(d: Desk, more: seq<Step>)
    decreases |more|
  {
    more == [] || ((Seats(d, more[0]) ==> more[0].Poll?) && SeatsByPolls(Apply(d, more[0]), more[1..]))
  }

  lemma SeatedInPastStep(d: Desk, step: Step)
    requires JoinedInPast(d) && SeatedInPast(d) && Enabled(d, step)
    ensures SeatedInPast(Apply(d, step))
  {
    SeatsMeans(d, step);
  }

  lemma SeatedFirstStep(d: Desk, step: Step)
    requires JoinedInPast(d) && SeatedInPast(d) && SeatedFirst(d) && Sorted(d.seated) && Enabled(d, step)
    requires Seats(d, step) ==> step.Poll?
    ensures SeatedFirst(Apply(d, step)) && Sorted(Apply(d, step).seated)
  {
    var d', place := Apply(d, step), Place(d.tickets, step.ip, step.at);
    StepAdvances(d, step);
    if Seats(d, step) {
      SeatsMeans(d, step);
      assert forall k :: 0 <= k < |d.seated| ==> d.seated[k] <= place;
      forall x | Waits(d'.tickets, x, d'.now) ensures place <= d'.tickets[x].joinedAt {
        NoOvertakingFromTheFront(d, step, x);
      }
    }
  }

  lemma {:induction false} PollsKeepOrder(d: Desk, more: seq<Step>)
    requires Inv(d) && SeatedInPast(d) && SeatedFirst(d) && Sorted(d.seated) && Valid(d, more) && SeatsByPolls(d, more)
    ensures Sorted(Exec(d, more).seated)
    decreases |more|
  {
    if more != [] {
      InvStep(d, more[0]);
      SeatedInPastStep(d, more[0]);
      SeatedFirstStep(d, more[0]);
      PollsKeepOrder(Apply(d, more[0]), more[1..]);
    }
  }

  ghost function Waiting(d: Desk): set<string> { set x | x in d.tickets && d.now < d.tickets[x].expires }

  lemma {:induction false} FirstOf(d: Desk, xs: set<string>) returns (first: string)
    requires xs != {} && xs <= Waiting(d)
    ensures first in xs && forall x :: x in xs ==> d.tickets[first].joinedAt <= d.tickets[x].joinedAt
  {
    var x :| x in xs;
    first := x;
    if xs - {x} != {} {
      var other := FirstOf(d, xs - {x});
      assert forall y :: y in xs ==> y == x || y in xs - {x};
      if d.tickets[other].joinedAt < d.tickets[x].joinedAt {
        first := other;
      }
    } else {
      assert xs == {x};
    }
  }

  /** The front of the queue polls when a runner is free. */
  lemma FrontIsSeated(d: Desk, x: string)
    requires NeverBoth(d) && Waits(d.tickets, x, d.now)
    requires forall y :: Waits(d.tickets, y, d.now) ==> d.tickets[x].joinedAt <= d.tickets[y].joinedAt
    ensures var poll := Poll(x, d.now, d.now, FREE);
      && Enabled(d, poll) && Seats(d, poll) && Apply(d, poll).seated == d.seated + [d.tickets[x].joinedAt]
  {
    var poll := Poll(x, d.now, d.now, FREE);
    assert Creates(FREE, 0) && RoomAt(FREE, 0) > 0;
    assert !Sits(d.seats, x, d.now);
    PromotesExactlyWhen(d, poll);
    SeatsMeans(d, poll);
  }

  ghost predicate PollsSpoilOrder(d: Desk, more: seq<Step>) {
    Valid(d, more) && SeatsByPolls(d, more) && !Sorted(Exec(d, more).seated)
  }

  lemma SpoiledByOnePoll(d: Desk, k: nat, x: string)
    requires Inv(d) && k < |d.seated| && Waits(d.tickets, x, d.now) && d.tickets[x].joinedAt < d.seated[k]
    ensures exists more :: PollsSpoilOrder(d, more)
  {
    assert x in Waiting(d);
    var first := FirstOf(d, Waiting(d));
    assert forall y :: Waits(d.tickets, y, d.now) ==> y in Waiting(d);
    FrontIsSeated(d, first);
    var more := [Poll(first, d.now, d.now, FREE)];
    var d' := Apply(d, more[0]);
    assert more[1..] == [];
    assert Exec(d, more) == Exec(d', more[1..]) == d';
    var all := d'.seated;
    assert all[k] == d.seated[k] > all[|d.seated|] && !Sorted(all);
    assert PollsSpoilOrder(d, more);
  }

  lemma {:induction false} SeatedInPastRun(d: Desk, steps: seq<Step>)
    requires JoinedInPast(d) && SeatedInPast(d) && Valid(d, steps)
    ensures SeatedInPast(Exec(d, steps))
    decreases |steps|
  {
    if steps != [] {
      SeatedInPastStep(d, steps[0]);
      JoinedInPastStep(d, steps[0]);
      SeatedInPastRun(Apply(d, steps[0]), steps[1..]);
    }
  }

  /**
   * After any run whose seats are in order: polling alone can still put them out of order exactly
   * when some live ticket joined before a seat already given.
   */
  lemma OrderIsSafeExactlyWhen(now: int, steps: seq<Step>)
    requires Valid(Opening(now), steps) && Sorted(Exec(Opening(now), steps).seated)
    ensures var d := Exec(Opening(now), steps);
      (exists more :: PollsSpoilOrder(d, more)) <==> !SeatedFirst(d)
  {
    var d := Exec(Opening(now), steps);
    InvRun(Opening(now), steps);
    SeatedInPastRun(Opening(now), steps);
    if SeatedFirst(d) {
      forall more ensures !PollsSpoilOrder(d, more) {
        if Valid(d, more) && SeatsByPolls(d, more) {
          PollsKeepOrder(d, more);
        }
      }
    } else {
      var k, x :| 0 <= k < |d.seated| && Waits(d.tickets, x, d.now) && d.seated[k] > d.tickets[x].joinedAt;
      SpoiledByOnePoll(d, k, x);
    }
  }

  const FULL: seq<Offer> := []
  const FREE: seq<Offer> := [Offer("https://r1", Some(1), Some(Session("s1", 3_600_000)))]
  const JUMP: seq<Step> := [
    Gate("early", 0, 0, Pass, FULL), Gate("late", 1000, 1000, Pass, FREE), Poll("early", 2000, 2000, FREE)]

  /** Without it, it is not: a newcomer at the gate takes the slot a waiting visitor is polling for. */
  lemma GateJumpsTheQueue()
    ensures Valid(Opening(0), JUMP) && Exec(Opening(0), JUMP).seated == [1000, 0]
  {
    AssignNewChooses(FULL);
    AssignNewChooses(FREE);
    assert Creates(FREE, 0) && RoomAt(FREE, 0) > 0;
    var d1 := Apply(Opening(0), JUMP[0]);
    assert d1.tickets == map["early" := Ticket(0, QUEUE_TTL)];
    var d2 := Apply(d1, JUMP[1]);
    assert d2.tickets == d1.tickets && d2.seated == [1000];
    assert Before(Touched(d2.tickets, "early", 2000), 2000, 0) == {};
    var d3 := Apply(d2, JUMP[2]);
    assert d3.seated == [1000, 0];
    assert JUMP[1..][0] == JUMP[1] && JUMP[1..][1..] == [JUMP[2]];
    var last := [JUMP[2]];
    assert last[1..] == [] && Exec(d2, last) == Exec(Apply(d2, last[0]), []);
    assert Exec(d1, JUMP[1..]) == Exec(d2, last) == d3;
    assert Valid(d2, last) && Valid(d1, JUMP[1..]);
  }

  // ---- the handlers ----

  datatype Reply = Go | AskV2 | Failed | Queued(position: nat) | Tour | GatePage | FrontPage | Proxied(runner: string, id: string)

  /** A listing of the live tickets, in whatever order the store keeps them. */
  ghost predicate Lists(order: seq<string>, tickets: map<string, Ticket>, t: int) {
    && (forall i, j :: 0 <= i < j < |order| ==> order[i] != order[j])
    && (forall i :: 0 <= i < |order| ==> Waits(tickets, order[i], t))
    && forall ip :: Waits(tickets, ip, t) ==> ip in order
  }

  /** assignNew's loop over the ranked runners: it stops at the first session created, so none is created and dropped. */
  method TryRunners(offers: seq<Offer>, ranked: seq<nat>) returns (r: Option<Assignment>, asked: seq<nat>)
    requires forall k :: 0 <= k < |ranked| ==> ranked[k] < |offers|
    ensures r == FirstCreated(offers, ranked)
    ensures asked <= ranked && (r.None? ==> asked == ranked)
    ensures forall k :: 0 <= k < |asked| ==> (Creates(offers, asked[k]) <==> r.Some? && k == |asked| - 1)
  {
    asked := [];
    for c := 0 to |ranked|
      invariant asked == ranked[..c]
      invariant forall k :: 0 <= k < c ==> !Creates(offers, ranked[k])
      invariant FirstCreated(offers, ranked) == FirstCreated(offers, ranked[c..])
    {
      asked := asked + [ranked[c]];
      if offers[ranked[c]].created.Some? {
        return Some(OnRunner(offers[ranked[c]])), asked;
      }
      assert ranked[c..][1..] == ranked[c + 1..];
    }
    r := None;
  }

  method AskForSeat(offers: seq<Offer>) returns (r: Option<Assignment>)
    ensures r == AssignNew(offers)
  {
    RankedIs(offers, |offers|);
    var ranked := Ranked(offers, |offers|);
    assert forall k :: 0 <= k < |ranked| ==> ranked[k] in ranked;
    var asked;
    r, asked := TryRunners(offers, ranked);
  }

  /** How many of the first n listed joined before. */
  function CountOlder(tickets: map<string, Ticket>, order: seq<string>, joinedAt: int, n: nat): nat
    requires n <= |order|
  {
    if n == 0 then 0
    else
      var rest := CountOlder(tickets, order, joinedAt, n - 1);
      if order[n - 1] in tickets && tickets[order[n - 1]].joinedAt < joinedAt then rest + 1 else rest
  }

  ghost function OlderIn(tickets: map<string, Ticket>, order: seq<string>, joinedAt: int): set<string> {
    set ip | ip in order && ip in tickets && tickets[ip].joinedAt < joinedAt
  }

  lemma {:induction false} CountIsCard(tickets: map<string, Ticket>, order: seq<string>, joinedAt: int, n: nat)
    requires n <= |order| && forall i, j :: 0 <= i < j < |order| ==> order[i] != order[j]
    ensures CountOlder(tickets, order, joinedAt, n) == |OlderIn(tickets, order[..n], joinedAt)|
  {
    if n > 0 {
      CountIsCard(tickets, order, joinedAt, n - 1);
      var was, ip := OlderIn(tickets, order[..n - 1], joinedAt), order[n - 1];
      assert order[..n] == order[..n - 1] + [ip];
      assert ip !in order[..n - 1];
      if ip in tickets && tickets[ip].joinedAt < joinedAt {
        assert OlderIn(tickets, order[..n], joinedAt) == was + {ip};
      } else {
        assert OlderIn(tickets, order[..n], joinedAt) == was;
      }
    }
  }

  lemma CountIsPosition(tickets: map<string, Ticket>, order: seq<string>, joinedAt: int, t: int)
    requires Lists(order, tickets, t)
    ensures CountOlder(tickets, order, joinedAt, |order|) + 1 == Position(tickets, t, joinedAt)
  {
    CountIsCard(tickets, order, joinedAt, |order|);
    assert order[..|order|] == order;
    forall ip ensures ip in OlderIn(tickets, order, joinedAt) <==> ip in Before(tickets, t, joinedAt) {
      assert Waits(tickets, ip, t) <==> ip in order;
    }
    assert OlderIn(tickets, order, joinedAt) == Before(tickets, t, joinedAt);
  }

  class FrontDoor {
    var tickets: map<string, Ticket>
    var seats: map<string, Seat>
    ghost var now: int
    ghost var seated: seq<int>
    ghost var promoted: seq<int>

    ghost function View(): Desk
      reads this
    {
      Desk(now, tickets, seats, seated, promoted)
    }

    constructor (ghost start: int)
      ensures View() == Opening(start)
    {
      tickets, seats := map[], map[];
      now, seated, promoted := start, [], [];
    }

    method QueueTouch(ip: string, t: int) returns (joinedAt: int)
      modifies this`tickets
      ensures tickets == Touched(old(tickets), ip, t) && joinedAt == tickets[ip].joinedAt
    {
      joinedAt := if ip in tickets && t < tickets[ip].expires then tickets[ip].joinedAt else t;
      tickets := tickets[ip := Ticket(joinedAt, t + QUEUE_TTL)];
    }

    method QueueLeave(ip: string)
      modifies this`tickets
      ensures tickets == old(tickets) - {ip}
    {
      tickets := tickets - {ip};
    }

    method WriteAssignment(ip: string, a: Assignment, t: int)
      modifies this`seats
      ensures seats == old(seats)[ip := SeatFor(a, t)]
    {
      var secs := Max(60, (a.expiresAt - t) / 1000);
      seats := seats[ip := Seat(a, t + 1000 * secs)];
    }

    /** queuePosition: the listing comes in pages, and the last one says it is complete. */
    method QueuePosition(order: seq<string>, page: nat, joinedAt: int, t: int) returns (position: nat)
      requires page > 0 && Lists(order, tickets, t)
      ensures position == Position(tickets, t, joinedAt)
    {
      var ahead := 0;
      var cursor := Some(0);
      ghost var next := 0;
      while cursor.Some?
        invariant 0 <= next <= |order|
        invariant cursor == Some(next) || (cursor.None? && next == |order|)
        invariant ahead == CountOlder(tickets, order, joinedAt, next)
        decreases cursor.Some?, |order| - next
      {
        var end := Min(cursor.value + page, |order|);
        for i := cursor.value to end
          invariant ahead == CountOlder(tickets, order, joinedAt, i)
        {
          if tickets[order[i]].joinedAt < joinedAt {
            ahead := ahead + 1;
          }
        }
        cursor := if end == |order| then None else Some(end);
        next := end;
      }
      CountIsPosition(tickets, order, joinedAt, t);
      return ahead + 1;
    }

    /** The score of the v3 token, or whether the v2 checkbox was passed, is what siteverify says. */
    method HandleGate(ip: string, at: int, done: int, mode: string, score: real, minScore: real, v2: bool,
        offers: seq<Offer>, order: seq<string>, page: nat) returns (reply: Reply)
      requires Enabled(View(), Gate(ip, at, done, Checked(mode, score, minScore, v2), offers))
      requires page > 0 && Lists(order, Touched(tickets, ip, done), done)
      modifies this
      ensures View() == Apply(old(View()), Gate(ip, at, done, Checked(mode, score, minScore, v2), offers))
      ensures var check := Checked(mode, score, minScore, v2);
        reply ==
        if Sits(old(seats), ip, at) then Go
        else if check.NeedV2? then AskV2
        else if check.Refuse? then Failed
        else if AssignNew(offers).Some? then Go
        else Queued(Reported(old(View()), ip, done))
    {
      now := done;
      if ip in seats && at < seats[ip].expires {
        return Go;
      }
      if mode == "v3" {
        if !(score >= minScore) {
          return AskV2;
        }
      } else if mode == "v2" {
        if !v2 {
          return Failed;
        }
      } else {
        return Failed;
      }
      var taken := AskForSeat(offers);
      if taken.Some? {
        seated := seated + [Place(tickets, ip, at)];
        WriteAssignment(ip, taken.value, done);
        QueueLeave(ip);
        return Go;
      }
      var joinedAt := QueueTouch(ip, done);
      var position := QueuePosition(order, page, joinedAt, done);
      return Queued(position);
    }

    method HandleQueue(ip: string, at: int, done: int, offers: seq<Offer>, order: seq<string>, page: nat)
      returns (reply: Reply)
      requires Enabled(View(), Poll(ip, at, done, offers))
      requires page > 0 && Lists(order, Touched(tickets, ip, at), at)
      modifies this
      ensures View() == Apply(old(View()), Poll(ip, at, done, offers))
      ensures reply ==
        if Sits(old(seats), ip, at) || Promotes(old(View()), Poll(ip, at, done, offers)) then Go
        else Queued(Reported(old(View()), ip, at))
    {
      now := done;
      if ip in seats && at < seats[ip].expires {
        QueueLeave(ip);
        return Go;
      }
      var joinedAt := QueueTouch(ip, at);
      var position := QueuePosition(order, page, joinedAt, at);
      if position == 1 {
        var taken := AskForSeat(offers);
        if taken.Some? {
          WriteAssignment(ip, taken.value, done);
          QueueLeave(ip);
          seated, promoted := seated + [joinedAt], promoted + [joinedAt];
          return Go;
        }
      }
      return Queued(position);
    }

    /** The front page's demo button. */
    method HandleHome(ip: string, at: int, done: int, human: bool, offers: seq<Offer>) returns (reply: Reply)
      requires Enabled(View(), Home(ip, at, done, human, offers))
      modifies this
      ensures View() == Apply(old(View()), Home(ip, at, done, human, offers))
      ensures reply == if Sits(old(seats), ip, at) || (human && AssignNew(offers).Some?) then Go else Tour
    {
      now := done;
      if ip in seats && at < seats[ip].expires {
        return Go;
      }
      if !human {
        return Tour;
      }
      var taken := AskForSeat(offers);
      if taken.None? {
        return Tour;
      }
      seated := seated + [Place(tickets, ip, at)];
      WriteAssignment(ip, taken.value, done);
      QueueLeave(ip);
      return Go;
    }

    /** Any other page: proxied to the visitor's session, which is dropped when the runner says it is gone. */
    method HandleVisit(ip: string, at: int, done: int, gone: bool) returns (reply: Reply)
      requires Enabled(View(), Visit(ip, at, done, gone))
      modifies this
      ensures View() == Apply(old(View()), Visit(ip, at, done, gone))
      ensures reply ==
        if !Sits(old(seats), ip, at) then GatePage
        else if gone then FrontPage
        else Proxied(old(seats)[ip].a.runner, old(seats)[ip].a.id)
    {
      now := done;
      if !(ip in seats && at < seats[ip].expires) {
        return GatePage;
      }
      if gone {
        seats := seats - {ip};
        return FrontPage;
      }
      return Proxied(seats[ip].a.runner, seats[ip].a.id);
    }
  }
}
