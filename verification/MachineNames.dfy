/**
 * Machine identity across three files: the fake clouds print machine ids, the multiplexer routes
 * by their prefix, and node-creator turns them into node names it can read back.
 */
module MachineNames {
  import opened Prelude

  // ---- decimal text ----

  predicate IsDigit(ch: char) { '0' <= ch <= '9' }

  function DigitChar(d: int): (ch: char)
    requires 0 <= d < 10
    ensures IsDigit(ch) && ch as int - '0' as int == d
  {
    ('0' as int + d) as char
  }

  ghost predicate Digits(s: string) { forall i :: 0 <= i < |s| ==> IsDigit(s[i]) }

  function Decimal(n: nat): (s: string)
    ensures |s| >= 1 && Digits(s)
  {
    if n < 10 then [DigitChar(n)] else Decimal(n / 10) + [DigitChar(n % 10)]
  }

  function Zeros(n: int): (s: string)
    ensures Digits(s)
  {
    if n <= 0 then "" else "0" + Zeros(n - 1)
  }

  /** fmt's %0wd for a non-negative number. */
  function Padded(n: nat, w: nat): (s: string)
    ensures |s| >= 1 && Digits(s)
  {
    Zeros(w - |Decimal(n)|) + Decimal(n)
  }

  function DigitValue(ch: char): nat { if IsDigit(ch) then ch as int - '0' as int else 0 }

  function DecimalValue(s: string): nat {
    if s == "" then 0 else DecimalValue(s[..|s| - 1]) * 10 + DigitValue(s[|s| - 1])
  }

  lemma {:induction false} DecimalRoundTrip(n: nat)
    ensures DecimalValue(Decimal(n)) == n
  {
    if n >= 10 {
      DecimalRoundTrip(n / 10);
      var s := Decimal(n);
      assert s[..|s| - 1] == Decimal(n / 10);
    } else {
      assert Decimal(n)[..0] == "";
    }
  }

  lemma {:induction false} ZerosIgnored(k: int, s: string)
    ensures DecimalValue(Zeros(k) + s) == DecimalValue(s)
    decreases |s|, k
  {
    if s == "" {
      assert Zeros(k) + s == Zeros(k);
      ZerosAreZero(k);
    } else {
      ZerosIgnored(k, s[..|s| - 1]);
      var t := Zeros(k) + s;
      assert t[..|t| - 1] == Zeros(k) + s[..|s| - 1];
    }
  }

  lemma {:induction false} ZerosAreZero(k: int)
    ensures DecimalValue(Zeros(k)) == 0
  {
    if k > 0 {
      ZerosAreZero(k - 1);
      ZerosEndInZero(k);
    }
  }

  lemma {:induction false} ZerosEndInZero(k: int)
    requires k > 0
    ensures |Zeros(k)| == k && Zeros(k)[..k - 1] == Zeros(k - 1) && Zeros(k)[k - 1] == '0'
  {
    if k > 1 {
      ZerosEndInZero(k - 1);
    }
  }

  const MAX_INT64 := 9223372036854775807

  /** Where the run of digits that ends at `end` starts. */
  function DigitsFrom(id: string, end: nat): (i: nat)
    requires end <= |id|
    ensures i <= end
  {
    if end > 0 && IsDigit(id[end - 1]) then DigitsFrom(id, end - 1) else end
  }

  /** trailingNum: strconv.Atoi of the trailing digits, whose range error leaves the largest int64. */
  function TrailingNum(id: string): nat { Min(DecimalValue(id[DigitsFrom(id, |id|)..]), MAX_INT64) }

  method TrailingNumLoop(id: string) returns (n: int)
    ensures n == TrailingNum(id)
  {
    var i := |id|;
    while i > 0 && IsDigit(id[i - 1])
      invariant 0 <= i <= |id|
      invariant DigitsFrom(id, |id|) == DigitsFrom(id, i)
    {
      i := i - 1;
    }
    n := Min(DecimalValue(id[i..]), MAX_INT64);
  }

  lemma {:induction false} DigitsStartAfter(prefix: string, digits: string, end: nat)
    requires Digits(digits) && end <= |digits|
    requires prefix == "" || !IsDigit(prefix[|prefix| - 1])
    ensures DigitsFrom(prefix + digits, |prefix| + end) == |prefix|
    decreases end
  {
    if end > 0 {
      DigitsStartAfter(prefix, digits, end - 1);
    }
  }

  lemma PaddedValue(n: nat, w: nat)
    ensures DecimalValue(Padded(n, w)) == n
  {
    ZerosIgnored(w - |Decimal(n)|, Decimal(n));
    DecimalRoundTrip(n);
  }

  lemma TrailingNumOf(prefix: string, digits: string)
    requires Digits(digits)
    requires prefix == "" || !IsDigit(prefix[|prefix| - 1])
    ensures TrailingNum(prefix + digits) == Min(DecimalValue(digits), MAX_INT64)
  {
    DigitsStartAfter(prefix, digits, |digits|);
    assert (prefix + digits)[|prefix|..] == digits;
  }

  lemma TrailingNumReads(prefix: string, n: nat, w: nat)
    requires prefix == "" || !IsDigit(prefix[|prefix| - 1])
    ensures TrailingNum(prefix + Padded(n, w)) == Min(n, MAX_INT64)
  {
    TrailingNumOf(prefix, Padded(n, w));
    PaddedValue(n, w);
  }

  // ---- text by prefix ----

  predicate HasPrefix(s: string, p: string) { |p| <= |s| && s[..|p|] == p }

  function TrimPrefix(s: string, p: string): string { if HasPrefix(s, p) then s[|p|..] else s }

  /** The text before the first `ch`, or all of it. */
  function Before(s: string, ch: char): string {
    if s == "" || s[0] == ch then "" else [s[0]] + Before(s[1..], ch)
  }

  lemma {:induction false} BeforeStops(a: string, ch: char, rest: string)
    requires forall i :: 0 <= i < |a| ==> a[i] != ch
    ensures Before(a + [ch] + rest, ch) == a
  {
    if a != "" {
      BeforeStops(a[1..], ch, rest);
      assert (a + [ch] + rest)[1..] == a[1..] + [ch] + rest;
    }
  }

  // ---- fakecloud: catalogs, instances, routing ----

  datatype State = Idle | Speculative

  datatype Tier = Tier(count: nat, instanceType: string, state: State, billing: string)

  datatype Catalog = Catalog(cloud: string, zones: seq<string>, tiers: seq<Tier>)

  datatype Instance = Instance(id: string, state: State, instanceType: string, zone: string, billing: string, host: Option<string>)

  function MachineId(cloud: string, n: nat): string { cloud + "-" + Padded(n, 4) }

  function MachineOf(cat: Catalog, t: Tier, n: nat): Instance {
    var id := MachineId(cat.cloud, n);
    Instance(id, t.state, t.instanceType, if cat.zones == [] then "" else cat.zones[n % |cat.zones|], t.billing,
      if t.state == Idle then Some(id) else None)
  }

  /** The tier machine n belongs to, counting the tiers' machines through. */
  function TierOf(tiers: seq<Tier>, n: nat): Tier
    requires n < Total(tiers)
  {
    if n < tiers[0].count then tiers[0] else TierOf(tiers[1..], n - tiers[0].count)
  }

  function Total(tiers: seq<Tier>): nat { if tiers == [] then 0 else tiers[0].count + Total(tiers[1..]) }

  lemma {:induction false} TotalSplits(tiers: seq<Tier>, k: nat)
    requires k < |tiers|
    ensures Total(tiers[..k + 1]) == Total(tiers[..k]) + tiers[k].count <= Total(tiers)
    decreases k
  {
    if k == 0 {
      assert tiers[..1] == [tiers[0]] && tiers[..0] == [];
      assert Total([tiers[0]]) == tiers[0].count + Total([tiers[0]][1..]);
    } else {
      TotalSplits(tiers[1..], k - 1);
      assert tiers[..k + 1][1..] == tiers[1..][..k] && tiers[..k][1..] == tiers[1..][..k - 1];
    }
  }

  lemma {:induction false} TierAt(tiers: seq<Tier>, k: nat, i: nat)
    requires k < |tiers| && i < tiers[k].count
    ensures Total(tiers[..k]) + i < Total(tiers) && TierOf(tiers, Total(tiers[..k]) + i) == tiers[k]
    decreases k
  {
    TotalSplits(tiers, k);
    if k > 0 {
      TierAt(tiers[1..], k - 1, i);
      assert tiers[..k][1..] == tiers[1..][..k - 1];
    }
  }

  /** Catalog.instances: every tier's machines in order, numbered through. */
  method Instances(cat: Catalog) returns (out: seq<Instance>)
    ensures |out| == Total(cat.tiers)
    ensures forall n :: 0 <= n < |out| ==> out[n] == MachineOf(cat, TierOf(cat.tiers, n), n)
  {
    out := [];
    var n := 0;
    for k := 0 to |cat.tiers|
      invariant n == |out| == Total(cat.tiers[..k]) <= Total(cat.tiers)
      invariant forall m :: 0 <= m < n ==> out[m] == MachineOf(cat, TierOf(cat.tiers, m), m)
    {
      TotalSplits(cat.tiers, k);
      for i := 0 to cat.tiers[k].count
        invariant n == |out| == Total(cat.tiers[..k]) + i
        invariant forall m :: 0 <= m < n ==> m < Total(cat.tiers) && out[m] == MachineOf(cat, TierOf(cat.tiers, m), m)
      {
        TierAt(cat.tiers, k, i);
        out := out + [MachineOf(cat, cat.tiers[k], n)];
        n := n + 1;
      }
    }
    assert cat.tiers[..|cat.tiers|] == cat.tiers;
  }

  function Onprem(bareMetal: nat): Catalog {
    Catalog("onprem", ["dc1-rack-1", "dc1-rack-2", "dc1-rack-3"], [Tier(bareMetal, "bare-metal-8vcpu", Idle, "owned")])
  }

  function Aws(reserved: nat, onDemand: nat, spot: nat): Catalog {
    Catalog("aws", ["us-east-1a", "us-east-1b", "us-east-1c"],
      [Tier(reserved, "m6i.2xlarge", Idle, "reserved"),
       Tier(onDemand, "m5.2xlarge", Speculative, "on-demand"),
       Tier(spot, "m5.2xlarge", Speculative, "spot")])
  }

  function Gcp(onDemand: nat, spot: nat): Catalog {
    Catalog("gcp", ["us-central1-a", "us-central1-b", "us-central1-c"],
      [Tier(onDemand, "n2-standard-8", Speculative, "on-demand"),
       Tier(spot, "n2-standard-8", Speculative, "spot")])
  }

  datatype Options = Options(bareMetal: nat, awsReserved: nat, awsOnDemand: nat, awsSpot: nat, gcpOnDemand: nat, gcpSpot: nat)

  function OrDefault(n: nat, d: nat): nat { if n == 0 then d else n }

  function WithDefaults(o: Options): Options {
    Options(OrDefault(o.bareMetal, 28), OrDefault(o.awsReserved, 20), OrDefault(o.awsOnDemand, 24),
      OrDefault(o.awsSpot, 12), OrDefault(o.gcpOnDemand, 24), OrDefault(o.gcpSpot, 12))
  }

  const ORDER: seq<string> := ["onprem", "aws", "gcp"]

  /** The multiplexer's sub-backends by cloud. */
  function Subs(o: Options): map<string, Catalog> {
    var d := WithDefaults(o);
    map["onprem" := Onprem(d.bareMetal), "aws" := Aws(d.awsReserved, d.awsOnDemand, d.awsSpot),
        "gcp" := Gcp(d.gcpOnDemand, d.gcpSpot)]
  }

  /** route: the sub-backend named by the text before the first dash; None is the invalid-machine error. */
  function Route(subs: map<string, Catalog>, id: string): Option<Catalog> {
    var prefix := Before(id, '-');
    if prefix in subs then Some(subs[prefix]) else None
  }

  /** Machine i of the whole fleet: the clouds' machines in ORDER, each numbered from 0. */
  function FleetMachine(o: Options, i: nat): Instance
    requires i < FleetSize(o)
  {
    var s := Subs(o);
    var p, a := Total(s["onprem"].tiers), Total(s["aws"].tiers);
    if i < p then MachineAt(s["onprem"], i)
    else if i < p + a then MachineAt(s["aws"], i - p)
    else MachineAt(s["gcp"], i - p - a)
  }

  function FleetSize(o: Options): nat {
    Total(Subs(o)["onprem"].tiers) + Total(Subs(o)["aws"].tiers) + Total(Subs(o)["gcp"].tiers)
  }

  /** A catalog's machine n. */
  function MachineAt(cat: Catalog, n: nat): Instance
    requires n < Total(cat.tiers)
  {
    MachineOf(cat, TierOf(cat.tiers, n), n)
  }

  method Describe(o: Options) returns (out: seq<Instance>)
    ensures |out| == FleetSize(o)
    ensures forall i :: 0 <= i < |out| ==> out[i] == FleetMachine(o, i)
  {
    var subs := Subs(o);
    out := [];
    for k := 0 to |ORDER|
      invariant |out| == SizeUpTo(o, k)
      invariant forall i :: 0 <= i < |out| ==> out[i] == FleetMachine(o, i)
    {
      assert ORDER[k] == "onprem" || ORDER[k] == "aws" || ORDER[k] == "gcp";
      var cat := Instances(subs[ORDER[k]]);
      out := out + cat;
    }
  }

  function SizeUpTo(o: Options, k: nat): nat {
    (if k > 0 then Total(Subs(o)["onprem"].tiers) else 0) + (if k > 1 then Total(Subs(o)["aws"].tiers) else 0)
    + (if k > 2 then Total(Subs(o)["gcp"].tiers) else 0)
  }

  lemma NumberedIsListed(o: Options, m: Instance, cloud: string, n: nat) returns (i: nat)
    requires Numbered(Subs(o), m, cloud, n)
    ensures i < FleetSize(o) && FleetMachine(o, i) == m
  {
    var p, a := Total(Subs(o)["onprem"].tiers), Total(Subs(o)["aws"].tiers);
    i := if cloud == "onprem" then n else if cloud == "aws" then p + n else p + a + n;
  }

  lemma ListedIsNumbered(o: Options, i: nat)
    requires i < FleetSize(o)
    ensures InFleet(o, FleetMachine(o, i))
  {
    var m, p, a := FleetMachine(o, i), Total(Subs(o)["onprem"].tiers), Total(Subs(o)["aws"].tiers);
    if i < p {
      assert Numbered(Subs(o), m, "onprem", i);
    } else if i < p + a {
      assert Numbered(Subs(o), m, "aws", i - p);
    } else {
      assert Numbered(Subs(o), m, "gcp", i - p - a);
    }
  }

  /** The fleet's machines are exactly the numbered ones. */
  lemma FleetIsNumbered(o: Options, m: Instance)
    ensures InFleet(o, m) <==> exists i: nat :: i < FleetSize(o) && FleetMachine(o, i) == m
  {
    if InFleet(o, m) {
      var cloud, n :| Numbered(Subs(o), m, cloud, n);
      var i := NumberedIsListed(o, m, cloud, n);
    }
    if i: nat :| i < FleetSize(o) && FleetMachine(o, i) == m {
      ListedIsNumbered(o, i);
    }
  }

  ghost predicate Numbered(subs: map<string, Catalog>, m: Instance, cloud: string, n: int) {
    cloud in subs && 0 <= n < Total(subs[cloud].tiers) && m == MachineOf(subs[cloud], TierOf(subs[cloud].tiers, n), n)
  }

  /** One of the machines the multiplexed fleet advertises. */
  ghost predicate InFleet(o: Options, m: Instance) {
    exists cloud, n :: Numbered(Subs(o), m, cloud, n)
  }

  /** The demo's fleet: 48 committed machines and 72 elastic slots. */
  lemma DefaultFleetShape()
    ensures var s := Subs(Options(0, 0, 0, 0, 0, 0));
      && Total(s["onprem"].tiers) == 28 && Total(s["aws"].tiers) == 56 && Total(s["gcp"].tiers) == 36
      && (forall t :: t in s["aws"].tiers && t.billing == "reserved" ==> t.count == 20 && t.state == Idle)
      && (forall t :: t in s["aws"].tiers && t.billing == "spot" ==> t.count == 12 && t.state == Speculative)
      && (forall t :: t in s["gcp"].tiers && t.billing == "on-demand" ==> t.count == 24 && t.state == Speculative)
  {
    var s := Subs(Options(0, 0, 0, 0, 0, 0));
    TotalOfThree(s["aws"].tiers);
    TotalOfTwo(s["gcp"].tiers);
    assert Total(s["onprem"].tiers[1..]) == 0;
  }

  lemma TotalOfTwo(t: seq<Tier>)
    requires |t| == 2
    ensures Total(t) == t[0].count + t[1].count
  {
    assert Total(t[1..]) == t[1].count + Total(t[1..][1..]);
  }

  lemma TotalOfThree(t: seq<Tier>)
    requires |t| == 3
    ensures Total(t) == t[0].count + t[1].count + t[2].count
  {
    TotalOfTwo(t[1..]);
  }

  /** A fleet machine has a host, itself, exactly when it is idle; and its cloud's zones take turns. */
  lemma MachineStands(o: Options, m: Instance, cloud: string, n: nat, round: nat, turn: nat)
    requires Numbered(Subs(o), m, cloud, n) && n == 3 * round + turn && turn < 3
    ensures m.host == Some(m.id) <==> m.state == Idle
    ensures m.host == None <==> m.state == Speculative
    ensures |Subs(o)[cloud].zones| == 3 && m.zone == Subs(o)[cloud].zones[turn]
  {
    assert n % 3 == turn;
  }

  predicate IsCloud(cloud: string) { cloud == "onprem" || cloud == "aws" || cloud == "gcp" }

  /** An id printed for a cloud routes back to that cloud and reads back as its number, at any catalog size. */
  lemma RouteRoundTrip(o: Options, cloud: string, n: nat)
    requires IsCloud(cloud)
    ensures Route(Subs(o), MachineId(cloud, n)) == Some(Subs(o)[cloud])
    ensures n <= MAX_INT64 ==> TrailingNum(MachineId(cloud, n)) == n
  {
    BeforeStops(cloud, '-', Padded(n, 4));
    assert MachineId(cloud, n) == cloud + ['-'] + Padded(n, 4);
    TrailingNumReads(cloud + "-", n, 4);
    assert MachineId(cloud, n) == (cloud + "-") + Padded(n, 4);
  }

  lemma {:induction false} BeforeIsPrefix(t: string, ch: char)
    ensures var p := Before(t, ch);
      && |p| <= |t| && t[..|p|] == p && (forall i :: 0 <= i < |p| ==> t[i] != ch) && (|p| < |t| ==> t[|p|] == ch)
  {
    if t != "" && t[0] != ch {
      BeforeIsPrefix(t[1..], ch);
    }
  }

  lemma {:induction false} NothingToCut(t: string, ch: char)
    requires forall i :: 0 <= i < |t| ==> t[i] != ch
    ensures Before(t, ch) == t
  {
    if t != "" {
      NothingToCut(t[1..], ch);
    }
  }

  lemma CutIsBefore(id: string, p: string)
    requires HasPrefix(id, p) && (|id| > |p| ==> id[|p|] == '-') && forall i :: 0 <= i < |p| ==> p[i] != '-'
    ensures Before(id, '-') == p
  {
    if |id| > |p| {
      assert id == p + ['-'] + id[|p| + 1..];
      BeforeStops(p, '-', id[|p| + 1..]);
    } else {
      assert id == p;
      NothingToCut(id, '-');
    }
  }

  /** id is a cloud's name, alone or followed by a dash. */
  predicate OfCloud(id: string, cloud: string) {
    IsCloud(cloud) && HasPrefix(id, cloud) && (|id| > |cloud| ==> id[|cloud|] == '-')
  }

  lemma CloudsHaveNoDash(cloud: string)
    requires IsCloud(cloud)
    ensures forall i :: 0 <= i < |cloud| ==> cloud[i] != '-'
  {}

  lemma RoutedByCloud(o: Options, id: string)
    ensures Route(Subs(o), id).Some? <==> IsCloud(Before(id, '-'))
  {}

  /** Exactly the ids of that form are routed; every other one is refused. */
  lemma RoutedExactlyWhen(o: Options, id: string)
    ensures Route(Subs(o), id).Some? <==> exists cloud :: OfCloud(id, cloud)
  {
    RoutedByCloud(o, id);
    BeforeIsPrefix(id, '-');
    if cloud :| OfCloud(id, cloud) {
      CloudsHaveNoDash(cloud);
      CutIsBefore(id, cloud);
    } else {
      assert !OfCloud(id, Before(id, '-'));
    }
  }

  // ---- node-creator: node names ----

  /** cloudOf an instance type. */
  function CloudOf(it: string): string {
    if HasPrefix(it, "bare-metal") || HasPrefix(it, "onprem") then "onprem"
    else if HasPrefix(it, "n2-") || HasPrefix(it, "e2-") || HasPrefix(it, "n1-") then "gcp"
    else "aws"
  }

  function CloudOfName(name: string): string {
    if HasPrefix(name, "bm-") then "onprem" else if HasPrefix(name, "gke-") then "gcp" else "aws"
  }

  function XorBit(a: nat, b: nat, p: nat): nat
    requires p > 0
  {
    p * ((a / p + b / p) % 2)
  }

  /** `^` of two bytes. */
  function XorByte(a: nat, b: nat): nat {
    XorBit(a, b, 1) + XorBit(a, b, 2) + XorBit(a, b, 4) + XorBit(a, b, 8)
      + XorBit(a, b, 16) + XorBit(a, b, 32) + XorBit(a, b, 64) + XorBit(a, b, 128)
  }

  /** One round of FNV-1a: the byte only meets the low byte of the hash, and the product wraps at 32 bits. */
  function FnvStep(h: nat, ch: char): (x: nat)
    ensures x < TWO32
  {
    (h - h % 256 + XorByte(h % 256, ch as int % 256)) * 16777619 % TWO32
  }

  /** fnv32, a uint32. */
  function Fnv32(s: string): (h: nat)
    ensures h < TWO32
  {
    if s == "" then 2166136261 else FnvStep(Fnv32(s[..|s| - 1]), s[|s| - 1])
  }

  /** fnv32 as the source runs it, byte by byte. */
  method Fnv32Loop(s: string) returns (h: nat)
    ensures h == Fnv32(s)
  {
    h := 2166136261;
    for i := 0 to |s|
      invariant h == Fnv32(s[..i])
    {
      assert s[..i + 1][..i] == s[..i];
      h := FnvStep(h, s[i]);
    }
    assert s[..|s|] == s;
  }

  const TWO32 := 0x1_0000_0000

  function B36Char(d: int): char
    requires 0 <= d < 36
  {
    if d < 10 then ('0' as int + d) as char else ('a' as int + d - 10) as char
  }

  function B36Digit(ch: char): int {
    if IsDigit(ch) then ch as int - '0' as int else ch as int - 'a' as int + 10
  }

  function Base36(v: nat): string {
    if v == 0 then "" else Base36(v / 36) + [B36Char(v % 36)]
  }

  /** b36: at least `min` digits, zero-padded. */
  function B36(v: nat, min: nat): string { Zeros(min - |Base36(v)|) + Base36(v) }

  method B36Loop(v: nat, min: nat) returns (out: string)
    ensures out == B36(v, min)
  {
    if v == 0 {
      assert Base36(0) == "";
      return Zeros(min);
    }
    out := "";
    var w := v;
    while w > 0
      invariant Base36(v) == Base36(w) + out
    {
      assert Base36(w) + out == Base36(w / 36) + ([B36Char(w % 36)] + out);
      out := [B36Char(w % 36)] + out;
      w := w / 36;
    }
    assert out == Base36(v);
    ghost var pad := 0;
    while |out| < min
      invariant pad >= 0 && out == Zeros(pad) + Base36(v)
      invariant |out| == pad + |Base36(v)| && (pad > 0 ==> |out| <= min)
      decreases min - |out|
    {
      assert "0" + (Zeros(pad) + Base36(v)) == Zeros(pad + 1) + Base36(v);
      out := "0" + out;
      pad := pad + 1;
    }
    assert |Base36(v)| >= min ==> pad == 0;
  }

  function B36Value(s: string): int {
    if s == "" then 0 else B36Value(s[..|s| - 1]) * 36 + B36Digit(s[|s| - 1])
  }

  lemma {:induction false} Base36RoundTrip(v: nat)
    ensures B36Value(Base36(v)) == v
  {
    if v > 0 {
      Base36RoundTrip(v / 36);
      var s := Base36(v);
      assert s[..|s| - 1] == Base36(v / 36);
    }
  }

  lemma {:induction false} B36ZerosIgnored(k: int, s: string)
    ensures B36Value(Zeros(k) + s) == B36Value(s)
    decreases |s|, k
  {
    if s != "" {
      B36ZerosIgnored(k, s[..|s| - 1]);
      var t := Zeros(k) + s;
      assert t[..|t| - 1] == Zeros(k) + s[..|s| - 1];
    } else if k > 0 {
      assert Zeros(k) + s == Zeros(k);
      ZerosEndInZero(k);
      B36ZerosIgnored(k - 1, s);
      assert Zeros(k - 1) + s == Zeros(k - 1);
    }
  }

  /** b36 reads back, whatever the padding. */
  lemma B36RoundTrip(v: nat, min: nat)
    ensures B36Value(B36(v, min)) == v
  {
    B36ZerosIgnored(min - |Base36(v)|, Base36(v));
    Base36RoundTrip(v);
  }

  const GKE := "gke-bigfleet-default-pool-3f7a9c21-"

  /** The uint32 that a GCP node name spells. */
  function GkeNumber(idx: nat): nat { (0x10000 + idx * 1327) % TWO32 }

  /** The two numbers of the hash that an AWS node name shows. */
  function High(h: nat): nat { h / 256 % 32 }
  function Low(h: nat): nat { h % 256 }

  function AwsTail(h: nat, idx: nat): string {
    Decimal(High(h)) + "-" + (Decimal(Low(h)) + "-" + (Decimal(idx % 256) + ".us-east-1.compute.internal"))
  }

  function AwsName(h: nat, idx: nat): string { "ip-10-" + AwsTail(h, idx) }

  function BareMetalName(idx: nat): string { "bm-dc1-rack" + Decimal(idx % 3 + 1) + "-" + Padded(idx, 2) }

  function RealisticNodeName(upName: string, it: string): string {
    var id := TrimPrefix(upName, "un-");
    var idx := TrailingNum(id);
    if CloudOf(it) == "onprem" then BareMetalName(idx)
    else if CloudOf(it) == "gcp" then GKE + B36(GkeNumber(idx), 4)
    else AwsName(Fnv32(id), idx)
  }

  /** The name of the node minted for a fleet machine. */
  function NodeNameOf(m: Instance): string { RealisticNodeName("un-" + m.id, m.instanceType) }

  /** 1259037135 undoes a multiplication by 1327 modulo 2^32. */
  const INVERSE_1327 := 1259037135

  /** A decoder the source does not have: the machine number a node name stands for. */
  function NodeIndex(name: string): int {
    if CloudOfName(name) == "onprem" then TrailingNum(name)
    else if CloudOfName(name) == "gcp" then
      if |name| < |GKE| then 0 else (B36Value(name[|GKE|..]) - 0x10000) * INVERSE_1327 % TWO32
    else TrailingNum(Before(name, '.'))
  }

  lemma ModUnique(x: int, q: int, r: int)
    requires x == q * TWO32 + r && 0 <= r < TWO32
    ensures x % TWO32 == r
  {}

  lemma GkeNumberInverts(idx: nat)
    requires idx < TWO32
    ensures (GkeNumber(idx) - 0x10000) * INVERSE_1327 % TWO32 == idx
  {
    var q := (0x10000 + idx * 1327) / TWO32;
    assert GkeNumber(idx) - 0x10000 == idx * 1327 - q * TWO32;
    assert (idx * 1327 - q * TWO32) * INVERSE_1327 == (idx * 389 - q * INVERSE_1327) * TWO32 + idx;
    ModUnique((GkeNumber(idx) - 0x10000) * INVERSE_1327, idx * 389 - q * INVERSE_1327, idx);
  }

  lemma BareMetalReads(idx: nat)
    requires idx <= MAX_INT64
    ensures CloudOfName(BareMetalName(idx)) == "onprem" && NodeIndex(BareMetalName(idx)) == idx
  {
    var p := "bm-dc1-rack" + Decimal(idx % 3 + 1) + "-";
    TrailingNumReads(p, idx, 2);
    assert BareMetalName(idx) == p + Padded(idx, 2);
    assert BareMetalName(idx)[..3] == "bm-";
  }

  lemma GkeReads(idx: nat)
    requires idx < TWO32
    ensures var name := GKE + B36(GkeNumber(idx), 4); CloudOfName(name) == "gcp" && NodeIndex(name) == idx
  {
    var name := GKE + B36(GkeNumber(idx), 4);
    assert name[..4] == GKE[..4] == "gke-";
    assert name[0] == 'g';
    assert name[|GKE|..] == B36(GkeNumber(idx), 4);
    B36RoundTrip(GkeNumber(idx), 4);
    GkeNumberInverts(idx);
  }

  lemma AwsText(h: nat, idx: nat)
    ensures AwsName(h, idx) == "ip-10-" + Decimal(High(h)) + "-" + Decimal(Low(h)) + "-" + Decimal(idx % 256)
      + ".us-east-1.compute.internal"
  {}

  lemma AwsReads(h: nat, idx: nat)
    ensures CloudOfName(AwsName(h, idx)) == "aws" && NodeIndex(AwsName(h, idx)) == idx % 256
  {
    var p := "ip-10-" + Decimal(High(h)) + "-" + Decimal(Low(h)) + "-";
    var last := Decimal(idx % 256);
    AwsText(h, idx);
    AwsSplits(p, last);
    TrailingNumOf(p, last);
    DecimalRoundTrip(idx % 256);
    assert AwsName(h, idx)[0] == 'i';
  }

  lemma AwsSplits(p: string, last: string)
    requires Digits(last) && forall i :: 0 <= i < |p| ==> p[i] != '.'
    ensures Before(p + last + ".us-east-1.compute.internal", '.') == p + last
  {
    BeforeStops(p + last, '.', "us-east-1.compute.internal");
    assert p + last + ".us-east-1.compute.internal" == p + last + ['.'] + "us-east-1.compute.internal";
  }

  lemma {:induction false} TierOfIsOneOf(tiers: seq<Tier>, n: nat)
    requires n < Total(tiers)
    ensures TierOf(tiers, n) in tiers
  {
    if n >= tiers[0].count {
      TierOfIsOneOf(tiers[1..], n - tiers[0].count);
    }
  }

  /** The instance type a machine carries names its own cloud. */
  lemma InstanceTypeNamesCloud(o: Options, m: Instance, cloud: string, n: nat)
    requires IsCloud(cloud) && Numbered(Subs(o), m, cloud, n)
    ensures CloudOf(m.instanceType) == cloud
  {
    TierOfIsOneOf(Subs(o)[cloud].tiers, n);
    var it := m.instanceType;
    if cloud == "onprem" {
      assert it == "bare-metal-8vcpu" && it[..10] == "bare-metal";
    } else if cloud == "gcp" {
      assert it == "n2-standard-8" && it[..3] == "n2-" && it[0] == 'n';
    } else {
      assert (it == "m6i.2xlarge" || it == "m5.2xlarge") && it[0] == 'm';
    }
  }

  lemma NodeNameCases(m: Instance, cloud: string, n: nat)
    requires IsCloud(cloud) && n <= MAX_INT64 && m.id == MachineId(cloud, n) && CloudOf(m.instanceType) == cloud
    ensures NodeNameOf(m) ==
      if cloud == "onprem" then BareMetalName(n)
      else if cloud == "gcp" then GKE + B36(GkeNumber(n), 4)
      else AwsName(Fnv32(m.id), n)
  {
    assert TrimPrefix("un-" + m.id, "un-") == m.id;
    RouteRoundTrip(Options(0, 0, 0, 0, 0, 0), cloud, n);
  }

  lemma MachineNameReads(m: Instance, cloud: string, n: nat)
    requires IsCloud(cloud) && n <= MAX_INT64 && m.id == MachineId(cloud, n) && CloudOf(m.instanceType) == cloud
    requires cloud == "gcp" ==> n < TWO32
    ensures CloudOfName(NodeNameOf(m)) == cloud
    ensures NodeIndex(NodeNameOf(m)) == if cloud == "aws" then n % 256 else n
  {
    NodeNameCases(m, cloud, n);
    if cloud == "onprem" {
      BareMetalReads(n);
    } else if cloud == "gcp" {
      GkeReads(n);
    } else {
      AwsReads(Fnv32(m.id), n);
    }
  }

  /** From machine to node name and back: its cloud, and its number (AWS names keep it modulo 256). */
  lemma NodeNameRoundTrip(o: Options, m: Instance, cloud: string, n: nat)
    requires IsCloud(cloud) && Numbered(Subs(o), m, cloud, n) && n <= MAX_INT64
    requires cloud == "gcp" ==> n < TWO32
    ensures CloudOfName(NodeNameOf(m)) == cloud
    ensures NodeIndex(NodeNameOf(m)) == if cloud == "aws" then n % 256 else n
  {
    assert m.id == MachineId(cloud, n) && CloudOf(m.instanceType) == cloud by {
      InstanceTypeNamesCloud(o, m, cloud, n);
    }
    MachineNameReads(m, cloud, n);
  }

  /** A catalog small enough for every node name to keep the machine's number. */
  predicate NamesFit(o: Options) {
    && Total(Subs(o)["onprem"].tiers) <= MAX_INT64
    && Total(Subs(o)["aws"].tiers) <= 256
    && Total(Subs(o)["gcp"].tiers) <= TWO32
  }

  lemma NumbersFit(o: Options, m: Instance, cloud: string, n: nat)
    requires NamesFit(o) && Numbered(Subs(o), m, cloud, n)
    ensures IsCloud(cloud) && n <= MAX_INT64
    ensures cloud == "gcp" ==> n < TWO32
    ensures cloud == "aws" ==> n % 256 == n
  {}

  /** Up to 256 AWS and 2^32 GCP machines, no two machines of the fleet share a node name. */
  lemma NodeNamesInjective(o: Options, a: Instance, b: Instance)
    requires InFleet(o, a) && InFleet(o, b) && NodeNameOf(a) == NodeNameOf(b) && NamesFit(o)
    ensures a == b
  {
    var c1, n1 :| Numbered(Subs(o), a, c1, n1);
    var c2, n2 :| Numbered(Subs(o), b, c2, n2);
    assert c1 == c2 && n1 == n2 by {
      NumbersFit(o, a, c1, n1);
      NumbersFit(o, b, c2, n2);
      NodeNameRoundTrip(o, a, c1, n1);
      NodeNameRoundTrip(o, b, c2, n2);
    }
  }

  /** The text after the first dash. */
  function After(t: string): string { if |Before(t, '-')| < |t| then t[|Before(t, '-')| + 1..] else "" }

  lemma FieldReads(x: string, rest: string)
    requires Digits(x)
    ensures Before(x + "-" + rest, '-') == x && After(x + "-" + rest) == rest
  {
    BeforeStops(x, '-', rest);
    assert x + ['-'] + rest == x + "-" + rest;
  }

  /** The first two numbers of an AWS node name, read off the text. */
  lemma AwsFields(h: nat, idx: nat)
    ensures DecimalValue(Before(AwsTail(h, idx), '-')) == High(h)
    ensures DecimalValue(Before(After(AwsTail(h, idx)), '-')) == Low(h)
  {
    TwoFields(Decimal(High(h)), Decimal(Low(h)), Decimal(idx % 256) + ".us-east-1.compute.internal");
    DecimalRoundTrip(High(h));
    DecimalRoundTrip(Low(h));
  }

  lemma TwoFields(x: string, y: string, tail: string)
    requires Digits(x) && Digits(y)
    ensures var t := x + "-" + (y + "-" + tail); Before(t, '-') == x && Before(After(t), '-') == y
  {
    FieldReads(x, y + "-" + tail);
    FieldReads(y, tail);
  }

  /** The shown numbers are 13 bits of the hash. */
  lemma ShownBits(h: nat, g: nat)
    ensures High(h) == High(g) && Low(h) == Low(g) <==> h % 8192 == g % 8192
  {
    assert h % 8192 == High(h) * 256 + Low(h);
    assert g % 8192 == High(g) * 256 + Low(g);
  }

  /** Two AWS node names are the same exactly when the numbers agree modulo 256 and the hashes in 13 bits. */
  lemma AwsNamesCollideExactlyWhen(h: nat, i: nat, g: nat, j: nat)
    ensures AwsName(h, i) == AwsName(g, j) <==> i % 256 == j % 256 && h % 8192 == g % 8192
  {
    ShownBits(h, g);
    if AwsName(h, i) == AwsName(g, j) {
      assert AwsTail(h, i) == AwsName(h, i)[6..] == AwsName(g, j)[6..] == AwsTail(g, j);
      AwsReads(h, i);
      AwsReads(g, j);
      AwsFields(h, i);
      AwsFields(g, j);
    }
  }
}
