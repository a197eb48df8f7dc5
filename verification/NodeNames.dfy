/** When the fleet's node names are all different: exactly, at every fleet size, and for the fleets the repository configures. */
module NodeNames {
  import opened Prelude
  import opened MachineNames

  /** The 13 bits of the hash that an AWS node name shows. */
  function HashBits(id: string): nat { Fnv32(id) % 8192 }

  lemma GkeNumberWraps(idx: nat)
    ensures GkeNumber(idx) == GkeNumber(idx % TWO32)
  {
    var q, r := idx / TWO32, idx % TWO32;
    assert idx == q * TWO32 + r;
    var p := (0x10000 + r * 1327) / TWO32;
    assert 0x10000 + r * 1327 == p * TWO32 + GkeNumber(r);
    assert 0x10000 + idx * 1327 == (q * 1327 + p) * TWO32 + GkeNumber(r);
    ModUnique(0x10000 + idx * 1327, q * 1327 + p, GkeNumber(r));
  }

  /** Two numbers of one cloud that its node names do not tell apart. */
  predicate SameInName(cloud: string, n: nat, m: nat) {
    if cloud == "onprem" then n == m
    else if cloud == "gcp" then n % TWO32 == m % TWO32
    else n % 256 == m % 256 && HashBits(MachineId("aws", n)) == HashBits(MachineId("aws", m))
  }

  /** The node name of machine n of a cloud. */
  function NameOf(cloud: string, n: nat): string {
    if cloud == "onprem" then BareMetalName(n)
    else if cloud == "gcp" then GKE + B36(GkeNumber(n), 4)
    else AwsName(Fnv32(MachineId("aws", n)), n)
  }

  lemma NameOfReads(cloud: string, n: nat)
    requires IsCloud(cloud) && n <= MAX_INT64
    ensures CloudOfName(NameOf(cloud, n)) == cloud
    ensures cloud == "onprem" ==> NodeIndex(NameOf(cloud, n)) == n
    ensures cloud == "gcp" ==> NodeIndex(NameOf(cloud, n)) == n % TWO32
  {
    if cloud == "onprem" {
      BareMetalReads(n);
    } else if cloud == "gcp" {
      GkeNumberWraps(n);
      GkeReads(n % TWO32);
    } else {
      AwsReads(Fnv32(MachineId("aws", n)), n);
    }
  }

  lemma NamesOfCloud(cloud: string, n: nat, m: nat)
    requires IsCloud(cloud) && n <= MAX_INT64 && m <= MAX_INT64
    ensures NameOf(cloud, n) == NameOf(cloud, m) <==> SameInName(cloud, n, m)
  {
    NameOfReads(cloud, n);
    NameOfReads(cloud, m);
    if cloud == "gcp" {
      GkeNumberWraps(n);
      GkeNumberWraps(m);
    } else if cloud == "aws" {
      var h, g := Fnv32(MachineId("aws", n)), Fnv32(MachineId("aws", m));
      AwsNamesCollideExactlyWhen(h, n, g, m);
    }
  }

  lemma FleetName(o: Options, a: Instance, cloud: string, n: nat)
    requires Numbered(Subs(o), a, cloud, n) && n <= MAX_INT64
    ensures IsCloud(cloud) && a.id == MachineId(cloud, n) && NodeNameOf(a) == NameOf(cloud, n)
  {
    InstanceTypeNamesCloud(o, a, cloud, n);
    NodeNameCases(a, cloud, n);
  }

  /** Exactly when two machines of any fleet share a node name. */
  lemma NodeNamesEqualExactlyWhen(o: Options, a: Instance, ca: string, n: nat, b: Instance, cb: string, m: nat)
    requires Numbered(Subs(o), a, ca, n) && Numbered(Subs(o), b, cb, m) && n <= MAX_INT64 && m <= MAX_INT64
    ensures NodeNameOf(a) == NodeNameOf(b) <==> ca == cb && SameInName(ca, n, m)
  {
    FleetName(o, a, ca, n);
    FleetName(o, b, cb, m);
    NameOfReads(ca, n);
    NameOfReads(cb, m);
    if ca == cb {
      NamesOfCloud(ca, n, m);
    }
  }

  // ---- whole fleets ----

  /** Counts are Go ints, so every machine's number fits one. */
  ghost predicate Countable(o: Options) { forall c :: c in Subs(o) ==> Total(Subs(o)[c].tiers) <= MAX_INT64 }

  ghost predicate NamesDiffer(o: Options) {
    forall a, b :: InFleet(o, a) && InFleet(o, b) && NodeNameOf(a) == NodeNameOf(b) ==> a == b
  }

  /** Some two AWS machines among the first `count` share number modulo 256 and hash bits. */
  ghost predicate AwsClash(count: nat) {
    exists n: nat, m: nat :: n < m < count && SameInName("aws", n, m)
  }

  lemma TwoOfOneName(o: Options, cloud: string, n: nat, m: nat)
    requires Countable(o) && cloud in Subs(o) && n < m < Total(Subs(o)[cloud].tiers) && SameInName(cloud, n, m)
    ensures !NamesDiffer(o)
  {
    var a, b := MachineAt(Subs(o)[cloud], n), MachineAt(Subs(o)[cloud], m);
    assert Numbered(Subs(o), a, cloud, n) && Numbered(Subs(o), b, cloud, m);
    NodeNamesEqualExactlyWhen(o, a, cloud, n, b, cloud, m);
    RouteRoundTrip(o, cloud, n);
    RouteRoundTrip(o, cloud, m);
    assert InFleet(o, a) && InFleet(o, b) && a.id != b.id;
  }

  /** All node names of a fleet differ exactly when it has at most 2^32 GCP machines and no two of its AWS machines clash. */
  lemma NodeNamesInjectiveExactlyWhen(o: Options)
    requires Countable(o)
    ensures NamesDiffer(o) <==>
      Total(Subs(o)["gcp"].tiers) <= TWO32 && !AwsClash(Total(Subs(o)["aws"].tiers))
  {
    var s := Subs(o);
    if Total(s["gcp"].tiers) > TWO32 {
      TwoOfOneName(o, "gcp", 0, TWO32);
    } else if AwsClash(Total(s["aws"].tiers)) {
      var n: nat, m: nat :| n < m < Total(s["aws"].tiers) && SameInName("aws", n, m);
      TwoOfOneName(o, "aws", n, m);
    } else {
      forall a, b | InFleet(o, a) && InFleet(o, b) && NodeNameOf(a) == NodeNameOf(b) ensures a == b {
        var ca, n :| Numbered(s, a, ca, n);
        var cb, m :| Numbered(s, b, cb, m);
        NodeNamesEqualExactlyWhen(o, a, ca, n, b, cb, m);
        assert n == m by { SameMeansEqual(o, ca, n, m); }
      }
    }
  }

  lemma SameMeansEqual(o: Options, cloud: string, n: nat, m: nat)
    requires cloud in Subs(o) && n < Total(Subs(o)[cloud].tiers) && m < Total(Subs(o)[cloud].tiers)
    requires SameInName(cloud, n, m)
    requires Total(Subs(o)["gcp"].tiers) <= TWO32 && !AwsClash(Total(Subs(o)["aws"].tiers))
    ensures n == m
  {
    if cloud == "aws" {
      assert SameInName("aws", m, n);
    }
  }

  // ---- a clash ----

  lemma SameXor(a: nat, b: nat, c: nat, d: nat)
    requires a == c && b == d
    ensures XorByte(a, b) == XorByte(c, d)
  {}

  lemma Small(b: nat)
    requires b < 256
    ensures b % 256 == b
  {}

  lemma MetByte(h: nat, a: nat, ch: char, x: nat)
    requires a == h % 256 && ch as int < 256 && XorByte(a, ch as int) == x
    ensures h - h % 256 + XorByte(h % 256, ch as int % 256) == h - a + x
  {
    Small(ch as int);
    SameXor(h % 256, ch as int % 256, a, ch as int);
  }

  lemma FnvGoes(h: nat, ch: char, m: nat, q: nat, g: nat)
    requires m == h - h % 256 + XorByte(h % 256, ch as int % 256)
    requires m * 16777619 == q * TWO32 + g && g < TWO32
    ensures FnvStep(h, ch) == g
  {
    ModUnique(m * 16777619, q, g);
  }

  lemma HashNext(t: string, ch: char, h: nat, g: nat)
    requires Fnv32(t) == h && FnvStep(h, ch) == g
    ensures Fnv32(t + [ch]) == g
  {
    assert (t + [ch])[..|t|] == t;
  }

  /** One more byte of a hash, worked out: the low byte, what it and the byte make, and the product divided by 2^32. */
  lemma HashGoes(s: string, k: nat, h: nat, a: nat, b: nat, x: nat, q: nat, g: nat)
    requires k < |s| && Fnv32(s[..k]) == h && s[k] as int == b
    requires a == h % 256 && b < 256 && XorByte(a, b) == x
    requires (h - a + x) * 16777619 == q * TWO32 + g && g < TWO32
    ensures Fnv32(s[..k + 1]) == g
  {
    assert FnvStep(h, s[k]) == g by {
      MetByte(h, a, s[k], x);
      FnvGoes(h, s[k], h - a + x, q, g);
    }
    HashNext(s[..k], s[k], h, g);
    assert s[..k + 1] == s[..k] + [s[k]];
  }

  // What each byte of "aws-", and then of either number, makes of the low byte of the hash before it.

  lemma AMeets()
    ensures XorByte(197, 97) == 164
  {}

  lemma WMeets()
    ensures XorByte(44, 119) == 91
  {}

  lemma SMeets()
    ensures XorByte(65, 115) == 50
  {}

  lemma DashMeets()
    ensures XorByte(182, 45) == 155
  {}

  lemma Digit1Of1272()
    ensures XorByte(1, 49) == 48
  {}

  lemma Digit2Of1272()
    ensures XorByte(144, 50) == 162
  {}

  lemma Digit3Of1272()
    ensures XorByte(6, 55) == 49
  {}

  lemma Digit4Of1272()
    ensures XorByte(35, 50) == 17
  {}

  lemma Digit1Of7928()
    ensures XorByte(1, 55) == 54
  {}

  lemma Digit2Of7928()
    ensures XorByte(2, 57) == 59
  {}

  lemma Digit3Of7928()
    ensures XorByte(225, 50) == 211
  {}

  lemma Digit4Of7928()
    ensures XorByte(41, 56) == 17
  {}

  lemma HashOfCloud(s: string)
    requires |s| >= 4 && s[..4] == "aws-"
    ensures Fnv32(s[..4]) == 756508673
  {
    assert s[0] == 'a' && s[1] == 'w' && s[2] == 's' && s[3] == '-';
    assert Fnv32(s[..0]) == 2166136261;
    assert Fnv32(s[..1]) == 3826002220 by {
      AMeets();
      HashGoes(s, 0, 2166136261, 197, 97, 164, 8461672, 3826002220);
    }
    assert Fnv32(s[..2]) == 1512380993 by {
      WMeets();
      HashGoes(s, 1, 3826002220, 44, 119, 91, 14945680, 1512380993);
    }
    assert Fnv32(s[..3]) == 443038902 by {
      SMeets();
      HashGoes(s, 2, 1512380993, 65, 115, 50, 5907880, 443038902);
    }
    assert Fnv32(s[..4]) == 756508673 by {
      DashMeets();
      HashGoes(s, 3, 443038902, 182, 45, 155, 1730662, 756508673);
    }
  }

  lemma HashOf1272(s: string)
    requires |s| == 8 && s[..4] == "aws-"
    requires s[4] == '1' && s[5] == '2' && s[6] == '7' && s[7] == '2'
    ensures Fnv32(s) == 1712638403
  {
    HashOfCloud(s);
    assert Fnv32(s[..5]) == 735642512 by {
      Digit1Of1272();
      HashGoes(s, 4, 756508673, 1, 49, 48, 2955183, 735642512);
    }
    assert Fnv32(s[..6]) == 2829105158 by {
      Digit2Of1272();
      HashGoes(s, 5, 735642512, 144, 50, 162, 2873672, 2829105158);
    }
    assert Fnv32(s[..7]) == 2785146147 by {
      Digit3Of1272();
      HashGoes(s, 6, 2829105158, 6, 55, 49, 11051457, 2785146147);
    }
    assert Fnv32(s[..8]) == 1712638403 by {
      Digit4Of1272();
      HashGoes(s, 7, 2785146147, 35, 50, 17, 10879738, 1712638403);
    }
    assert s[..8] == s;
  }

  lemma HashOf7928(s: string)
    requires |s| == 8 && s[..4] == "aws-"
    requires s[4] == '7' && s[5] == '9' && s[6] == '2' && s[7] == '8'
    ensures Fnv32(s) == 1605781955
  {
    HashOfCloud(s);
    assert Fnv32(s[..5]) == 836308226 by {
      Digit1Of7928();
      HashGoes(s, 4, 756508673, 1, 55, 54, 2955183, 836308226);
    }
    assert Fnv32(s[..6]) == 3014644705 by {
      Digit2Of7928();
      HashGoes(s, 5, 836308226, 2, 57, 59, 3266907, 3014644705);
    }
    assert Fnv32(s[..7]) == 2966058281 by {
      Digit3Of7928();
      HashGoes(s, 6, 3014644705, 225, 50, 211, 11776238, 2966058281);
    }
    assert Fnv32(s[..8]) == 1605781955 by {
      Digit4Of7928();
      HashGoes(s, 7, 2966058281, 41, 56, 17, 11586443, 1605781955);
    }
    assert s[..8] == s;
  }

  lemma FourDigits(n: nat, a: nat, b: nat, c: nat, d: nat)
    requires 0 < a < 10 && b < 10 && c < 10 && d < 10 && n == 1000 * a + 100 * b + 10 * c + d
    ensures MachineId("aws", n) == "aws-" + [DigitChar(a), DigitChar(b), DigitChar(c), DigitChar(d)]
  {
    DecimalGoesOn(a, a, 0);
    DecimalGoesOn(10 * a + b, b, a);
    DecimalGoesOn(100 * a + 10 * b + c, c, 10 * a + b);
    DecimalGoesOn(n, d, 100 * a + 10 * b + c);
    assert Zeros(0) == "";
  }

  lemma DecimalGoesOn(n: nat, d: nat, m: nat)
    requires d < 10 && n == 10 * m + d
    ensures Decimal(n) == if m == 0 then [DigitChar(d)] else Decimal(m) + [DigitChar(d)]
  {
    assert n / 10 == m && n % 10 == d;
  }

  lemma Text1272(n: nat, id: string)
    requires n == 1272 && id == MachineId("aws", n)
    ensures |id| == 8 && id[..4] == "aws-" && id[4] == '1' && id[5] == '2' && id[6] == '7' && id[7] == '2'
  {
    FourDigits(n, 1, 2, 7, 2);
  }

  lemma Bits1272(id: string, h: nat)
    requires Fnv32(id) == h && h == 1712638403
    ensures HashBits(id) == 2499
  {
    assert h % 8192 == 2499;
  }

  lemma Text7928(n: nat, id: string)
    requires n == 7928 && id == MachineId("aws", n)
    ensures |id| == 8 && id[..4] == "aws-" && id[4] == '7' && id[5] == '9' && id[6] == '2' && id[7] == '8'
  {
    FourDigits(n, 7, 9, 2, 8);
  }

  lemma Bits7928(id: string, h: nat)
    requires Fnv32(id) == h && h == 1605781955
    ensures HashBits(id) == 2499
  {
    assert h % 8192 == 2499;
  }

  lemma ClashOfTwo(n: nat, m: nat)
    requires n == 1272 && m == 7928
    ensures SameInName("aws", n, m)
  {
    var a, b := MachineId("aws", n), MachineId("aws", m);
    ClashOfIds(n, m, a, b);
    SameResidue(n, m);
    SameAws(n, m, a, b, HashBits(a), HashBits(b));
  }

  lemma SameResidue(n: nat, m: nat)
    requires n == 1272 && m == 7928
    ensures n % 256 == m % 256
  {}

  lemma SameAws(n: nat, m: nat, a: string, b: string, h: nat, g: nat)
    requires a == MachineId("aws", n) && b == MachineId("aws", m) && h == HashBits(a) && g == HashBits(b)
    requires n % 256 == m % 256 && h == g
    ensures SameInName("aws", n, m)
  {}

  lemma ClashOfIds(n: nat, m: nat, a: string, b: string)
    requires n == 1272 && m == 7928 && a == MachineId("aws", n) && b == MachineId("aws", m)
    ensures HashBits(a) == HashBits(b)
  {
    Text1272(n, a);
    Text7928(m, b);
    HashOf1272(a);
    HashOf7928(b);
    Bits1272(a, 1712638403);
    Bits7928(b, 1605781955);
  }

  /** aws-1272 and aws-7928 get one node name, so no fleet with both tells all its nodes apart. */
  lemma BigFleetsClash(o: Options)
    requires Countable(o) && Total(Subs(o)["aws"].tiers) > 7928
    ensures NodeNameOf(MachineAt(Subs(o)["aws"], 1272)) == NodeNameOf(MachineAt(Subs(o)["aws"], 7928)) && !NamesDiffer(o)
  {
    BigFleetsClashAt(o, 1272, 7928);
  }

  lemma BigFleetsClashAt(o: Options, n: nat, m: nat)
    requires Countable(o) && n == 1272 && m == 7928 && m < Total(Subs(o)["aws"].tiers)
    ensures NodeNameOf(MachineAt(Subs(o)["aws"], n)) == NodeNameOf(MachineAt(Subs(o)["aws"], m)) && !NamesDiffer(o)
  {
    var a, b := MachineAt(Subs(o)["aws"], n), MachineAt(Subs(o)["aws"], m);
    assert Numbered(Subs(o), a, "aws", n) && Numbered(Subs(o), b, "aws", m);
    ClashOfTwo(n, m);
    NodeNamesEqualExactlyWhen(o, a, "aws", n, b, "aws", m);
    TwoOfOneName(o, "aws", n, m);
  }

  /** No two of up to 256 AWS machines clash, so no such fleet has two nodes of one name. */
  lemma SmallFleetNamesDiffer(o: Options)
    requires NamesFit(o)
    ensures NamesDiffer(o)
  {
    forall a, b | InFleet(o, a) && InFleet(o, b) && NodeNameOf(a) == NodeNameOf(b) ensures a == b {
      NodeNamesInjective(o, a, b);
    }
  }

  /** The demo's own fleet is one. */
  lemma DefaultFleetNamesDiffer()
    ensures NamesDiffer(Options(0, 0, 0, 0, 0, 0))
  {
    DefaultFleetShape();
    SmallFleetNamesDiffer(Options(0, 0, 0, 0, 0, 0));
  }
}
