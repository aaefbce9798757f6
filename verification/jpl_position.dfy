/** `JPLEphemeris::getPlanetPosition`: the position of a body at a time, from the Chebyshev
    coefficients of the record and granule that cover the (clamped) time. */
module JplPosition {
  import opened Bytes
  import opened JplFormat

  /** The items of the ephemeris, in layout order, and the two synthesised bodies. */
  datatype Body =
    | Mercury | Venus | EarthMoonBary | Mars | Jupiter | Saturn | Uranus | Neptune | Pluto
    | Moon | Sun | Nutation
    | Earth | Ssb

  /** Where a stored item's layout sits in the header's table. */
  function ItemIndex(b: Body): (i: nat)
    requires b != Earth && b != Ssb
    ensures i < NItems
    ensures b == Nutation <==> i == NItems - 1
  {
    match b
    case Mercury => 0
    case Venus => 1
    case EarthMoonBary => 2
    case Mars => 3
    case Jupiter => 4
    case Saturn => 5
    case Uranus => 6
    case Neptune => 7
    case Pluto => 8
    case Moon => 9
    case Sun => 10
    case Nutation => 11
  }

  lemma ItemIndexInjective(a: Body, b: Body)
    requires a != Earth && a != Ssb && b != Earth && b != Ssb
    ensures ItemIndex(a) == ItemIndex(b) <==> a == b
  {
  }

  datatype Vec3 = Vec3(x: real, y: real, z: real)

  const Zero := Vec3(0.0, 0.0, 0.0)

  function Add(a: Vec3, b: Vec3): Vec3 { Vec3(a.x + b.x, a.y + b.y, a.z + b.z) }

  function Sub(a: Vec3, b: Vec3): Vec3 { Vec3(a.x - b.x, a.y - b.y, a.z - b.z) }

  function Scale(a: Vec3, k: real): Vec3 { Vec3(a.x * k, a.y * k, a.z * k) }

  /** The time moved into `[lo, hi]`: below `lo` it becomes `lo`, above `hi` it becomes `hi`. */
  function Clamp(t: real, lo: real, hi: real): (c: real)
    ensures lo <= hi ==> lo <= c <= hi
    ensures lo <= t <= hi ==> c == t
    ensures t < lo ==> c == lo
    ensures lo <= t && hi < t ==> c == hi
  {
    if t < lo then lo else if t > hi then hi else t
  }

  lemma ClampIdempotent(t: real, lo: real, hi: real)
    requires lo <= hi
    ensures Clamp(Clamp(t, lo, hi), lo, hi) == Clamp(t, lo, hi)
  {
  }

  /** A C cast of a real to an integer type: truncation toward zero. */
  function Trunc(q: real): (r: int)
    ensures 0.0 <= q ==> 0 <= r && r as real <= q < r as real + 1.0
    ensures q < 0.0 ==> r <= 0 && r as real - 1.0 < q <= r as real
  {
    if q >= 0.0 then q.Floor else -((-q).Floor)
  }

  /** The cast to `int` is defined: the truncated value lies in the 32-bit signed range. */
  predicate IntCastDefined(q: real)
  {
    -2147483649.0 < q < 2147483648.0
  }

  /** One step of the three-term recurrence `T(k) = 2 u T(k-1) - T(k-2)`. */
  function ChebNext(u: real, prev: real, prevPrev: real): real
  {
    2.0 * u * prev - prevPrev
  }

  /** Chebyshev polynomial of the first kind, by its three-term recurrence. */
  function T(k: nat, u: real): real
  {
    if k == 0 then 1.0
    else if k == 1 then u
    else ChebNext(u, T(k - 1, u), T(k - 2, u))
  }

  /** The first `k` terms of a Chebyshev series whose coefficients start at `c[s]`. */
  function ChebSum(c: seq<real>, s: nat, k: nat, u: real): real
    requires s + k <= |c|
  {
    if k == 0 then 0.0 else ChebSum(c, s, k - 1, u) + c[s + k - 1] * T(k - 1, u)
  }

  /** One step of the recurrence: the next polynomial from the previous two, and the sum
      one term longer. */
  lemma ChebSumStep(c: seq<real>, s: nat, j: nat, u: real, acc: real, prev: real, prevPrev: real)
    requires 2 <= j && s + j < |c| && acc == ChebSum(c, s, j, u)
    requires prev == T(j - 1, u) && prevPrev == T(j - 2, u)
    ensures ChebNext(u, prev, prevPrev) == T(j, u)
    ensures acc + c[s + j] * ChebNext(u, prev, prevPrev) == ChebSum(c, s, j + 1, u)
  {
  }

  lemma ChebSumFirstTwo(c: seq<real>, s: nat, u: real)
    requires s + 2 <= |c|
    ensures c[s] + c[s + 1] * u == ChebSum(c, s, 2, u)
  {
    assert ChebSum(c, s, 1, u) == c[s];
  }

  /** Terms the evaluator adds up for `n` stored coefficients: the first two always. */
  function Terms(n: nat): nat
  {
    if n < 2 then 2 else n
  }

  /** The loaded ephemeris can be queried: the interval length is positive, the span is not
      reversed, the record index cast is defined for every clamped time, a record exists
      and the layout table is complete. */
  predicate Queryable(eph: Ephemeris)
  {
    var hd := eph.header;
    hd.daysPerInterval > 0.0 && hd.startDate <= hd.endDate &&
    (hd.endDate - hd.startDate) / hd.daysPerInterval < Two32 as real &&
    |eph.records| > 0 && |hd.coeffInfo| == NItems
  }

  /** The record that covers the clamped time `tc`: the interval count since the start,
      the last record past the end. */
  function RecordIndex(eph: Ephemeris, tc: real): (recNo: nat)
    requires Queryable(eph)
    requires eph.header.startDate <= tc <= eph.header.endDate
    ensures recNo < |eph.records|
  {
    var hd := eph.header;
    var q := (tc - hd.startDate) / hd.daysPerInterval;
    if q.Floor >= |eph.records| then |eph.records| - 1 else q.Floor
  }

  /** The part of a record an item is evaluated from at a time. */
  datatype Window = Window(recNo: nat, granule: int, base: nat, u: real)

  /** The cases the evaluator's asserts admit for an item layout. */
  predicate LayoutAdmitted(info: CoeffInfo)
  {
    1 <= info.nGranules <= 32 && info.nCoeffs <= MaxChebyshevCoeffs
  }

  /** Days covered by one of the `nGranules` equal parts of an interval. */
  function GranuleLength(daysPerInterval: real, nGranules: nat): (len: real)
    requires daysPerInterval > 0.0 && nGranules >= 1
    ensures len > 0.0 && len * nGranules as real == daysPerInterval
  {
    daysPerInterval / nGranules as real
  }

  function GranuleQuotient(eph: Ephemeris, info: CoeffInfo, recNo: nat, tc: real): real
    requires Queryable(eph) && LayoutAdmitted(info) && recNo < |eph.records|
  {
    var daysPerGranule := GranuleLength(eph.header.daysPerInterval, info.nGranules);
    (tc - eph.records[recNo].t0) / daysPerGranule
  }

  /** Start of granule `g` of a record that starts at `t0`. */
  function GranuleStart(t0: real, len: real, g: int): real
  {
    t0 + len * g as real
  }

  /** The time `t` mapped onto `[-1, 1]` over the span of length `len` that starts at `start`. */
  function Normalized(t: real, start: real, len: real): real
    requires len != 0.0
  {
    2.0 * (t - start) / len - 1.0
  }

  /** Record, granule, first coefficient and normalised time for item `i` at clamped time
      `tc`. The granule's coefficient offset is formed in unsigned 32-bit arithmetic. */
  function Locate(eph: Ephemeris, i: nat, tc: real): (w: Window)
    requires Queryable(eph) && i < NItems && LayoutAdmitted(eph.header.coeffInfo[i])
    requires eph.header.startDate <= tc <= eph.header.endDate
    ensures w.recNo < |eph.records|
  {
    var hd := eph.header;
    var info := hd.coeffInfo[i];
    var recNo := RecordIndex(eph, tc);
    var rec := eph.records[recNo];
    var daysPerGranule := GranuleLength(hd.daysPerInterval, info.nGranules);
    var granule := Trunc(GranuleQuotient(eph, info, recNo, tc));
    var granuleStart := GranuleStart(rec.t0, daysPerGranule, granule);
    Window(
      recNo,
      granule,
      info.offset + (granule * info.nCoeffs * 3) % Two32,
      Normalized(tc, granuleStart, daysPerGranule))
  }

  /** Item `i` can be evaluated at `tjd`: its layout is one the asserts admit, the granule
      cast is defined, and all three components' coefficients lie inside the record. */
  predicate ItemDefined(eph: Ephemeris, i: nat, tjd: real)
  {
    Queryable(eph) && i < NItems && LayoutAdmitted(eph.header.coeffInfo[i]) &&
    var hd := eph.header;
    var info := hd.coeffInfo[i];
    var tc := Clamp(tjd, hd.startDate, hd.endDate);
    IntCastDefined(GranuleQuotient(eph, info, RecordIndex(eph, tc), tc)) &&
    var w := Locate(eph, i, tc);
    w.base + 2 * info.nCoeffs + Terms(info.nCoeffs) <= |eph.records[w.recNo].coeffs|
  }

  /** Every query the evaluator can answer without undefined behaviour. */
  predicate PositionDefined(eph: Ephemeris, b: Body, tjd: real)
  {
    match b
    case Ssb => true
    case Earth =>
      eph.header.earthMoonMassRatio + 1.0 != 0.0 &&
      ItemDefined(eph, ItemIndex(EarthMoonBary), tjd) && ItemDefined(eph, ItemIndex(Moon), tjd)
    case _ => ItemDefined(eph, ItemIndex(b), tjd)
  }

  /** The three Chebyshev series of an item, each `nCoeffs` apart, at the normalised time. */
  function ItemPosition(eph: Ephemeris, i: nat, tjd: real): Vec3
    requires ItemDefined(eph, i, tjd)
  {
    var hd := eph.header;
    var n := hd.coeffInfo[i].nCoeffs;
    var w := Locate(eph, i, Clamp(tjd, hd.startDate, hd.endDate));
    var c := eph.records[w.recNo].coeffs;
    Vec3(ChebSum(c, w.base, Terms(n), w.u), ChebSum(c, w.base + n, Terms(n), w.u), ChebSum(c, w.base + 2 * n, Terms(n), w.u))
  }

  /** What `getPlanetPosition` returns: the barycentre is the origin; the Earth is the
      Earth-Moon barycentre less the Moon's geocentric position scaled by the Moon's share of
      their mass; every other body is evaluated from its own coefficients. */
  function Position(eph: Ephemeris, b: Body, tjd: real): Vec3
    requires PositionDefined(eph, b, tjd)
    decreases b == Earth
  {
    match b
    case Ssb => Zero
    case Earth =>
      Sub(Position(eph, EarthMoonBary, tjd), Scale(Position(eph, Moon, tjd), 1.0 / (eph.header.earthMoonMassRatio + 1.0)))
    case _ => ItemPosition(eph, ItemIndex(b), tjd)
  }

  /** One component's series: the table `cc` of Chebyshev values is filled as the terms are
      added, the first two terms always. */
  method Series(c: seq<real>, s: nat, n: nat, u: real, cc: array<real>) returns (sum: real)
    requires n <= cc.Length && 2 <= cc.Length && s + Terms(n) <= |c|
    modifies cc
    ensures sum == ChebSum(c, s, Terms(n), u)
  {
    cc[0] := 1.0;
    cc[1] := u;
    ChebSumFirstTwo(c, s, u);
    sum := c[s] + c[s + 1] * u;
    var j := 2;
    while j < n
      invariant 2 <= j <= Terms(n)
      invariant cc[j - 2] == T(j - 2, u) && cc[j - 1] == T(j - 1, u)
      invariant sum == ChebSum(c, s, j, u)
    {
      var t := ChebNext(u, cc[j - 1], cc[j - 2]);
      ChebSumStep(c, s, j, u, sum, cc[j - 1], cc[j - 2]);
      cc[j] := t;
      sum := sum + c[s + j] * t;
      j := j + 1;
    }
  }

  /** The three series of a coefficient window, each `n` coefficients after the previous
      one, sharing one scratch table of Chebyshev values. */
  method Evaluate(c: seq<real>, base: nat, n: nat, u: real) returns (v: Vec3)
    requires n <= MaxChebyshevCoeffs && base + 2 * n + Terms(n) <= |c|
    ensures v == Vec3(ChebSum(c, base, Terms(n), u), ChebSum(c, base + n, Terms(n), u), ChebSum(c, base + 2 * n, Terms(n), u))
  {
    var sum := new real[3];
    var cc := new real[MaxChebyshevCoeffs];
    var s := base;
    for i := 0 to 3
      invariant s == (if i == 0 then base else if i == 1 then base + n else if i == 2 then base + 2 * n else base + 3 * n)
      invariant i > 0 ==> sum[0] == ChebSum(c, base, Terms(n), u)
      invariant i > 1 ==> sum[1] == ChebSum(c, base + n, Terms(n), u)
      invariant i > 2 ==> sum[2] == ChebSum(c, base + 2 * n, Terms(n), u)
    {
      sum[i] := Series(c, s, n, u, cc);
      s := s + n;
    }
    v := Vec3(sum[0], sum[1], sum[2]);
  }

  /** The part of `getPlanetPosition` for a stored item: clamp the time, pick the record
      and the granule, then evaluate the three series. */
  method EvaluateItem(eph: Ephemeris, i: nat, tjd: real) returns (pos: Vec3)
    requires ItemDefined(eph, i, tjd)
    ensures pos == ItemPosition(eph, i, tjd)
  {
    var hd := eph.header;
    var t := tjd;
    if t < hd.startDate {
      t := hd.startDate;
    } else if t > hd.endDate {
      t := hd.endDate;
    }
    var recNo := ((t - hd.startDate) / hd.daysPerInterval).Floor;
    if recNo >= |eph.records| {
      recNo := |eph.records| - 1;
    }
    var rec := eph.records[recNo];
    var info := hd.coeffInfo[i];
    var daysPerGranule := GranuleLength(hd.daysPerInterval, info.nGranules);
    var granule := Trunc((t - rec.t0) / daysPerGranule);
    var granuleStart := GranuleStart(rec.t0, daysPerGranule, granule);
    var base := info.offset + (granule * info.nCoeffs * 3) % Two32;
    var u := Normalized(t, granuleStart, daysPerGranule);
    assert t == Clamp(tjd, hd.startDate, hd.endDate);
    assert recNo == RecordIndex(eph, t);
    ghost var w := Locate(eph, i, t);
    assert w.recNo == recNo && w.granule == granule;
    assert w.base == base;
    assert w.u == u;
    pos := Evaluate(rec.coeffs, base, info.nCoeffs, u);
  }

  /** `getPlanetPosition`. */
  method GetPlanetPosition(eph: Ephemeris, b: Body, tjd: real) returns (pos: Vec3)
    requires PositionDefined(eph, b, tjd)
    ensures pos == Position(eph, b, tjd)
    decreases b == Earth
  {
    if b == Ssb {
      return Zero;
    }
    if b == Earth {
      var embPos := GetPlanetPosition(eph, EarthMoonBary, tjd);
      var moonPos := GetPlanetPosition(eph, Moon, tjd);
      return Sub(embPos, Scale(moonPos, 1.0 / (eph.header.earthMoonMassRatio + 1.0)));
    }
    pos := EvaluateItem(eph, ItemIndex(b), tjd);
  }

  // Properties of the query.

  /** The Earth and the Moon balance about their barycentre: the Earth's position weighted by
      the Earth/Moon mass ratio, plus the Moon's barycentric position (the Earth plus the
      geocentric Moon), is the barycentre weighted by the total. */
  lemma EarthMoonBalance(eph: Ephemeris, tjd: real)
    requires PositionDefined(eph, Earth, tjd)
    ensures var r := eph.header.earthMoonMassRatio;
      var e := Position(eph, Earth, tjd);
      Add(Scale(e, r), Add(e, Position(eph, Moon, tjd))) == Scale(Position(eph, EarthMoonBary, tjd), r + 1.0)
  {
    BalanceAbout(Position(eph, EarthMoonBary, tjd), Position(eph, Moon, tjd), eph.header.earthMoonMassRatio);
  }

  /** `e = b - m / (r + 1)` is the point that, with mass ratio `r`, balances `e + m` about `b`. */
  lemma BalanceAbout(b: Vec3, m: Vec3, r: real)
    requires r + 1.0 != 0.0
    ensures var e := Sub(b, Scale(m, 1.0 / (r + 1.0)));
      Add(Scale(e, r), Add(e, m)) == Scale(b, r + 1.0)
  {
    var k := 1.0 / (r + 1.0);
    Reciprocal(r + 1.0);
    Balance(r, k, b.x, m.x);
    Balance(r, k, b.y, m.y);
    Balance(r, k, b.z, m.z);
  }

  lemma Reciprocal(x: real)
    requires x != 0.0
    ensures (1.0 / x) * x == 1.0
  {
  }

  lemma Balance(r: real, k: real, b: real, m: real)
    requires k * (r + 1.0) == 1.0
    ensures (b - m * k) * r + ((b - m * k) + m) == b * (r + 1.0)
  {
    calc {
      (b - m * k) * r + ((b - m * k) + m);
      (b - m * k) * (r + 1.0) + m;
      b * (r + 1.0) - m * (k * (r + 1.0)) + m;
    }
  }

  /** A query outside the span is answered as at the nearer end: clamping first changes
      nothing, for every body. */
  lemma ClampedQuery(eph: Ephemeris, b: Body, tjd: real)
    requires PositionDefined(eph, b, tjd) && b != Ssb
    ensures var hd := eph.header;
      PositionDefined(eph, b, Clamp(tjd, hd.startDate, hd.endDate)) &&
      Position(eph, b, Clamp(tjd, hd.startDate, hd.endDate)) == Position(eph, b, tjd)
  {
    if b == Earth {
      ClampedItem(eph, ItemIndex(EarthMoonBary), tjd);
      ClampedItem(eph, ItemIndex(Moon), tjd);
    } else {
      ClampedItem(eph, ItemIndex(b), tjd);
    }
  }

  lemma ClampedItem(eph: Ephemeris, i: nat, tjd: real)
    requires ItemDefined(eph, i, tjd)
    ensures var hd := eph.header;
      ItemDefined(eph, i, Clamp(tjd, hd.startDate, hd.endDate)) &&
      ItemPosition(eph, i, Clamp(tjd, hd.startDate, hd.endDate)) == ItemPosition(eph, i, tjd)
  {
    ClampIdempotent(tjd, eph.header.startDate, eph.header.endDate);
  }

  /** Plain and alternating coefficient sums. */
  function Sum(c: seq<real>, s: nat, k: nat): real
    requires s + k <= |c|
  {
    if k == 0 then 0.0 else Sum(c, s, k - 1) + c[s + k - 1]
  }

  function Sign(j: nat): real
  {
    if j % 2 == 0 then 1.0 else -1.0
  }

  function AlternatingSum(c: seq<real>, s: nat, k: nat): real
    requires s + k <= |c|
  {
    if k == 0 then 0.0 else AlternatingSum(c, s, k - 1) + c[s + k - 1] * Sign(k - 1)
  }

  lemma {:induction false} TAtOne(k: nat)
    ensures T(k, 1.0) == 1.0
  {
    if k >= 2 {
      TAtOne(k - 1);
      TAtOne(k - 2);
    }
  }

  lemma {:induction false} TAtMinusOne(k: nat)
    ensures T(k, -1.0) == Sign(k)
  {
    if k >= 2 {
      TAtMinusOne(k - 1);
      TAtMinusOne(k - 2);
    }
  }

  /** At the end of a granule (`u = 1`) a series is the plain sum of its coefficients. */
  lemma {:induction false} SeriesAtOne(c: seq<real>, s: nat, k: nat)
    requires s + k <= |c|
    ensures ChebSum(c, s, k, 1.0) == Sum(c, s, k)
  {
    if k > 0 {
      SeriesAtOne(c, s, k - 1);
      TAtOne(k - 1);
      assert ChebSum(c, s, k, 1.0) == ChebSum(c, s, k - 1, 1.0) + c[s + k - 1] * T(k - 1, 1.0);
    }
  }

  /** At the start of a granule (`u = -1`) a series is the alternating sum. */
  lemma {:induction false} SeriesAtMinusOne(c: seq<real>, s: nat, k: nat)
    requires s + k <= |c|
    ensures ChebSum(c, s, k, -1.0) == AlternatingSum(c, s, k)
  {
    if k > 0 {
      SeriesAtMinusOne(c, s, k - 1);
      TAtMinusOne(k - 1);
      assert ChebSum(c, s, k, -1.0) == ChebSum(c, s, k - 1, -1.0) + c[s + k - 1] * T(k - 1, -1.0);
    }
  }

  /** `u` measures the time's place inside its granule: twice the fraction past the granule
      start, less one. */
  lemma NormalizedOffset(tc: real, t0: real, len: real, g: int)
    requires len > 0.0
    ensures Normalized(tc, GranuleStart(t0, len, g), len) == 2.0 * ((tc - t0) / len - g as real) - 1.0
  {
    var q := (tc - t0) / len;
    assert tc - t0 == q * len;
    var a := q - g as real;
    assert tc - GranuleStart(t0, len, g) == a * len;
    assert 2.0 * (a * len) == (2.0 * a) * len;
    assert (2.0 * a) * len / len == 2.0 * a;
  }

  lemma QuotientBelow(d: real, len: real, n: nat)
    requires len > 0.0
    ensures d < len * n as real <==> d / len < n as real
    ensures d == len * n as real ==> d / len == n as real
  {
    var q := d / len;
    assert d == q * len;
    if q < n as real {
      assert q * len < n as real * len;
    }
    if n as real <= q {
      assert n as real * len <= q * len;
    }
  }

  /** Granule choice inside a record: from the record's start time on, the granule index is
      not negative and `u` lies in `[-1, 1)`; before the record's end the granule is one of
      the item's `nGranules`; exactly at the record's end it is `nGranules` itself, one past
      the item's last granule, with `u = -1`. */
  lemma GranuleChoice(eph: Ephemeris, i: nat, tc: real)
    requires Queryable(eph) && i < NItems && LayoutAdmitted(eph.header.coeffInfo[i])
    requires eph.header.startDate <= tc <= eph.header.endDate
    ensures var w := Locate(eph, i, tc);
      var t0 := eph.records[w.recNo].t0;
      var dpi := eph.header.daysPerInterval;
      var ng := eph.header.coeffInfo[i].nGranules;
      (t0 <= tc ==> 0 <= w.granule && -1.0 <= w.u < 1.0) &&
      (t0 <= tc < t0 + dpi ==> w.granule < ng) &&
      (tc == t0 + dpi ==> w.granule == ng && w.u == -1.0)
  {
    var w := Locate(eph, i, tc);
    var t0 := eph.records[w.recNo].t0;
    var info := eph.header.coeffInfo[i];
    var len := GranuleLength(eph.header.daysPerInterval, info.nGranules);
    var q := GranuleQuotient(eph, info, w.recNo, tc);
    assert q == (tc - t0) / len;
    NormalizedOffset(tc, t0, len, w.granule);
    QuotientBelow(tc - t0, len, info.nGranules);
    if t0 <= tc {
      assert 0.0 <= q by {
        assert 0.0 <= tc - t0;
      }
    }
  }

  /** The records tile the span: record `k` starts `k` intervals after the start date. */
  predicate Tiled(eph: Ephemeris)
  {
    forall k :: 0 <= k < |eph.records| ==>
      eph.records[k].t0 == eph.header.startDate + k as real * eph.header.daysPerInterval
  }

  /** In a tiled ephemeris the chosen record starts no later than the (clamped) time. */
  lemma RecordChoice(eph: Ephemeris, tc: real)
    requires Queryable(eph) && Tiled(eph)
    requires eph.header.startDate <= tc <= eph.header.endDate
    ensures eph.records[RecordIndex(eph, tc)].t0 <= tc
  {
    var hd := eph.header;
    var dpi := hd.daysPerInterval;
    var r := RecordIndex(eph, tc);
    var t0 := eph.records[r].t0;
    assert t0 == hd.startDate + r as real * dpi;
    ScaledBack(r as real, dpi, 0.0);
    DivMonotone(t0 - hd.startDate, tc - hd.startDate, dpi);
  }

  /** In a tiled ephemeris every query of a stored item is evaluated inside the polynomials'
      domain: a granule index that is not negative and `u` in `[-1, 1)`. */
  lemma TiledQueryInDomain(eph: Ephemeris, i: nat, tjd: real)
    requires Queryable(eph) && Tiled(eph) && i < NItems && LayoutAdmitted(eph.header.coeffInfo[i])
    ensures var w := Locate(eph, i, Clamp(tjd, eph.header.startDate, eph.header.endDate));
      0 <= w.granule && -1.0 <= w.u < 1.0
  {
    var tc := Clamp(tjd, eph.header.startDate, eph.header.endDate);
    RecordChoice(eph, tc);
    GranuleChoice(eph, i, tc);
  }

  lemma ScaledBack(k: real, d: real, e: real)
    requires d > 0.0
    ensures (k * d + e) / d == k + e / d
  {
    assert k * d + e == (k + e / d) * d;
  }

  /** Division by a positive number keeps the order, in both directions. */
  lemma DivMonotone(a: real, b: real, d: real)
    requires d > 0.0
    ensures a <= b <==> a / d <= b / d
    ensures a < b <==> a / d < b / d
  {
    var x, y := a / d, b / d;
    assert a == x * d && b == y * d;
    if x <= y {
      assert x * d <= y * d;
    }
    if x < y {
      assert x * d < y * d;
    }
  }
}
