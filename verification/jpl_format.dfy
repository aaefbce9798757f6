/** The JPL DE / INPOP binary ephemeris format: the packed header, the choice of file family
    and byte order, the record size, and what a complete load produces from a byte stream. */
module JplFormat {
  import opened Bytes
  import opened Wrappers

  const LabelSize := 84
  const NConstants := 400
  const ConstantNameLength := 6
  const MaxChebyshevCoeffs := 32
  const InpopDeCompatible := 100
  const DE200 := 200
  /** `1u << 15`: the largest series id accepted in host byte order. */
  const MaxNativeDeNum := 32768

  /** Items with a coefficient triple in the header; the last one is nutation. */
  const NItems := 12

  // Byte offsets of the fields of the packed header.
  const StartDatePos := 3 * LabelSize + NConstants * ConstantNameLength
  const EndDatePos := StartDatePos + 8
  const DaysPerIntervalPos := EndDatePos + 8
  const NConstantsPos := DaysPerIntervalPos + 8
  const AuPos := NConstantsPos + 4
  const EarthMoonMassRatioPos := AuPos + 8
  const CoeffInfoPos := EarthMoonMassRatioPos + 8
  const DeNumPos := CoeffInfoPos + 12 * NItems
  const LibrationPos := DeNumPos + 4
  /** `sizeof(JPLEFileHeader)`: 2856 bytes. */
  const HeaderSize := LibrationPos + 12

  /** How the host turns eight bytes, in its own order, into a double. */
  type Decoder = seq<Byte> -> real

  /** Where one item's coefficients sit in a record and how they are cut into granules. */
  datatype CoeffInfo = CoeffInfo(offset: U32, nCoeffs: U32, nGranules: U32)

  datatype Format = Inpop | De

  datatype Detection = Detected(format: Format, swap: bool, deNum: U32) | Unrecognized

  /** The decoded header fields the ephemeris keeps. */
  datatype Header = Header(
    swapBytes: bool,
    deNum: U32,
    startDate: real,
    endDate: real,
    daysPerInterval: real,
    au: real,
    earthMoonMassRatio: real,
    coeffInfo: seq<CoeffInfo>,
    librationCoeffInfo: CoeffInfo)

  /** One interval: its start and end time and `recordSize - 2` coefficients. */
  datatype Record = Record(t0: real, t1: real, coeffs: seq<real>)

  datatype Ephemeris = Ephemeris(header: Header, recordSize: U32, records: seq<Record>)

  /** Picks the file family and byte order from the series id as stored: 100 as it stands
      or swapped is INPOP; otherwise a DE id is taken swapped when the stored value exceeds
      2^15 and its swap is at least 200, and as it stands when it lies in [200, 2^15]. */
  function Detect(asIs: U32): Detection
  {
    var swapped := Bswap32(asIs);
    if asIs == InpopDeCompatible then Detected(Inpop, false, asIs)
    else if swapped == InpopDeCompatible then Detected(Inpop, true, swapped)
    else if asIs > MaxNativeDeNum && swapped >= DE200 then Detected(De, true, swapped)
    else if asIs <= MaxNativeDeNum && asIs >= DE200 then Detected(De, false, asIs)
    else Unrecognized
  }

  /** The decoded id is the stored one read in the chosen byte order; an INPOP file carries
      exactly 100, a DE file at least 200; a DE id is swapped exactly when the stored value
      exceeds 2^15; and nothing else is recognised. */
  lemma DetectChoice(asIs: U32)
    ensures var r := Detect(asIs);
      && (r.Detected? ==> r.deNum == (if r.swap then Bswap32(asIs) else asIs))
      && (r.Detected? ==> (r.format == Inpop <==> r.deNum == InpopDeCompatible))
      && (r.Detected? && r.format == De ==> r.deNum >= DE200)
      && (r.Detected? && r.format == De ==> (r.swap <==> asIs > MaxNativeDeNum))
      && (r.Unrecognized? <==>
            asIs != InpopDeCompatible && Bswap32(asIs) != InpopDeCompatible &&
            !(asIs > MaxNativeDeNum && Bswap32(asIs) >= DE200) &&
            !(DE200 <= asIs <= MaxNativeDeNum))
  {
  }

  /** A file written on a host of the other byte order is recognised as the same family,
      with the same series id, and read with swapping. */
  lemma DetectSwapped(v: U32, f: Format)
    requires Detect(v) == Detected(f, false, v)
    ensures Detect(Bswap32(v)) == Detected(f, true, v)
  {
    Bswap32Involutive(v);
    if f == De {
      Bswap32OfSmall(v);
    }
  }

  /** `readUint` / `MAYBE_SWAP_UINT32` at byte `p`. */
  function UintAt(d: seq<Byte>, p: nat, swap: bool): U32
    requires p + 4 <= |d|
  {
    if swap then Bswap32(LE32(d[p..p + 4])) else LE32(d[p..p + 4])
  }

  /** `readDouble` / `MAYBE_SWAP_DOUBLE` at byte `p`. */
  function DoubleAt(d: seq<Byte>, p: nat, swap: bool, native: Decoder): real
    requires p + 8 <= |d|
  {
    native(if swap then Reverse(d[p..p + 8]) else d[p..p + 8])
  }

  /** Reading a word with swapping is reading the reversed chunk. */
  lemma UintAtSwapped(d: seq<Byte>, p: nat)
    requires p + 4 <= |d|
    ensures UintAt(d, p, true) == LE32(Reverse(d[p..p + 4]))
    ensures UintAt(d, p, false) == LE32(d[p..p + 4])
  {
    Bswap32OfChunk(d[p..p + 4]);
  }

  function TripleAt(h: seq<Byte>, p: nat, swap: bool): CoeffInfo
    requires p + 12 <= |h|
  {
    CoeffInfo(UintAt(h, p, swap), UintAt(h, p + 4, swap), UintAt(h, p + 8, swap))
  }

  /** The layout of item `i` as the ephemeris keeps it: the stored offset counts the two
      time slots and is one-based, so 3 is taken off, in 32-bit unsigned arithmetic. */
  function ItemInfo(h: seq<Byte>, i: nat, swap: bool): CoeffInfo
    requires |h| == HeaderSize && i < NItems
  {
    var t := TripleAt(h, CoeffInfoPos + 12 * i, swap);
    t.(offset := SubU32(t.offset, 3))
  }

  /** The layouts of all twelve items. */
  function ItemInfos(h: seq<Byte>, swap: bool): (r: seq<CoeffInfo>)
    requires |h| == HeaderSize
    ensures |r| == NItems
  {
    seq(NItems, i requires 0 <= i < NItems => ItemInfo(h, i, swap))
  }

  /** The header, or nothing when the series id is not recognised. Every multi-byte field is
      read with the one byte order chosen from the id. */
  function DecodeHeader(h: seq<Byte>, native: Decoder): (r: Option<Header>)
    requires |h| == HeaderSize
    ensures r.Some? ==> r.value.deNum == InpopDeCompatible || r.value.deNum >= DE200
  {
    DetectChoice(LE32(h[DeNumPos..DeNumPos + 4]));
    match Detect(LE32(h[DeNumPos..DeNumPos + 4]))
    case Unrecognized => None
    case Detected(_, swap, deNum) =>
      Some(Header(
        swap,
        deNum,
        DoubleAt(h, StartDatePos, swap, native),
        DoubleAt(h, EndDatePos, swap, native),
        DoubleAt(h, DaysPerIntervalPos, swap, native),
        DoubleAt(h, AuPos, swap, native),
        DoubleAt(h, EarthMoonMassRatioPos, swap, native),
        ItemInfos(h, swap),
        TripleAt(h, LibrationPos, swap)))
  }

  /** Every field of a recognised header is read with the one byte order chosen from the
      series id; the item offsets are moved back by 3 and the libration offset is kept as
      stored. */
  lemma HeaderFields(h: seq<Byte>, native: Decoder, i: nat)
    requires |h| == HeaderSize && DecodeHeader(h, native).Some? && i < NItems
    ensures var hd := DecodeHeader(h, native).value;
      var swap := hd.swapBytes;
      && Detect(LE32(h[DeNumPos..DeNumPos + 4])).Detected?
      && Detect(LE32(h[DeNumPos..DeNumPos + 4])).swap == swap
      && Detect(LE32(h[DeNumPos..DeNumPos + 4])).deNum == hd.deNum
      && hd.startDate == DoubleAt(h, StartDatePos, swap, native)
      && hd.endDate == DoubleAt(h, EndDatePos, swap, native)
      && hd.daysPerInterval == DoubleAt(h, DaysPerIntervalPos, swap, native)
      && hd.au == DoubleAt(h, AuPos, swap, native)
      && hd.earthMoonMassRatio == DoubleAt(h, EarthMoonMassRatioPos, swap, native)
      && hd.coeffInfo[i].offset == SubU32(UintAt(h, CoeffInfoPos + 12 * i, swap), 3)
      && hd.coeffInfo[i].nCoeffs == UintAt(h, CoeffInfoPos + 12 * i + 4, swap)
      && hd.coeffInfo[i].nGranules == UintAt(h, CoeffInfoPos + 12 * i + 8, swap)
      && hd.librationCoeffInfo == CoeffInfo(UintAt(h, LibrationPos, swap), UintAt(h, LibrationPos + 4, swap),
                                            UintAt(h, LibrationPos + 8, swap))
  {
    var det := Detect(LE32(h[DeNumPos..DeNumPos + 4]));
    assert det.Detected?;
    assert DecodeHeader(h, native).value.coeffInfo == ItemInfos(h, det.swap);
  }

  /** Components stored per granule for item `i`: nutation has two, the bodies three. */
  function Components(i: nat): nat
  {
    if i == NItems - 1 then 2 else 3
  }

  /** Coefficients the items `infos` take in a record, item `i` taking
      `nCoeffs * nGranules * Components(i)` (no wrap-around). */
  function ItemsSize(infos: seq<CoeffInfo>): nat
  {
    if infos == [] then 0
    else
      var last := infos[|infos| - 1];
      ItemsSize(infos[..|infos| - 1]) + last.nCoeffs * last.nGranules * Components(|infos| - 1)
  }

  /** One item's share of the record size as `load` adds it: the product of the counts
      and its scaling by the components, each in 32-bit unsigned arithmetic. */
  function WrappedTerm(info: CoeffInfo, components: U32): U32
  {
    MulU32(MulU32(info.nCoeffs, info.nGranules), components)
  }

  /** The items' running sum as `load` keeps it in an unsigned int. */
  function WrappedItemsSize(infos: seq<CoeffInfo>): U32
  {
    if infos == [] then 0
    else
      var last := infos[|infos| - 1];
      AddU32(WrappedItemsSize(infos[..|infos| - 1]), WrappedTerm(last, Components(|infos| - 1)))
  }

  /** Record size of a DE file, in doubles: the items, the libration (three components), and
      the two times, summed in 32-bit unsigned arithmetic. */
  function DeRecordSize(hd: Header): U32
    requires |hd.coeffInfo| == NItems
  {
    AddU32(AddU32(WrappedItemsSize(hd.coeffInfo), WrappedTerm(hd.librationCoeffInfo, 3)), 2)
  }

  lemma WrappedTermExact(info: CoeffInfo, components: U32)
    ensures WrappedTerm(info, components) == info.nCoeffs * info.nGranules * components % Two32
  {
    ModMulLeft(info.nCoeffs * info.nGranules, components);
  }

  lemma AddU32Exact(x: int, y: int, z: U32)
    ensures AddU32(AddU32(x % Two32, y % Two32), z) == (x + y + z) % Two32
  {
    ModAdd(x, y);
    ModAdd(x + y, z);
  }

  /** Reducing after every step is reducing the exact sum once. */
  lemma {:induction false} WrappedItemsSizeExact(infos: seq<CoeffInfo>)
    ensures WrappedItemsSize(infos) == ItemsSize(infos) % Two32
  {
    if infos != [] {
      var init, last := infos[..|infos| - 1], infos[|infos| - 1];
      var term := last.nCoeffs * last.nGranules * Components(|infos| - 1);
      WrappedItemsSizeExact(init);
      WrappedTermExact(last, Components(|infos| - 1));
      ModAdd(ItemsSize(init), term);
    }
  }

  /** The DE record size is the exact count of doubles in a record, reduced modulo 2^32. */
  lemma DeRecordSizeExact(hd: Header)
    requires |hd.coeffInfo| == NItems
    ensures var lib := hd.librationCoeffInfo;
      DeRecordSize(hd) == (ItemsSize(hd.coeffInfo) + lib.nCoeffs * lib.nGranules * 3 + 2) % Two32
  {
    var lib := hd.librationCoeffInfo;
    var items, libTerm := ItemsSize(hd.coeffInfo), lib.nCoeffs * lib.nGranules * 3;
    WrappedItemsSizeExact(hd.coeffInfo);
    WrappedTermExact(lib, 3);
    AddU32Exact(items, libTerm, 2);
  }

  /** `(unsigned int) ((endDate - startDate) / daysPerInterval)`, when that conversion is
      defined: the quotient truncated toward zero must fit an unsigned int. */
  function RecordCount(hd: Header): Option<nat>
  {
    if hd.daysPerInterval == 0.0 then None
    else
      var q := (hd.endDate - hd.startDate) / hd.daysPerInterval;
      if q <= -1.0 || q >= Two32 as real then None
      else if q < 0.0 then Some(0)
      else Some(q.Floor)
  }

  function Max0(x: int): nat
  {
    if x < 0 then 0 else x
  }

  /** `n` consecutive doubles from byte `p` on. */
  function DoublesAt(d: seq<Byte>, p: nat, n: nat, swap: bool, native: Decoder): (r: seq<real>)
    requires p + 8 * n <= |d|
    ensures |r| == n
  {
    seq(n, j requires 0 <= j < n => DoubleAt(d, p + 8 * j, swap, native))
  }

  /** The record at byte `p`: two times, then `n` coefficients, in stream order. */
  function RecordAt(d: seq<Byte>, p: nat, n: nat, swap: bool, native: Decoder): Record
    requires p + 16 + 8 * n <= |d|
  {
    Record(DoubleAt(d, p, swap, native), DoubleAt(d, p + 8, swap, native), DoublesAt(d, p + 16, n, swap, native))
  }

  /** Bytes of the header record the loader has consumed once the header, and for INPOP
      the record size word, are read. */
  function AfterHeader(hd: Header): nat
  {
    if hd.deNum == InpopDeCompatible then HeaderSize + 4 else HeaderSize
  }

  /** Where the first data record starts: the rest of the header record is skipped (a
      negative count skips nothing), then the whole constants record. */
  function DataStart(hd: Header, recordSize: U32): nat
  {
    var recordBytes := RecordBytes(recordSize);
    AfterHeader(hd) + Max0(recordBytes - AfterHeader(hd)) + recordBytes
  }

  /** A record's length in bytes, in unsigned 32-bit arithmetic. */
  function RecordBytes(recordSize: U32): U32
  {
    MulU32(recordSize, 8)
  }

  /** Doubles per record as the record loop reads them: two times and
      `recordSize - 2` coefficients in unsigned arithmetic. */
  function CoeffCount(recordSize: U32): U32
  {
    SubU32(recordSize, 2)
  }

  function Stride(recordSize: U32): nat
  {
    8 * (2 + CoeffCount(recordSize))
  }

  /** Record size in doubles: an INPOP file stores it right after the header, a DE file's
      is computed from the layouts. */
  function StoredRecordSize(d: seq<Byte>, hd: Header): U32
    requires |d| >= AfterHeader(hd) && |hd.coeffInfo| == NItems
  {
    if hd.deNum == InpopDeCompatible then UintAt(d, HeaderSize, hd.swapBytes) else DeRecordSize(hd)
  }

  /** What loading the bytes `d` yields: nothing when the header is short or unrecognised,
      when any skip or record runs past the end, or when the record count is not a defined
      conversion; otherwise every field and record. */
  function LoadSpec(d: seq<Byte>, native: Decoder): (r: Option<Ephemeris>)
    ensures r.Some? ==> |d| >= HeaderSize && DecodeHeader(d[..HeaderSize], native) == Some(r.value.header)
    ensures r.Some? ==> r.value.header.deNum == InpopDeCompatible || r.value.header.deNum >= DE200
    ensures r.Some? ==> |r.value.header.coeffInfo| == NItems
    ensures r.Some? ==> RecordCount(r.value.header) == Some(|r.value.records|)
    ensures r.Some? ==> forall i :: 0 <= i < |r.value.records| ==>
      |r.value.records[i].coeffs| == CoeffCount(r.value.recordSize)
    ensures r.Some? ==>
      |d| >= DataStart(r.value.header, r.value.recordSize) + |r.value.records| * Stride(r.value.recordSize)
  {
    if |d| < HeaderSize then None
    else
      match DecodeHeader(d[..HeaderSize], native)
      case None => None
      case Some(hd) =>
        if |d| < AfterHeader(hd) then None
        else
          var recordSize := StoredRecordSize(d, hd);
          var start := DataStart(hd, recordSize);
          if |d| < start then None
          else
            match RecordCount(hd)
            case None => None
            case Some(n) =>
              var m: nat := CoeffCount(recordSize);
              if |d| < start + n * (8 * (2 + m)) then None
              else
                Some(Ephemeris(hd, recordSize, RecordsAt(d, start, n, m, hd.swapBytes, native)))
  }

  lemma RecordInBounds(start: nat, i: nat, n: nat, stride: nat)
    requires i < n
    ensures start + i * stride + stride <= start + n * stride
  {
    assert (i + 1) * stride <= n * stride;
  }

  /** `n` consecutive records of `2 + m` doubles each from byte `start` on. */
  function RecordsAt(d: seq<Byte>, start: nat, n: nat, m: nat, swap: bool, native: Decoder): (rs: seq<Record>)
    requires start + n * (8 * (2 + m)) <= |d|
    ensures |rs| == n && forall i :: 0 <= i < n ==> |rs[i].coeffs| == m
  {
    seq(n, i requires 0 <= i < n =>
      RecordInBounds(start, i, n, 8 * (2 + m));
      RecordAt(d, start + i * (8 * (2 + m)), m, swap, native))
  }

  // Properties of a load.

  /** The record size a load keeps: the stored word for INPOP, the computed sum for DE. */
  lemma LoadedRecordSize(d: seq<Byte>, native: Decoder)
    requires LoadSpec(d, native).Some?
    ensures var e := LoadSpec(d, native).value;
      |d| >= AfterHeader(e.header) &&
      (e.header.deNum == InpopDeCompatible ==> e.recordSize == UintAt(d, HeaderSize, e.header.swapBytes)) &&
      (e.header.deNum != InpopDeCompatible ==> e.recordSize == DeRecordSize(e.header))
  {
  }

  /** Record `k` of a load is the `k`-th run of `2 + (recordSize - 2)` doubles after the
      skipped header and constants records. */
  lemma LoadedRecord(d: seq<Byte>, native: Decoder, e: Ephemeris, k: nat)
    requires LoadSpec(d, native) == Some(e) && k < |e.records|
    ensures RecordOffset(e, k) + Stride(e.recordSize) <= |d|
    ensures e.records[k] == RecordAt(d, RecordOffset(e, k), CoeffCount(e.recordSize), e.header.swapBytes, native)
  {
    var start, n := DataStart(e.header, e.recordSize), |e.records|;
    var m: nat := CoeffCount(e.recordSize);
    LoadedRecords(d, native, e);
    assert Stride(e.recordSize) == 8 * (2 + m);
    RecordInBounds(start, k, n, 8 * (2 + m));
    assert e.records[k] == RecordsAt(d, start, n, m, e.header.swapBytes, native)[k];
  }

  /** The records of a load are the runs of doubles that follow the skipped records. */
  lemma LoadedRecords(d: seq<Byte>, native: Decoder, e: Ephemeris)
    requires LoadSpec(d, native) == Some(e)
    ensures DataStart(e.header, e.recordSize) + |e.records| * Stride(e.recordSize) <= |d|
    ensures e.records == RecordsAt(d, DataStart(e.header, e.recordSize), |e.records|, CoeffCount(e.recordSize),
                                   e.header.swapBytes, native)
  {
  }

  /** Where record `k` of `e` starts in the file. */
  function RecordOffset(e: Ephemeris, k: nat): nat
  {
    DataStart(e.header, e.recordSize) + k * Stride(e.recordSize)
  }

  lemma UintAtPrefix(d: seq<Byte>, k: nat, p: nat, swap: bool)
    requires p + 4 <= k <= |d|
    ensures UintAt(d[..k], p, swap) == UintAt(d, p, swap)
  {
    assert d[..k][p..p + 4] == d[p..p + 4];
  }

  lemma DoubleAtAppend(d: seq<Byte>, extra: seq<Byte>, p: nat, swap: bool, native: Decoder)
    requires p + 8 <= |d|
    ensures DoubleAt(d + extra, p, swap, native) == DoubleAt(d, p, swap, native)
  {
    assert (d + extra)[p..p + 8] == d[p..p + 8];
  }

  lemma RecordAtAppend(d: seq<Byte>, extra: seq<Byte>, p: nat, m: nat, swap: bool, native: Decoder)
    requires p + 16 + 8 * m <= |d|
    ensures RecordAt(d + extra, p, m, swap, native) == RecordAt(d, p, m, swap, native)
  {
    DoubleAtAppend(d, extra, p, swap, native);
    DoubleAtAppend(d, extra, p + 8, swap, native);
    var longer, shorter := DoublesAt(d + extra, p + 16, m, swap, native), DoublesAt(d, p + 16, m, swap, native);
    forall j | 0 <= j < m
      ensures longer[j] == shorter[j]
    {
      DoubleAtAppend(d, extra, p + 16 + 8 * j, swap, native);
    }
    assert longer == shorter;
  }

  lemma RecordsAtAppend(d: seq<Byte>, extra: seq<Byte>, start: nat, n: nat, m: nat, swap: bool, native: Decoder)
    requires start + n * (8 * (2 + m)) <= |d|
    ensures RecordsAt(d + extra, start, n, m, swap, native) == RecordsAt(d, start, n, m, swap, native)
  {
    var stride := 8 * (2 + m);
    var longer, shorter := RecordsAt(d + extra, start, n, m, swap, native), RecordsAt(d, start, n, m, swap, native);
    forall i | 0 <= i < n
      ensures longer[i] == shorter[i]
    {
      RecordInBounds(start, i, n, stride);
      RecordAtAppend(d, extra, start + i * stride, m, swap, native);
    }
    assert longer == shorter;
  }

  /** All or nothing: a stream cut anywhere before the end of the last record loads nothing. */
  lemma TruncatedLoadFails(d: seq<Byte>, native: Decoder, k: nat)
    requires LoadSpec(d, native).Some?
    requires var e := LoadSpec(d, native).value;
      k < DataStart(e.header, e.recordSize) + |e.records| * Stride(e.recordSize)
    ensures LoadSpec(d[..k], native) == None
  {
    var e := LoadSpec(d, native).value;
    var cut := d[..k];
    if k >= HeaderSize {
      assert cut[..HeaderSize] == d[..HeaderSize];
      if k >= AfterHeader(e.header) && e.header.deNum == InpopDeCompatible {
        UintAtPrefix(d, k, HeaderSize, e.header.swapBytes);
      }
    }
  }

  /** Bytes after the last record are never read: appending them changes nothing. */
  lemma TrailingBytesIgnored(d: seq<Byte>, extra: seq<Byte>, native: Decoder)
    requires LoadSpec(d, native).Some?
    ensures LoadSpec(d + extra, native) == LoadSpec(d, native)
  {
    var e := LoadSpec(d, native).value;
    var hd := e.header;
    assert (d + extra)[..HeaderSize] == d[..HeaderSize];
    if hd.deNum == InpopDeCompatible {
      assert (d + extra)[HeaderSize..HeaderSize + 4] == d[HeaderSize..HeaderSize + 4];
    }
    var m: nat := CoeffCount(e.recordSize);
    assert Stride(e.recordSize) == 8 * (2 + m);
    RecordsAtAppend(d, extra, DataStart(hd, e.recordSize), |e.records|, m, hd.swapBytes, native);
  }
}
