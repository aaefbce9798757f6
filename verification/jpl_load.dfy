/** `JPLEphemeris::load` and its stream helpers, step by step over an input stream; each
    step is proved to agree with the declarative reading in `JplFormat`. */
module JplLoad {
  import opened Bytes
  import opened Wrappers
  import opened InputStreams
  import opened JplFormat

  lemma UintAtShift(d: seq<Byte>, p: nat, q: nat, swap: bool)
    requires p + q + 4 <= |d|
    ensures UintAt(d[p..], q, swap) == UintAt(d, p + q, swap)
  {
    assert d[p..][q..q + 4] == d[p + q..p + q + 4];
  }

  lemma DoubleAtShift(d: seq<Byte>, p: nat, q: nat, swap: bool, native: Decoder)
    requires p + q + 8 <= |d|
    ensures DoubleAt(d[p..], q, swap, native) == DoubleAt(d, p + q, swap, native)
  {
    assert d[p..][q..q + 8] == d[p + q..p + q + 8];
  }

  /** `readUint`: the next word, byte-swapped when `swap` is set. */
  method ReadUint(stream: InputStream, swap: bool) returns (r: U32)
    requires stream.Valid()
    modifies stream
    ensures stream.Valid()
    ensures stream.good == (old(stream.good) && 4 <= |old(stream.Remaining())|)
    ensures stream.good ==> r == UintAt(old(stream.Remaining()), 0, swap)
    ensures stream.good ==> stream.Remaining() == old(stream.Remaining())[4..]
  {
    var chunk := stream.Read(4);
    r := if swap then Bswap32(LE32(chunk)) else LE32(chunk);
  }

  /** `readDouble`: the next double, its bytes reversed first when `swap` is set. */
  method ReadDouble(stream: InputStream, swap: bool, native: Decoder) returns (r: real)
    requires stream.Valid()
    modifies stream
    ensures stream.Valid()
    ensures stream.good == (old(stream.good) && 8 <= |old(stream.Remaining())|)
    ensures stream.good ==> r == DoubleAt(old(stream.Remaining()), 0, swap, native)
    ensures stream.good ==> stream.Remaining() == old(stream.Remaining())[8..]
  {
    var chunk := stream.Read(8);
    r := native(if swap then Reverse(chunk) else chunk);
  }

  /** The coefficient layouts of the twelve items, with the stored offsets moved back by 3,
      and the running record size they add up to in unsigned 32-bit arithmetic. */
  method ReadLayouts(h: seq<Byte>, swap: bool) returns (infos: seq<CoeffInfo>, size: U32)
    requires |h| == HeaderSize
    ensures infos == ItemInfos(h, swap)
    ensures size == WrappedItemsSize(infos)
  {
    infos, size := [], 0;
    var i := 0;
    while i < NItems
      invariant 0 <= i <= NItems
      invariant infos == ItemInfos(h, swap)[..i]
      invariant size == WrappedItemsSize(infos)
    {
      var info := ItemInfo(h, i, swap);
      size := AddU32(size, WrappedTerm(info, Components(i)));
      assert ItemInfos(h, swap)[..i + 1] == infos + [info];
      assert size == WrappedItemsSize(infos + [info]) by {
        assert (infos + [info])[..i] == infos;
      }
      infos := infos + [info];
      i := i + 1;
    }
  }

  lemma DoublesAtShift(d: seq<Byte>, p: nat, q: nat, n: nat, swap: bool, native: Decoder)
    requires p + q + 8 * n <= |d|
    ensures DoublesAt(d[p..], q, n, swap, native) == DoublesAt(d, p + q, n, swap, native)
  {
    var shifted, direct := DoublesAt(d[p..], q, n, swap, native), DoublesAt(d, p + q, n, swap, native);
    forall j | 0 <= j < n
      ensures shifted[j] == direct[j]
    {
      DoubleAtShift(d, p, q + 8 * j, swap, native);
    }
    assert shifted == direct;
  }

  lemma DoublesAtSnoc(d: seq<Byte>, j: nat, swap: bool, native: Decoder)
    requires 8 * (j + 1) <= |d|
    ensures DoublesAt(d, 0, j + 1, swap, native) == DoublesAt(d, 0, j, swap, native) + [DoubleAt(d, 8 * j, swap, native)]
  {
  }

  lemma CoefficientStep(d: seq<Byte>, j: nat, before: seq<real>, x: real, swap: bool, native: Decoder)
    requires 8 * (j + 1) <= |d| && before == DoublesAt(d, 0, j, swap, native)
    requires x == DoubleAt(d[8 * j..], 0, swap, native)
    ensures before + [x] == DoublesAt(d, 0, j + 1, swap, native)
  {
    DoubleAtShift(d, 8 * j, 0, swap, native);
    DoublesAtSnoc(d, j, swap, native);
  }

  /** The coefficient loop of one record: `n` doubles read in order into a fresh array. */
  method ReadCoefficients(stream: InputStream, swap: bool, native: Decoder, n: nat) returns (coeffs: array<real>)
    requires stream.Valid()
    modifies stream
    ensures fresh(coeffs) && coeffs.Length == n && stream.Valid()
    ensures stream.good == (old(stream.good) && 8 * n <= |old(stream.Remaining())|)
    ensures stream.good ==> coeffs[..] == DoublesAt(old(stream.Remaining()), 0, n, swap, native)
    ensures stream.good ==> stream.Remaining() == old(stream.Remaining())[8 * n..]
  {
    ghost var d := stream.Remaining();
    coeffs := new real[n];
    for j := 0 to n
      invariant stream.Valid()
      invariant stream.good == (old(stream.good) && 8 * j <= |d|)
      invariant stream.good ==> stream.Remaining() == d[8 * j..]
      invariant stream.good ==> coeffs[..j] == DoublesAt(d, 0, j, swap, native)
    {
      ghost var before := coeffs[..j];
      var x := ReadDouble(stream, swap, native);
      coeffs[j] := x;
      if stream.good {
        CoefficientStep(d, j, before, x, swap, native);
        assert coeffs[..j + 1] == before + [x];
      }
    }
    assert coeffs[..] == coeffs[..n];
  }

  /** One record: its two times, then `m` coefficients. */
  method ReadRecord(stream: InputStream, swap: bool, native: Decoder, m: nat) returns (rec: Record)
    requires stream.Valid()
    modifies stream
    ensures stream.Valid()
    ensures stream.good == (old(stream.good) && 8 * (2 + m) <= |old(stream.Remaining())|)
    ensures stream.good ==> rec == RecordAt(old(stream.Remaining()), 0, m, swap, native)
    ensures stream.good ==> stream.Remaining() == old(stream.Remaining())[8 * (2 + m)..]
  {
    ghost var d := stream.Remaining();
    var t0 := ReadDouble(stream, swap, native);
    var t1 := ReadDouble(stream, swap, native);
    var coeffs := ReadCoefficients(stream, swap, native, m);
    rec := Record(t0, t1, coeffs[..]);
    if stream.good {
      DoubleAtShift(d, 8, 0, swap, native);
      DoublesAtShift(d, 16, 0, m, swap, native);
      assert d[8..][8..] == d[16..];
    }
  }

  lemma RecordAtShift(d: seq<Byte>, p: nat, m: nat, swap: bool, native: Decoder)
    requires p + 16 + 8 * m <= |d|
    ensures RecordAt(d[p..], 0, m, swap, native) == RecordAt(d, p, m, swap, native)
  {
    DoubleAtShift(d, p, 0, swap, native);
    DoubleAtShift(d, p, 8, swap, native);
    DoublesAtShift(d, p, 16, m, swap, native);
  }

  lemma RecordsAtShift(d: seq<Byte>, p: nat, n: nat, m: nat, swap: bool, native: Decoder)
    requires p + n * (8 * (2 + m)) <= |d|
    ensures RecordsAt(d[p..], 0, n, m, swap, native) == RecordsAt(d, p, n, m, swap, native)
  {
    var stride := 8 * (2 + m);
    var shifted, direct := RecordsAt(d[p..], 0, n, m, swap, native), RecordsAt(d, p, n, m, swap, native);
    forall i | 0 <= i < n
      ensures shifted[i] == direct[i]
    {
      var q := i * stride;
      RecordInBounds(p, i, n, stride);
      RecordAtShift(d, p + q, m, swap, native);
      assert d[p..][q..] == d[p + q..];
      RecordAtShift(d[p..], q, m, swap, native);
    }
    assert shifted == direct;
  }

  lemma RecordsAtSnoc(d: seq<Byte>, i: nat, pos: nat, m: nat, swap: bool, native: Decoder)
    requires pos == i * (8 * (2 + m)) && pos + 8 * (2 + m) <= |d|
    ensures (i + 1) * (8 * (2 + m)) == pos + 8 * (2 + m)
    ensures RecordsAt(d, 0, i + 1, m, swap, native)
         == RecordsAt(d, 0, i, m, swap, native) + [RecordAt(d, pos, m, swap, native)]
  {
    RecordInBounds(0, i, i + 1, 8 * (2 + m));
  }

  /** A record that does not fit after `i` whole ones means `n > i` records do not fit. */
  lemma RecordsPastEnd(i: nat, pos: nat, n: nat, stride: nat, len: nat)
    requires pos == i * stride && i < n && len < pos + stride
    ensures len < n * stride
  {
    RecordInBounds(0, i, n, stride);
  }

  /** The record loop of `load`: `n` records of `2 + m` doubles into a fresh array; the
      first short record ends the load. */
  method ReadRecords(stream: InputStream, swap: bool, native: Decoder, n: nat, m: nat)
    returns (ok: bool, records: array<Record>)
    requires stream.Valid()
    modifies stream
    ensures fresh(records) && records.Length == n && stream.Valid()
    ensures ok == (old(stream.good) && n * (8 * (2 + m)) <= |old(stream.Remaining())|)
    ensures ok ==> records[..] == RecordsAt(old(stream.Remaining()), 0, n, m, swap, native)
  {
    ghost var d := stream.Remaining();
    ghost var stride := 8 * (2 + m);
    records := new Record[n];
    if !stream.good {
      return false, records;
    }
    ghost var pos := 0;
    for i := 0 to n
      invariant stream.Valid() && stream.good
      invariant pos == i * stride && pos <= |d| && stream.Remaining() == d[pos..]
      invariant records[..i] == RecordsAt(d, 0, i, m, swap, native)
    {
      var rec := ReadRecord(stream, swap, native, m);
      records[i] := rec;
      if !stream.good {
        RecordsPastEnd(i, pos, n, stride, |d|);
        return false, records;
      }
      assert (i + 1) * stride == pos + stride && records[..i + 1] == RecordsAt(d, 0, i + 1, m, swap, native) by {
        RecordAtShift(d, pos, m, swap, native);
        RecordsAtSnoc(d, i, pos, m, swap, native);
        assert records[..i + 1] == records[..i] + [rec];
      }
      pos := pos + stride;
    }
    ok := true;
    assert records[..] == records[..n];
  }

  /** The header part of `load`: the packed header, the byte order and series id from it,
      the fields, and the DE record size summed while the layouts are read. */
  method ReadHeader(stream: InputStream, native: Decoder) returns (hd: Option<Header>, recordSize: U32)
    requires stream.Valid()
    modifies stream
    ensures stream.Valid()
    ensures stream.good == (old(stream.good) && HeaderSize <= |old(stream.Remaining())|)
    ensures stream.good ==> stream.Remaining() == old(stream.Remaining())[HeaderSize..]
    ensures stream.good ==> hd == DecodeHeader(old(stream.Remaining())[..HeaderSize], native)
    ensures stream.good && hd.Some? ==> |hd.value.coeffInfo| == NItems && recordSize == DeRecordSize(hd.value)
  {
    var h := stream.Read(HeaderSize);
    recordSize := 0;
    var det := Detect(LE32(h[DeNumPos..DeNumPos + 4]));
    if det.Unrecognized? {
      return None, recordSize;
    }
    var swap, deNum := det.swap, det.deNum;
    var startDate := DoubleAt(h, StartDatePos, swap, native);
    var endDate := DoubleAt(h, EndDatePos, swap, native);
    var daysPerInterval := DoubleAt(h, DaysPerIntervalPos, swap, native);
    var au := DoubleAt(h, AuPos, swap, native);
    var earthMoonMassRatio := DoubleAt(h, EarthMoonMassRatioPos, swap, native);
    var infos;
    infos, recordSize := ReadLayouts(h, swap);
    var lib := TripleAt(h, LibrationPos, swap);
    hd := Some(Header(swap, deNum, startDate, endDate, daysPerInterval, au, earthMoonMassRatio, infos, lib));
    assert DecodeHeader(h, native) == hd;

    recordSize := AddU32(recordSize, WrappedTerm(lib, 3));
    recordSize := AddU32(recordSize, 2);
  }

  /** The two skips of `load`: what is left of the header record after `after` bytes, then
      the constants record; both records are `recordBytes` long. */
  method SkipRecords(stream: InputStream, ghost d: seq<Byte>, after: nat, recordBytes: U32)
    requires stream.Valid() && stream.good && after <= |d| && stream.Remaining() == d[after..]
    modifies stream
    ensures stream.Valid()
    ensures stream.good == (after + Max0(recordBytes - after) + recordBytes <= |d|)
    ensures stream.good ==> stream.Remaining() == d[after + Max0(recordBytes - after) + recordBytes..]
  {
    stream.Ignore(recordBytes - after);
    stream.Ignore(recordBytes);
  }

  /** The skip part of `load`: an INPOP file's record size word is read, then the rest of the
      header record and the whole constants record are skipped. `d` is the whole input, of
      which the header has been consumed. */
  method SkipToData(stream: InputStream, ghost d: seq<Byte>, hd: Header, deRecordSize: U32)
    returns (recordSize: U32)
    requires stream.Valid() && stream.good && |d| >= HeaderSize && stream.Remaining() == d[HeaderSize..]
    requires |hd.coeffInfo| == NItems && deRecordSize == DeRecordSize(hd)
    modifies stream
    ensures stream.Valid()
    ensures stream.good == (|d| >= AfterHeader(hd) && |d| >= DataStart(hd, StoredRecordSize(d, hd)))
    ensures stream.good ==> recordSize == StoredRecordSize(d, hd) && stream.Remaining() == d[DataStart(hd, recordSize)..]
  {
    recordSize := deRecordSize;
    if hd.deNum == InpopDeCompatible {
      recordSize := ReadUint(stream, hd.swapBytes);
      if !stream.good {
        return;
      }
      UintAtShift(d, HeaderSize, 0, hd.swapBytes);
    }
    SkipRecords(stream, d, AfterHeader(hd), RecordBytes(recordSize));
  }

  /** A load fails when the header is short or unrecognised. */
  lemma LoadSpecNoHeader(d: seq<Byte>, native: Decoder)
    requires |d| < HeaderSize || DecodeHeader(d[..HeaderSize], native).None?
    ensures LoadSpec(d, native) == None
  {
  }

  /** A load fails when a skip before the data records runs past the end. */
  lemma LoadSpecNoData(d: seq<Byte>, native: Decoder, hd: Header)
    requires |d| >= HeaderSize && DecodeHeader(d[..HeaderSize], native) == Some(hd)
    requires !(|d| >= AfterHeader(hd) && |d| >= DataStart(hd, StoredRecordSize(d, hd)))
    ensures LoadSpec(d, native) == None
  {
  }

  /** A load fails when the record count is not a defined conversion. */
  lemma LoadSpecNoCount(d: seq<Byte>, native: Decoder, hd: Header, recordSize: U32)
    requires |d| >= HeaderSize && DecodeHeader(d[..HeaderSize], native) == Some(hd)
    requires |d| >= AfterHeader(hd) && recordSize == StoredRecordSize(d, hd)
    requires |d| >= DataStart(hd, recordSize) && RecordCount(hd).None?
    ensures LoadSpec(d, native) == None
  {
  }

  /** A load fails when the records run past the end. */
  lemma LoadSpecShortRecords(d: seq<Byte>, native: Decoder, hd: Header, recordSize: U32, n: nat, m: nat)
    requires |d| >= HeaderSize && DecodeHeader(d[..HeaderSize], native) == Some(hd)
    requires |d| >= AfterHeader(hd) && recordSize == StoredRecordSize(d, hd)
    requires |d| >= DataStart(hd, recordSize) && RecordCount(hd) == Some(n)
    requires m == CoeffCount(recordSize) && |d| < DataStart(hd, recordSize) + n * (8 * (2 + m))
    ensures LoadSpec(d, native) == None
  {
  }

  /** Otherwise a load yields the header, the record size and every record. */
  lemma LoadSpecOfRecords(d: seq<Byte>, native: Decoder, hd: Header, recordSize: U32, n: nat, m: nat)
    requires |d| >= HeaderSize && DecodeHeader(d[..HeaderSize], native) == Some(hd)
    requires |d| >= AfterHeader(hd) && recordSize == StoredRecordSize(d, hd)
    requires |d| >= DataStart(hd, recordSize) && RecordCount(hd) == Some(n)
    requires m == CoeffCount(recordSize) && DataStart(hd, recordSize) + n * (8 * (2 + m)) <= |d|
    ensures LoadSpec(d, native) ==
      Some(Ephemeris(hd, recordSize, RecordsAt(d, DataStart(hd, recordSize), n, m, hd.swapBytes, native)))
  {
  }

  /** `JPLEphemeris::load`: the ephemeris the stream's remaining bytes describe, or nothing;
      never a partly read one. */
  method Load(stream: InputStream, native: Decoder) returns (eph: Option<Ephemeris>)
    requires stream.Valid()
    modifies stream
    ensures eph == LoadSpec(old(stream.Remaining()), native)
  {
    ghost var d := stream.Remaining();
    var header, deRecordSize := ReadHeader(stream, native);
    if !stream.good || header.None? {
      LoadSpecNoHeader(d, native);
      return None;
    }
    var hd := header.value;
    var recordSize := SkipToData(stream, d, hd, deRecordSize);
    if !stream.good {
      LoadSpecNoData(d, native, hd);
      return None;
    }
    ghost var start := DataStart(hd, recordSize);
    var swap := hd.swapBytes;

    var count := RecordCount(hd);
    if count.None? {
      LoadSpecNoCount(d, native, hd, recordSize);
      return None;
    }
    var nRecords := count.value;
    var m: nat := CoeffCount(recordSize);
    var ok, records := ReadRecords(stream, swap, native, nRecords, m);
    if !ok {
      LoadSpecShortRecords(d, native, hd, recordSize, nRecords, m);
      return None;
    }
    RecordsAtShift(d, start, nRecords, m, swap, native);
    LoadSpecOfRecords(d, native, hd, recordSize, nRecords, m);
    eph := Some(Ephemeris(hd, recordSize, records[..]));
  }
}
