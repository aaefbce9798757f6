/** The two byte orders of a JPL DE / INPOP header: the same header written by a host of
    the other byte order, and how the loader reads it back. */
module JplByteOrder {
  import opened Bytes
  import opened Wrappers
  import opened JplFormat

  // Fields of the packed header: the labels and constant names are single bytes; then
  // three doubles, the constant count (a word), two doubles, and words to the end (the
  // item triples, the series id and the libration triple).

  /** Offset `o` into a run of `w`-byte fields, moved to the mirror position within its
      own field. */
  function FlipOffset(o: nat, w: nat): nat
    requires w == 4 || w == 8
  {
    if w == 4 then o + 3 - 2 * (o % 4) else o + 7 - 2 * (o % 8)
  }

  /** Flipping stays inside a run of `k` fields and undoes itself. */
  lemma FlipInRun4(o: nat, k: nat)
    requires o < 4 * k
    ensures FlipOffset(o, 4) < 4 * k && FlipOffset(FlipOffset(o, 4), 4) == o
  {
    var m := o / 4;
    assert o == 4 * m + o % 4;
    assert FlipOffset(o, 4) == 4 * m + (3 - o % 4);
    assert FlipOffset(o, 4) % 4 == 3 - o % 4;
  }

  lemma FlipInRun8(o: nat, k: nat)
    requires o < 8 * k
    ensures FlipOffset(o, 8) < 8 * k && FlipOffset(FlipOffset(o, 8), 8) == o
  {
    var m := o / 8;
    assert o == 8 * m + o % 8;
    assert FlipOffset(o, 8) == 8 * m + (7 - o % 8);
    assert FlipOffset(o, 8) % 8 == 7 - o % 8;
  }

  /** Within field `m` of a run, byte `j` trades places with byte `w - 1 - j`. */
  lemma FlipInField(m: nat, w: nat, j: nat)
    requires (w == 4 || w == 8) && j < w
    ensures FlipOffset(w * m + j, w) == w * m + w - 1 - j
  {
    if w == 4 {
      assert (4 * m + j) % 4 == j;
    } else {
      assert (8 * m + j) % 8 == j;
    }
  }

  /** The byte that takes the place of byte `p` when every numeric field is reversed: the
      runs are the three doubles from the start date, the constant count, the two doubles
      from the AU, and the forty words from the item triples on. */
  function Mirror(p: nat): (q: nat)
    requires p < HeaderSize
    ensures q < HeaderSize
  {
    if p < StartDatePos then p
    else if p < NConstantsPos then
      FlipInRun8(p - StartDatePos, 3); StartDatePos + FlipOffset(p - StartDatePos, 8)
    else if p < AuPos then
      FlipInRun4(p - NConstantsPos, 1); NConstantsPos + FlipOffset(p - NConstantsPos, 4)
    else if p < CoeffInfoPos then
      FlipInRun8(p - AuPos, 2); AuPos + FlipOffset(p - AuPos, 8)
    else
      FlipInRun4(p - CoeffInfoPos, 40); CoeffInfoPos + FlipOffset(p - CoeffInfoPos, 4)
  }

  /** The header as a host of the other byte order writes it: the labels and constant names
      as they are, every numeric field with its bytes reversed. */
  function SwapFields(h: seq<Byte>): (r: seq<Byte>)
    requires |h| == HeaderSize
    ensures |r| == HeaderSize && r[..StartDatePos] == h[..StartDatePos]
  {
    seq(HeaderSize, p requires 0 <= p < HeaderSize => h[Mirror(p)])
  }

  predicate DoubleField(p: nat)
  {
    p == StartDatePos || p == EndDatePos || p == DaysPerIntervalPos || p == AuPos || p == EarthMoonMassRatioPos
  }

  predicate WordField(p: nat)
  {
    p == NConstantsPos || (CoeffInfoPos <= p && p + 4 <= HeaderSize && (p - CoeffInfoPos) % 4 == 0)
  }

  lemma MirrorInvolutive(p: nat)
    requires p < HeaderSize
    ensures Mirror(Mirror(p)) == p
  {
    if p < StartDatePos {
    } else if p < NConstantsPos {
      FlipInRun8(p - StartDatePos, 3);
    } else if p < AuPos {
      FlipInRun4(p - NConstantsPos, 1);
    } else if p < CoeffInfoPos {
      FlipInRun8(p - AuPos, 2);
    } else {
      FlipInRun4(p - CoeffInfoPos, 40);
    }
  }

  /** Writing in the other byte order twice gives the header back. */
  lemma SwapFieldsInvolutive(h: seq<Byte>)
    requires |h| == HeaderSize
    ensures SwapFields(SwapFields(h)) == h
  {
    forall p | 0 <= p < HeaderSize
      ensures SwapFields(SwapFields(h))[p] == h[p]
    {
      MirrorInvolutive(p);
    }
  }

  /** Byte `j` of the field at `p` trades places with byte `w - 1 - j`. */
  lemma MirrorInField(p: nat, w: nat, j: nat)
    requires (w == 8 && DoubleField(p)) || (w == 4 && WordField(p))
    requires j < w
    ensures Mirror(p + j) == p + w - 1 - j
  {
    if p == StartDatePos || p == EndDatePos || p == DaysPerIntervalPos {
      FlipInField((p - StartDatePos) / 8, 8, j);
    } else if p == NConstantsPos {
      FlipInField(0, 4, j);
    } else if p == AuPos || p == EarthMoonMassRatioPos {
      FlipInField((p - AuPos) / 8, 8, j);
    } else {
      var m := (p - CoeffInfoPos) / 4;
      assert p - CoeffInfoPos == 4 * m;
      FlipInField(m, 4, j);
    }
  }

  /** Each double and each word of the header is reversed as a whole. */
  lemma FieldReversed(h: seq<Byte>, p: nat, w: nat)
    requires |h| == HeaderSize
    requires (w == 8 && DoubleField(p)) || (w == 4 && WordField(p))
    ensures SwapFields(h)[p..p + w] == Reverse(h[p..p + w])
  {
    var s, r := SwapFields(h)[p..p + w], Reverse(h[p..p + w]);
    forall j | 0 <= j < w
      ensures s[j] == r[j]
    {
      MirrorInField(p, w, j);
    }
  }

  /** Word `m` of the run of words that starts at the item layouts: words 0 to 35 are the
      twelve item triples, word 36 the series id and words 37 to 39 the libration triple. */
  function Word(d: seq<Byte>, m: nat): seq<Byte>
    requires |d| == HeaderSize && m < 40
  {
    d[CoeffInfoPos + 4 * m..CoeffInfoPos + 4 * m + 4]
  }

  /** `s` holds the fields the loader decodes, each with its bytes reversed from `h`. */
  predicate FieldsReversed(h: seq<Byte>, s: seq<Byte>)
  {
    && |h| == HeaderSize && |s| == HeaderSize
    && s[StartDatePos..StartDatePos + 8] == Reverse(h[StartDatePos..StartDatePos + 8])
    && s[EndDatePos..EndDatePos + 8] == Reverse(h[EndDatePos..EndDatePos + 8])
    && s[DaysPerIntervalPos..DaysPerIntervalPos + 8] == Reverse(h[DaysPerIntervalPos..DaysPerIntervalPos + 8])
    && s[AuPos..AuPos + 8] == Reverse(h[AuPos..AuPos + 8])
    && s[EarthMoonMassRatioPos..EarthMoonMassRatioPos + 8] == Reverse(h[EarthMoonMassRatioPos..EarthMoonMassRatioPos + 8])
    && (forall m | 0 <= m < 40 :: Word(s, m) == Reverse(Word(h, m)))
  }

  /** The swapped header has every decoded field reversed. */
  lemma SwapFieldsReversed(h: seq<Byte>)
    requires |h| == HeaderSize
    ensures FieldsReversed(h, SwapFields(h))
  {
    FieldReversed(h, StartDatePos, 8);
    FieldReversed(h, EndDatePos, 8);
    FieldReversed(h, DaysPerIntervalPos, 8);
    FieldReversed(h, AuPos, 8);
    FieldReversed(h, EarthMoonMassRatioPos, 8);
    forall m | 0 <= m < 40
      ensures Word(SwapFields(h), m) == Reverse(Word(h, m))
    {
      assert (CoeffInfoPos + 4 * m - CoeffInfoPos) % 4 == 0;
      FieldReversed(h, CoeffInfoPos + 4 * m, 4);
    }
  }

  /** A double read in one byte order from a reversed field is the double read in the
      other order from the original. */
  lemma DoubleSwapped(h: seq<Byte>, s: seq<Byte>, p: nat, swap: bool, native: Decoder)
    requires p + 8 <= |h| && p + 8 <= |s| && s[p..p + 8] == Reverse(h[p..p + 8])
    ensures DoubleAt(s, p, !swap, native) == DoubleAt(h, p, swap, native)
  {
    if !swap {
      ReverseReverse(h[p..p + 8]);
    }
  }

  lemma WordSwapped(h: seq<Byte>, s: seq<Byte>, m: nat, swap: bool)
    requires |h| == HeaderSize && |s| == HeaderSize && m < 40 && Word(s, m) == Reverse(Word(h, m))
    ensures UintAt(s, CoeffInfoPos + 4 * m, !swap) == UintAt(h, CoeffInfoPos + 4 * m, swap)
  {
    var c := Word(h, m);
    Bswap32OfChunk(c);
    if !swap {
      Bswap32OfChunk(Reverse(c));
      ReverseReverse(c);
    }
  }

  /** The three words from word `m` on. */
  lemma TripleSwapped(h: seq<Byte>, s: seq<Byte>, m: nat, swap: bool)
    requires FieldsReversed(h, s) && m + 3 <= 40
    ensures TripleAt(s, CoeffInfoPos + 4 * m, !swap) == TripleAt(h, CoeffInfoPos + 4 * m, swap)
  {
    WordSwapped(h, s, m, swap);
    WordSwapped(h, s, m + 1, swap);
    WordSwapped(h, s, m + 2, swap);
  }

  lemma ItemsSwapped(h: seq<Byte>, s: seq<Byte>, swap: bool)
    requires FieldsReversed(h, s)
    ensures ItemInfos(s, !swap) == ItemInfos(h, swap)
  {
    forall i | 0 <= i < NItems
      ensures ItemInfo(s, i, !swap) == ItemInfo(h, i, swap)
    {
      TripleSwapped(h, s, 3 * i, swap);
      assert CoeffInfoPos + 4 * (3 * i) == CoeffInfoPos + 12 * i;
    }
  }

  /** The stored series id of the reversed header is the byte-swapped stored id. */
  lemma IdSwapped(h: seq<Byte>, s: seq<Byte>)
    requires FieldsReversed(h, s)
    ensures LE32(s[DeNumPos..DeNumPos + 4]) == Bswap32(LE32(h[DeNumPos..DeNumPos + 4]))
  {
    assert Word(s, 36) == Reverse(Word(h, 36));
    Bswap32OfChunk(h[DeNumPos..DeNumPos + 4]);
  }

  /** An id recognised in one byte order is recognised, as the same family and number, in
      the other, read with the opposite swap, as long as the number is at most 2^15. */
  lemma DetectReversed(x: U32)
    requires Detect(x).Detected? && Detect(x).deNum <= MaxNativeDeNum
    ensures Detect(Bswap32(x)) == Detected(Detect(x).format, !Detect(x).swap, Detect(x).deNum)
  {
    DetectChoice(x);
    Bswap32Involutive(x);
    var d := Detect(x);
    if !d.swap {
      DetectSwapped(x, d.format);
    }
  }

  /** A DE id above 2^15 (and below 2^16) written in host order is taken as swapped, and the
      number read is not the one written. */
  lemma LargeNativeIdSwapped(x: U32)
    requires MaxNativeDeNum < x < 65536
    ensures Detect(x) == Detected(De, true, Bswap32(x)) && Bswap32(x) != x
  {
    Bswap32OfSmall(x);
  }

  /** A header whose decoded fields are reversed decodes as the same header, read with the
      opposite swap, whenever its series number is at most 2^15 (INPOP's 100 included). */
  lemma ReversedHeader(h: seq<Byte>, s: seq<Byte>, native: Decoder)
    requires FieldsReversed(h, s) && DecodeHeader(h, native).Some?
    requires DecodeHeader(h, native).value.deNum <= MaxNativeDeNum
    ensures var hd := DecodeHeader(h, native).value;
      DecodeHeader(s, native) == Some(hd.(swapBytes := !hd.swapBytes))
  {
    var x := LE32(h[DeNumPos..DeNumPos + 4]);
    var d := Detect(x);
    assert d.Detected?;
    var swap := d.swap;
    assert DecodeHeader(h, native).value == Header(swap, d.deNum,
      DoubleAt(h, StartDatePos, swap, native), DoubleAt(h, EndDatePos, swap, native),
      DoubleAt(h, DaysPerIntervalPos, swap, native), DoubleAt(h, AuPos, swap, native),
      DoubleAt(h, EarthMoonMassRatioPos, swap, native), ItemInfos(h, swap), TripleAt(h, LibrationPos, swap));
    IdSwapped(h, s);
    DetectReversed(x);
    DoubleSwapped(h, s, StartDatePos, swap, native);
    DoubleSwapped(h, s, EndDatePos, swap, native);
    DoubleSwapped(h, s, DaysPerIntervalPos, swap, native);
    DoubleSwapped(h, s, AuPos, swap, native);
    DoubleSwapped(h, s, EarthMoonMassRatioPos, swap, native);
    ItemsSwapped(h, s, swap);
    TripleSwapped(h, s, 37, swap);
    assert CoeffInfoPos + 4 * 37 == LibrationPos;
  }

  /** The same header written in the other byte order loads as the same header, read with
      the opposite swap, whenever its series number is at most 2^15 (INPOP's 100 included). */
  lemma SwappedHeader(h: seq<Byte>, native: Decoder)
    requires |h| == HeaderSize && DecodeHeader(h, native).Some?
    requires DecodeHeader(h, native).value.deNum <= MaxNativeDeNum
    ensures var hd := DecodeHeader(h, native).value;
      DecodeHeader(SwapFields(h), native) == Some(hd.(swapBytes := !hd.swapBytes))
  {
    SwapFieldsReversed(h);
    ReversedHeader(h, SwapFields(h), native);
  }
}
