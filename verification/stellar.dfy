/** A star's spectral classification: its four fields, the two 16-bit packed forms the star
    database uses, the text form and the order on classifications. */
module Stellar {
  import opened Wrappers

  // Star types.
  const NormalStar: nat := 0
  const WhiteDwarf: nat := 1
  const NeutronStar: nat := 2
  const BlackHole: nat := 3

  // Spectral classes. The normal classes follow the letters "OBAFGKMRSNWW?LTYC".
  const SpectralO: nat := 0
  const SpectralB: nat := 1
  const SpectralA: nat := 2
  const SpectralF: nat := 3
  const SpectralG: nat := 4
  const SpectralK: nat := 5
  const SpectralM: nat := 6
  const SpectralR: nat := 7
  const SpectralS: nat := 8
  const SpectralN: nat := 9
  const SpectralWC: nat := 10
  const SpectralWN: nat := 11
  const SpectralUnknown: nat := 12
  const SpectralL: nat := 13
  const SpectralT: nat := 14
  const SpectralY: nat := 15
  const SpectralC: nat := 16
  const SpectralDA: nat := 17
  const SpectralDB: nat := 18
  const SpectralDC: nat := 19
  const SpectralDO: nat := 20
  const SpectralDQ: nat := 21
  const SpectralDZ: nat := 22
  const SpectralD: nat := 23
  const SpectralDX: nat := 24
  const SpectralWO: nat := 25
  const SpectralQ: nat := 26
  const SpectralQN: nat := 27
  const SpectralQP: nat := 28
  const SpectralQM: nat := 29

  /** White-dwarf classes DA..DX and neutron-star classes Q..QM. */
  const WdClassCount: nat := 8
  const NeutronStarClassCount: nat := 4

  // Luminosity classes.
  const LumIa0: nat := 0
  const LumIa: nat := 1
  const LumIb: nat := 2
  const LumII: nat := 3
  const LumIII: nat := 4
  const LumIV: nat := 5
  const LumV: nat := 6
  const LumVI: nat := 7
  const LumUnknown: nat := 8

  const SubclassUnknown: nat := 10

  /** The values a 16-bit packed classification can hold. */
  type U16 = x: int | 0 <= x < 0x1_0000

  /** Field ranges: three bits of star type, five of class, four of subclass and of
      luminosity, which hold every value the parser and the unpackers store. */
  type StarTypeCode = x: nat | x < 8
  type ClassCode = x: nat | x < 32
  type Nibble = x: nat | x < 16

  /** The fields of a `StellarClass`, as a value. */
  datatype Spectral = Spectral(starType: StarTypeCode, specClass: ClassCode, subclass: Nibble, lumClass: Nibble)

  /** The classification with nothing known: what the parser starts from. */
  const Unclassified := Spectral(NormalStar, SpectralUnknown, SubclassUnknown, LumUnknown)

  /** `packV1`: star type from bit 12, the class from bit 8, subclass from bit 4, luminosity
      in bits 0-3. The fields never overlap on their ranges, so their bitwise or is their
      sum. */
  function PackV1(v: Spectral): U16
  {
    v.starType * 4096 + V1Class(v.specClass) % 16 * 256 + v.subclass * 16 + v.lumClass
  }

  /** The class `packV1` stores: the first database version has no Y, so Y is stored as
      unknown and the classes after it move down by one. */
  function V1Class(specClass: ClassCode): nat
  {
    if specClass == SpectralY then SpectralUnknown
    else if specClass > SpectralY then specClass - 1
    else specClass
  }

  /** `packV2`: a white dwarf's class is stored less one; the star type is shifted by 18,
      past the 16 bits the result keeps. */
  function PackV2(v: Spectral): U16
  {
    (v.starType * 0x4_0000 + V2Class(v) % 32 * 256 + v.subclass % 16 * 16 + v.lumClass % 16) % 0x1_0000
  }

  /** The class `packV2` stores before masking: -1 for a white dwarf of class 0, which the
      `uint16_t` conversion and the five-bit mask turn into 31. */
  function V2Class(v: Spectral): int
  {
    if v.starType == WhiteDwarf then v.specClass - 1 else v.specClass
  }

  /** `operator<`: classifications ordered by their `packV2` codes. */
  predicate Less(a: Spectral, b: Spectral)
  {
    PackV2(a) < PackV2(b)
  }

  /** The star type `unpackV1` and `unpackV2` store first (`st >> 13`), whether or not
      they succeed. */
  function StarTypeOf(st: U16): StarTypeCode
  {
    st / 0x2000
  }

  /** What `unpackV1` stores when it returns true, or nothing when it returns false. */
  function DecodeV1(st: U16): Option<Spectral>
  {
    var t := StarTypeOf(st);
    if t == NormalStar then
      var sc := st / 256 % 16;
      Some(Spectral(t, if sc == SpectralY then SpectralC else sc, st / 16 % 16, st % 16))
    else DecodeCompact(st)
  }

  /** What `unpackV2` stores when it returns true, or nothing when it returns false. */
  function DecodeV2(st: U16): Option<Spectral>
  {
    var t := StarTypeOf(st);
    if t == NormalStar then Some(Spectral(t, st / 256 % 32, st / 16 % 16, st % 16))
    else DecodeCompact(st)
  }

  /** The non-normal star types, decoded alike by both versions: a white dwarf's class is
      DA plus bits 8-11, a neutron star's is Q plus bits 4-7 (which are also its subclass),
      a black hole has nothing known; any other type fails. */
  function DecodeCompact(st: U16): Option<Spectral>
  {
    var t := StarTypeOf(st);
    if t == WhiteDwarf then
      if st / 256 % 16 >= WdClassCount then None
      else Some(Spectral(t, st / 256 % 16 + SpectralDA, st / 16 % 16, LumUnknown))
    else if t == NeutronStar then
      if st / 16 % 16 >= NeutronStarClassCount then None
      else Some(Spectral(t, st / 16 % 16 + SpectralQ, st / 16 % 16, LumUnknown))
    else if t == BlackHole then
      Some(Spectral(t, SpectralUnknown, SubclassUnknown, LumUnknown))
    else None
  }

  /** A character of a C string literal: the terminating NUL just past its end. */
  function Lookup(table: string, i: nat): char
  {
    if i < |table| then table[i] else '\0'
  }

  function LumSuffix(lum: nat): string
  {
    if lum == LumIa0 then " I-a0"
    else if lum == LumIa then " I-a"
    else if lum == LumIb then " I-b"
    else if lum == LumII then " II"
    else if lum == LumIII then " III"
    else if lum == LumIV then " IV"
    else if lum == LumV then " V"
    else if lum == LumVI then " VI"
    else ""
  }

  /** `str`: a normal star is its class letter, its subclass digit and its luminosity
      suffix; every other known type falls through to "X"; an unknown type is "?". */
  function Str(v: Spectral): (r: string)
    ensures v.starType == NormalStar ==>
      |r| >= 2 && r[0] == Lookup("OBAFGKMRSNWW?LTYC", v.specClass) && r[2..] == LumSuffix(v.lumClass)
    ensures v.starType == NormalStar && v.subclass <= 9 ==> r[1] as int == '0' as int + v.subclass
    ensures v.starType == NormalStar && v.subclass == SubclassUnknown ==> r[1] == '\0'
    ensures v.starType != NormalStar ==> |r| == 1 && (r == "X" <==> v.starType <= BlackHole)
    ensures v.starType > BlackHole ==> r == "?"
  {
    if v.starType == WhiteDwarf || v.starType == NeutronStar || v.starType == BlackHole then "X"
    else if v.starType == NormalStar then
      [Lookup("OBAFGKMRSNWW?LTYC", v.specClass), Lookup("0123456789", v.subclass)] + LumSuffix(v.lumClass)
    else "?"
  }

  /** A `StellarClass` object, whose unpack operations overwrite its fields. */
  class StellarClass {
    var starType: StarTypeCode
    var specClass: ClassCode
    var subclass: Nibble
    var lumClass: Nibble

    constructor (v: Spectral)
      ensures Value() == v
    {
      starType, specClass, subclass, lumClass := v.starType, v.specClass, v.subclass, v.lumClass;
    }

    function Value(): Spectral
      reads this
    {
      Spectral(starType, specClass, subclass, lumClass)
    }

    /** `unpackV1`: the star type is stored first; on failure nothing else changes. */
    method UnpackV1(st: U16) returns (ok: bool)
      modifies this
      ensures starType == StarTypeOf(st)
      ensures ok == DecodeV1(st).Some?
      ensures ok ==> Value() == DecodeV1(st).value
      ensures !ok ==> specClass == old(specClass) && subclass == old(subclass) && lumClass == old(lumClass)
    {
      starType := st / 0x2000;
      if starType == NormalStar {
        specClass := st / 256 % 16;
        if specClass == SpectralY {
          specClass := SpectralC;
        }
        subclass := st / 16 % 16;
        lumClass := st % 16;
      } else {
        ok := UnpackCompact(st);
        return;
      }
      ok := true;
    }

    /** `unpackV2`: as `unpackV1`, with a five-bit normal class and no Y remapping. */
    method UnpackV2(st: U16) returns (ok: bool)
      modifies this
      ensures starType == StarTypeOf(st)
      ensures ok == DecodeV2(st).Some?
      ensures ok ==> Value() == DecodeV2(st).value
      ensures !ok ==> specClass == old(specClass) && subclass == old(subclass) && lumClass == old(lumClass)
    {
      starType := st / 0x2000;
      if starType == NormalStar {
        specClass := st / 256 % 32;
        subclass := st / 16 % 16;
        lumClass := st % 16;
      } else {
        ok := UnpackCompact(st);
        return;
      }
      ok := true;
    }

    /** The white-dwarf, neutron-star, black-hole and failing branches both versions share. */
    method UnpackCompact(st: U16) returns (ok: bool)
      requires starType == StarTypeOf(st) && starType != NormalStar
      modifies this
      ensures starType == StarTypeOf(st)
      ensures ok == DecodeCompact(st).Some?
      ensures ok ==> Value() == DecodeCompact(st).value
      ensures !ok ==> specClass == old(specClass) && subclass == old(subclass) && lumClass == old(lumClass)
    {
      if starType == WhiteDwarf {
        if st / 256 % 16 >= WdClassCount {
          return false;
        }
        specClass := st / 256 % 16 + SpectralDA;
        subclass := st / 16 % 16;
        lumClass := LumUnknown;
      } else if starType == NeutronStar {
        if st / 16 % 16 >= NeutronStarClassCount {
          return false;
        }
        specClass := st / 16 % 16 + SpectralQ;
        subclass := st / 16 % 16;
        lumClass := LumUnknown;
      } else if starType == BlackHole {
        specClass := SpectralUnknown;
        subclass := SubclassUnknown;
        lumClass := LumUnknown;
      } else {
        return false;
      }
      ok := true;
    }
  }

  /** Reading back fields placed at bits 8, 4 and 0. */
  lemma SplitCode(x: int, hi: nat, mid: Nibble, lo: Nibble)
    requires x == hi * 256 + mid * 16 + lo
    ensures x / 256 == hi && x / 16 % 16 == mid && x % 16 == lo
  {
    assert x == (hi * 16 + mid) * 16 + lo;
    assert x / 16 == hi * 16 + mid;
  }

  /** A code is the sum of its fields at bits 8, 4 and 0. */
  lemma JoinCode(x: nat)
    ensures x == x / 256 * 256 + x / 16 % 16 * 16 + x % 16
  {
    assert x == x / 16 * 16 + x % 16;
    assert x / 16 == x / 16 / 16 * 16 + x / 16 % 16;
    assert x / 16 / 16 == x / 256;
  }

  /** `packV2` keeps the class modulo 32, the subclass and the luminosity, each in its own
      bits below bit 13: nothing of the star type survives. */
  lemma PackV2Value(v: Spectral)
    ensures PackV2(v) == V2Class(v) % 32 * 256 + v.subclass * 16 + v.lumClass
    ensures PackV2(v) < 0x2000 && StarTypeOf(PackV2(v)) == NormalStar
  {
    var low := V2Class(v) % 32 * 256 + v.subclass * 16 + v.lumClass;
    var k := v.starType * 4;
    assert v.starType * 0x4_0000 + low == low + k * 0x1_0000;
    assert (low + k * 0x1_0000) % 0x1_0000 == low;
  }

  /** `unpackV2` undoes `packV2` on a normal star. */
  lemma PackV2RoundTrip(v: Spectral)
    requires v.starType == NormalStar
    ensures DecodeV2(PackV2(v)) == Some(v)
  {
    PackV2Value(v);
    SplitCode(PackV2(v), v.specClass, v.subclass, v.lumClass);
  }

  /** ... and `packV2` undoes `unpackV2` on every code of a normal star. */
  lemma UnpackV2RoundTrip(st: U16)
    requires StarTypeOf(st) == NormalStar
    ensures DecodeV2(st).Some? && PackV2(DecodeV2(st).value) == st
  {
    PackV2Value(DecodeV2(st).value);
    JoinCode(st);
  }

  /** Any other star type comes back from `packV2` and `unpackV2` as a normal star. */
  lemma PackV2LosesStarType(v: Spectral)
    ensures DecodeV2(PackV2(v)).Some? && DecodeV2(PackV2(v)).value.starType == NormalStar
    ensures v.starType != NormalStar ==> DecodeV2(PackV2(v)) != Some(v)
  {
    PackV2Value(v);
  }

  /** A white dwarf's class stored less one lands in the nibble `unpackV2` adds DA to. */
  lemma PackV2WhiteDwarfClass(v: Spectral)
    requires v.starType == WhiteDwarf && SpectralDA <= v.specClass <= SpectralDX
    ensures PackV2(v) / 256 % 16 < WdClassCount && PackV2(v) / 256 % 16 + SpectralDA == v.specClass
  {
    PackV2Value(v);
    SplitCode(PackV2(v), v.specClass - 1, v.subclass, v.lumClass);
  }

  /** `packV1` places the star type from bit 12 but `unpackV1` reads it from bit 13: the
      type comes back halved, so a white dwarf comes back as a normal star. */
  lemma PackV1StarTypeHalved(v: Spectral)
    ensures StarTypeOf(PackV1(v)) == v.starType / 2
    ensures v.starType == WhiteDwarf ==> DecodeV1(PackV1(v)).Some? && DecodeV1(PackV1(v)).value.starType == NormalStar
  {
    var low := V1Class(v.specClass) % 16 * 256 + v.subclass * 16 + v.lumClass;
    assert PackV1(v) == v.starType / 2 * 0x2000 + (v.starType % 2 * 4096 + low);
    if v.starType == WhiteDwarf {
      SplitCode(PackV1(v), 16 + V1Class(v.specClass) % 16, v.subclass, v.lumClass);
    }
  }

  /** `packV1` places the luminosity in bits 0-3, the subclass in bits 4-7, the stored class
      (modulo 16) in bits 8-11 and the star type from bit 12 on. */
  lemma PackV1Fields(v: Spectral)
    ensures PackV1(v) % 16 == v.lumClass && PackV1(v) / 16 % 16 == v.subclass
    ensures PackV1(v) / 256 % 16 == V1Class(v.specClass) % 16 && PackV1(v) / 4096 == v.starType
  {
    var c := V1Class(v.specClass) % 16;
    var hi := v.starType * 16 + c;
    SplitCode(PackV1(v), hi, v.subclass, v.lumClass);
    assert PackV1(v) / 4096 == PackV1(v) / 256 / 16;
  }

  /** `unpackV1` undoes `packV1` on a normal star of a class the first version stores. */
  lemma PackV1RoundTrip(v: Spectral)
    requires v.starType == NormalStar && v.specClass <= SpectralC && v.specClass != SpectralY
    ensures DecodeV1(PackV1(v)) == Some(v)
  {
    var st := PackV1(v);
    PackV1Fields(v);
    assert V1Class(v.specClass) < 16;
    assert StarTypeOf(st) == NormalStar;
    assert st / 256 % 16 == V1Class(v.specClass);
  }

  /** ... and `packV1` undoes `unpackV1` on a normal star's code below bit 12; a stored Y
      comes back as C and is stored as Y again. */
  lemma UnpackV1RoundTrip(st: U16)
    requires st < 0x1000
    ensures DecodeV1(st).Some? && PackV1(DecodeV1(st).value) == st
  {
    JoinCode(st);
  }

  /** What a successful unpack stores: a known star type, no luminosity for the compact
      types, a neutron star's subclass tied to its class, nothing known of a black hole,
      and never Y from the first version. */
  lemma DecodedFields(st: U16)
    ensures DecodeV1(st).Some? ==> Decoded(DecodeV1(st).value) && DecodeV1(st).value.specClass != SpectralY
    ensures DecodeV2(st).Some? ==> Decoded(DecodeV2(st).value)
    ensures DecodeV1(st).None? <==> DecodeV2(st).None?
    ensures DecodeV1(st).None? <==> (StarTypeOf(st) > BlackHole
      || (StarTypeOf(st) == WhiteDwarf && st / 256 % 16 >= WdClassCount)
      || (StarTypeOf(st) == NeutronStar && st / 16 % 16 >= NeutronStarClassCount))
  {
  }

  ghost predicate Decoded(v: Spectral)
  {
    && v.starType <= BlackHole
    && (v.starType == WhiteDwarf ==> SpectralDA <= v.specClass <= SpectralDX && v.lumClass == LumUnknown)
    && (v.starType == NeutronStar ==>
          SpectralQ <= v.specClass <= SpectralQM && v.specClass == SpectralQ + v.subclass && v.lumClass == LumUnknown)
    && (v.starType == BlackHole ==> v == Spectral(BlackHole, SpectralUnknown, SubclassUnknown, LumUnknown))
  }

  /** `operator<` is a strict weak order: irreflexive, transitive, and with incomparability
      (equal `packV2` codes) transitive. */
  lemma LessStrictWeakOrder(a: Spectral, b: Spectral, c: Spectral)
    ensures !Less(a, a)
    ensures Less(a, b) && Less(b, c) ==> Less(a, c)
    ensures !Less(a, b) && !Less(b, a) && !Less(b, c) && !Less(c, b) ==> !Less(a, c) && !Less(c, a)
  {
  }

  /** Apart from white dwarfs, whose class moves down by one, the order is by class, then
      subclass, then luminosity, whatever the star types. */
  lemma LessByFields(a: Spectral, b: Spectral)
    requires a.starType != WhiteDwarf && b.starType != WhiteDwarf
    ensures Less(a, b) <==>
      a.specClass < b.specClass
      || (a.specClass == b.specClass && a.subclass < b.subclass)
      || (a.specClass == b.specClass && a.subclass == b.subclass && a.lumClass < b.lumClass)
  {
    PackV2Value(a);
    PackV2Value(b);
    assert V2Class(a) % 32 == a.specClass && V2Class(b) % 32 == b.specClass;
    CodeOrder(a.specClass, a.subclass, a.lumClass, b.specClass, b.subclass, b.lumClass);
  }

  /** Codes with fields at bits 8, 4 and 0 compare as their fields do, most significant first. */
  lemma CodeOrder(h0: nat, m0: Nibble, l0: Nibble, h1: nat, m1: Nibble, l1: Nibble)
    ensures h0 * 256 + m0 * 16 + l0 < h1 * 256 + m1 * 16 + l1 <==>
      h0 < h1 || (h0 == h1 && m0 < m1) || (h0 == h1 && m0 == m1 && l0 < l1)
  {
    if h0 < h1 {
      assert h0 * 256 + 256 <= h1 * 256;
    } else if h1 < h0 {
      assert h1 * 256 + 256 <= h0 * 256;
    }
  }
}
