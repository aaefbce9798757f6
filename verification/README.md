# Celestia ephemeris loader and stellar classification, in Dafny

This project models two self-contained parts of the Celestia space simulator.

**JPL / INPOP ephemerides** (`src/celephem/jpleph.cpp`). A binary ephemeris file starts with
a packed 2856-byte header. The header holds three labels and 400 constant names, then:
- the span of the file (start date, end date, days per record);
- the kilometres per AU and the Earth/Moon mass ratio;
- a triple (offset, coefficient count, granule count) for each of twelve items;
- the series number (DE number);
- the libration triple.

The series number decides both the file family and the byte order. A DE number above 2^15 is always taken to be stored in the other byte order, so a file written in host order with such a number is read with the wrong swap. An INPOP file stores its
record size in doubles right after the header. For a DE file the record size is computed from
the triples in unsigned 32-bit arithmetic. The loader then:
1. skips the rest of the header record and the whole constants record;
2. reads `(end - start) / daysPerInterval` records, each holding a start time, an end time and
   `recordSize - 2` Chebyshev coefficients.

Any short read makes the whole load fail. A position query works as follows:
- it clamps the time to the span;
- it picks the record, then the granule within it;
- it evaluates three Chebyshev series with the three-term recurrence;
- the solar-system barycentre is the origin, and the Earth is derived from the Earth-Moon
  barycentre and the geocentric Moon.

**Stellar classification** (`src/celengine/stellarclass.cpp`). A classification has four
fields: star type, spectral class, subclass and luminosity class. The source provides:
- two 16-bit packed forms used by the star database (`packV1`/`unpackV1`,
  `packV2`/`unpackV2`);
- a text form (`str`);
- an order (`operator<`, which compares `packV2` codes);
- `parse`, a forgiving state machine that reads catalogue spectral types such as
  `"G2V"`, `"sdM3"`, `"DA2"` or `"WC8"`.

Modules:

| file | module | contents |
|---|---|---|
| bytes.dfy | `Bytes` | bytes, `uint32_t` arithmetic modulo 2^32, `bswap_32` |
| input_stream.dfy | `InputStreams` | the `istream` behaviour the loader relies on, as a class with a byte sequence, a cursor and a `good` flag |
| jpl_format.dfy | `JplFormat` | header layout, format detection, record size, and `LoadSpec`, the declarative result of a load, with its properties |
| jpl_byte_order.dfy | `JplByteOrder` | the same header written in the other byte order, and how the loader reads it back |
| jpl_load.dfy | `JplLoad` | `readUint`, `readDouble` and `load` as methods over the stream, each proved against `LoadSpec` and its parts |
| jpl_position.dfy | `JplPosition` | record and granule choice, the Chebyshev recurrence, `getPlanetPosition` |
| stellar.dfy | `Stellar` | the fields, `packV1`/`packV2`, the unpack methods of class `StellarClass`, `str`, `operator<` |
| stellar_parse.dfy | `StellarParse` | the parser: one function per parser state, and the state-machine loop proved equal to them |
| wrappers.dfy | `Wrappers` | `Option` |

## Model

| member | source | states |
|---|---|---|
| Bytes.Bswap32OfChunk | src/celephem/jpleph.cpp:33-38 | swapping a word read in host (little-endian) order is the same as reading the four bytes reversed |
| Bytes.Bswap32Involutive | src/celephem/jpleph.cpp:209-210 | swapping the series id twice gives back the stored id |
| Bytes.Bswap32OfSmall | src/celephem/jpleph.cpp:224-234 | a non-zero id below 2^16, once swapped, is at least 2^16; so a swapped DE number is above 2^15 |
| InputStreams.InputStream.Read | src/celephem/jpleph.cpp:205-207 | a read of `n` bytes delivers the next `n` bytes and advances past them; when fewer remain, the stream is no longer good |
| InputStreams.InputStream.Ignore | src/celephem/jpleph.cpp:276-286 | a skip of `n` bytes advances past them; a count of zero or less does nothing; skipping past the end leaves the stream failed |
| JplFormat.DetectChoice | src/celephem/jpleph.cpp:209-239 | the four-way table, in order: 100 as stored is INPOP unswapped; 100 once swapped is INPOP swapped; a DE number is swapped exactly when the stored value exceeds 2^15, and it is then at least 200; any other id is rejected (both directions) |
| JplFormat.DetectSwapped | src/celephem/jpleph.cpp:209-234 | a file written in the other byte order is detected as the same family and series number, with swapping |
| JplFormat.UintAtSwapped | src/celephem/jpleph.cpp:199-200 | a word is its chunk decoded as stored when not swapping, and its byte-reversed chunk when swapping |
| JplFormat.DecodeHeader | src/celephem/jpleph.cpp:204-243 | a decoded header has series number 100 or at least 200; an unrecognised id yields nothing |
| JplFormat.HeaderFields | src/celephem/jpleph.cpp:242-267 | every header field is read with the one byte order chosen from the id; item offsets are moved back by 3 (modulo 2^32), while the libration offset is kept as stored |
| JplByteOrder.SwapFieldsInvolutive | src/celephem/jpleph.cpp:162-196 | reversing every numeric field of the packed header twice gives the header back |
| JplByteOrder.SwapFieldsReversed | src/celephem/jpleph.cpp:162-196 | the swapped header holds each of the five doubles and each of the forty words (item triples, series id, libration triple) with its bytes reversed |
| JplByteOrder.DoubleSwapped | src/celephem/jpleph.cpp:246-251 | a double read with one swap setting from a reversed field equals the double read with the other setting from the original |
| JplByteOrder.WordSwapped | src/celephem/jpleph.cpp:257-259 | a word read with one swap setting from a reversed field equals the word read with the other setting from the original |
| JplByteOrder.ItemsSwapped | src/celephem/jpleph.cpp:255-263 | the twelve item layouts read from the reversed header with the opposite swap are the original ones |
| JplByteOrder.IdSwapped | src/celephem/jpleph.cpp:209-210 | the stored series id of the reversed header is the byte swap of the original stored id |
| JplByteOrder.DetectReversed | src/celephem/jpleph.cpp:209-239 | an id recognised in one byte order with a number of at most 2^15 is recognised in the other byte order as the same family and number, with the opposite swap |
| JplByteOrder.LargeNativeIdSwapped | src/celephem/jpleph.cpp:224-229 | a DE number above 2^15 (and below 2^16) stored in host order is taken as swapped, and the number read differs from the one written |
| JplByteOrder.ReversedHeader | src/celephem/jpleph.cpp:209-267 | a header whose decoded fields are all reversed decodes to the same header with the opposite swap flag, when the series number is at most 2^15 |
| JplByteOrder.SwappedHeader | src/celephem/jpleph.cpp:209-267 | the same header written by a host of the other byte order loads to the same header with the opposite swap flag, when the series number is at most 2^15 |
| JplFormat.WrappedItemsSizeExact | src/celephem/jpleph.cpp:254-263 | the item loop's running unsigned sum equals the exact sum of `nCoeffs * nGranules * k` (k = 2 for nutation, the last item, and 3 otherwise), reduced modulo 2^32 |
| JplFormat.DeRecordSizeExact | src/celephem/jpleph.cpp:254-269 | a DE record size is the exact item sum plus `3 * nCoeffs * nGranules` for libration plus 2, modulo 2^32 |
| JplFormat.RecordsAt | src/celephem/jpleph.cpp:294-304 | `n` consecutive records, each with exactly `m` coefficients |
| JplFormat.LoadSpec | src/celephem/jpleph.cpp:202-311 | a successful load has a header decoded from the first 2856 bytes; series 100 or at least 200; twelve layouts; as many records as the truncated quotient `(end - start) / daysPerInterval`; `recordSize - 2` coefficients in each record; and every record inside the stream |
| JplFormat.LoadedRecordSize | src/celephem/jpleph.cpp:254-281 | an INPOP load keeps the record size word stored after the header; a DE load keeps the computed sum |
| JplFormat.LoadedRecords | src/celephem/jpleph.cpp:284-304 | the records of a load are the consecutive runs of `2 + (recordSize - 2)` doubles that start after the skipped header and constants records |
| JplFormat.LoadedRecord | src/celephem/jpleph.cpp:295-304 | record `k` holds the times and coefficients read, in stream order, at its offset |
| JplFormat.TruncatedLoadFails | src/celephem/jpleph.cpp:202-311 | all or nothing: a stream cut anywhere before the end of the last record loads nothing |
| JplFormat.TrailingBytesIgnored | src/celephem/jpleph.cpp:292-314 | bytes after the last record never change the result |
| JplLoad.ReadUint | src/celephem/jpleph.cpp:33-38 | `readUint` returns the next word, byte-swapped when asked, and advances by 4; a short read fails the stream |
| JplLoad.ReadDouble | src/celephem/jpleph.cpp:40-47 | `readDouble` returns the next double, its bytes reversed when asked, and advances by 8; a short read fails the stream |
| JplLoad.ReadLayouts | src/celephem/jpleph.cpp:253-263 | the item loop yields the twelve layouts and the running unsigned record-size sum |
| JplLoad.ReadHeader | src/celephem/jpleph.cpp:204-269 | the header is read whole or the stream fails; the decoded header and the computed DE record size are those of the 2856 bytes read |
| JplLoad.SkipRecords | src/celephem/jpleph.cpp:276-290 | the rest of the header record is skipped (a negative count skips nothing), then a whole record; the stream stays good exactly when both fit |
| JplLoad.SkipToData | src/celephem/jpleph.cpp:271-290 | an INPOP file's record size is read and four more header bytes are counted; the stream is left at the first data record, or fails |
| JplLoad.ReadCoefficients | src/celephem/jpleph.cpp:302-304 | the inner loop fills a fresh array with the next `n` doubles in stream order |
| JplLoad.ReadRecord | src/celephem/jpleph.cpp:297-304 | one record is its two times followed by `m` coefficients |
| JplLoad.ReadRecords | src/celephem/jpleph.cpp:292-311 | the record loop succeeds exactly when all `n` records fit, and then yields the records at consecutive offsets |
| JplLoad.LoadSpecNoHeader | src/celephem/jpleph.cpp:205-239 | a short header or an unrecognised id loads nothing |
| JplLoad.LoadSpecNoData | src/celephem/jpleph.cpp:271-290 | a skip that runs past the end loads nothing |
| JplLoad.LoadSpecNoCount | src/celephem/jpleph.cpp:292-293 | a record count outside what the conversion defines loads nothing |
| JplLoad.LoadSpecShortRecords | src/celephem/jpleph.cpp:306-311 | records that run past the end load nothing |
| JplLoad.LoadSpecOfRecords | src/celephem/jpleph.cpp:292-314 | otherwise the load yields the header, the record size and every record |
| JplLoad.Load | src/celephem/jpleph.cpp:202-315 | `load` returns exactly `LoadSpec` of the stream's remaining bytes |
| JplPosition.ItemIndex | src/celephem/jpleph.cpp:255-261 | stored items map to the twelve layout slots, and nutation alone maps to the last |
| JplPosition.Clamp | src/celephem/jpleph.cpp:105-109 | the time is moved into `[startDate, endDate]`; a time inside the span is unchanged |
| JplPosition.ClampIdempotent | src/celephem/jpleph.cpp:105-109 | clamping twice is clamping once |
| JplPosition.Trunc | src/celephem/jpleph.cpp:136 | the cast to `int` truncates toward zero |
| JplPosition.RecordIndex | src/celephem/jpleph.cpp:111-116 | the chosen record exists: the interval count, with the last record used past the end |
| JplPosition.GranuleLength | src/celephem/jpleph.cpp:135 | a granule is positive and `nGranules` of them make up an interval |
| JplPosition.Locate | src/celephem/jpleph.cpp:111-140 | the window for an item lies in an existing record |
| JplPosition.ChebSumFirstTwo | src/celephem/jpleph.cpp:149-151 | the first two terms are `c0 + c1 * u` |
| JplPosition.ChebSumStep | src/celephem/jpleph.cpp:152-156 | one recurrence step gives the next Chebyshev polynomial and the sum one term longer |
| JplPosition.Series | src/celephem/jpleph.cpp:147-157 | one component's loop computes the Chebyshev series of its coefficients, always including the first two terms |
| JplPosition.Evaluate | src/celephem/jpleph.cpp:143-159 | the three components are the series of three coefficient runs, `nCoeffs` apart |
| JplPosition.EvaluateItem | src/celephem/jpleph.cpp:105-159 | a stored item's position is the series at the clamped time's record and granule |
| JplPosition.GetPlanetPosition | src/celephem/jpleph.cpp:85-160 | the barycentre is the origin; the Earth is the Earth-Moon barycentre less the Moon scaled by `1 / (ratio + 1)`; any other body is its own series |
| JplPosition.EarthMoonBalance | src/celephem/jpleph.cpp:95-103 | the Earth and Moon so computed balance about the Earth-Moon barycentre with the file's mass ratio |
| JplPosition.ClampedQuery | src/celephem/jpleph.cpp:105-109 | a query outside the span gives the answer at the nearer end |
| JplPosition.TAtOne | src/celephem/jpleph.cpp:149-154 | every polynomial of the recurrence is 1 at `u = 1` |
| JplPosition.TAtMinusOne | src/celephem/jpleph.cpp:149-154 | the polynomial of degree `k` is `(-1)^k` at `u = -1` |
| JplPosition.SeriesAtOne | src/celephem/jpleph.cpp:147-157 | at `u = 1` a component is the plain sum of its coefficients |
| JplPosition.SeriesAtMinusOne | src/celephem/jpleph.cpp:147-157 | at `u = -1` a component is the alternating sum of its coefficients |
| JplPosition.NormalizedOffset | src/celephem/jpleph.cpp:137-140 | `u` is twice the time's fraction past its granule's start, less one |
| JplPosition.GranuleChoice | src/celephem/jpleph.cpp:135-140 | from the record start on, the granule is not negative and `u` lies in `[-1, 1)`; before the record end the granule is below `nGranules`; exactly at the end it is `nGranules` (past the item's window) with `u = -1` |
| JplPosition.RecordChoice | src/celephem/jpleph.cpp:111-116 | when the records tile the span, the chosen record starts no later than the time |
| JplPosition.TiledQueryInDomain | src/celephem/jpleph.cpp:105-140 | when the records tile the span, every query evaluates the polynomials inside `[-1, 1)` |
| Stellar.Str | src/celengine/stellarclass.cpp:65-115 | a normal star prints as its class letter, its subclass digit and the suffix of its luminosity (empty when unknown); white dwarfs, neutron stars and black holes all print "X" through the fall-through; any other star type prints "?" |
| Stellar.PackV1Fields | src/celengine/stellarclass.cpp:118-133 | `packV1` places the luminosity in bits 0-3, the subclass in bits 4-7, the stored class (Y as unknown, later classes down by one) modulo 16 in bits 8-11, and the star type from bit 12 on |
| Stellar.PackV1StarTypeHalved | src/celengine/stellarclass.cpp:129-151 | the star type is packed at bit 12 but unpacked from bit 13, so it comes back halved and a white dwarf comes back as a normal star |
| Stellar.PackV1RoundTrip | src/celengine/stellarclass.cpp:118-163 | `unpackV1` undoes `packV1` for a normal star of any class the first version stores |
| Stellar.UnpackV1RoundTrip | src/celengine/stellarclass.cpp:155-163 | `packV1` undoes `unpackV1` for a normal-star code below bit 12; a stored Y comes back as C and is stored as Y again |
| Stellar.PackV2Value | src/celengine/stellarclass.cpp:136-145 | `packV2` is the class modulo 32 (a white dwarf's less one) at bit 8, with the subclass and the luminosity below it; it stays below 2^13, so no star type survives |
| Stellar.PackV2RoundTrip | src/celengine/stellarclass.cpp:191-202 | `unpackV2` undoes `packV2` for a normal star |
| Stellar.UnpackV2RoundTrip | src/celengine/stellarclass.cpp:198-202 | `packV2` undoes `unpackV2` for every normal-star code |
| Stellar.PackV2LosesStarType | src/celengine/stellarclass.cpp:141 | any other star type comes back from `packV2`/`unpackV2` as a normal star |
| Stellar.PackV2WhiteDwarfClass | src/celengine/stellarclass.cpp:139-142 | a white dwarf's class, stored less one, is found again only by adding DA to the nibble |
| Stellar.DecodedFields | src/celengine/stellarclass.cpp:148-227 | unpacking fails exactly for an unknown star type or an out-of-range white-dwarf or neutron-star field, and both versions fail alike; on success: black holes have everything unknown, compact stars have no luminosity, a neutron star's subclass is its class nibble, and the first version never yields Y |
| Stellar.StellarClass.UnpackV1 | src/celengine/stellarclass.cpp:148-188 | the star type is stored first; the method returns true exactly when the code decodes, and then stores its fields; on false nothing else changes |
| Stellar.StellarClass.UnpackV2 | src/celengine/stellarclass.cpp:191-227 | the same for the second version: a five-bit class and no Y remapping |
| Stellar.StellarClass.UnpackCompact | src/celengine/stellarclass.cpp:164-185 | the white-dwarf, neutron-star, black-hole and failure branches the two versions share |
| Stellar.LessStrictWeakOrder | src/celengine/stellarclass.cpp:238-241 | `operator<` is irreflexive and transitive, and incomparability is transitive |
| Stellar.LessByFields | src/celengine/stellarclass.cpp:238-241 | apart from white dwarfs, the order is by class, then subclass, then luminosity, whatever the star types |
| StellarParse.DigitValue | src/celengine/stellarclass.cpp:437-439 | a digit's value is 0-9 |
| StellarParse.ParseSpectralType | src/celengine/stellarclass.cpp:275-694 | the state machine terminates on every string and returns `Parse(st)`, the grammar read one parser state at a time |
| StellarParse.BeginStep | src/celengine/stellarclass.cpp:295-326 | the first character's transition keeps the eventual result and makes progress |
| StellarParse.NormalStep | src/celengine/stellarclass.cpp:328-467 | the same for the Wolf-Rayet, subdwarf, class and subclass states |
| StellarParse.LuminosityStep | src/celengine/stellarclass.cpp:469-570 | the same for the luminosity states |
| StellarParse.CompactStep | src/celengine/stellarclass.cpp:572-684 | the same for the white-dwarf and neutron-star states; the feature-letter loops advance by one character |
| StellarParse.ParseUnknown | src/celengine/stellarclass.cpp:319-321 | an empty string, or one that starts with '?', leaves everything unknown |
| StellarParse.ParseBlackHole | src/celengine/stellarclass.cpp:303-306 | a leading 'X' is a black hole with everything else unknown |
| StellarParse.ParseNeutronStar | src/celengine/stellarclass.cpp:298-302 | a leading 'Q' is never consumed: the result is a neutron star of class Q with nothing else known, whatever follows |
| StellarParse.NeutronStarTypeShape | src/celengine/stellarclass.cpp:641-661 | after the type letter the class is Q, QN, QP or QM; the subclass is the digit after the run of 'P', 'M' and 'N' (the type letter included), if any; nothing else changes |
| StellarParse.NeutronStarExtendedShape | src/celengine/stellarclass.cpp:663-684 | the loop skips to the end of the run of 'P', 'M' and 'N' and takes the digit there, if any, as the subclass; nothing else changes |
| StellarParse.ParseWhiteDwarf | src/celengine/stellarclass.cpp:307-312 | a leading 'D' is a white dwarf: DA..DX by the next letter or D otherwise; the subclass is the digit right after the run of feature letters that follows the 'D', or unknown when no digit is there; no luminosity |
| StellarParse.WdTypeShape | src/celengine/stellarclass.cpp:572-608 | the letter after 'D' picks DA, DB, DC, DO, DQ, DX or DZ, otherwise D; the subclass is the digit after the run of feature letters, if any (a class letter is itself a feature letter) |
| StellarParse.WdExtendedShape | src/celengine/stellarclass.cpp:610-639 | the loop skips to the end of the run of feature letters A B C O Q Z X V P H E and takes the digit there, if any, as the subclass; nothing else changes |
| StellarParse.ParseRanges | src/celengine/stellarclass.cpp:436-467 | on every string the star type is one of the four, the luminosity is a class or unknown, and the subclass is a single digit or unknown (a decimal part is dropped) |
| StellarParse.ParseNormalStar | src/celengine/stellarclass.cpp:367-467 | a class letter and a digit give a normal star of that class and subclass, with the luminosity read from what follows |
| StellarParse.ParseNormalStarDecimal | src/celengine/stellarclass.cpp:449-467 | after a class letter and a digit, a point and a digit are skipped and the luminosity is read from what follows; a point followed by anything else ends the parse with the luminosity unknown |
| StellarParse.ParseDecimalExamples | src/celengine/stellarclass.cpp:449-467 | "G2.5V" parses as "G2V" (G, subclass 2, luminosity V), and "G2.V" gives G2 with an unknown luminosity |
| StellarParse.LuminositySuffixes | src/celengine/stellarclass.cpp:469-570 | "Ia0" gives Ia0; "Ia", "I-a" and "I-a0" give Ia; "Ib", "I-b" and a bare "I" give Ib; "II", "III", "IV", "V" and "VI" give their classes; anything else keeps the luminosity already set |
| StellarParse.ParseSubdwarf | src/celengine/stellarclass.cpp:353-365 | an "sd" prefix gives the type that follows with luminosity VI, unless that type names its own luminosity |
| StellarParse.ParseStr | src/celengine/stellarclass.cpp:80-111 | `parse` reads back what `str` prints for a normal star with a class letter, except the luminosity: `str` puts a space before it, and the parse stops there |

## Left out

- The enumerations, `JPLEph_NItems` and the class declarations are in `stellarclass.h` and `jpleph.h`; those headers are not part of this model. Their values are fixed as follows:
  - the spectral classes follow the letters of the `str` table (O..N = 0..9, WC, WN, unknown, L, T, Y, C), then DA DB DC DO DQ DZ D DX, WO, Q QN QP QM;
  - luminosities Ia0..VI = 0..7 and unknown = 8;
  - unknown subclass = 10;
  - eight white-dwarf and four neutron-star classes;
  - twelve ephemeris items, the last being nutation.
- Field widths: the classification fields are held as integers with the ranges their bit fields allow. A bitwise or of fields that never overlap is written as their sum, and shifts and masks as division and remainder.
- Stellar.Str: indexing past the terminating NUL of a string literal is undefined in C++. The model reads '\0' there, as it does for the NUL itself. In the white-dwarf and neutron-star branches the source computes `"WD"[specClass]`, `"Q"[specClass]` and `"0123456789"[subclass]` (stellarclass.cpp lines 73-77), then falls through to the black-hole branch and discards them. Those reads can be out of range and are not modelled.
- Stellar.StellarClass.UnpackCompact: the source repeats the white-dwarf, neutron-star and black-hole branches in both unpack functions. The model shares them in one method.
- `getApparentColor` (rendering colours), `operator<<` (a stream wrapper around `str`) and `name.h` (declarations only) are not modelled.
- The parser's `assert(0)` default branch is unreachable. The never-entered `NormalStarState` ends the parse in the model.
- `fmt::sprintf` is modelled as string concatenation. An unknown subclass prints the NUL character, which is kept in the string.
- Memory handling (`new`/`delete` of records and of the ephemeris) is not modelled. A load that fails on a short or unrecognised stream returns nothing, as the source returns `nullptr`.
- JplFormat.LoadSpec: allocation failure is not modelled. Two allocations can throw `std::bad_alloc` in the source:
  - `records.resize(nRecords)` (jpleph.cpp line 294) with a very large record count;
  - `new double[recordSize - 2]` (jpleph.cpp line 302) when the record size wrapped to 0 or 1, which asks for about 2^32 doubles.
  The exception escapes `load`. The model lets every allocation succeed, so such a load fails only when the stream is too short to hold the records.
- `istream` is reduced to a byte sequence, a cursor and the `good` flag. The bytes of a failed read are unspecified and are modelled as zeros. InputStreams.InputStream.Ignore: a skip that ends exactly at the end of the data keeps the stream good. An implementation that peeks one byte further would set end-of-file there.
- Doubles are reals produced by a decoder supplied as a parameter, which stands for the host's IEEE-754 reading of eight bytes. Rounding, NaN and infinities are not modelled, and neither is `bswap_double` beyond reversing the eight bytes. The host is taken to be little-endian.
- JplFormat.RecordCount: the conversion of the record count to `unsigned int` is undefined when the quotient is out of range, NaN, or a division by zero. The model makes such a load fail instead.
- The `nGranules == 0xFFFFFFFF` branch of `getPlanetPosition` is not modelled. The source's asserts (1 to 32 granules, at most 32 coefficients) are taken as a precondition, and they rule that branch out.
- JplPosition.GetPlanetPosition requires that every coefficient it reads lies inside the record. This includes the second coefficient, which is read even when `nCoeffs < 2`. The model evaluates those two terms in that case as the source does. An out-of-bounds read is not modelled.
- JplPosition.GetPlanetPosition: `Queryable` requires `daysPerInterval > 0`, so a file with a negative interval (start date after end date) is outside the model. The source's record choice and clamping for such a file are not modelled.
- JplPosition.Locate: its own contract only bounds the record index. The granule and `u` are described by JplPosition.GranuleChoice, JplPosition.NormalizedOffset and JplPosition.TiledQueryInDomain.
- JplPosition.RecordChoice and JplPosition.TiledQueryInDomain assume that the records tile the span (record `k` starts `k` intervals after the start date). The file format does not guarantee this.
- JplPosition.Evaluate: the scratch arrays `sum[3]` and `cc[32]` are fresh arrays local to the method, as in the source.
