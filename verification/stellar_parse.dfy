/** `StellarClass::parse`: a forgiving state machine over a catalogue's spectral type. Any
    field it cannot find stays unknown and trailing characters are ignored, so every string
    parses. The functions below read the grammar one parser state at a time; the method runs
    the machine and is proved to agree with them. */
module StellarParse {
  import opened Wrappers
  import opened Stellar

  datatype ParseState =
    | BeginState
    | EndState
    | NormalStarState
    | WolfRayetTypeState
    | NormalStarClassState
    | NormalStarSubclassState
    | NormalStarSubclassDecimalState
    | NormalStarSubclassFinalState
    | LumClassBeginState
    | LumClassIState
    | LumClassIIState
    | LumClassVState
    | LumClassIdashState
    | LumClassIaState
    | WDTypeState
    | WDExtendedTypeState
    | WDSubclassState
    | NeutronStarTypeState
    | NeutronStarExtendedTypeState
    | NeutronStarSubclassState
    | SubdwarfPrefixState

  /** The character the machine sees at `i`: NUL once past the end. */
  function At(st: string, i: nat): char
  {
    if i < |st| then st[i] else '\0'
  }

  predicate IsDigit(c: char)
  {
    '0' <= c <= '9'
  }

  function DigitValue(c: char): (d: Nibble)
    requires IsDigit(c)
    ensures d <= 9
  {
    c as int - '0' as int
  }

  /** The letters of the normal spectral classes (Wolf-Rayet 'W' aside). */
  function ClassLetter(c: char): Option<ClassCode>
  {
    match c
    case 'O' => Some(SpectralO)
    case 'B' => Some(SpectralB)
    case 'A' => Some(SpectralA)
    case 'F' => Some(SpectralF)
    case 'G' => Some(SpectralG)
    case 'K' => Some(SpectralK)
    case 'M' => Some(SpectralM)
    case 'R' => Some(SpectralR)
    case 'S' => Some(SpectralS)
    case 'N' => Some(SpectralN)
    case 'L' => Some(SpectralL)
    case 'T' => Some(SpectralT)
    case 'Y' => Some(SpectralY)
    case 'C' => Some(SpectralC)
    case _ => None
  }

  /** The letter after 'D' that names a white-dwarf class. */
  function WdLetter(c: char): Option<ClassCode>
  {
    match c
    case 'A' => Some(SpectralDA)
    case 'B' => Some(SpectralDB)
    case 'C' => Some(SpectralDC)
    case 'O' => Some(SpectralDO)
    case 'Q' => Some(SpectralDQ)
    case 'X' => Some(SpectralDX)
    case 'Z' => Some(SpectralDZ)
    case _ => None
  }

  /** Further white-dwarf type letters, and V (variable), P and H (magnetic), E (emission). */
  predicate IsWdFeature(c: char)
  {
    c == 'A' || c == 'B' || c == 'C' || c == 'O' || c == 'Q' || c == 'Z' || c == 'X'
    || c == 'V' || c == 'P' || c == 'H' || c == 'E'
  }

  /** Neutron-star type letters: P (pulsar), M (magnetar), N (non-pulsating). */
  predicate IsNeutronStarFeature(c: char)
  {
    c == 'P' || c == 'M' || c == 'N'
  }

  // Luminosity class, from each of the luminosity states. `lum` is the class already set
  // (VI after an "sd" prefix), kept when no luminosity follows.

  function AfterIa(st: string, i: nat): Nibble
  {
    if At(st, i) == '0' then LumIa0 else LumIa
  }

  /** After "I-" the character is looked at again as the one after "Ia", so "I-a0" is Ia. */
  function AfterIdash(st: string, i: nat): Nibble
  {
    if At(st, i) == 'a' then AfterIa(st, i) else LumIb
  }

  function AfterII(st: string, i: nat): Nibble
  {
    if At(st, i) == 'I' then LumIII else LumII
  }

  function AfterV(st: string, i: nat): Nibble
  {
    if At(st, i) == 'I' then LumVI else LumV
  }

  /** After "I": a bare "I", "Ib" and "I" before anything else are all Ib. */
  function AfterI(st: string, i: nat): Nibble
  {
    match At(st, i)
    case 'I' => AfterII(st, i + 1)
    case 'V' => LumIV
    case 'a' => AfterIa(st, i + 1)
    case '-' => AfterIdash(st, i + 1)
    case _ => LumIb
  }

  function LumFrom(st: string, i: nat, lum: Nibble): Nibble
  {
    match At(st, i)
    case 'I' => AfterI(st, i + 1)
    case 'V' => AfterV(st, i + 1)
    case _ => lum
  }

  // Subclass and class of a normal star.

  /** A digit is the subclass; a decimal part after it is skipped. */
  function SubclassFrom(st: string, i: nat, f: Spectral): Spectral
  {
    if IsDigit(At(st, i)) then DecimalFrom(st, i + 1, f.(subclass := DigitValue(At(st, i))))
    else f.(lumClass := LumFrom(st, i, f.lumClass))
  }

  function DecimalFrom(st: string, i: nat, f: Spectral): Spectral
  {
    if At(st, i) == '.' then FractionFrom(st, i + 1, f) else f.(lumClass := LumFrom(st, i, f.lumClass))
  }

  /** The digit after the point; a point with no digit ends the parse. */
  function FractionFrom(st: string, i: nat, f: Spectral): Spectral
  {
    if IsDigit(At(st, i)) then f.(lumClass := LumFrom(st, i + 1, f.lumClass)) else f
  }

  /** After 'W': WC, WN or WO; any other character is taken as WC and read again. */
  function WolfRayetFrom(st: string, i: nat, f: Spectral): Spectral
  {
    match At(st, i)
    case 'C' => SubclassFrom(st, i + 1, f.(specClass := SpectralWC))
    case 'N' => SubclassFrom(st, i + 1, f.(specClass := SpectralWN))
    case 'O' => SubclassFrom(st, i + 1, f.(specClass := SpectralWO))
    case _ => SubclassFrom(st, i, f.(specClass := SpectralWC))
  }

  function ClassFrom(st: string, i: nat, f: Spectral): Spectral
  {
    if At(st, i) == 'W' then WolfRayetFrom(st, i + 1, f)
    else
      match ClassLetter(At(st, i))
      case Some(sc) => SubclassFrom(st, i + 1, f.(specClass := sc))
      case None => f
  }

  /** "sd" marks a subdwarf: luminosity VI unless a luminosity class follows. */
  function SubdwarfFrom(st: string, i: nat, f: Spectral): Spectral
  {
    if At(st, i) == 'd' then ClassFrom(st, i + 1, f.(lumClass := LumVI)) else f
  }

  // White dwarfs and neutron stars.

  /** The single digit that ends a white-dwarf or neutron-star type. */
  function DigitFrom(st: string, i: nat, f: Spectral): Spectral
  {
    if IsDigit(At(st, i)) then f.(subclass := DigitValue(At(st, i))) else f
  }

  function WdTypeFrom(st: string, i: nat, f: Spectral): Spectral
  {
    match WdLetter(At(st, i))
    case Some(sc) => WdExtendedFrom(st, i + 1, f.(specClass := sc))
    case None => WdExtendedFrom(st, i, f.(specClass := SpectralD))
  }

  function WdExtendedFrom(st: string, i: nat, f: Spectral): Spectral
    decreases |st| - i
  {
    if IsWdFeature(At(st, i)) then WdExtendedFrom(st, i + 1, f) else DigitFrom(st, i, f)
  }

  /** Where a run of white-dwarf feature letters starting at `i` ends. */
  function WdFeaturesEnd(st: string, i: nat): (k: nat)
    ensures i <= k && !IsWdFeature(At(st, k))
    ensures forall j :: i <= j < k ==> IsWdFeature(At(st, j))
    decreases |st| - i
  {
    if IsWdFeature(At(st, i)) then WdFeaturesEnd(st, i + 1) else i
  }

  function NeutronStarTypeFrom(st: string, i: nat, f: Spectral): Spectral
  {
    match At(st, i)
    case 'N' => NeutronStarExtendedFrom(st, i + 1, f.(specClass := SpectralQN))
    case 'P' => NeutronStarExtendedFrom(st, i + 1, f.(specClass := SpectralQP))
    case 'M' => NeutronStarExtendedFrom(st, i + 1, f.(specClass := SpectralQM))
    case _ => NeutronStarExtendedFrom(st, i, f.(specClass := SpectralQ))
  }

  function NeutronStarExtendedFrom(st: string, i: nat, f: Spectral): Spectral
    decreases |st| - i
  {
    if IsNeutronStarFeature(At(st, i)) then NeutronStarExtendedFrom(st, i + 1, f) else DigitFrom(st, i, f)
  }

  /** Where a run of neutron-star feature letters starting at `i` ends. */
  function NeutronStarFeaturesEnd(st: string, i: nat): (k: nat)
    ensures i <= k && !IsNeutronStarFeature(At(st, k))
    ensures forall j :: i <= j < k ==> IsNeutronStarFeature(At(st, j))
    decreases |st| - i
  {
    if IsNeutronStarFeature(At(st, i)) then NeutronStarFeaturesEnd(st, i + 1) else i
  }

  /** The first character picks the kind of star. 'Q' is looked at again as the neutron-star
      type, and 'X' (black hole) and '?' end the parse. */
  function BeginFrom(st: string, i: nat, f: Spectral): Spectral
  {
    match At(st, i)
    case 'Q' => NeutronStarTypeFrom(st, i, f.(starType := NeutronStar, specClass := SpectralQ))
    case 'X' => f.(starType := BlackHole)
    case 'D' => WdTypeFrom(st, i + 1, f.(starType := WhiteDwarf, specClass := SpectralD))
    case 's' => SubdwarfFrom(st, i + 1, f)
    case '?' => f
    case _ => ClassFrom(st, i, f)
  }

  /** The classification `parse` returns for `st`. */
  function Parse(st: string): Spectral
  {
    BeginFrom(st, 0, Unclassified)
  }

  /** What the machine returns when it is in `state` at `i` with the fields `f` so far. */
  function Finish(st: string, state: ParseState, i: nat, f: Spectral): Spectral
  {
    match state
    case BeginState => BeginFrom(st, i, f)
    case EndState => f
    case NormalStarState => f
    case WolfRayetTypeState => WolfRayetFrom(st, i, f)
    case NormalStarClassState => ClassFrom(st, i, f)
    case NormalStarSubclassState => SubclassFrom(st, i, f)
    case NormalStarSubclassDecimalState => DecimalFrom(st, i, f)
    case NormalStarSubclassFinalState => FractionFrom(st, i, f)
    case LumClassBeginState => f.(lumClass := LumFrom(st, i, f.lumClass))
    case LumClassIState => f.(lumClass := AfterI(st, i))
    case LumClassIIState => f.(lumClass := AfterII(st, i))
    case LumClassVState => f.(lumClass := AfterV(st, i))
    case LumClassIdashState => f.(lumClass := AfterIdash(st, i))
    case LumClassIaState => f.(lumClass := AfterIa(st, i))
    case WDTypeState => WdTypeFrom(st, i, f)
    case WDExtendedTypeState => WdExtendedFrom(st, i, f)
    case WDSubclassState => DigitFrom(st, i, f)
    case NeutronStarTypeState => NeutronStarTypeFrom(st, i, f)
    case NeutronStarExtendedTypeState => NeutronStarExtendedFrom(st, i, f)
    case NeutronStarSubclassState => DigitFrom(st, i, f)
    case SubdwarfPrefixState => SubdwarfFrom(st, i, f)
  }

  /** Every transition but the two feature-letter loops moves to a state of lower rank. */
  function Rank(state: ParseState): nat
  {
    match state
    case EndState => 0
    case NormalStarState => 1
    case LumClassIaState => 1
    case LumClassIIState => 1
    case LumClassVState => 1
    case WDSubclassState => 1
    case NeutronStarSubclassState => 1
    case LumClassIdashState => 2
    case WDExtendedTypeState => 2
    case NeutronStarExtendedTypeState => 2
    case LumClassIState => 3
    case WDTypeState => 3
    case NeutronStarTypeState => 3
    case LumClassBeginState => 4
    case NormalStarSubclassFinalState => 5
    case NormalStarSubclassDecimalState => 6
    case NormalStarSubclassState => 7
    case WolfRayetTypeState => 8
    case NormalStarClassState => 9
    case SubdwarfPrefixState => 10
    case BeginState => 11
  }

  /** One transition makes progress: to a state of lower rank, or along a feature-letter
      loop to the next character. */
  predicate Progress(st: string, state: ParseState, i: nat, state': ParseState, i': nat)
  {
    Rank(state') < Rank(state) || (state' == state && i < |st| && i' == i + 1)
  }

  /** `StellarClass::parse`. The record `f` holds the four result variables. */
  method ParseSpectralType(st: string) returns (r: Spectral)
    ensures r == Parse(st)
  {
    var i: nat := 0;
    var state := BeginState;
    var f := Unclassified;
    while state != EndState
      invariant Finish(st, state, i, f) == Parse(st)
      decreases Rank(state), |st| - i
    {
      var c := if i < |st| then st[i] else '\0';
      var state', i', f';
      if state == BeginState {
        state', i', f' := BeginStep(st, i, c, f);
      } else if state.LumClassBeginState? || state.LumClassIState? || state.LumClassIIState? || state.LumClassVState?
                || state.LumClassIdashState? || state.LumClassIaState? {
        state', i', f' := LuminosityStep(st, state, i, c, f);
      } else if state.WDTypeState? || state.WDExtendedTypeState? || state.WDSubclassState?
                || state.NeutronStarTypeState? || state.NeutronStarExtendedTypeState? || state.NeutronStarSubclassState? {
        state', i', f' := CompactStep(st, state, i, c, f);
      } else {
        state', i', f' := NormalStep(st, state, i, c, f);
      }
      state, i, f := state', i', f';
    }
    r := f;
  }

  method BeginStep(st: string, i: nat, c: char, f: Spectral) returns (state': ParseState, i': nat, f': Spectral)
    requires c == At(st, i)
    ensures Finish(st, state', i', f') == Finish(st, BeginState, i, f)
    ensures Progress(st, BeginState, i, state', i')
  {
    state', i', f' := BeginState, i, f;
    match c {
      case 'Q' =>
        f' := f'.(starType := NeutronStar, specClass := SpectralQ);
        state' := NeutronStarTypeState;
      case 'X' =>
        f' := f'.(starType := BlackHole);
        state' := EndState;
      case 'D' =>
        f' := f'.(starType := WhiteDwarf, specClass := SpectralD);
        state' := WDTypeState;
        i' := i' + 1;
      case 's' =>
        state' := SubdwarfPrefixState;
        i' := i' + 1;
      case '?' =>
        state' := EndState;
      case _ =>
        state' := NormalStarClassState;
    }
  }

  method NormalStep(st: string, state: ParseState, i: nat, c: char, f: Spectral)
    returns (state': ParseState, i': nat, f': Spectral)
    requires c == At(st, i)
    requires state.WolfRayetTypeState? || state.SubdwarfPrefixState? || state.NormalStarClassState?
             || state.NormalStarSubclassState? || state.NormalStarSubclassDecimalState?
             || state.NormalStarSubclassFinalState? || state.NormalStarState?
    ensures Finish(st, state', i', f') == Finish(st, state, i, f)
    ensures Progress(st, state, i, state', i')
  {
    state', i', f' := state, i, f;
    match state {
      case WolfRayetTypeState =>
        match c {
          case 'C' =>
            f' := f'.(specClass := SpectralWC);
            i' := i' + 1;
          case 'N' =>
            f' := f'.(specClass := SpectralWN);
            i' := i' + 1;
          case 'O' =>
            f' := f'.(specClass := SpectralWO);
            i' := i' + 1;
          case _ =>
            f' := f'.(specClass := SpectralWC);
        }
        state' := NormalStarSubclassState;
      case SubdwarfPrefixState =>
        if c == 'd' {
          f' := f'.(lumClass := LumVI);
          state' := NormalStarClassState;
          i' := i' + 1;
        } else {
          state' := EndState;
        }
      case NormalStarClassState =>
        if c == 'W' {
          state' := WolfRayetTypeState;
        } else if ClassLetter(c).Some? {
          f' := f'.(specClass := ClassLetter(c).value);
          state' := NormalStarSubclassState;
        } else {
          state' := EndState;
        }
        i' := i' + 1;
      case NormalStarSubclassState =>
        if IsDigit(c) {
          f' := f'.(subclass := DigitValue(c));
          state' := NormalStarSubclassDecimalState;
          i' := i' + 1;
        } else {
          state' := LumClassBeginState;
        }
      case NormalStarSubclassDecimalState =>
        if c == '.' {
          state' := NormalStarSubclassFinalState;
          i' := i' + 1;
        } else {
          state' := LumClassBeginState;
        }
      case NormalStarSubclassFinalState =>
        state' := if IsDigit(c) then LumClassBeginState else EndState;
        i' := i' + 1;
      case NormalStarState =>
        // The machine never enters this state; the source asserts as much and stops.
        state' := EndState;
    }
  }

  method LuminosityStep(st: string, state: ParseState, i: nat, c: char, f: Spectral)
    returns (state': ParseState, i': nat, f': Spectral)
    requires c == At(st, i)
    requires state.LumClassBeginState? || state.LumClassIState? || state.LumClassIIState? || state.LumClassVState?
             || state.LumClassIdashState? || state.LumClassIaState?
    ensures Finish(st, state', i', f') == Finish(st, state, i, f)
    ensures Progress(st, state, i, state', i')
  {
    state', i', f' := state, i, f;
    match state {
      case LumClassBeginState =>
        state' := if c == 'I' then LumClassIState else if c == 'V' then LumClassVState else EndState;
        i' := i' + 1;
      case LumClassIState =>
        match c {
          case 'I' =>
            state' := LumClassIIState;
          case 'V' =>
            f' := f'.(lumClass := LumIV);
            state' := EndState;
          case 'a' =>
            state' := LumClassIaState;
          case 'b' =>
            f' := f'.(lumClass := LumIb);
            state' := EndState;
          case '-' =>
            state' := LumClassIdashState;
          case _ =>
            f' := f'.(lumClass := LumIb);
            state' := EndState;
        }
        i' := i' + 1;
      case LumClassIIState =>
        f' := f'.(lumClass := if c == 'I' then LumIII else LumII);
        state' := EndState;
      case LumClassIdashState =>
        if c == 'a' {
          state' := LumClassIaState;
        } else {
          f' := f'.(lumClass := LumIb);
          state' := EndState;
        }
      case LumClassIaState =>
        f' := f'.(lumClass := if c == '0' then LumIa0 else LumIa);
        state' := EndState;
      case LumClassVState =>
        f' := f'.(lumClass := if c == 'I' then LumVI else LumV);
        state' := EndState;
    }
  }

  method CompactStep(st: string, state: ParseState, i: nat, c: char, f: Spectral)
    returns (state': ParseState, i': nat, f': Spectral)
    requires c == At(st, i)
    requires state.WDTypeState? || state.WDExtendedTypeState? || state.WDSubclassState?
             || state.NeutronStarTypeState? || state.NeutronStarExtendedTypeState? || state.NeutronStarSubclassState?
    ensures Finish(st, state', i', f') == Finish(st, state, i, f)
    ensures Progress(st, state, i, state', i')
  {
    state', i', f' := state, i, f;
    match state {
      case WDTypeState =>
        if WdLetter(c).Some? {
          f' := f'.(specClass := WdLetter(c).value);
          i' := i' + 1;
        } else {
          f' := f'.(specClass := SpectralD);
        }
        state' := WDExtendedTypeState;
      case WDExtendedTypeState =>
        if IsWdFeature(c) {
          i' := i' + 1;
        } else {
          state' := WDSubclassState;
        }
      case WDSubclassState =>
        if IsDigit(c) {
          f' := f'.(subclass := DigitValue(c));
          i' := i' + 1;
        }
        state' := EndState;
      case NeutronStarTypeState =>
        match c {
          case 'N' =>
            f' := f'.(specClass := SpectralQN);
            i' := i' + 1;
          case 'P' =>
            f' := f'.(specClass := SpectralQP);
            i' := i' + 1;
          case 'M' =>
            f' := f'.(specClass := SpectralQM);
            i' := i' + 1;
          case _ =>
            f' := f'.(specClass := SpectralQ);
        }
        state' := NeutronStarExtendedTypeState;
      case NeutronStarExtendedTypeState =>
        if IsNeutronStarFeature(c) {
          i' := i' + 1;
        } else {
          state' := NeutronStarSubclassState;
        }
      case NeutronStarSubclassState =>
        if IsDigit(c) {
          f' := f'.(subclass := DigitValue(c));
          i' := i' + 1;
        }
        state' := EndState;
    }
  }

  // Properties of the parse.

  /** A leading 'Q' is never consumed: it is read again as the neutron-star type, then as a
      non-digit, so whatever follows it is ignored. */
  lemma ParseNeutronStar(st: string)
    requires |st| > 0 && st[0] == 'Q'
    ensures Parse(st) == Spectral(NeutronStar, SpectralQ, SubclassUnknown, LumUnknown)
  {
  }

  lemma ParseBlackHole(st: string)
    requires |st| > 0 && st[0] == 'X'
    ensures Parse(st) == Spectral(BlackHole, SpectralUnknown, SubclassUnknown, LumUnknown)
  {
  }

  /** An empty type, or one that starts with '?', leaves everything unknown. */
  lemma ParseUnknown(st: string)
    requires |st| == 0 || st[0] == '?'
    ensures Parse(st) == Unclassified
  {
  }

  /** The feature-letter loops skip to the end of the run of feature letters and read one
      digit there, if any, as the subclass; nothing else changes. */
  lemma {:induction false} WdExtendedShape(st: string, i: nat, f: Spectral)
    ensures WdExtendedFrom(st, i, f) == DigitFrom(st, WdFeaturesEnd(st, i), f)
    ensures var r := WdExtendedFrom(st, i, f); r == f.(subclass := r.subclass) && (r.subclass == f.subclass || r.subclass <= 9)
    decreases |st| - i
  {
    if IsWdFeature(At(st, i)) {
      WdExtendedShape(st, i + 1, f);
    }
  }

  lemma {:induction false} NeutronStarExtendedShape(st: string, i: nat, f: Spectral)
    ensures NeutronStarExtendedFrom(st, i, f) == DigitFrom(st, NeutronStarFeaturesEnd(st, i), f)
    ensures var r := NeutronStarExtendedFrom(st, i, f);
      r == f.(subclass := r.subclass) && (r.subclass == f.subclass || r.subclass <= 9)
    decreases |st| - i
  {
    if IsNeutronStarFeature(At(st, i)) {
      NeutronStarExtendedShape(st, i + 1, f);
    }
  }

  /** After 'D': the class is DA..DX by the next letter, else D; luminosity stays as it was
      and the subclass is the digit after the run of feature letters, if any. The class
      letters are feature letters too, so the run is the same whether or not one was taken. */
  lemma WdTypeShape(st: string, i: nat, f: Spectral)
    ensures var r := WdTypeFrom(st, i, f);
      && r == f.(specClass := r.specClass, subclass := r.subclass)
      && r.specClass == (if WdLetter(At(st, i)).Some? then WdLetter(At(st, i)).value else SpectralD)
      && r.subclass == DigitFrom(st, WdFeaturesEnd(st, i), f).subclass
      && (r.subclass == f.subclass || r.subclass <= 9)
  {
    match WdLetter(At(st, i))
    case Some(sc) =>
      WdExtendedShape(st, i + 1, f.(specClass := sc));
      assert WdFeaturesEnd(st, i) == WdFeaturesEnd(st, i + 1);
    case None => WdExtendedShape(st, i, f.(specClass := SpectralD));
  }

  lemma NeutronStarTypeShape(st: string, i: nat, f: Spectral)
    ensures var r := NeutronStarTypeFrom(st, i, f);
      && r == f.(specClass := r.specClass, subclass := r.subclass)
      && SpectralQ <= r.specClass <= SpectralQM
      && r.subclass == DigitFrom(st, NeutronStarFeaturesEnd(st, i), f).subclass
      && (r.subclass == f.subclass || r.subclass <= 9)
  {
    match At(st, i)
    case 'N' => NeutronStarExtendedShape(st, i + 1, f.(specClass := SpectralQN));
    case 'P' => NeutronStarExtendedShape(st, i + 1, f.(specClass := SpectralQP));
    case 'M' => NeutronStarExtendedShape(st, i + 1, f.(specClass := SpectralQM));
    case _ => NeutronStarExtendedShape(st, i, f.(specClass := SpectralQ));
  }

  /** A leading 'D' is a white dwarf: DA..DX by the next letter or plain D, the feature
      letters that follow skipped, the digit after them (if any) for the subclass, and no
      luminosity. */
  lemma ParseWhiteDwarf(st: string)
    requires |st| > 0 && st[0] == 'D'
    ensures Parse(st).starType == WhiteDwarf && Parse(st).lumClass == LumUnknown
    ensures Parse(st).specClass == (if WdLetter(At(st, 1)).Some? then WdLetter(At(st, 1)).value else SpectralD)
    ensures var k := WdFeaturesEnd(st, 1);
      Parse(st).subclass == (if IsDigit(At(st, k)) then DigitValue(At(st, k)) else SubclassUnknown)
    ensures Parse(st).subclass == SubclassUnknown || Parse(st).subclass <= 9
  {
    WdTypeShape(st, 1, Unclassified.(starType := WhiteDwarf, specClass := SpectralD));
  }

  /** Whatever the string, the star type is one of the four, the luminosity is a class or
      unknown, and the subclass is a single digit or unknown: a decimal part is dropped. */
  lemma ParseRanges(st: string)
    ensures InRange(Parse(st))
  {
    var f := Unclassified;
    match At(st, 0)
    case 'Q' => NeutronStarTypeShape(st, 0, f.(starType := NeutronStar, specClass := SpectralQ));
    case 'D' => WdTypeShape(st, 1, f.(starType := WhiteDwarf, specClass := SpectralD));
    case 's' => ClassFromRanges(st, 2, f.(lumClass := LumVI));
    case _ => ClassFromRanges(st, 0, f);
  }

  predicate InRange(r: Spectral)
  {
    r.starType <= BlackHole && r.lumClass <= LumUnknown && (r.subclass == SubclassUnknown || r.subclass <= 9)
  }

  lemma SubclassFromRanges(st: string, i: nat, f: Spectral)
    requires InRange(f)
    ensures InRange(SubclassFrom(st, i, f))
  {
  }

  lemma ClassFromRanges(st: string, i: nat, f: Spectral)
    requires InRange(f)
    ensures InRange(ClassFrom(st, i, f))
  {
    if At(st, i) == 'W' {
      match At(st, i + 1)
      case 'C' => SubclassFromRanges(st, i + 2, f.(specClass := SpectralWC));
      case 'N' => SubclassFromRanges(st, i + 2, f.(specClass := SpectralWN));
      case 'O' => SubclassFromRanges(st, i + 2, f.(specClass := SpectralWO));
      case _ => SubclassFromRanges(st, i + 1, f.(specClass := SpectralWC));
    } else if ClassLetter(At(st, i)).Some? {
      SubclassFromRanges(st, i + 1, f.(specClass := ClassLetter(At(st, i)).value));
    }
  }

  lemma AtShift(p: string, s: string, i: nat)
    ensures At(p + s, |p| + i) == At(s, i)
  {
  }

  /** The normal-star readings depend only on the characters from `i` on. */
  lemma LumFromShift(p: string, s: string, i: nat, lum: Nibble)
    ensures LumFrom(p + s, |p| + i, lum) == LumFrom(s, i, lum)
  {
    AtShift(p, s, i);
    AtShift(p, s, i + 1);
    AtShift(p, s, i + 2);
  }

  lemma SubclassFromShift(p: string, s: string, i: nat, f: Spectral)
    ensures SubclassFrom(p + s, |p| + i, f) == SubclassFrom(s, i, f)
  {
    AtShift(p, s, i);
    AtShift(p, s, i + 1);
    AtShift(p, s, i + 2);
    LumFromShift(p, s, i, f.lumClass);
    LumFromShift(p, s, i + 1, f.lumClass);
    LumFromShift(p, s, i + 3, f.lumClass);
  }

  lemma ClassFromShift(p: string, s: string, i: nat, f: Spectral)
    ensures ClassFrom(p + s, |p| + i, f) == ClassFrom(s, i, f)
  {
    AtShift(p, s, i);
    if At(s, i) == 'W' {
      WolfRayetFromShift(p, s, i + 1, f);
    } else if ClassLetter(At(s, i)).Some? {
      LetterClassFromShift(p, s, i, f);
    }
  }

  lemma LetterClassFromShift(p: string, s: string, i: nat, f: Spectral)
    requires At(s, i) != 'W' && ClassLetter(At(s, i)).Some?
    ensures ClassFrom(p + s, |p| + i, f) == ClassFrom(s, i, f)
  {
    AtShift(p, s, i);
    SubclassFromShift(p, s, i + 1, f.(specClass := ClassLetter(At(s, i)).value));
  }

  lemma WolfRayetFromShift(p: string, s: string, i: nat, f: Spectral)
    ensures WolfRayetFrom(p + s, |p| + i, f) == WolfRayetFrom(s, i, f)
  {
    AtShift(p, s, i);
    match At(s, i)
    case 'C' => SubclassFromShift(p, s, i + 1, f.(specClass := SpectralWC));
    case 'N' => SubclassFromShift(p, s, i + 1, f.(specClass := SpectralWN));
    case 'O' => SubclassFromShift(p, s, i + 1, f.(specClass := SpectralWO));
    case _ => SubclassFromShift(p, s, i, f.(specClass := SpectralWC));
  }

  /** The luminosity an "sd" prefix presets: kept unless a luminosity class was read. */
  function Preset(r: Spectral, lum: Nibble): Spectral
  {
    r.(lumClass := if r.lumClass == LumUnknown then lum else r.lumClass)
  }

  lemma LumFromPreset(st: string, i: nat, lum: Nibble)
    ensures LumFrom(st, i, lum) == if LumFrom(st, i, LumUnknown) == LumUnknown then lum else LumFrom(st, i, LumUnknown)
  {
  }

  lemma SubclassFromPreset(st: string, i: nat, f: Spectral, lum: Nibble)
    requires f.lumClass == LumUnknown
    ensures SubclassFrom(st, i, f.(lumClass := lum)) == Preset(SubclassFrom(st, i, f), lum)
  {
    LumFromPreset(st, i, lum);
    LumFromPreset(st, i + 1, lum);
    LumFromPreset(st, i + 3, lum);
  }

  lemma ClassFromPreset(st: string, i: nat, f: Spectral, lum: Nibble)
    requires f.lumClass == LumUnknown
    ensures ClassFrom(st, i, f.(lumClass := lum)) == Preset(ClassFrom(st, i, f), lum)
  {
    if At(st, i) == 'W' {
      match At(st, i + 1)
      case 'C' => SubclassFromPreset(st, i + 2, f.(specClass := SpectralWC), lum);
      case 'N' => SubclassFromPreset(st, i + 2, f.(specClass := SpectralWN), lum);
      case 'O' => SubclassFromPreset(st, i + 2, f.(specClass := SpectralWO), lum);
      case _ => SubclassFromPreset(st, i + 1, f.(specClass := SpectralWC), lum);
    } else if ClassLetter(At(st, i)).Some? {
      SubclassFromPreset(st, i + 1, f.(specClass := ClassLetter(At(st, i)).value), lum);
    }
  }

  /** An "sd" prefix before a normal type gives that type with luminosity VI, unless the
      type carries its own luminosity class. */
  lemma ParseSubdwarf(s: string)
    requires At(s, 0) != 'Q' && At(s, 0) != 'X' && At(s, 0) != 'D' && At(s, 0) != 's' && At(s, 0) != '?'
    ensures Parse("sd" + s) == Preset(Parse(s), LumVI)
  {
    ClassFromShift("sd", s, 0, Unclassified.(lumClass := LumVI));
    ClassFromPreset(s, 0, Unclassified, LumVI);
    assert At("sd" + s, 0) == 's' && At("sd" + s, 1) == 'd';
  }

  /** A class letter and a digit with no decimal point after them: the luminosity is read
      from the rest. */
  lemma ParseNormalStar(letter: char, digit: char, rest: string)
    requires ClassLetter(letter).Some? && IsDigit(digit) && At(rest, 0) != '.'
    ensures Parse([letter, digit] + rest)
      == Spectral(NormalStar, ClassLetter(letter).value, DigitValue(digit), LumFrom(rest, 0, LumUnknown))
  {
    LumFromShift([letter, digit], rest, 0, LumUnknown);
    AtShift([letter, digit], rest, 0);
  }

  /** A decimal part after the subclass digit is dropped: a digit after the point is
      skipped and the luminosity read from what follows it; a point followed by anything
      else ends the parse with the luminosity unknown. */
  lemma ParseNormalStarDecimal(letter: char, digit: char, c: char, rest: string)
    requires ClassLetter(letter).Some? && IsDigit(digit)
    ensures var r := Parse([letter, digit, '.', c] + rest);
      && r.starType == NormalStar && r.specClass == ClassLetter(letter).value && r.subclass == DigitValue(digit)
      && r.lumClass == (if IsDigit(c) then LumFrom(rest, 0, LumUnknown) else LumUnknown)
  {
    LumFromShift([letter, digit, '.', c], rest, 0, LumUnknown);
    assert At([letter, digit, '.', c] + rest, 2) == '.' && At([letter, digit, '.', c] + rest, 3) == c;
  }

  /** So "G2.5V" reads as "G2V", and "G2.V" loses its luminosity. */
  lemma ParseDecimalExamples()
    ensures Parse("G2.5V") == Parse("G2V") == Spectral(NormalStar, SpectralG, 2, LumV)
    ensures Parse("G2.V") == Spectral(NormalStar, SpectralG, 2, LumUnknown)
  {
    ParseNormalStarDecimal('G', '2', '5', "V");
    ParseNormalStarDecimal('G', '2', 'V', "");
    ParseNormalStar('G', '2', "V");
    assert "G2.5V" == ['G', '2', '.', '5'] + "V";
    assert "G2.V" == ['G', '2', '.', 'V'] + "";
    assert "G2V" == ['G', '2'] + "V";
  }

  /** The luminosity suffixes, whatever luminosity was preset. */
  lemma LuminositySuffixes(lum: Nibble)
    ensures LumFrom("Ia0", 0, lum) == LumIa0 && LumFrom("Ia", 0, lum) == LumIa && LumFrom("I-a", 0, lum) == LumIa
    ensures LumFrom("I-a0", 0, lum) == LumIa
    ensures LumFrom("Ib", 0, lum) == LumIb && LumFrom("I-b", 0, lum) == LumIb && LumFrom("I", 0, lum) == LumIb
    ensures LumFrom("II", 0, lum) == LumII && LumFrom("III", 0, lum) == LumIII && LumFrom("IV", 0, lum) == LumIV
    ensures LumFrom("V", 0, lum) == LumV && LumFrom("VI", 0, lum) == LumVI
    ensures LumFrom("", 0, lum) == lum && LumFrom(" V", 0, lum) == lum
  {
  }

  lemma ClassLetterOfStr(sc: ClassCode)
    requires sc <= SpectralN || SpectralL <= sc <= SpectralC
    ensures ClassLetter(Lookup("OBAFGKMRSNWW?LTYC", sc)) == Some(sc)
  {
  }

  /** `parse` reads back what `str` writes for a normal star with a class letter of its own,
      except the luminosity: `str` puts a space before it, where the parse stops. */
  lemma ParseStr(v: Spectral)
    requires v.starType == NormalStar
    requires v.specClass <= SpectralN || SpectralL <= v.specClass <= SpectralC
    requires v.subclass <= 9 || v.subclass == SubclassUnknown
    ensures Parse(Str(v)) == v.(lumClass := LumUnknown)
  {
    var st := Str(v);
    ClassLetterOfStr(v.specClass);
    assert At(st, 2) == ' ' || At(st, 2) == '\0' by {
      assert st[2..] == LumSuffix(v.lumClass);
    }
  }
}
