// Lane guidance: Android Auto lane shapes to OEM lane codes (hud_lane.h) and to the
// cluster glyphs of the basic instrument cluster.
module Lanes {
  const MAX_LANES: nat := 8

  // The arrows drawn in one lane and the recommended ones among them. The two 16-bit
  // masks are the sets of the shapes (0..9) whose bit is set.
  datatype AaLane = AaLane(present: set<nat>, highlight: set<nat>)

  const NO_LANE := AaLane({}, {})

  predicate LaneOk(lane: AaLane) {
    lane.highlight <= lane.present && forall s :: s in lane.present ==> s <= 9
  }

  // --- direction sets ----------------------------------------------------------

  const STRAIGHT: bv8 := 0x01
  const SLIGHT_R: bv8 := 0x02
  const RIGHT: bv8 := 0x04
  const SHARP_R: bv8 := 0x08
  const SLIGHT_L: bv8 := 0x10
  const LEFT: bv8 := 0x20
  const SHARP_L: bv8 := 0x40

  // A U-turn counts as the sharp turn of its side, an unknown shape as straight.
  function DirOf(shape: nat): bv8 {
    match shape
    case 1 => STRAIGHT
    case 3 => SLIGHT_R
    case 5 => RIGHT
    case 7 => SHARP_R
    case 9 => SHARP_R
    case 2 => SLIGHT_L
    case 4 => LEFT
    case 6 => SHARP_L
    case 8 => SHARP_L
    case _ => STRAIGHT
  }

  // One more shape.
  function Collect(dirs: bv8, mask: set<nat>, shape: nat): bv8 {
    dirs | (if shape in mask then DirOf(shape) else 0)
  }

  function DirsUpTo(mask: set<nat>, k: nat): bv8 {
    if k == 0 then 0 else Collect(DirsUpTo(mask, k - 1), mask, k - 1)
  }

  function Dirs(mask: set<nat>): bv8 {
    DirsUpTo(mask, 10)
  }

  // --- direction sets to codes ---------------------------------------------------

  // The recommended code for a recognised direction set, 0 for any other set.
  function BaseCode(d: bv8): (c: nat)
    ensures c <= 19
  {
    if d == STRAIGHT then 1
    else if d == SLIGHT_R then 2
    else if d == RIGHT then 3
    else if d == SHARP_R then 4
    else if d == SLIGHT_L then 5
    else if d == LEFT then 6
    else if d == SHARP_L then 7
    else if d == STRAIGHT | SLIGHT_R then 8
    else if d == STRAIGHT | SLIGHT_L then 9
    else if d == SLIGHT_L | STRAIGHT | SLIGHT_R then 10
    else if d == STRAIGHT | RIGHT then 11
    else if d == STRAIGHT | LEFT then 12
    else if d == LEFT | STRAIGHT | RIGHT then 13
    else if d == SLIGHT_R | SHARP_R then 14
    else if d == SLIGHT_L | SHARP_L then 15
    else if d == SLIGHT_L | SLIGHT_R then 16
    else if d == LEFT | RIGHT then 19
    else 0
  }

  // The finer code of a recommended combination with one direction singled out.
  function DetailCode(base: nat, hl: bv8): (c: nat)
    ensures c == 0 || 23 <= c <= 48
  {
    match base
    case 8 => if hl == STRAIGHT then 23 else if hl == SLIGHT_R then 24 else 0
    case 9 => if hl == STRAIGHT then 25 else if hl == SLIGHT_L then 26 else 0
    case 10 => if hl == STRAIGHT then 27 else if hl == SLIGHT_L then 28 else if hl == SLIGHT_R then 29 else 0
    case 11 => if hl == STRAIGHT then 30 else if hl == RIGHT then 31 else 0
    case 12 => if hl == STRAIGHT then 32 else if hl == LEFT then 33 else 0
    case 13 => if hl == STRAIGHT then 34 else if hl == LEFT then 35 else if hl == RIGHT then 36 else 0
    case 14 => if hl == SLIGHT_R then 37 else if hl == SHARP_R then 38 else 0
    case 15 => if hl == SLIGHT_L then 39 else if hl == SHARP_L then 40 else 0
    case 16 => if hl == SLIGHT_L then 41 else if hl == SLIGHT_R then 42 else 0
    case 19 => if hl == LEFT then 47 else if hl == RIGHT then 48 else 0
    case _ => 0
  }

  predicate OneBit(d: bv8) {
    d != 0 && d & (d - 1) == 0
  }

  function CodeOfDirs(present: bv8, hl: bv8): nat {
    if present == 0 then 0
    else
      var base := BaseCode(present);
      var detail := if OneBit(hl) then DetailCode(base, hl) else 0;
      if detail != 0 then detail
      else
        var pick := if OneBit(hl) then hl else present & (0 - present);
        var arrow := if base != 0 then base else if BaseCode(pick) != 0 then BaseCode(pick) else 1;
        if hl != 0 then arrow else arrow + 48
  }

  function CodeOf(lane: AaLane): nat {
    CodeOfDirs(Dirs(lane.present), Dirs(lane.highlight))
  }

  // The tail of oem_lane_code_for_aa, once both direction sets are known.
  method Classify(present: bv8, hl: bv8) returns (code: nat)
    ensures code == CodeOfDirs(present, hl)
  {
    if present == 0 { return 0; }
    var recommended := hl != 0;
    var base := BaseCode(present);
    var oneHl := OneBit(hl);
    if recommended && oneHl {
      var detail := DetailCode(base, hl);
      if detail != 0 { return detail; }
    }
    if base == 0 {
      var pick := if oneHl then hl else present & (0 - present);
      base := BaseCode(pick);
      if base == 0 { base := 1; }
    }
    code := if recommended then base else base + 48;
  }

  // The head of oem_lane_code_for_aa: both direction sets, shape by shape.
  method AccumulateDirs(lane: AaLane, shapes: nat) returns (present: bv8, hl: bv8)
    ensures present == DirsUpTo(lane.present, shapes) && hl == DirsUpTo(lane.highlight, shapes)
  {
    present, hl := 0, 0;
    for s := 0 to shapes
      invariant present == DirsUpTo(lane.present, s) && hl == DirsUpTo(lane.highlight, s)
    {
      present := Collect(present, lane.present, s);
      hl := Collect(hl, lane.highlight, s);
    }
  }

  method LaneCode(lane: AaLane) returns (code: nat)
    ensures code == CodeOf(lane)
  {
    var present, hl := AccumulateDirs(lane, 10);
    code := Classify(present, hl);
  }

  // --- what the codes mean ----------------------------------------------------------

  // The arrows the head unit draws for shape number 1..22 (20..22 are lane types).
  function ArrowDirs(arrow: nat): bv8 {
    match arrow
    case 1 => STRAIGHT
    case 2 => SLIGHT_R
    case 3 => RIGHT
    case 4 => SHARP_R
    case 5 => SLIGHT_L
    case 6 => LEFT
    case 7 => SHARP_L
    case 8 => STRAIGHT | SLIGHT_R
    case 9 => STRAIGHT | SLIGHT_L
    case 10 => SLIGHT_L | STRAIGHT | SLIGHT_R
    case 11 => STRAIGHT | RIGHT
    case 12 => STRAIGHT | LEFT
    case 13 => LEFT | STRAIGHT | RIGHT
    case 14 => SLIGHT_R | SHARP_R
    case 15 => SLIGHT_L | SHARP_L
    case 16 => SLIGHT_L | SLIGHT_R
    case 17 => STRAIGHT | RIGHT
    case 18 => STRAIGHT | LEFT
    case 19 => LEFT | RIGHT
    case _ => 0
  }

  // What a lane code tells the driver: the arrows shown, the one singled out (0 for
  // none) and whether the lane is recommended.
  datatype Meaning = Meaning(shown: bv8, take: bv8, recommended: bool)

  function MeaningOf(code: nat): Meaning {
    if code >= 49 then Meaning(ArrowDirs(code - 48), 0, false)
    else if code <= 22 then Meaning(ArrowDirs(code), 0, code != 0)
    else match code
      case 23 => Meaning(ArrowDirs(8), STRAIGHT, true)
      case 24 => Meaning(ArrowDirs(8), SLIGHT_R, true)
      case 25 => Meaning(ArrowDirs(9), STRAIGHT, true)
      case 26 => Meaning(ArrowDirs(9), SLIGHT_L, true)
      case 27 => Meaning(ArrowDirs(10), STRAIGHT, true)
      case 28 => Meaning(ArrowDirs(10), SLIGHT_L, true)
      case 29 => Meaning(ArrowDirs(10), SLIGHT_R, true)
      case 30 => Meaning(ArrowDirs(11), STRAIGHT, true)
      case 31 => Meaning(ArrowDirs(11), RIGHT, true)
      case 32 => Meaning(ArrowDirs(12), STRAIGHT, true)
      case 33 => Meaning(ArrowDirs(12), LEFT, true)
      case 34 => Meaning(ArrowDirs(13), STRAIGHT, true)
      case 35 => Meaning(ArrowDirs(13), LEFT, true)
      case 36 => Meaning(ArrowDirs(13), RIGHT, true)
      case 37 => Meaning(ArrowDirs(14), SLIGHT_R, true)
      case 38 => Meaning(ArrowDirs(14), SHARP_R, true)
      case 39 => Meaning(ArrowDirs(15), SLIGHT_L, true)
      case 40 => Meaning(ArrowDirs(15), SHARP_L, true)
      case 41 => Meaning(ArrowDirs(16), SLIGHT_L, true)
      case 42 => Meaning(ArrowDirs(16), SLIGHT_R, true)
      case 43 => Meaning(ArrowDirs(11), STRAIGHT, true)
      case 44 => Meaning(ArrowDirs(11), RIGHT, true)
      case 45 => Meaning(ArrowDirs(12), STRAIGHT, true)
      case 46 => Meaning(ArrowDirs(12), LEFT, true)
      case 47 => Meaning(ArrowDirs(19), LEFT, true)
      case _ => Meaning(ArrowDirs(19), RIGHT, true)
  }

  // A set has a base code exactly when the head unit can draw it.
  lemma BaseCodeComplete(d: bv8)
    requires d != 0
    ensures BaseCode(d) != 0 ==> ArrowDirs(BaseCode(d)) == d
    ensures BaseCode(d) == 0 ==> forall c: nat :: ArrowDirs(c) != d
  {
  }

  // A single direction is always drawable, and a detail code exists exactly for one
  // direction of a drawable combination.
  lemma DetailComplete(present: bv8, hl: bv8)
    requires OneBit(hl) && hl & !present == 0 && BaseCode(present) != 0
    ensures DetailCode(BaseCode(present), hl) == 0 <==> OneBit(present)
    ensures !OneBit(present) ==>
              MeaningOf(DetailCode(BaseCode(present), hl)) == Meaning(present, hl, true)
  {
  }

  lemma OneBitDrawable(d: bv8)
    requires OneBit(d) && d & 0x80 == 0
    ensures 1 <= BaseCode(d) <= 7
  {
  }

  lemma LowestBit(d: bv8)
    requires d != 0 && d & 0x80 == 0
    ensures OneBit(d & (0 - d)) && (d & (0 - d)) & 0x80 == 0 && (d & (0 - d)) & !d == 0
  {
  }

  // The code sent for a lane says what the lane is: recommended exactly when a direction
  // is highlighted; all its arrows when the head unit can draw them, with the highlighted
  // one singled out of a combination; otherwise one of its arrows, the highlighted one
  // if it is unique.
  lemma CodeMeaning(present: bv8, hl: bv8)
    requires present != 0 && present & 0x80 == 0 && hl & !present == 0
    ensures var m := MeaningOf(CodeOfDirs(present, hl));
            && m.recommended == (hl != 0)
            && (BaseCode(present) != 0 ==>
                  m.shown == present && m.take == if OneBit(hl) && !OneBit(present) then hl else 0)
            && (BaseCode(present) == 0 ==>
                  OneBit(m.shown) && m.shown & !present == 0 && m.take == 0 && (OneBit(hl) ==> m.shown == hl))
  {
    BaseCodeComplete(present);
    LowestBit(present);
    if OneBit(hl) && BaseCode(present) != 0 {
      DetailComplete(present, hl);
    } else if BaseCode(present) == 0 {
      var pick := if OneBit(hl) then hl else present & (0 - present);
      OneBitDrawable(pick);
      BaseCodeComplete(pick);
    }
  }

  lemma CodeRange(present: bv8, hl: bv8)
    requires present & 0x80 == 0 && hl & !present == 0
    ensures CodeOfDirs(present, hl) <= 70
    ensures CodeOfDirs(present, hl) == 0 <==> present == 0
    ensures 1 <= CodeOfDirs(present, hl) <= 48 <==> hl != 0
  {
  }

  // --- from masks to directions --------------------------------------------------------

  lemma {:induction false} DirsSubset(present: set<nat>, highlight: set<nat>, k: nat)
    requires k <= 10 && highlight <= present
    ensures DirsUpTo(present, k) & 0x80 == 0
    ensures DirsUpTo(highlight, k) & !DirsUpTo(present, k) == 0
  {
    if k > 0 {
      DirsSubset(present, highlight, k - 1);
      OrFacts(DirsUpTo(present, k - 1), DirsUpTo(highlight, k - 1), DirOf(k - 1));
    }
  }

  lemma {:induction false} DirsNonempty(mask: set<nat>, k: nat)
    requires k <= 10
    ensures DirsUpTo(mask, k) != 0 <==> exists s: nat :: s < k && s in mask
  {
    if k > 0 {
      DirsNonempty(mask, k - 1);
      OrNonzero(DirsUpTo(mask, k - 1), DirOf(k - 1));
      assert k - 1 in mask || DirsUpTo(mask, k) == DirsUpTo(mask, k - 1);
    }
  }

  lemma OrFacts(p: bv8, h: bv8, d: bv8)
    requires p & 0x80 == 0 && h & !p == 0 && d & 0x80 == 0
    ensures (p | d) & 0x80 == 0 && (h | d) & !(p | d) == 0 && h & !(p | d) == 0
    ensures p | 0 == p && h | 0 == h
  {
  }

  lemma OrNonzero(p: bv8, d: bv8)
    requires p != 0 || d != 0
    ensures p | d != 0 && p | 0 == p
  {
  }

  lemma LaneCodeRange(lane: AaLane)
    requires LaneOk(lane)
    ensures CodeOf(lane) <= 70
    ensures CodeOf(lane) == 0 <==> lane.present == {}
    ensures 1 <= CodeOf(lane) <= 48 <==> lane.highlight != {}
  {
    DirsSubset(lane.present, lane.highlight, 10);
    DirsNonempty(lane.present, 10);
    DirsNonempty(lane.highlight, 10);
    CodeRange(Dirs(lane.present), Dirs(lane.highlight));
    if lane.present != {} {
      var s :| s in lane.present;
      assert s < 10;
    }
    if lane.highlight != {} {
      var s :| s in lane.highlight;
      assert s < 10;
    }
  }

  // --- the eight slots -------------------------------------------------------------------

  function CodeAt(lanes: seq<AaLane>, i: nat): nat {
    if i < |lanes| then CodeOf(lanes[i]) else 0
  }

  // nav16_encode_lane_codes: eight codes, 0 in the slots beyond the last lane.
  method EncodeLaneCodes(lanes: seq<AaLane>, out: array<nat>)
    requires out.Length == MAX_LANES
    modifies out
    ensures forall i :: 0 <= i < MAX_LANES ==> out[i] == CodeAt(lanes, i)
  {
    for i := 0 to MAX_LANES
      invariant forall j :: 0 <= j < i ==> out[j] == CodeAt(lanes, j)
    {
      if i < |lanes| {
        var code := LaneCode(lanes[i]);
        out[i] := code;
      } else {
        out[i] := 0;
      }
    }
  }

  // --- code to cluster glyph -----------------------------------------------------------

  // Table A of the head unit, by glyph; anything outside 1..70 is empty.
  function GlyphA(code: nat): nat {
    match code
    case 1 | 8 | 9 | 10 | 11 | 12 | 13 | 14 | 15 | 16 | 17 | 18 | 19 => 1
    case 2 | 3 => 2
    case 4 => 3
    case 5 | 6 => 4
    case 7 => 5
    case 23 | 30 | 43 => 6
    case 24 | 31 | 44 | 48 => 7
    case 25 | 32 | 45 => 8
    case 26 | 33 | 46 | 47 => 9
    case 27 | 34 => 10
    case 28 => 11
    case 29 => 12
    case 36 | 37 => 13
    case 38 => 14
    case 35 | 39 => 15
    case 40 => 16
    case 41 => 17
    case 42 => 18
    case 20 => 19
    case 21 => 20
    case 22 => 21
    case 49 => 22
    case 50 | 51 => 23
    case 52 => 24
    case 53 | 54 => 25
    case 55 => 26
    case 56 | 59 => 27
    case 57 | 60 => 28
    case 58 | 61 => 29
    case 62 | 65 => 30
    case 63 | 66 => 31
    case 64 | 67 => 32
    case 68 => 33
    case 69 => 34
    case 70 => 35
    case _ => 0
  }
}
