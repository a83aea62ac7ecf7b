// What a lane drawn on the basic cluster tells the driver (hud_lane.h, vbs_tx.cpp): the
// directions of the lane shapes, and the lane glyphs read as arrows.
module LaneSigns {
  import opened Machine
  import opened Lanes
  import opened VbsTx

  // --- the shapes ----------------------------------------------------------------------

  const ALL_RIGHT: bv8 := 0x0E
  const ALL_LEFT: bv8 := 0x70

  // Odd shapes point right, even ones left, in the order slight, normal, sharp, U-turn.
  lemma ShapeDirection(shape: nat)
    requires shape <= 9
    ensures shape <= 1 ==> DirOf(shape) == STRAIGHT
    ensures shape >= 2 ==>
      DirOf(shape) == (if shape % 2 == 1 then ALL_RIGHT else ALL_LEFT)
                      & (if shape < 4 then 0x12 else if shape < 6 then 0x24 else 0x48)
    ensures OneBit(DirOf(shape)) && DirOf(shape) & 0x80 == 0
  {
  }

  lemma CollectedBit(dirs: bv8, more: bv8, d: bv8)
    requires OneBit(d) && (more == 0 || OneBit(more))
    ensures (dirs | more) & d != 0 <==> dirs & d != 0 || more == d
  {
  }

  // A direction is in the set exactly when some shape points there.
  lemma {:induction false} DirsUpToExactly(mask: set<nat>, k: nat, d: bv8)
    requires k <= 10 && OneBit(d)
    ensures DirsUpTo(mask, k) & d != 0 <==> exists s: nat :: s < k && s in mask && DirOf(s) == d
  {
    if k > 0 {
      DirsUpToExactly(mask, k - 1, d);
      ShapeDirection(k - 1);
      CollectedBit(DirsUpTo(mask, k - 1), if k - 1 in mask then DirOf(k - 1) else 0, d);
    }
  }

  lemma DirsExactly(mask: set<nat>, d: bv8)
    requires OneBit(d)
    ensures Dirs(mask) & d != 0 <==> exists s: nat :: s < 10 && s in mask && DirOf(s) == d
  {
    DirsUpToExactly(mask, 10, d);
  }

  // --- the glyphs ------------------------------------------------------------------------

  // The sides a set of directions points to.
  datatype Ways = Ways(left: bool, ahead: bool, right: bool)

  function WaysOf(dirs: bv8): Ways {
    Ways(dirs & ALL_LEFT != 0, dirs & STRAIGHT != 0, dirs & ALL_RIGHT != 0)
  }

  // A recommended lane shows where to go, a neighbouring one all its sides.
  function GlyphWays(glyph: nat): Ways {
    if glyph in {1, 6, 8, 10, 22} then Ways(false, true, false)
    else if glyph in {2, 3, 7, 12, 13, 14, 18, 23, 24, 30} then Ways(false, false, true)
    else if glyph in {4, 5, 9, 11, 15, 16, 17, 25, 26, 31} then Ways(true, false, false)
    else if glyph == 27 then Ways(false, true, true)
    else if glyph == 28 then Ways(true, true, false)
    else if glyph == 29 then Ways(true, true, true)
    else if glyph == 32 then Ways(true, false, true)
    else Ways(false, false, false)
  }

  predicate Grey(glyph: nat) {
    glyph >= 22
  }

  predicate SharpArrow(glyph: nat) {
    glyph in {3, 5, 24, 26}
  }

  // The codes a lane can get: no alias and no lane type.
  predicate Sendable(code: nat) {
    1 <= code <= 67 && code !in {17, 18, 20, 21, 22, 43, 44, 45, 46, 65, 66}
  }

  lemma CodeSendable(present: bv8, hl: bv8)
    requires present != 0 && present & 0x80 == 0 && hl & !present == 0
    ensures Sendable(CodeOfDirs(present, hl))
  {
  }

  // The glyph of a code agrees with what the code means; a combination with no single way
  // to take is drawn as an arrow ahead.
  predicate CodeDrawn(m: Meaning, g: nat) {
    && 1 <= g <= 32 && (Grey(g) <==> !m.recommended)
    && (m.take != 0 ==> GlyphWays(g) == WaysOf(m.take))
    && (!m.recommended || OneBit(m.shown) ==> m.take != 0 || GlyphWays(g) == WaysOf(m.shown))
    && (m.recommended && m.take == 0 && !OneBit(m.shown) ==> g == 1)
    && (OneBit(m.shown) ==> (SharpArrow(g) <==> m.shown & 0x48 != 0))
  }

  lemma RecommendedDrawn(code: nat)
    requires 1 <= code <= 16 || code == 19
    ensures CodeDrawn(MeaningOf(code), GlyphA(code))
  {
  }

  lemma SlightOutDrawn(code: nat)
    requires 23 <= code <= 33
    ensures CodeDrawn(MeaningOf(code), GlyphA(code))
  {
  }

  lemma SingledOutDrawn(code: nat)
    requires 34 <= code <= 42 || 47 <= code <= 48
    ensures CodeDrawn(MeaningOf(code), GlyphA(code))
  {
  }

  lemma GreyArrowDrawn(code: nat)
    requires 49 <= code <= 55
    ensures CodeDrawn(MeaningOf(code), GlyphA(code))
  {
  }

  lemma GreyForkDrawn(code: nat)
    requires 56 <= code <= 60
    ensures CodeDrawn(MeaningOf(code), GlyphA(code))
  {
  }

  lemma GreyDrawn(code: nat)
    requires 61 <= code <= 64 || code == 67
    ensures CodeDrawn(MeaningOf(code), GlyphA(code))
  {
  }

  lemma GlyphDrawn(code: nat)
    requires Sendable(code)
    ensures CodeDrawn(MeaningOf(code), GlyphA(code))
  {
    if code <= 19 {
      RecommendedDrawn(code);
    } else if code <= 33 {
      SlightOutDrawn(code);
    } else if code <= 48 {
      SingledOutDrawn(code);
    } else if code <= 55 {
      GreyArrowDrawn(code);
    } else if code <= 60 {
      GreyForkDrawn(code);
    } else {
      GreyDrawn(code);
    }
  }

  lemma SameBit(p: bv8, h: bv8)
    requires OneBit(h) && OneBit(p) && h & !p == 0
    ensures h == p
  {
  }

  // What the driver sees of a lane: recommended exactly when a direction is highlighted,
  // with the way to take if there is one; otherwise all its sides when they can be drawn.
  lemma DirsDrawn(present: bv8, hl: bv8)
    requires present != 0 && present & 0x80 == 0 && hl & !present == 0
    ensures var g := GlyphA(CodeOfDirs(present, hl));
            && 1 <= g <= 32 && (Grey(g) <==> hl == 0)
            && (OneBit(hl) ==> GlyphWays(g) == WaysOf(hl))
            && (hl == 0 && BaseCode(present) != 0 ==> GlyphWays(g) == WaysOf(present))
            && (hl != 0 && !OneBit(hl) && BaseCode(present) != 0 ==> g == 1)
  {
    CodeMeaning(present, hl);
    CodeSendable(present, hl);
    GlyphDrawn(CodeOfDirs(present, hl));
    if OneBit(hl) && OneBit(present) {
      SameBit(present, hl);
    }
  }

  predicate LaneDrawn(lane: AaLane, glyph: nat) {
    var present, hl := Dirs(lane.present), Dirs(lane.highlight);
    && 1 <= glyph <= 32 && (Grey(glyph) <==> lane.highlight == {})
    && (OneBit(hl) ==> GlyphWays(glyph) == WaysOf(hl))
    && (hl == 0 && BaseCode(present) != 0 ==> GlyphWays(glyph) == WaysOf(present))
    && (hl != 0 && !OneBit(hl) && BaseCode(present) != 0 ==> glyph == 1)
  }

  lemma LaneIsDrawn(lane: AaLane)
    requires LaneOk(lane) && lane.present != {}
    ensures LaneDrawn(lane, GlyphA(CodeOf(lane)))
  {
    DirsSubset(lane.present, lane.highlight, 10);
    DirsNonempty(lane.present, 10);
    DirsNonempty(lane.highlight, 10);
    var s :| s in lane.present;
    assert s < 10;
    assert lane.highlight != {} ==> exists t :: t in lane.highlight && t < 10;
    DirsDrawn(Dirs(lane.present), Dirs(lane.highlight));
  }

  // --- on the cluster -----------------------------------------------------------------------

  lemma {:induction false} WireLaneAt(codes: seq<byte>, i: nat)
    requires i < |codes|
    ensures WireLanes(codes)[i] == WireLane(codes[i])
  {
    if i < |codes| - 1 {
      WireLaneAt(Init(codes), i);
    }
  }

  lemma GlyphVisible(code: nat)
    requires 1 <= code <= 70
    ensures 1 <= GlyphA(code) <= 35
  {
  }

  lemma WireLaneDrawn(code: byte, drawn: byte)
    requires code <= 70 && drawn == WireLane(code)
    ensures drawn == 0xFF <==> code == 0
    ensures code != 0 ==> drawn == GlyphA(code)
  {
    if code != 0 {
      GlyphVisible(code);
    }
  }

  // A slot is hidden exactly when its code is empty, and otherwise draws the code's glyph.
  lemma SlotDrawn(codes: seq<byte>, i: nat)
    requires i < |codes| && codes[i] <= 70
    ensures WireLanes(codes)[i] == 0xFF <==> codes[i] == 0
    ensures codes[i] != 0 ==> WireLanes(codes)[i] == GlyphA(codes[i])
  {
    WireLaneAt(codes, i);
    WireLaneDrawn(codes[i], WireLanes(codes)[i]);
  }

  // Whatever snapshots came before, the cluster of a sender in step draws each lane of the
  // latest one, and hides exactly the empty slots.
  lemma LanesSeen(st: Sender, snaps: seq<Snapshot>, i: nat)
    requires Synchronised(st) && snaps != [] && i < MAX_LANES && Last(snaps).lanes[i] <= 70
    ensures var code, drawn := Last(snaps).lanes[i], Seen(ProcessAll(st, snaps).cluster).lanes;
            && |drawn| == MAX_LANES && (drawn[i] == 0xFF <==> code == 0)
            && (code != 0 ==> drawn[i] == GlyphA(code))
  {
    DisplayRefinement(st, snaps);
    SlotDrawn(Last(snaps).lanes, i);
  }
}
