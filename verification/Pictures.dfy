// What the driver reads off the head-up display: the pictures of its glyph atlas
// (hud_nav.h) behind the maneuver tables of both phones (hud_nav16.cpp, nav.cpp,
// hud_send.cpp), and the lengths behind its distance units.
module Pictures {
  import opened Machine
  import opened Glyphs
  import Nav16
  import Nav16Feed
  import Distances
  import NavWindow
  import CarplayHud
  import CarplaySender

  // ---------------------------------------------------------------------------
  // The atlas
  // ---------------------------------------------------------------------------

  datatype Side = Left | Right | Ahead

  datatype Picture =
    | Nothing
    | Empty                         // a glyph without strokes
    | Arrow                         // straight on
    | Slight(side: Side)
    | Turn(side: Side)
    | Sharp(side: Side)
    | UTurn(side: Side)
    | OffRamp(side: Side)
    | Fork(side: Side)
    | Merge(side: Side)
    | Flag(side: Side)
    | Destination(side: Side)
    | Roundabout(leftHand: bool, sector: nat)
    | Other

  function PictureOf(glyph: nat): Picture {
    match glyph
    case 0 => Nothing
    case 18 | 19 => Empty
    case 1 => Arrow
    case 2 => Turn(Left)
    case 3 => Turn(Right)
    case 4 => Slight(Left)
    case 5 => Slight(Right)
    case 7 => OffRamp(Right)
    case 8 => Destination(Ahead)
    case 9 => Sharp(Right)
    case 10 => UTurn(Right)
    case 11 => Sharp(Left)
    case 12 => Flag(Ahead)
    case 13 => UTurn(Left)
    case 14 => Fork(Right)
    case 15 => Fork(Left)
    case 16 => Merge(Left)
    case 17 => Merge(Right)
    case 30 => OffRamp(Left)
    case 33 => Destination(Left)
    case 34 => Destination(Right)
    case 35 => Flag(Left)
    case 36 => Flag(Right)
    case _ =>
      if 37 <= glyph <= 48 then Roundabout(false, glyph - 37)
      else if 49 <= glyph <= 60 then Roundabout(true, glyph - 49)
      else Other
  }

  // ---------------------------------------------------------------------------
  // GAL 1.6: 43 navigation types
  // ---------------------------------------------------------------------------

  // From KEEP_LEFT to MERGE_RIGHT the odd types are to the left, the even ones to the right.
  function SideOf(kind: nat): Side {
    if kind % 2 == 1 then Left else Right
  }

  // What the phone's maneuver looks like on the display.
  predicate Drawn(kind: nat, exitAngle: int, p: Picture) {
    && (kind == 1 ==> p == Flag(Ahead))
    && (kind in {2, 29, 30, 31, 36} ==> p == Arrow)
    && (kind in {3, 4, 25, 26} ==> p == Fork(SideOf(kind)))
    && (kind in {5, 6, 13, 14} ==> p == Slight(SideOf(kind)))
    && (kind in {7, 8, 15, 16} ==> p == Turn(SideOf(kind)))
    && (kind in {9, 10, 17, 18} ==> p == Sharp(SideOf(kind)))
    && (kind in {11, 12, 19, 20} ==> p == UTurn(SideOf(kind)))
    && (kind in {21, 22, 23, 24} ==> p == OffRamp(SideOf(kind)))
    && (kind in {27, 28} ==> p == Merge(SideOf(kind)))
    && (kind in {32, 33, 34, 35} ==> DrawnRoundabout(kind < 34, exitAngle, p))
    && (kind in {39, 40} ==> p == Destination(Ahead))
    && (kind in {41, 42} ==> p == Destination(SideOf(kind)))
    && (kind in {0, 37, 38} || kind > 42 ==> p == Empty)
  }

  // In the bank of its traffic, with the exit in the sector that holds its angle.
  predicate DrawnRoundabout(leftHand: bool, angle: int, p: Picture) {
    p.Roundabout? && p.leftHand == leftHand && p.sector < 12 && InSector(angle, p.sector)
  }

  lemma RoundaboutDrawn(leftHand: bool, angle: int, glyph: nat)
    requires glyph == Roundabout16(angle, leftHand)
    ensures DrawnRoundabout(leftHand, angle, PictureOf(glyph))
  {
    Roundabout16Sector(angle, leftHand, 0);
    Roundabout16Sector(angle, leftHand, glyph - Bank(leftHand));
  }

  lemma TableDrawn(kind: nat, exitAngle: int)
    requires kind !in {32, 33, 34, 35}
    ensures Drawn(kind, exitAngle, PictureOf(Nav16Feed.ManeuverGlyph(kind)))
  {
  }

  lemma GuidanceDrawn(g: Nav16.Guidance)
    ensures Drawn(g.kind, g.exitAngle, PictureOf(Nav16Feed.GlyphOf(g)))
  {
    if g.kind in {32, 33, 34, 35} {
      RoundaboutDrawn(g.kind < 34, g.exitAngle, Nav16Feed.GlyphOf(g));
    } else {
      TableDrawn(g.kind, g.exitAngle);
    }
  }

  // ---------------------------------------------------------------------------
  // CarPlay: maneuver types with a junction
  // ---------------------------------------------------------------------------

  // U-turns go against the traffic; a maneuver with no side of its own is an arrow ahead.
  predicate CarplayDrawn(mtype: nat, leftHand: bool, p: Picture) {
    && (mtype in {1, 20} ==> p == Turn(Left)) && (mtype in {2, 21} ==> p == Turn(Right))
    && (mtype == 47 ==> p == Sharp(Left)) && (mtype == 48 ==> p == Sharp(Right))
    && (mtype == 49 ==> p == Slight(Left)) && (mtype == 50 ==> p == Slight(Right))
    && (mtype in {13, 52} ==> p == Fork(Left)) && (mtype in {14, 53} ==> p == Fork(Right))
    && (mtype in {4, 26} ==> p == UTurn(if leftHand then Right else Left))
    && (mtype == 22 ==> p == OffRamp(Left)) && (mtype == 23 ==> p == OffRamp(Right))
    && (mtype == 24 ==> p == Destination(Left)) && (mtype == 25 ==> p == Destination(Right))
    && (mtype in {10, 12, 27} ==> p == Destination(Ahead))
    && (mtype in {15, 16, 17} ==> p == Nothing)
    && (mtype in {3, 8, 9, 51} || mtype > 53 ==> p == Arrow)
  }

  // A maneuver as it arrives at the sender.
  predicate Carries(m: CarplayHud.Maneuver, c: NavWindow.Maneuver) {
    m.event == c.event && m.side == c.side && m.angle == c.angle && m.number == c.number
  }

  lemma TurnTableDrawn(mtype: uint32, leftHand: bool)
    requires !NavWindow.IsRoundabout(mtype, 0)
    ensures var (event, side) := NavWindow.Turn(mtype, leftHand);
            CarplayDrawn(mtype, leftHand, PictureOf(TurnIcons(event)[SideIndex(side)]))
  {
  }

  // What the driver sees of a CarPlay maneuver: a roundabout with its exit in the mirrored
  // sector of the traffic's bank, any other maneuver by its type.
  predicate ManeuverLooks(mtype: uint32, junction: uint32, angle: int, driveSide: uint32, p: Picture) {
    if junction == 1 || mtype in {6, 7, 19} || 28 <= mtype <= 46
    then DrawnRoundabout(driveSide == 1, 180 - angle % 360, p)
    else CarplayDrawn(mtype, driveSide == 1, p)
  }

  lemma ManeuverDrawn(mtype: uint32, junction: uint32, angle: int, driveSide: uint32, m: CarplayHud.Maneuver)
    requires Carries(m, NavWindow.Classify(mtype, junction, angle, driveSide))
    ensures ManeuverLooks(mtype, junction, angle, driveSide, PictureOf(CarplayHud.Icon(m)))
  {
    NavWindow.ClassifyRange(mtype, junction, angle, driveSide);
    if NavWindow.IsRoundabout(mtype, junction) {
      TurnedIsEuclidean(angle);
      CarplayMirrors(m.angle, m.side == 1, 0);
      RoundaboutDrawn(m.side == 1, 180 - m.angle, CarplayHud.Icon(m));
    } else {
      TurnTableDrawn(mtype, driveSide == 1);
    }
  }

  // ---------------------------------------------------------------------------
  // Units
  // ---------------------------------------------------------------------------

  const METRE: nat := 10000
  const KILOMETRE: nat := 1000 * METRE
  const FOOT: nat := 3048
  const YARD: nat := 3 * FOOT
  const MILE: nat := 1760 * YARD

  // The length, in tenths of a millimetre, of the display's unit; 0 for none.
  function HudLength(unit: nat): nat {
    match unit
    case 1 => METRE
    case 2 => MILE
    case 3 => KILOMETRE
    case 4 => YARD
    case 5 => FOOT
    case _ => 0
  }

  // Of a GAL 1.6 unit: metres, kilometres with and without a decimal, miles likewise, feet,
  // yards.
  function PhoneLength(units: nat): nat {
    match units
    case 1 => METRE
    case 2 | 3 => KILOMETRE
    case 4 | 5 => MILE
    case 6 => FOOT
    case 7 => YARD
    case _ => 0
  }

  lemma UnitKept(units: uint32)
    ensures HudLength(Distances.MazdaUnit(units)) == PhoneLength(units)
    ensures Distances.MazdaUnit(units) == 0 <==> PhoneLength(units) == 0
  {
  }

  // The units of the older protocol, which CarPlay reuses, have no yards.
  lemma CarplayUnitKept(units: uint32)
    ensures HudLength(CarplaySender.DistanceUnit(units)) == if units == 7 then 0 else PhoneLength(units)
    ensures CarplaySender.DistanceUnit(units) == 0 <==> units == 7 || PhoneLength(units) == 0
  {
  }

  // ---------------------------------------------------------------------------
  // Numbers
  // ---------------------------------------------------------------------------

  predicate NoSeparator(s: seq<byte>) {
    forall i :: 0 <= i < |s| ==> !Distances.IsSeparator(s[i])
  }

  lemma {:induction false} IntDigitsConcat(xs: seq<byte>, ys: seq<byte>)
    requires NoSeparator(xs)
    ensures Distances.IntDigits(xs + ys) == Distances.IntDigits(xs) + Distances.IntDigits(ys)
    ensures Distances.AfterSeparator(xs + ys) == Distances.AfterSeparator(ys)
    decreases |xs|
  {
    if xs == [] {
      assert xs + ys == ys;
    } else {
      assert (xs + ys)[1..] == xs[1..] + ys;
      IntDigitsConcat(xs[1..], ys);
    }
  }

  lemma {:induction false} ValueConcat(xs: seq<nat>, ys: seq<nat>, ip: nat)
    ensures Distances.Value(xs + ys, ip) == Distances.Value(ys, Distances.Value(xs, ip))
    decreases |xs|
  {
    if xs == [] {
      assert xs + ys == ys;
    } else {
      assert (xs + ys)[1..] == xs[1..] + ys;
      ValueConcat(xs[1..], ys, 10 * ip + xs[0]);
    }
  }

  lemma LastDigit(d: nat)
    requires d < 10
    ensures Distances.IntDigits([0x30 + d]) == [d]
  {
  }

  // A printed number reads as that number.
  lemma {:induction false} PrintedDigits(n: nat)
    ensures NoSeparator(CarplayHud.Decimal(n))
    ensures Distances.IntDigits(CarplayHud.Decimal(n)) != []
    ensures Distances.Value(Distances.IntDigits(CarplayHud.Decimal(n)), 0) == n
  {
    var head := if n < 10 then [] else CarplayHud.Decimal(n / 10);
    if n >= 10 {
      PrintedDigits(n / 10);
    }
    LastDigit(n % 10);
    IntDigitsConcat(head, [0x30 + n % 10]);
    ValueConcat(Distances.IntDigits(head), [n % 10], 0);
  }

  // The display string of a distance with one decimal, comma or full stop, parses to ten
  // times the number; without a decimal too.
  lemma PrintedDistance(n: nat, d: nat, sep: byte)
    requires n < 100000000 && d < 10 && (sep == 0x2C || sep == 0x2E)
    ensures Distances.Parsed(CarplayHud.Decimal(n)) == 10 * n
    ensures Distances.Parsed(CarplayHud.Decimal(n) + [sep, 0x30 + d]) == 10 * n + d
  {
    var s, tail := CarplayHud.Decimal(n), [sep, 0x30 + d];
    PrintedDigits(n);
    IntDigitsConcat(s, []);
    IntDigitsConcat(s, tail);
    assert s + [] == s && tail[1..] == [0x30 + d];
    Distances.ParseExact(s);
    Distances.ParseExact(s + tail);
  }
}
