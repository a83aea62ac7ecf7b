// HUD maneuver glyphs: the turn-icon table and the three roundabout formulas
// (hud_nav.h for GAL 1.5, hud_nav16.cpp for GAL 1.6, hud_send.cpp for CarPlay).
module Glyphs {
  import opened Machine

  // C division truncates toward zero, and the remainder takes the dividend's sign.
  function CDiv(a: int, m: int): int
    requires m > 0
  {
    if a >= 0 then a / m else -(-a / m)
  }

  function CMod(a: int, m: int): int
    requires m > 0
  {
    if a >= 0 then a % m else -(-a % m)
  }

  const STRAIGHT_ICON: nat := 1

  const CLOCKWISE_BASE: nat := 49          // left-hand traffic, 49..60
  const COUNTERCLOCKWISE_BASE: nat := 37   // right-hand traffic, 37..48

  function Bank(leftHand: bool): nat {
    if leftHand then CLOCKWISE_BASE else COUNTERCLOCKWISE_BASE
  }

  // An angle brought into 0..359.
  function Turned(angle: int): int {
    var a := CMod(angle, 360);
    if a < 0 then a + 360 else a
  }

  // GAL 1.6: roundabout_glyph.
  function Roundabout16(angle: int, clockwise: bool): nat {
    Bank(clockwise) + (Turned(angle) + 15) / 30 % 12
  }

  // CarPlay: roundabout_icon.
  function RoundaboutCarplay(degrees: int32, leftHand: bool): nat {
    Bank(leftHand) + (Turned(180 - degrees) + 15) / 30 % 12
  }

  // GAL 1.5: roundabout_icon, with both casts to uint8_t. degrees + 15 is computed in
  // 32 bits.
  function Roundabout15(degrees: int32, leftHand: bool): nat
    requires degrees + 15 < 0x8000_0000
  {
    (CDiv(degrees + 15, 30) % 0x100 + Bank(leftHand)) % 0x100
  }

  // The sector centred on 30 * s holds the angle: from 15 degrees before it up to, but
  // not including, 15 degrees after.
  predicate InSector(angle: int, s: nat) {
    (angle - 30 * s + 15) % 360 < 30
  }

  lemma TurnedIsEuclidean(angle: int)
    ensures Turned(angle) == angle % 360
  {
  }

  lemma SectorIndex(a: int, s: nat)
    requires 0 <= a < 360 && s < 12
    ensures (a + 15) / 30 % 12 == s <==> InSector(a, s)
  {
    if s == 0 {
      assert InSector(a, s) <==> a < 15 || a >= 345;
    } else {
      assert InSector(a, s) <==> 30 * s - 15 <= a < 30 * s + 15;
    }
  }

  lemma SectorTurned(angle: int, s: nat)
    ensures InSector(angle, s) <==> InSector(angle % 360, s)
  {
    var q := angle / 360;
    assert angle - 30 * s + 15 == (angle % 360 - 30 * s + 15) + 360 * q;
    AddTurns(angle % 360 - 30 * s + 15, q);
  }

  lemma AddTurns(x: int, q: int)
    ensures (x + 360 * q) % 360 == x % 360
  {
  }

  // The glyph names exactly the sector that holds the angle, stays in its bank of
  // twelve, and does not change after a full turn.
  lemma Roundabout16Sector(angle: int, clockwise: bool, s: nat)
    requires s < 12
    ensures Roundabout16(angle, clockwise) == Bank(clockwise) + s <==> InSector(angle, s)
    ensures Bank(clockwise) <= Roundabout16(angle, clockwise) < Bank(clockwise) + 12
    ensures Roundabout16(angle + 360, clockwise) == Roundabout16(angle, clockwise)
  {
    TurnedIsEuclidean(angle);
    TurnedIsEuclidean(angle + 360);
    AddTurns(angle, 1);
    SectorIndex(angle % 360, s);
    SectorTurned(angle, s);
  }

  // CarPlay mirrors the angle and starts from the opposite side.
  lemma CarplayMirrors(degrees: int32, leftHand: bool, s: nat)
    requires s < 12
    ensures RoundaboutCarplay(degrees, leftHand) == Roundabout16(180 - degrees, leftHand)
    ensures RoundaboutCarplay(degrees, leftHand) == Bank(leftHand) + s <==> InSector(180 - degrees, s)
  {
    Roundabout16Sector(180 - degrees, leftHand, s);
  }

  // --- where the 1.5 formula agrees ----------------------------------------------------

  // The nearest multiple of 30, counted without wrapping.
  function Nearest(degrees: int): int {
    (degrees + 15) / 30
  }

  lemma NearestTurned(degrees: int)
    ensures (degrees % 360 + 15) / 30 % 12 == Nearest(degrees) % 12
  {
    var q := degrees / 360;
    assert degrees + 15 == (degrees % 360 + 15) + 360 * q;
    assert Nearest(degrees) == (degrees % 360 + 15) / 30 + 12 * q;
    AddDozens((degrees % 360 + 15) / 30, q);
  }

  lemma AddDozens(x: int, q: int)
    ensures (x + 12 * q) % 12 == x % 12
  {
  }

  lemma Residues(n: int)
    ensures n % 256 == n % 768 % 256 && n % 12 == n % 768 % 12
  {
    var q := n / 768;
    assert n == n % 768 + 256 * (3 * q) && n == n % 768 + 12 * (64 * q);
    AddDozens(n % 768, 64 * q);
    Add256(n % 768, 3 * q);
  }

  lemma Add256(x: int, q: int)
    ensures (x + 256 * q) % 256 == x % 256
  {
  }

  // Truncation rounds a negative quotient up, unless it is exact.
  lemma TruncatedNearest(degrees: int)
    ensures CDiv(degrees + 15, 30)
         == if degrees >= -15 || (degrees + 15) % 30 == 0 then Nearest(degrees) else Nearest(degrees) + 1
  {
  }

  lemma ByteIsSector(n: int)
    ensures n % 256 == n % 12 <==> n % 768 < 12
  {
    Residues(n);
    ByteIsSectorBelow(n % 768);
  }

  lemma ByteIsSectorBelow(x: nat)
    requires x < 768
    ensures x % 256 == x % 12 <==> x < 12
  {
    var k := x / 256;
    assert x % 256 == x - 256 * k;
  }

  lemma RoundedUpDiffers(n: int)
    ensures (n + 1) % 256 != n % 12
  {
    Residues(n);
    var x := n % 768;
    assert (n + 1) % 256 == (x + 1) % 256 by {
      assert n + 1 == x + 1 + 256 * (3 * (n / 768));
      Add256(x + 1, 3 * (n / 768));
    }
    RoundedUpDiffersBelow(x);
  }

  lemma RoundedUpDiffersBelow(x: nat)
    requires x < 768
    ensures (x + 1) % 256 != x % 12
  {
    var k := (x + 1) / 256;
    assert (x + 1) % 256 == x + 1 - 256 * k;
  }

  // Adding the bank wraps past 255 only for sectors that no glyph has.
  lemma BankByte(b: nat, s: nat, leftHand: bool)
    requires b < 0x100 && s < 12
    ensures (b + Bank(leftHand)) % 0x100 == Bank(leftHand) + s <==> b == s
  {
  }

  // The two formulas give the same glyph exactly when the 1.5 quotient did not round the
  // wrong way and its sector number, modulo 768, is below twelve.
  lemma Roundabout15Agrees(degrees: int32, leftHand: bool)
    requires degrees + 15 < 0x8000_0000
    ensures Roundabout15(degrees, leftHand) == Roundabout16(degrees, leftHand)
        <==> (degrees >= -15 || (degrees + 15) % 30 == 0) && Nearest(degrees) % 768 < 12
  {
    var n := Nearest(degrees);
    TurnedIsEuclidean(degrees);
    NearestTurned(degrees);
    TruncatedNearest(degrees);
    BankByte(CDiv(degrees + 15, 30) % 0x100, n % 12, leftHand);
    if degrees >= -15 || (degrees + 15) % 30 == 0 {
      ByteIsSector(n);
    } else {
      RoundedUpDiffers(n);
    }
  }

  // In particular they agree from -15 to 344 degrees.
  lemma Roundabout15AgreesInUse(degrees: int32, leftHand: bool)
    requires -15 <= degrees <= 344
    ensures Roundabout15(degrees, leftHand) == Roundabout16(degrees, leftHand)
  {
    Roundabout15Agrees(degrees, leftHand);
  }

  // --- the turn-icon table ----------------------------------------------------------------

  // kTurnIcons[event]: left, right, unspecified.
  function TurnIcons(event: nat): (r: seq<nat>)
    ensures |r| == 3
  {
    match event
    case 1 => [35, 36, 12]
    case 2 => [1, 1, 1]
    case 3 => [4, 5, 1]
    case 4 => [2, 3, 1]
    case 5 => [11, 9, 1]
    case 6 => [13, 10, 1]
    case 7 => [2, 3, 1]
    case 8 => [30, 7, 1]
    case 9 => [15, 14, 1]
    case 10 => [16, 17, 1]
    case 14 => [1, 1, 1]
    case 19 => [33, 34, 8]
    case _ => [0, 0, 0]
  }

  const ROUNDABOUT_ENTER_AND_EXIT: nat := 13

  // turn_side 1 is left, 2 right, 3 unspecified; anything else counts as unspecified.
  function SideIndex(side: uint32): nat {
    if 1 <= side <= 3 then side - 1 else 2
  }
}
