// The distance pipeline of the GAL 1.6 path: parsing the display string
// (hud_nav16.cpp), its unit, and quantisation (hud.cpp).
module Distances {
  import opened Machine

  predicate IsDigit(b: byte) {
    0x30 <= b <= 0x39
  }

  // A comma or a full stop.
  predicate IsSeparator(b: byte) {
    b == 0x2C || b == 0x2E
  }

  // ---------------------------------------------------------------------------
  // What a display string says
  // ---------------------------------------------------------------------------

  // The digits before the first separator; anything else there is skipped.
  function IntDigits(s: seq<byte>): seq<nat> {
    if s == [] || IsSeparator(s[0]) then []
    else (if IsDigit(s[0]) then [s[0] - 0x30] else []) + IntDigits(s[1..])
  }

  function AfterSeparator(s: seq<byte>): seq<byte> {
    if s == [] then [] else if IsSeparator(s[0]) then s[1..] else AfterSeparator(s[1..])
  }

  // The first digit, or 0.
  function FirstDigit(s: seq<byte>): nat {
    if s == [] then 0 else if IsDigit(s[0]) then s[0] - 0x30 else FirstDigit(s[1..])
  }

  function Value(digits: seq<nat>, ip: nat): nat {
    if digits == [] then ip else Value(digits[1..], 10 * ip + digits[0])
  }

  // Ten times the number shown, with one decimal.
  function Shown(s: seq<byte>): nat {
    10 * Value(IntDigits(s), 0) + FirstDigit(AfterSeparator(s))
  }

  // ---------------------------------------------------------------------------
  // The parse loop
  // ---------------------------------------------------------------------------

  const CAP: nat := 100000000

  // Accumulation stops once the value has nine digits.
  function Capped(digits: seq<nat>, ip: nat): nat {
    if digits == [] then ip else Capped(digits[1..], if ip < CAP then 10 * ip + digits[0] else ip)
  }

  function Parsed(s: seq<byte>): int32 {
    if IntDigits(s) == [] then 0
    else ToInt32(10 * Capped(IntDigits(s), 0) + FirstDigit(AfterSeparator(s)))
  }

  lemma FirstByte(s: seq<byte>, ip: nat)
    requires s != []
    ensures IsDigit(s[0]) ==>
      Capped(IntDigits(s), ip) == Capped(IntDigits(s[1..]), if ip < CAP then 10 * ip + (s[0] - 0x30) else ip)
    ensures IsDigit(s[0]) ==> IntDigits(s) != []
    ensures !IsDigit(s[0]) && !IsSeparator(s[0]) ==> IntDigits(s) == IntDigits(s[1..])
  {
    if IsDigit(s[0]) {
      var rest := IntDigits(s[1..]);
      assert IntDigits(s) == [s[0] - 0x30] + rest;
      assert ([s[0] - 0x30] + rest)[1..] == rest;
    }
  }

  method ParseDistX10(s: seq<byte>) returns (r: int32)
    ensures r == Parsed(s)
  {
    var ip: nat, frac: nat, sep, any := 0, 0, false, false;
    var i := 0;
    while i < |s|
      invariant i <= |s| && frac == 0
      invariant !sep ==> Capped(IntDigits(s[i..]), ip) == Capped(IntDigits(s), 0)
      invariant !sep ==> (any || IntDigits(s[i..]) != [] <==> IntDigits(s) != [])
      invariant !sep ==> AfterSeparator(s[i..]) == AfterSeparator(s)
      invariant sep ==> ip == Capped(IntDigits(s), 0) && (any <==> IntDigits(s) != [])
      invariant sep ==> FirstDigit(s[i..]) == FirstDigit(AfterSeparator(s))
    {
      assert s[i..][1..] == s[i + 1..];
      FirstByte(s[i..], ip);
      if IsDigit(s[i]) {
        if !sep {
          if ip < CAP {
            ip := ip * 10 + (s[i] - 0x30);
          }
          any := true;
        } else {
          frac := s[i] - 0x30;
          break;
        }
      } else if IsSeparator(s[i]) {
        sep := true;
      }
      i := i + 1;
    }
    r := if any then ToInt32(ip * 10 + frac) else 0;
  }

  lemma {:induction false} ValueGrows(digits: seq<nat>, ip: nat)
    ensures Value(digits, ip) >= ip
    decreases |digits|
  {
    if digits != [] {
      ValueGrows(digits[1..], 10 * ip + digits[0]);
    }
  }

  // Below ten times the cap nothing is cut off.
  lemma {:induction false} CapUnused(digits: seq<nat>, ip: nat)
    requires Value(digits, ip) < 10 * CAP
    ensures Capped(digits, ip) == Value(digits, ip)
    decreases |digits|
  {
    if digits != [] {
      ValueGrows(digits[1..], 10 * ip + digits[0]);
      CapUnused(digits[1..], 10 * ip + digits[0]);
    }
  }

  lemma {:induction false} FirstDigitRange(s: seq<byte>)
    ensures FirstDigit(s) < 10
  {
    if s != [] && !IsDigit(s[0]) {
      FirstDigitRange(s[1..]);
    }
  }

  // The parse is exact on exactly the strings whose value, times ten, fits 32 bits.
  lemma ParseExact(s: seq<byte>)
    requires IntDigits(s) != []
    ensures Parsed(s) == Shown(s) <==> Shown(s) < 0x8000_0000
  {
    if Shown(s) < 0x8000_0000 {
      CapUnused(IntDigits(s), 0);
    }
  }

  lemma {:induction false} ValueBound(digits: seq<nat>, ip: nat, bound: nat)
    requires forall i :: 0 <= i < |digits| ==> digits[i] < 10
    requires ip < bound
    ensures Value(digits, ip) < Pow10(|digits|) * bound
    decreases |digits|
  {
    if digits != [] {
      ValueBound(digits[1..], 10 * ip + digits[0], 10 * bound);
      assert Pow10(|digits|) * bound == Pow10(|digits| - 1) * (10 * bound);
    }
  }

  function Pow10(n: nat): nat {
    if n == 0 then 1 else 10 * Pow10(n - 1)
  }

  lemma {:induction false} IntDigitsRange(s: seq<byte>)
    ensures forall i :: 0 <= i < |IntDigits(s)| ==> IntDigits(s)[i] < 10
  {
    if s != [] && !IsSeparator(s[0]) {
      IntDigitsRange(s[1..]);
    }
  }

  lemma {:induction false} Pow10Monotone(m: nat, n: nat)
    requires m <= n
    ensures Pow10(m) <= Pow10(n)
  {
    if m < n {
      Pow10Monotone(m, n - 1);
    }
  }

  // In particular with up to eight integer digits.
  lemma ParseEightDigits(s: seq<byte>)
    requires 1 <= |IntDigits(s)| <= 8
    ensures Parsed(s) == Shown(s)
  {
    IntDigitsRange(s);
    ValueBound(IntDigits(s), 0, 1);
    Pow10Monotone(|IntDigits(s)|, 8);
    assert Pow10(8) == 100000000;
    FirstDigitRange(AfterSeparator(s));
    ParseExact(s);
  }

  // ---------------------------------------------------------------------------
  // Units and quantisation
  // ---------------------------------------------------------------------------

  // Metres, miles, kilometres, yards and feet in the HUD's numbering; 0 is no unit.
  function MazdaUnit(units: uint32): byte {
    match units
    case 1 => 1
    case 2 => 3
    case 3 => 3
    case 4 => 2
    case 5 => 2
    case 6 => 5
    case 7 => 4
    case _ => 0
  }

  predicate Decimal(unit: byte) {
    unit == 2 || unit == 3
  }

  // The granularity shown at this magnitude.
  function StepSize(v: nat, unit: byte): nat {
    if Decimal(unit) || v < 200 then 1 else if v < 1000 then 50 else if v < 5000 then 100 else 500
  }

  function Quantise(v: int, unit: byte): nat {
    if v < 0 then 0
    else if Decimal(unit) then v
    else if v >= 5000 then (v + 250) / 500 * 500
    else if v >= 1000 then (v + 50) / 100 * 100
    else if v >= 200 then (v + 25) / 50 * 50
    else v
  }

  // To the nearest multiple of the step, at most half a step away.
  lemma QuantiseNearest(v: nat, unit: byte)
    ensures Quantise(v, unit) % StepSize(v, unit) == 0
    ensures 2 * (Quantise(v, unit) - v) <= StepSize(v, unit)
    ensures 2 * (v - Quantise(v, unit)) <= StepSize(v, unit)
  {
  }

  // Each tier rounds within its own ends, which every tier they belong to keeps.
  lemma TierEnds(v: int, unit: byte)
    requires !Decimal(unit)
    ensures v < 200 ==> Quantise(v, unit) < 200
    ensures 200 <= v < 1000 ==> 200 <= Quantise(v, unit) <= 1000
    ensures 1000 <= v < 5000 ==> 1000 <= Quantise(v, unit) <= 5000
    ensures 5000 <= v ==> 5000 <= Quantise(v, unit)
  {
  }

  lemma KeepsMultiples(k: nat, unit: byte)
    ensures 200 <= 50 * k < 1000 ==> Quantise(50 * k, unit) == 50 * k
    ensures 1000 <= 100 * k < 5000 ==> Quantise(100 * k, unit) == 100 * k
    ensures 5000 <= 500 * k ==> Quantise(500 * k, unit) == 500 * k
  {
  }

  lemma QuantiseIdempotent(v: int, unit: byte)
    ensures Quantise(Quantise(v, unit), unit) == Quantise(v, unit)
  {
    if v >= 200 && !Decimal(unit) {
      TierEnds(v, unit);
      if v < 1000 {
        KeepsMultiples((v + 25) / 50, unit);
        KeepsMultiples(10, unit);
      } else if v < 5000 {
        KeepsMultiples((v + 50) / 100, unit);
        KeepsMultiples(10, unit);
      } else {
        KeepsMultiples((v + 250) / 500, unit);
      }
    }
  }

  lemma DivMonotone(a: nat, b: nat)
    requires a <= b
    ensures a / 50 <= b / 50 && a / 100 <= b / 100 && a / 500 <= b / 500
  {
  }

  // Monotone across the tiers.
  lemma QuantiseMonotone(v: int, w: int, unit: byte)
    requires v <= w
    ensures Quantise(v, unit) <= Quantise(w, unit)
  {
    if !Decimal(unit) {
      TierEnds(v, unit);
      TierEnds(w, unit);
      if v >= 200 {
        DivMonotone(v + 25, w + 25);
        DivMonotone(v + 50, w + 50);
        DivMonotone(v + 250, w + 250);
      }
    }
  }
}
