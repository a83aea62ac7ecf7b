// Street-name transliteration (common/translit.h): precomposed Latin letters fold to a
// base the head-up display can draw, in place, whatever the bytes.
module Translit {
  import opened Machine

  // ---------------------------------------------------------------------------
  // The fold, token by token
  // ---------------------------------------------------------------------------

  // The base letters of U+1E00..U+1EFF, eight to a row.

  // U+1E00..U+1E3F
  function Bases1E00(row: nat): (r: seq<nat>)
    requires row < 8
    ensures |r| == 8
  {
    match row
    case 0 => [0x41, 0x61, 0x42, 0x62, 0x42, 0x62, 0x42, 0x62]
    case 1 => [0x43, 0x63, 0x44, 0x64, 0x44, 0x64, 0x44, 0x64]
    case 2 => [0x44, 0x64, 0x44, 0x64, 0x45, 0x65, 0x45, 0x65]
    case 3 => [0x45, 0x65, 0x45, 0x65, 0x45, 0x65, 0x46, 0x66]
    case 4 => [0x47, 0x67, 0x48, 0x68, 0x48, 0x68, 0x48, 0x68]
    case 5 => [0x48, 0x68, 0x48, 0x68, 0x49, 0x69, 0x49, 0x69]
    case 6 => [0x4B, 0x6B, 0x4B, 0x6B, 0x4B, 0x6B, 0x4C, 0x6C]
    case 7 => [0x4C, 0x6C, 0x4C, 0x6C, 0x4C, 0x6C, 0x4D, 0x6D]
  }

  lemma Bases1E00Range(row: nat, col: nat)
    requires row < 8 && col < 8
    ensures 0 < Bases1E00(row)[col] < 0x800
  {
  }

  // U+1E40..U+1E7F
  function Bases1E40(row: nat): (r: seq<nat>)
    requires row < 8
    ensures |r| == 8
  {
    match row
    case 0 => [0x4D, 0x6D, 0x4D, 0x6D, 0x4E, 0x6E, 0x4E, 0x6E]
    case 1 => [0x4E, 0x6E, 0x4E, 0x6E, 0x4F, 0x6F, 0x4F, 0x6F]
    case 2 => [0x4F, 0x6F, 0x4F, 0x6F, 0x50, 0x70, 0x50, 0x70]
    case 3 => [0x52, 0x72, 0x52, 0x72, 0x52, 0x72, 0x52, 0x72]
    case 4 => [0x53, 0x73, 0x53, 0x73, 0x53, 0x73, 0x53, 0x73]
    case 5 => [0x53, 0x73, 0x54, 0x74, 0x54, 0x74, 0x54, 0x74]
    case 6 => [0x54, 0x74, 0x55, 0x75, 0x55, 0x75, 0x55, 0x75]
    case 7 => [0x55, 0x75, 0x55, 0x75, 0x56, 0x76, 0x56, 0x76]
  }

  lemma Bases1E40Range(row: nat, col: nat)
    requires row < 8 && col < 8
    ensures 0 < Bases1E40(row)[col] < 0x800
  {
  }

  // U+1E80..U+1EBF
  function Bases1E80(row: nat): (r: seq<nat>)
    requires row < 8
    ensures |r| == 8
  {
    match row
    case 0 => [0x57, 0x77, 0x57, 0x77, 0x57, 0x77, 0x57, 0x77]
    case 1 => [0x57, 0x77, 0x58, 0x78, 0x58, 0x78, 0x59, 0x79]
    case 2 => [0x5A, 0x7A, 0x5A, 0x7A, 0x5A, 0x7A, 0x68, 0x74]
    case 3 => [0x77, 0x79, 0x61, 0x73, 0x73, 0x73, 0x53, 0x64]
    case 4 => [0x41, 0x61, 0x41, 0x61, 0xC2, 0xE2, 0xC2, 0xE2]
    case 5 => [0xC2, 0xE2, 0xC2, 0xE2, 0xC2, 0xE2, 0x102, 0x103]
    case 6 => [0x102, 0x103, 0x102, 0x103, 0x102, 0x103, 0x102, 0x103]
    case 7 => [0x45, 0x65, 0x45, 0x65, 0x45, 0x65, 0xCA, 0xEA]
  }

  lemma Bases1E80Range(row: nat, col: nat)
    requires row < 8 && col < 8
    ensures 0 < Bases1E80(row)[col] < 0x800
  {
  }

  // U+1EC0..U+1EFF
  function Bases1EC0(row: nat): (r: seq<nat>)
    requires row < 8
    ensures |r| == 8
  {
    match row
    case 0 => [0xCA, 0xEA, 0xCA, 0xEA, 0xCA, 0xEA, 0xCA, 0xEA]
    case 1 => [0x49, 0x69, 0x49, 0x69, 0x4F, 0x6F, 0x4F, 0x6F]
    case 2 => [0xD4, 0xF4, 0xD4, 0xF4, 0xD4, 0xF4, 0xD4, 0xF4]
    case 3 => [0xD4, 0xF4, 0x1A0, 0x1A1, 0x1A0, 0x1A1, 0x1A0, 0x1A1]
    case 4 => [0x1A0, 0x1A1, 0x1A0, 0x1A1, 0x55, 0x75, 0x55, 0x75]
    case 5 => [0x1AF, 0x1B0, 0x1AF, 0x1B0, 0x1AF, 0x1B0, 0x1AF, 0x1B0]
    case 6 => [0x1AF, 0x1B0, 0x59, 0x79, 0x59, 0x79, 0x59, 0x79]
    case 7 => [0x59, 0x79, 0x4C, 0x6C, 0x56, 0x76, 0x59, 0x79]
  }

  lemma Bases1EC0Range(row: nat, col: nat)
    requires row < 8 && col < 8
    ensures 0 < Bases1EC0(row)[col] < 0x800
  {
  }

  function BaseRow(row: nat): (r: seq<nat>)
    requires row < 32
    ensures |r| == 8
  {
    if row < 8 then Bases1E00(row)
    else if row < 16 then Bases1E40(row - 8)
    else if row < 24 then Bases1E80(row - 16)
    else Bases1EC0(row - 24)
  }

  lemma BaseRowRange(row: nat, col: nat)
    requires row < 32 && col < 8
    ensures 0 < BaseRow(row)[col] < 0x800
  {
    if row < 8 {
      Bases1E00Range(row, col);
    } else if row < 16 {
      Bases1E40Range(row - 8, col);
    } else if row < 24 {
      Bases1E80Range(row - 16, col);
    } else {
      Bases1EC0Range(row - 24, col);
    }
  }

  // 0 outside the block.
  function FoldBase(cp: nat): nat {
    if cp < 0x1E00 || cp > 0x1EFF then 0 else BaseRow((cp - 0x1E00) / 8)[(cp - 0x1E00) % 8]
  }

  lemma FoldBaseRange(cp: nat)
    ensures FoldBase(cp) < 0x800
    ensures FoldBase(cp) > 0 <==> 0x1E00 <= cp <= 0x1EFF
  {
    if 0x1E00 <= cp <= 0x1EFF {
      BaseRowRange((cp - 0x1E00) / 8, (cp - 0x1E00) % 8);
    }
  }

  function EncodeUtf8(cp: nat): (r: seq<byte>)
    requires cp < 0x800
    ensures 1 <= |r| <= 2
  {
    if cp < 0x80 then [cp] else [0xC0 + cp / 64, 0x80 + cp % 64]
  }

  predicate Continues(b: byte) {
    0x80 <= b < 0xC0
  }

  // The string starts with at least k continuation bytes.
  predicate Conts(s: seq<byte>, k: nat): (b: bool)
    ensures b ==> k <= |s|
  {
    k == 0 || (s != [] && Continues(s[0]) && Conts(s[1..], k - 1))
  }

  // Length of the first token: a whole sequence, or one stray byte.
  function SeqLen(s: seq<byte>): (n: nat)
    requires s != []
    ensures 1 <= n <= 4 && n <= |s|
  {
    if 0xC0 <= s[0] < 0xE0 && Conts(s[1..], 1) then 2
    else if 0xE0 <= s[0] < 0xF0 && Conts(s[1..], 2) then 3
    else if 0xF0 <= s[0] < 0xF8 && Conts(s[1..], 3) then 4
    else 1
  }

  function CodePoint2(b0: byte, b1: byte): nat {
    b0 % 32 * 64 + b1 % 64
  }

  function CodePoint3(b0: byte, b1: byte, b2: byte): nat {
    b0 % 16 * 4096 + b1 % 64 * 64 + b2 % 64
  }

  function CodePoint4(b0: byte, b1: byte, b2: byte, b3: byte): nat {
    b0 % 8 * 262144 + b1 % 64 * 4096 + b2 % 64 * 64 + b3 % 64
  }

  // What the first token becomes; `u` replaces what the font cannot draw, unless it is 0.
  function Image(s: seq<byte>, u: byte): seq<byte>
    requires s != []
  {
    var n := SeqLen(s);
    if n == 3 then Image3(s[0], s[1], s[2], u)
    else if n == 4 && u != 0 then [u]
    else s[..n]
  }

  function Image3(b0: byte, b1: byte, b2: byte, u: byte): seq<byte> {
    FoldBaseRange(CodePoint3(b0, b1, b2));
    var base := FoldBase(CodePoint3(b0, b1, b2));
    if base != 0 then EncodeUtf8(base) else if u != 0 then [u] else [b0, b1, b2]
  }

  function Folded(s: seq<byte>, u: byte): seq<byte>
    decreases |s|
  {
    if s == [] then [] else Image(s, u) + Folded(s[SeqLen(s)..], u)
  }

  // ---------------------------------------------------------------------------
  // Folding twice
  // ---------------------------------------------------------------------------

  // Placeholders that cannot glue onto a stray lead byte or open a long sequence.
  predicate Settled(u: byte) {
    u < 0x80 || 0xC0 <= u < 0xE0 || u >= 0xF8
  }

  // Continuation bytes at the front are stray tokens and stay where they are.
  lemma {:induction false} StrayRun(s: seq<byte>, u: byte, k: nat)
    requires Settled(u)
    ensures Conts(Folded(s, u), k) <==> Conts(s, k)
    decreases k
  {
    if k > 0 && s != [] {
      FirstByte(s, u);
      if Continues(s[0]) {
        Stray(s, u);
        StrayRun(s[1..], u, k - 1);
      }
    }
  }

  lemma Stray(s: seq<byte>, u: byte)
    requires s != [] && Continues(s[0])
    ensures Folded(s, u) == [s[0]] + Folded(s[1..], u)
    ensures Folded(s, u)[1..] == Folded(s[1..], u)
  {
    assert SeqLen(s) == 1;
    assert Image(s, u) == [s[0]];
  }

  lemma FirstByte(s: seq<byte>, u: byte)
    requires s != [] && Settled(u)
    ensures Image(s, u) != [] && (Continues(Image(s, u)[0]) <==> Continues(s[0]))
    ensures Folded(s, u) != [] && Folded(s, u)[0] == Image(s, u)[0]
  {
    if SeqLen(s) == 3 {
      FoldBaseRange(CodePoint3(s[0], s[1], s[2]));
    }
  }

  // A token that folds to itself leaves the rest to be folded as before.
  lemma KeepToken(head: seq<byte>, t: seq<byte>, u: byte)
    requires head != [] && SeqLen(head + t) == |head| && Image(head + t, u) == head
    ensures Folded(head + t, u) == head + Folded(t, u)
  {
    assert (head + t)[|head|..] == t;
  }

  // A whole sequence, verbatim or folded to its base, is its own image.
  lemma SequenceSettles(s: seq<byte>, t: seq<byte>, u: byte)
    requires s != [] && SeqLen(s) > 1 && Image(s, u) != [u]
    ensures Folded(Image(s, u) + t, u) == Image(s, u) + Folded(t, u)
  {
    if SeqLen(s) == 3 && Image(s, u) != s[..3] {
      var base := FoldBase(CodePoint3(s[0], s[1], s[2]));
      FoldBaseRange(CodePoint3(s[0], s[1], s[2]));
      BaseSettles(base, t, u);
    } else {
      VerbatimSettles(s[..SeqLen(s)], s, t, u);
    }
  }

  lemma VerbatimSettles(head: seq<byte>, s: seq<byte>, t: seq<byte>, u: byte)
    requires s != [] && SeqLen(s) > 1 && head == s[..SeqLen(s)] && Image(s, u) == head
    ensures Folded(head + t, u) == head + Folded(t, u)
  {
    PrefixToken(s, t);
    SameImage(s, head + t, u);
    assert (head + t)[..|head|] == head;
    KeepToken(head, t, u);
  }

  lemma SameImage(s: seq<byte>, s': seq<byte>, u: byte)
    requires s != [] && s' != [] && SeqLen(s) == SeqLen(s') && s[..SeqLen(s)] == s'[..SeqLen(s)]
    ensures Image(s, u) == Image(s', u)
  {
    assert forall k :: 0 <= k < SeqLen(s) ==> s[k] == s[..SeqLen(s)][k] && s'[k] == s'[..SeqLen(s)][k];
  }

  lemma PrefixToken(s: seq<byte>, t: seq<byte>)
    requires s != [] && SeqLen(s) > 1
    ensures SeqLen(s[..SeqLen(s)] + t) == SeqLen(s)
  {
    PrefixConts(s[1..], t, SeqLen(s) - 1);
    assert (s[..SeqLen(s)] + t)[1..] == s[1..][..SeqLen(s) - 1] + t;
  }

  lemma {:induction false} PrefixConts(s: seq<byte>, t: seq<byte>, k: nat)
    requires Conts(s, k)
    ensures Conts(s[..k] + t, k)
    decreases k
  {
    if k > 0 {
      PrefixConts(s[1..], t, k - 1);
      assert (s[..k] + t)[1..] == s[1..][..k - 1] + t;
    }
  }

  lemma BaseSettles(base: nat, t: seq<byte>, u: byte)
    requires base < 0x800
    ensures Folded(EncodeUtf8(base) + t, u) == EncodeUtf8(base) + Folded(t, u)
  {
    var head := EncodeUtf8(base);
    assert (head + t)[..|head|] == head;
    if |head| == 2 {
      assert (head + t)[1..] == [head[1]] + t;
      assert Conts([head[1]] + t, 1);
    }
    KeepToken(head, t, u);
  }

  // The placeholder itself: at most it takes a stray continuation byte along.
  lemma PlaceholderSettles(t: seq<byte>, u: byte)
    requires Settled(u) && u != 0
    requires t != [] && Continues(t[0]) ==> Folded(t, u) == [t[0]] + Folded(t[1..], u)
    ensures Folded([u] + t, u) == [u] + Folded(t, u)
  {
    assert ([u] + t)[1..] == t;
    if 0xC0 <= u < 0xE0 && t != [] && Continues(t[0]) {
      PlaceholderTakes(t, u);
    } else {
      assert SeqLen([u] + t) == 1;
      KeepToken([u], t, u);
    }
  }

  lemma PlaceholderTakes(t: seq<byte>, u: byte)
    requires 0xC0 <= u < 0xE0 && t != [] && Continues(t[0])
    ensures Folded([u] + t, u) == [u, t[0]] + Folded(t[1..], u)
  {
    var head := [u, t[0]];
    assert [u] + t == head + t[1..];
    var k := 0;
    assert (head + t[1..])[1..] == t && Conts(t[1..], k) && Conts(t, k + 1);
    KeepToken(head, t[1..], u);
  }

  // A stray byte meets the same continuation bytes after the fold as before it.
  lemma StraySettles(s: seq<byte>, t: seq<byte>, u: byte)
    requires s != [] && SeqLen(s) == 1 && Settled(u) && t == Folded(s[1..], u)
    ensures Folded(Image(s, u) + t, u) == Image(s, u) + Folded(t, u)
  {
    StrayRun(s[1..], u, 1);
    StrayRun(s[1..], u, 2);
    StrayRun(s[1..], u, 3);
    assert Image(s, u) == [s[0]];
    assert ([s[0]] + t)[1..] == t;
    KeepToken([s[0]], t, u);
  }

  lemma {:induction false} FoldTwice(s: seq<byte>, u: byte)
    requires Settled(u)
    ensures Folded(Folded(s, u), u) == Folded(s, u)
    decreases |s|
  {
    if s != [] {
      var rest := s[SeqLen(s)..];
      var t := Folded(rest, u);
      FoldTwice(rest, u);
      if SeqLen(s) == 1 {
        StraySettles(s, t, u);
      } else if Image(s, u) == [u] && u != 0 {
        if t != [] && Continues(t[0]) {
          StrayFixed(rest, u);
        }
        PlaceholderSettles(t, u);
      } else {
        SequenceSettles(s, t, u);
      }
    }
  }

  lemma StrayFixed(s: seq<byte>, u: byte)
    requires Settled(u) && s != []
    requires Folded(s, u) != [] && Continues(Folded(s, u)[0])
    ensures var t := Folded(s, u); Folded(t, u) == [t[0]] + Folded(t[1..], u)
  {
    Stray(Folded(s, u), u);
  }

  lemma ImageLength(s: seq<byte>, u: byte)
    requires s != []
    ensures 1 <= |Image(s, u)| <= SeqLen(s)
    ensures SeqLen(s) >= 3 && u != 0 ==> |Image(s, u)| < SeqLen(s)
  {
  }

  // The fold never lengthens a string.
  lemma {:induction false} FoldShrinks(s: seq<byte>, u: byte)
    ensures |Folded(s, u)| <= |s|
    ensures s != [] && SeqLen(s) >= 3 && u != 0 ==> |Folded(s, u)| < |s|
    decreases |s|
  {
    if s != [] {
      ImageLength(s, u);
      FoldShrinks(s[SeqLen(s)..], u);
    }
  }

  ghost predicate Idempotent(u: byte) {
    forall s :: 0 !in s ==> Folded(Folded(s, u), u) == Folded(s, u)
  }

  lemma LongToken(s: seq<byte>)
    requires |s| >= 3 && 0xE0 <= s[0] < 0xF0 && Continues(s[1]) && Continues(s[2])
    ensures SeqLen(s) == 3
  {
    var k := 0;
    assert Conts(s[1..][1..][1..], k) && Conts(s[1..][1..], k + 1) && Conts(s[1..], k + 2);
  }

  // A three-byte sequence beyond U+2000 has no base letter.
  lemma NoBase(b0: byte, b1: byte, b2: byte)
    requires 0xE2 <= b0 < 0xF0
    ensures FoldBase(CodePoint3(b0, b1, b2)) == 0
  {
    FoldBaseRange(CodePoint3(b0, b1, b2));
    assert b0 % 16 >= 2;
  }

  lemma Replaced(s: seq<byte>, u: byte)
    requires |s| >= 3 && 0xE2 <= s[0] < 0xF0 && Continues(s[1]) && Continues(s[2]) && u != 0
    ensures Folded(s, u) == [u] + Folded(s[3..], u)
  {
    LongToken(s);
    NoBase(s[0], s[1], s[2]);
  }

  lemma StraysStay(k: nat, u: byte)
    requires k <= 3
    ensures Folded([0x80, 0x80, 0x80][..k], u) == [0x80, 0x80, 0x80][..k]
    ensures Conts([0x80, 0x80, 0x80][..k], k)
  {
    if k > 0 {
      assert [0x80, 0x80, 0x80][..k][1..] == [0x80, 0x80, 0x80][..k - 1];
      StraysStay(k - 1, u);
      Stray([0x80, 0x80, 0x80][..k], u);
    }
  }

  // A stray three-byte lead between unfoldable letters: the placeholders complete it.
  lemma GluedBehind(u: byte) returns (s: seq<byte>)
    requires Continues(u)
    ensures 0 !in s && Folded(Folded(s, u), u) != Folded(s, u)
  {
    s := [0xE1, 0xE6, 0x96, 0x87, 0xE6, 0x96, 0x87];
    var rest := s[1..];
    Replaced(rest, u);
    Replaced(rest[3..], u);
    assert rest[3..][3..] == [];
    assert Folded(rest, u) == [u, u];
    assert SeqLen(s) == 1;
    var once := Folded(s, u);
    assert once == [0xE1, u, u];
    LongToken(once);
    FoldShrinks(once, u);
  }

  // The placeholder is itself a lead byte and takes stray continuation bytes along.
  lemma GluedAhead(u: byte) returns (s: seq<byte>)
    requires 0xE0 <= u < 0xF8
    ensures 0 !in s && Folded(Folded(s, u), u) != Folded(s, u)
  {
    var k := if u < 0xF0 then 2 else 3;
    var strays := [0x80, 0x80, 0x80][..k];
    s := [0xE6, 0x96, 0x87] + strays;
    StraysStay(k, u);
    Replaced(s, u);
    assert s[3..] == strays;
    var once := Folded(s, u);
    assert once[1..] == strays;
    FoldShrinks(once, u);
  }

  // Folding is idempotent on every C string exactly for the settled placeholders,
  // which include 0 and every ASCII byte.
  lemma IdempotentExactly(u: byte)
    ensures Idempotent(u) <==> Settled(u)
  {
    if Settled(u) {
      forall s: seq<byte> | 0 !in s
        ensures Folded(Folded(s, u), u) == Folded(s, u)
      {
        FoldTwice(s, u);
      }
    } else if Continues(u) {
      var s := GluedBehind(u);
    } else {
      var s := GluedAhead(u);
    }
  }

  // ---------------------------------------------------------------------------
  // What the fold means on well-formed text (RFC 3629 sections 3 and 4)
  // ---------------------------------------------------------------------------

  predicate Scalar(cp: nat) {
    cp <= 0x10FFFF && !(0xD800 <= cp <= 0xDFFF)
  }

  function Utf8Char(cp: nat): (r: seq<byte>)
    requires Scalar(cp)
    ensures 1 <= |r| <= 4
  {
    if cp < 0x800 then EncodeUtf8(cp)
    else if cp < 0x10000 then [0xE0 + cp / 64 / 64, 0x80 + cp / 64 % 64, 0x80 + cp % 64]
    else [0xF0 + cp / 64 / 64 / 64, 0x80 + cp / 64 / 64 % 64, 0x80 + cp / 64 % 64, 0x80 + cp % 64]
  }

  predicate AllScalar(cps: seq<nat>) {
    forall k :: 0 <= k < |cps| ==> Scalar(cps[k])
  }

  function Utf8(cps: seq<nat>): seq<byte>
    requires AllScalar(cps)
  {
    if cps == [] then [] else Utf8Char(cps[0]) + Utf8(cps[1..])
  }

  // The code point of the first token, when that token is well-formed: the shortest form
  // of a scalar value.
  function FirstChar(s: seq<byte>): (r: Option<nat>)
    requires s != []
    ensures r.Some? ==> Scalar(r.value)
  {
    var n := SeqLen(s);
    if n == 1 then if s[0] < 0x80 then Some(s[0]) else None
    else if n == 2 then
      var cp := CodePoint2(s[0], s[1]);
      if cp >= 0x80 then Some(cp) else None
    else if n == 3 then
      var cp := CodePoint3(s[0], s[1], s[2]);
      if cp >= 0x800 && Scalar(cp) then Some(cp) else None
    else
      var cp := CodePoint4(s[0], s[1], s[2], s[3]);
      if cp >= 0x10000 && Scalar(cp) then Some(cp) else None
  }

  function Decode(s: seq<byte>): Option<seq<nat>>
    decreases |s|
  {
    if s == [] then Some([])
    else
      match (FirstChar(s), Decode(s[SeqLen(s)..]))
      case (Some(cp), Some(cps)) => Some([cp] + cps)
      case _ => None
  }

  lemma Join2(cp: nat)
    requires cp < 0x800
    ensures CodePoint2(0xC0 + cp / 64, 0x80 + cp % 64) == cp
  {
  }

  lemma Join3(cp: nat)
    requires cp < 0x10000
    ensures CodePoint3(0xE0 + cp / 64 / 64, 0x80 + cp / 64 % 64, 0x80 + cp % 64) == cp
  {
    var q := cp / 64;
    assert cp == q * 64 + cp % 64 && q == q / 64 * 64 + q % 64;
    Low(0xE0, q / 64, 16);
    Low(0x80, q % 64, 64);
    Low(0x80, cp % 64, 64);
  }

  lemma Join4(cp: nat)
    requires cp < 0x110000
    ensures CodePoint4(0xF0 + cp / 64 / 64 / 64, 0x80 + cp / 64 / 64 % 64, 0x80 + cp / 64 % 64, 0x80 + cp % 64) == cp
  {
    var q := cp / 64;
    var p := q / 64;
    assert cp == q * 64 + cp % 64 && q == p * 64 + q % 64 && p == p / 64 * 64 + p % 64;
    Low(0xF0, p / 64, 8);
    Low(0x80, p % 64, 64);
    Low(0x80, q % 64, 64);
    Low(0x80, cp % 64, 64);
  }

  // The payload bits of a byte.
  lemma Low(marker: nat, x: nat, m: nat)
    requires x < m && (m == 8 || m == 16 || m == 64) && marker % m == 0
    ensures (marker + x) % m == x
  {
  }

  lemma Digit(q: nat, r: nat)
    requires r < 64
    ensures (q * 64 + r) / 64 == q && (q * 64 + r) % 64 == r
  {
  }

  lemma CharRoundTrip(cp: nat, t: seq<byte>)
    requires Scalar(cp)
    ensures SeqLen(Utf8Char(cp) + t) == |Utf8Char(cp)|
    ensures FirstChar(Utf8Char(cp) + t) == Some(cp)
  {
    var c := Utf8Char(cp);
    CharConts(c, t, |c| - 1);
    assert (c + t)[1..] == c[1..] + t;
    if cp < 0x80 {
    } else if cp < 0x800 {
      Join2(cp);
    } else if cp < 0x10000 {
      Join3(cp);
    } else {
      Join4(cp);
    }
  }

  lemma {:induction false} CharConts(c: seq<byte>, t: seq<byte>, k: nat)
    requires k + 1 <= |c| && forall i :: 1 <= i < |c| ==> Continues(c[i])
    ensures Conts(c[1..] + t, k)
    decreases k
  {
    if k > 0 {
      assert (c[1..] + t)[0] == c[1];
      assert (c[1..] + t)[1..] == c[1..][1..] + t;
      CharConts(c[1..], t, k - 1);
    }
  }

  lemma Split2(b0: byte, b1: byte)
    requires 0xC0 <= b0 < 0xE0 && Continues(b1)
    ensures var cp := CodePoint2(b0, b1); 0xC0 + cp / 64 == b0 && 0x80 + cp % 64 == b1
  {
    Digit(b0 % 32, b1 % 64);
  }

  lemma Split3(b0: byte, b1: byte, b2: byte)
    requires 0xE0 <= b0 < 0xF0 && Continues(b1) && Continues(b2)
    ensures var cp := CodePoint3(b0, b1, b2);
            0xE0 + cp / 64 / 64 == b0 && 0x80 + cp / 64 % 64 == b1 && 0x80 + cp % 64 == b2
  {
    var q := b0 % 16 * 64 + b1 % 64;
    assert CodePoint3(b0, b1, b2) == q * 64 + b2 % 64;
    Digit(q, b2 % 64);
    Digit(b0 % 16, b1 % 64);
  }

  lemma Split4(b0: byte, b1: byte, b2: byte, b3: byte)
    requires 0xF0 <= b0 < 0xF8 && Continues(b1) && Continues(b2) && Continues(b3)
    ensures var cp := CodePoint4(b0, b1, b2, b3);
            && 0xF0 + cp / 64 / 64 / 64 == b0 && 0x80 + cp / 64 / 64 % 64 == b1
            && 0x80 + cp / 64 % 64 == b2 && 0x80 + cp % 64 == b3
  {
    var p := b0 % 8 * 64 + b1 % 64;
    var q := p * 64 + b2 % 64;
    assert CodePoint4(b0, b1, b2, b3) == q * 64 + b3 % 64;
    Digit(q, b3 % 64);
    Digit(p, b2 % 64);
    Digit(b0 % 8, b1 % 64);
  }

  lemma Char4(cp: nat, b0: byte, b1: byte, b2: byte, b3: byte)
    requires cp >= 0x10000 && Scalar(cp)
    requires 0xF0 + cp / 64 / 64 / 64 == b0 && 0x80 + cp / 64 / 64 % 64 == b1
    requires 0x80 + cp / 64 % 64 == b2 && 0x80 + cp % 64 == b3
    ensures Utf8Char(cp) == [b0, b1, b2, b3]
  {
  }

  lemma Char3(cp: nat, b0: byte, b1: byte, b2: byte)
    requires 0x800 <= cp < 0x10000 && Scalar(cp)
    requires 0xE0 + cp / 64 / 64 == b0 && 0x80 + cp / 64 % 64 == b1 && 0x80 + cp % 64 == b2
    ensures Utf8Char(cp) == [b0, b1, b2]
  {
  }

  lemma CharUnique(s: seq<byte>)
    requires s != [] && FirstChar(s).Some?
    ensures Utf8Char(FirstChar(s).value) == s[..SeqLen(s)]
  {
    var n, cp := SeqLen(s), FirstChar(s).value;
    TokenConts(s, n - 1);
    if n == 2 {
      Split2(s[0], s[1]);
    } else if n == 3 {
      Split3(s[0], s[1], s[2]);
      Char3(cp, s[0], s[1], s[2]);
    } else if n == 4 {
      Split4(s[0], s[1], s[2], s[3]);
      Char4(cp, s[0], s[1], s[2], s[3]);
    }
  }

  lemma TokenConts(s: seq<byte>, k: nat)
    requires s != [] && k == SeqLen(s) - 1
    ensures forall i :: 1 <= i <= k ==> Continues(s[i])
  {
    ContsAll(s[1..], k);
    assert forall i :: 1 <= i <= k ==> s[i] == s[1..][i - 1];
  }

  lemma {:induction false} ContsAll(s: seq<byte>, k: nat)
    requires Conts(s, k)
    ensures forall i :: 0 <= i < k ==> Continues(s[i])
    decreases k
  {
    if k > 0 {
      ContsAll(s[1..], k - 1);
      assert forall i :: 1 <= i < k ==> s[i] == s[1..][i - 1];
    }
  }

  lemma {:induction false} DecodeUtf8(cps: seq<nat>)
    requires AllScalar(cps)
    ensures Decode(Utf8(cps)) == Some(cps)
  {
    if cps != [] {
      var rest := Utf8(cps[1..]);
      CharRoundTrip(cps[0], rest);
      assert (Utf8Char(cps[0]) + rest)[|Utf8Char(cps[0])|..] == rest;
      DecodeUtf8(cps[1..]);
      assert cps == [cps[0]] + cps[1..];
    }
  }

  lemma {:induction false} Utf8Decode(s: seq<byte>)
    requires Decode(s).Some?
    ensures AllScalar(Decode(s).value) && s == Utf8(Decode(s).value)
    decreases |s|
  {
    if s != [] {
      CharUnique(s);
      Utf8Decode(s[SeqLen(s)..]);
      assert Decode(s).value[1..] == Decode(s[SeqLen(s)..]).value;
    }
  }

  // Decode accepts exactly the encodings of scalar values.
  lemma DecodeExactly(s: seq<byte>, cps: seq<nat>)
    ensures Decode(s) == Some(cps) <==> AllScalar(cps) && s == Utf8(cps)
  {
    if AllScalar(cps) {
      DecodeUtf8(cps);
    }
    if Decode(s).Some? {
      Utf8Decode(s);
    }
  }

  // What one character becomes.
  function ImageOf(cp: nat, u: byte): nat {
    if FoldBase(cp) != 0 then FoldBase(cp) else if cp >= 0x800 && u != 0 then u else cp
  }

  function Images(cps: seq<nat>, u: byte): (r: seq<nat>)
    ensures |r| == |cps|
  {
    if cps == [] then [] else [ImageOf(cps[0], u)] + Images(cps[1..], u)
  }

  // Letters below U+0800 stay, the folded block is gone, and with a placeholder nothing
  // at or above U+0800 is left.
  lemma ImageDrawable(cp: nat, u: byte)
    requires Scalar(cp)
    ensures Scalar(ImageOf(cp, u))
    ensures cp < 0x800 ==> ImageOf(cp, u) == cp
    ensures !(0x1E00 <= ImageOf(cp, u) <= 0x1EFF)
    ensures u != 0 ==> ImageOf(cp, u) < 0x800
  {
    FoldBaseRange(cp);
  }

  lemma CharImage(cp: nat, t: seq<byte>, u: byte)
    requires Scalar(cp) && u < 0x80
    ensures Scalar(ImageOf(cp, u)) && Image(Utf8Char(cp) + t, u) == Utf8Char(ImageOf(cp, u))
  {
    CharRoundTrip(cp, t);
    FoldBaseRange(cp);
    assert (Utf8Char(cp) + t)[..|Utf8Char(cp)|] == Utf8Char(cp);
  }

  // The fold maps well-formed text to well-formed text, character by character.
  lemma {:induction false} FoldMeaning(s: seq<byte>, cps: seq<nat>, u: byte)
    requires u < 0x80 && Decode(s) == Some(cps)
    ensures Decode(Folded(s, u)) == Some(Images(cps, u))
    decreases |s|
  {
    if s != [] {
      var rest := s[SeqLen(s)..];
      CharUnique(s);
      assert s == Utf8Char(cps[0]) + rest;
      CharImage(cps[0], rest, u);
      FoldMeaning(rest, cps[1..], u);
      CharRoundTrip(ImageOf(cps[0], u), Folded(rest, u));
      assert Folded(s, u)[|Image(s, u)|..] == Folded(rest, u);
    }
  }
}
