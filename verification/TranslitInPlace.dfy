// The in-place form of the fold (common/translit.h): one buffer, a read cursor and a
// write cursor that never overtakes it.
module TranslitInPlace {
  import opened Machine
  import opened Translit

  // The array holds the C string `s`, of which everything from `r` on is still unread.
  ghost predicate Unread(a: seq<byte>, s: seq<byte>, r: nat) {
    r <= |s| < |a| && 0 !in s && a[|s|] == 0 && a[r..|s|] == s[r..]
  }

  lemma UnreadAt(a: seq<byte>, s: seq<byte>, r: nat, i: nat)
    requires Unread(a, s, r) && r <= i <= |s|
    ensures i < |s| ==> a[i] == s[i] && a[i] != 0
    ensures i < |s| ==> s[r..][i - r] == s[i]
  {
    if i < |s| {
      assert a[i] == a[r..|s|][i - r];
    }
  }

  // The terminator is no continuation byte.
  lemma ContsStep(a: seq<byte>, s: seq<byte>, r: nat, i: nat, k: nat)
    requires Unread(a, s, r) && r <= i <= |s|
    ensures Conts(s[i..], k + 1) <==> Continues(a[i]) && i < |s| && Conts(s[i + 1..], k)
    ensures Continues(a[i]) ==> i < |s|
  {
    UnreadAt(a, s, r, i);
    if i < |s| {
      assert s[i..][1..] == s[i + 1..];
    }
  }

  lemma FollowUps(a: seq<byte>, s: seq<byte>, r: nat)
    requires Unread(a, s, r) && r < |s|
    ensures a[r] == s[r..][0] && s[r..][1..] == s[r + 1..]
    ensures Continues(a[r + 1]) ==> r + 1 < |s|
    ensures Continues(a[r + 1]) && Continues(a[r + 2]) ==> r + 2 < |s|
    ensures Conts(s[r + 1..], 1) <==> Continues(a[r + 1])
    ensures Conts(s[r + 1..], 2) <==> Continues(a[r + 1]) && Continues(a[r + 2])
    ensures Conts(s[r + 1..], 3) <==> Continues(a[r + 1]) && Continues(a[r + 2]) && Continues(a[r + 3])
  {
    UnreadAt(a, s, r, r);
    ContsStep(a, s, r, r + 1, 0);
    ContsStep(a, s, r, r + 1, 1);
    ContsStep(a, s, r, r + 1, 2);
    if Continues(a[r + 1]) {
      ContsStep(a, s, r, r + 2, 0);
      ContsStep(a, s, r, r + 2, 1);
      if Continues(a[r + 2]) {
        ContsStep(a, s, r, r + 3, 0);
      }
    }
  }

  // Classifies the sequence at `r` by its lead byte. Each further byte is looked at only
  // when the ones before it continue the sequence, so never beyond the terminator.
  method TokenLength(a: array<byte>, r: nat, ghost s: seq<byte>) returns (n: nat)
    requires Unread(a[..], s, r) && r < |s|
    ensures n == SeqLen(s[r..]) && r + n <= |s|
    ensures forall i :: 0 <= i < n ==> a[r + i] == s[r..][i]
  {
    FollowUps(a[..], s, r);
    var lead := a[r];
    if lead < 0x80 {
      n := 1;
    } else if 0xC0 <= lead < 0xE0 && Continues(a[r + 1]) {
      n := 2;
    } else if 0xE0 <= lead < 0xF0 && Continues(a[r + 1]) && Continues(a[r + 2]) {
      n := 3;
    } else if 0xF0 <= lead < 0xF8 && Continues(a[r + 1]) && Continues(a[r + 2]) && Continues(a[r + 3]) {
      n := 4;
    } else {
      n := 1;
    }
    forall i | 0 <= i < n
      ensures a[r + i] == s[r..][i]
    {
      UnreadAt(a[..], s, r, r + i);
    }
  }

  method WriteUtf8(a: array<byte>, w: nat, cp: nat) returns (k: nat)
    requires cp < 0x800 && w + |EncodeUtf8(cp)| <= a.Length
    modifies a
    ensures k == |EncodeUtf8(cp)|
    ensures a[..w + k] == old(a[..w]) + EncodeUtf8(cp)
    ensures a[w + k..] == old(a[w + k..])
  {
    if cp < 0x80 {
      a[w] := cp;
      return 1;
    }
    a[w] := 0xC0 + cp / 64;
    a[w + 1] := 0x80 + cp % 64;
    return 2;
  }

  // The forward copy of one token onto the write cursor.
  method CopyDown(a: array<byte>, w: nat, r: nat, n: nat)
    requires w <= r && r + n <= a.Length
    modifies a
    ensures a[..w + n] == old(a[..w]) + old(a[r..r + n])
    ensures a[r + n..] == old(a[r + n..])
  {
    for i := 0 to n
      invariant a[..w + i] == old(a[..w]) + old(a[r..r + i])
      invariant a[r + i..] == old(a[r + i..])
    {
      assert a[r + i] == a[r + i..][0] == old(a[r + i]);
      a[w + i] := a[r + i];
      assert a[r + i + 1..] == old(a[r + i..])[1..];
    }
  }

  // Writes the image of the token at `r`. As long as no long sequence was seen, the bytes
  // are already in place.
  method WriteImage(a: array<byte>, r: nat, w: nat, n: nat, u: byte, sawLong: bool, ghost rest: seq<byte>)
    returns (w': nat)
    requires rest != [] && n == SeqLen(rest) && w <= r && r + n < a.Length
    requires forall i :: 0 <= i < n ==> a[r + i] == rest[i]
    requires if sawLong then true else n < 3 && w == r
    modifies a
    ensures w <= w' <= r + n && (!sawLong ==> w' == r + n)
    ensures a[..w'] == old(a[..w]) + Image(rest, u)
    ensures a[r + n..] == old(a[r + n..])
  {
    ImageLength(rest, u);
    if n == 3 {
      FoldBaseRange(CodePoint3(a[r], a[r + 1], a[r + 2]));
      var base := FoldBase(CodePoint3(a[r], a[r + 1], a[r + 2]));
      if base != 0 {
        w' := WriteWithin(a, w, r + n, base);
        return;
      }
    }
    if n >= 3 && u != 0 {
      a[w] := u;
      return w + 1;
    }
    assert a[r..r + n] == rest[..n];
    if sawLong {
      CopyDown(a, w, r, n);
    }
    return w + n;
  }

  method WriteWithin(a: array<byte>, w: nat, end: nat, cp: nat) returns (w': nat)
    requires cp < 0x800 && w + 2 <= end <= a.Length
    modifies a
    ensures w <= w' <= end
    ensures a[..w'] == old(a[..w]) + EncodeUtf8(cp)
    ensures a[end..] == old(a[end..])
  {
    ghost var k0 := |EncodeUtf8(cp)|;
    assert a[end..] == a[w + k0..][end - w - k0..];
    var k := WriteUtf8(a, w, cp);
    assert a[end..] == a[w + k..][end - w - k..];
    return w + k;
  }

  // One token has been dealt with: its image stands before the write cursor.
  lemma Advance(rest: seq<byte>, n: nat, image: seq<byte>, before: seq<byte>, after: seq<byte>, u: byte)
    requires rest != [] && n == SeqLen(rest) && image == Image(rest, u) && after == before + image
    ensures after + Folded(rest[n..], u) == before + Folded(rest, u)
  {
    Regroup(before, image, Folded(rest[n..], u), Folded(rest, u));
  }

  lemma Regroup(x: seq<byte>, y: seq<byte>, z: seq<byte>, yz: seq<byte>)
    requires yz == y + z
    ensures x + y + z == x + yz
  {
  }

  lemma Consumed(a0: seq<byte>, a1: seq<byte>, s: seq<byte>, r: nat, n: nat)
    requires Unread(a0, s, r) && |a1| == |a0| && r + n <= |s| && a1[r + n..] == a0[r + n..]
    ensures Unread(a1, s, r + n)
    ensures s[r..][n..] == s[r + n..]
  {
    assert a1[|s|] == a1[r + n..][|s| - r - n];
    forall i | r + n <= i < |s|
      ensures a1[i] == s[i]
    {
      UnreadAt(a0, s, r, i);
      assert a1[i] == a1[r + n..][i - r - n];
    }
    assert a1[r + n..|s|] == s[r + n..];
  }

  // The string's own end, and what the array holds once its fold is terminated.
  lemma Terminated(b: seq<byte>, w: nat, s: seq<byte>)
    requires w < |b| && b[w] == 0 && b[..w] == s && 0 !in s
    ensures UpToNul(b) == s
    decreases w
  {
    if w > 0 {
      assert b[0] == s[0];
      assert b[1..][..w - 1] == s[1..];
      Terminated(b[1..], w - 1, s[1..]);
    }
  }

  lemma ImageNoNul(s: seq<byte>, u: byte)
    requires s != [] && 0 !in s
    ensures 0 !in Image(s, u)
  {
    if SeqLen(s) == 3 {
      FoldBaseRange(CodePoint3(s[0], s[1], s[2]));
    }
  }

  lemma {:induction false} FoldedNoNul(s: seq<byte>, u: byte)
    requires 0 !in s
    ensures 0 !in Folded(s, u)
    decreases |s|
  {
    if s != [] {
      ImageNoNul(s, u);
      FoldedNoNul(s[SeqLen(s)..], u);
    }
  }

  lemma {:induction false} HasEnd(b: seq<byte>)
    requires 0 in b
    ensures Unread(b, UpToNul(b), 0)
  {
    if b[0] != 0 {
      HasEnd(b[1..]);
      assert b[..|UpToNul(b)|] == UpToNul(b);
    }
  }

  // One turn of the loop: the token at `r` moves to the write cursor.
  method FoldToken(a: array<byte>, r: nat, w: nat, n: nat, u: byte, sawLong: bool, ghost rest: seq<byte>)
    returns (w': nat)
    requires rest != [] && n == SeqLen(rest) && w <= r && r + n < a.Length
    requires forall i :: 0 <= i < n ==> a[r + i] == rest[i]
    requires if sawLong then true else n < 3 && w == r
    modifies a
    ensures w <= w' <= r + n && (!sawLong ==> w' == r + n)
    ensures a[r + n..] == old(a[r + n..])
    ensures a[..w'] + Folded(rest[n..], u) == old(a[..w]) + Folded(rest, u)
  {
    ghost var before := a[..w];
    w' := WriteImage(a, r, w, n, u, sawLong, rest);
    Advance(rest, n, Image(rest, u), before, a[..w'], u);
  }

  lemma Kept(a0: seq<byte>, a1: seq<byte>, a2: seq<byte>, r1: nat, r2: nat)
    requires |a0| == |a1| == |a2| && r1 <= r2 <= |a0| && a1[r1..] == a0[r1..] && a2[r2..] == a1[r2..]
    ensures a2[r2..] == a0[r2..]
  {
    assert a1[r2..] == a1[r1..][r2 - r1..] && a0[r2..] == a0[r1..][r2 - r1..];
  }

  // What is known between two turns.
  ghost predicate Between(b: seq<byte>, a: seq<byte>, s: seq<byte>, r: nat, w: nat, u: byte) {
    && |a| == |b| && Unread(a, s, r) && w <= r && a[r..] == b[r..]
    && a[..w] + Folded(s[r..], u) == Folded(s, u)
  }

  lemma Turn(b: seq<byte>, a0: seq<byte>, a1: seq<byte>, s: seq<byte>, r: nat, w0: nat, n: nat, w: nat, u: byte)
    requires Between(b, a0, s, r, w0, u) && |a1| == |a0| && r + n <= |s| && w <= r + n
    requires a1[r + n..] == a0[r + n..]
    requires a1[..w] + Folded(s[r..][n..], u) == a0[..w0] + Folded(s[r..], u)
    ensures Between(b, a1, s, r + n, w, u)
  {
    Consumed(a0, a1, s, r, n);
    Kept(b, a0, a1, r, r + n);
  }

  lemma Done(b: seq<byte>, a: seq<byte>, s: seq<byte>, r: nat, w: nat, u: byte)
    requires Between(b, a, s, r, w, u) && a[r] == 0
    ensures r == |s| && a[..w] == Folded(s, u)
  {
    UnreadAt(a, s, r, r);
    assert s[|s|..] == [];
  }

  method FoldTokens(a: array<byte>, u: byte, ghost s: seq<byte>) returns (w: nat)
    requires Unread(a[..], s, 0)
    modifies a
    ensures w <= |s| && a[..w] == Folded(s, u) && a[|s|..] == old(a[|s|..])
  {
    var r, sawLong := 0, false;
    w := 0;
    ghost var b := a[..];
    assert s[0..] == s && a[..0] + Folded(s, u) == Folded(s, u);
    while a[r] != 0
      invariant Between(b, a[..], s, r, w, u) && (!sawLong ==> w == r)
      decreases |s| - r
    {
      UnreadAt(a[..], s, r, r);
      ghost var a0, w0 := a[..], w;
      var n := TokenLength(a, r, s);
      sawLong := sawLong || n >= 3;
      w := FoldToken(a, r, w, n, u, sawLong, s[r..]);
      Turn(b, a0, a[..], s, r, w0, n, w, u);
      r := r + n;
    }
    Done(b, a[..], s, r, w, u);
  }

  // The fold, in place: the buffer holds the folded string, and nothing from the end of
  // the original string on has changed.
  method Fold(a: array<byte>, u: byte)
    requires 0 in a[..]
    modifies a
    ensures UpToNul(a[..]) == Folded(UpToNul(old(a[..])), u)
    ensures |UpToNul(a[..])| <= |UpToNul(old(a[..]))| < a.Length
    ensures a[|UpToNul(old(a[..]))|..] == old(a[|UpToNul(a[..])|..])
  {
    ghost var b, s := a[..], UpToNul(a[..]);
    HasEnd(b);
    var w := FoldTokens(a, u, s);
    assert a[|s|] == a[|s|..][0] == b[|s|] == 0;
    a[w] := 0;
    FoldedNoNul(s, u);
    Terminated(a[..], w, Folded(s, u));
  }
}
