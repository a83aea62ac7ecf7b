// Fixed-width integers and C strings shared by the models.
module Machine {
  type byte = b: int | 0 <= b < 0x100
  type uint16 = x: int | 0 <= x < 0x1_0000
  type uint32 = x: int | 0 <= x < 0x1_0000_0000
  type uint64 = x: int | 0 <= x < 0x1_0000_0000_0000_0000
  type int32 = x: int | -0x8000_0000 <= x < 0x8000_0000

  datatype Option<+T> = None | Some(value: T)

  function Init<T>(s: seq<T>): seq<T>
    requires s != []
  {
    s[..|s| - 1]
  }

  function Last<T>(s: seq<T>): T
    requires s != []
  {
    s[|s| - 1]
  }

  // (int32_t)v: keep the low 32 bits, read as two's complement.
  function ToInt32(v: int): (r: int32)
    ensures (v - r) % 0x1_0000_0000 == 0
  {
    var low := v % 0x1_0000_0000;
    if low < 0x8000_0000 then low else low - 0x1_0000_0000
  }

  // The C string held in a buffer: everything before the first NUL.
  function UpToNul(s: seq<byte>): (r: seq<byte>)
    ensures r <= s && 0 !in r
    ensures |r| < |s| ==> s[|r|] == 0
  {
    if s == [] || s[0] == 0 then [] else [s[0]] + UpToNul(s[1..])
  }

  // Truncating copy into a buffer of `cap` bytes (strncpy to cap - 1 followed by a
  // terminator, or copy_str), seen as a C string.
  function CopyStr(s: seq<byte>, cap: nat): (r: seq<byte>)
    requires cap > 0
    ensures |r| < cap && r <= s && 0 !in r
    ensures |r| < |s| && |r| + 1 < cap ==> s[|r|] == 0
  {
    UpToNul(if |s| >= cap then s[..cap - 1] else s)
  }

  lemma Fits(s: seq<byte>, cap: nat)
    requires 0 !in s && |s| < cap
    ensures CopyStr(s, cap) == s
  {
  }
}
