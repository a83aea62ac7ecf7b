// Which letter each folded character becomes (common/translit.h), by ranges of code points
// instead of a table: the Unicode block Latin Extended Additional is made of pairs of a
// capital and its small letter.
module Letters {
  import opened Machine
  import opened Translit

  const CIRCUMFLEX_A: nat := 0xC2
  const CIRCUMFLEX_E: nat := 0xCA
  const CIRCUMFLEX_O: nat := 0xD4
  const BREVE_A: nat := 0x102
  const HORN_O: nat := 0x1A0
  const HORN_U: nat := 0x1AF

  // The capital of the pair a code point of U+1E00..U+1E95 belongs to.
  function MarkedCapital(cp: nat): nat {
    if cp <= 0x1E01 then 0x41   // A
    else if cp <= 0x1E07 then 0x42   // B
    else if cp <= 0x1E09 then 0x43   // C
    else if cp <= 0x1E13 then 0x44   // D
    else if cp <= 0x1E1D then 0x45   // E
    else if cp <= 0x1E1F then 0x46   // F
    else if cp <= 0x1E21 then 0x47   // G
    else if cp <= 0x1E2B then 0x48   // H
    else if cp <= 0x1E2F then 0x49   // I
    else if cp <= 0x1E35 then 0x4B   // K
    else if cp <= 0x1E3D then 0x4C   // L
    else if cp <= 0x1E43 then 0x4D   // M
    else if cp <= 0x1E4B then 0x4E   // N
    else if cp <= 0x1E53 then 0x4F   // O
    else if cp <= 0x1E57 then 0x50   // P
    else if cp <= 0x1E5F then 0x52   // R
    else if cp <= 0x1E69 then 0x53   // S
    else if cp <= 0x1E71 then 0x54   // T
    else if cp <= 0x1E7B then 0x55   // U
    else if cp <= 0x1E7F then 0x56   // V
    else if cp <= 0x1E89 then 0x57   // W
    else if cp <= 0x1E8D then 0x58   // X
    else if cp <= 0x1E8F then 0x59   // Y
    else 0x5A   // Z
  }

  // The capital of the pair a code point of U+1EA0..U+1EFF belongs to: the Vietnamese
  // letters keep circumflex, breve and horn.
  function StackedCapital(cp: nat): nat {
    if cp <= 0x1EA3 then 0x41   // A
    else if cp <= 0x1EAD then CIRCUMFLEX_A
    else if cp <= 0x1EB7 then BREVE_A
    else if cp <= 0x1EBD then 0x45   // E
    else if cp <= 0x1EC7 then CIRCUMFLEX_E
    else if cp <= 0x1ECB then 0x49   // I
    else if cp <= 0x1ECF then 0x4F   // O
    else if cp <= 0x1ED9 then CIRCUMFLEX_O
    else if cp <= 0x1EE3 then HORN_O
    else if cp <= 0x1EE7 then 0x55   // U
    else if cp <= 0x1EF1 then HORN_U
    else if cp <= 0x1EF9 then 0x59   // Y
    else if cp <= 0x1EFB then 0x4C   // L
    else if cp <= 0x1EFD then 0x56   // V
    else 0x59   // Y
  }

  // The small letter of a capital: 32 up in ASCII and Latin-1, the next one above.
  function Small(capital: nat): nat {
    if capital < 0x100 then capital + 32 else capital + 1
  }

  // The ten letters without a pair: h t w y a, three forms of s, capital sharp s, delta.
  function Unpaired(cp: nat): nat {
    if cp == 0x1E96 then 0x68
    else if cp == 0x1E97 then 0x74
    else if cp == 0x1E98 then 0x77
    else if cp == 0x1E99 then 0x79
    else if cp == 0x1E9A then 0x61
    else if cp <= 0x1E9D then 0x73
    else if cp == 0x1E9E then 0x53
    else 0x64
  }

  // Capitals are even, each followed by its small letter.
  function LetterOf(cp: nat): nat {
    if 0x1E96 <= cp <= 0x1E9F then Unpaired(cp)
    else
      var capital := if cp < 0x1E96 then MarkedCapital(cp) else StackedCapital(cp);
      if cp % 2 == 0 then capital else Small(capital)
  }

  lemma Letters1E00(row: nat, col: nat, cp: nat)
    requires row < 8 && col < 8 && cp == 0x1E00 + 8 * row + col
    ensures Bases1E00(row)[col] == LetterOf(cp)
  {
  }

  lemma Letters1E40(row: nat, col: nat, cp: nat)
    requires row < 8 && col < 8 && cp == 0x1E40 + 8 * row + col
    ensures Bases1E40(row)[col] == LetterOf(cp)
  {
  }

  lemma Letters1E80(row: nat, col: nat, cp: nat)
    requires row < 8 && col < 8 && cp == 0x1E80 + 8 * row + col
    ensures Bases1E80(row)[col] == LetterOf(cp)
  {
  }

  lemma Letters1EC0(row: nat, col: nat, cp: nat)
    requires row < 8 && col < 8 && cp == 0x1EC0 + 8 * row + col
    ensures Bases1EC0(row)[col] == LetterOf(cp)
  {
  }

  lemma BaseRowLetter(row: nat, col: nat, cp: nat)
    requires row < 32 && col < 8 && cp == 0x1E00 + 8 * row + col
    ensures BaseRow(row)[col] == LetterOf(cp)
  {
    if row < 8 {
      Letters1E00(row, col, cp);
    } else if row < 16 {
      Letters1E40(row - 8, col, cp);
    } else if row < 24 {
      Letters1E80(row - 16, col, cp);
    } else {
      Letters1EC0(row - 24, col, cp);
    }
  }

  // The table has the base letter of every code point of the block.
  lemma FoldBaseLetter(cp: nat)
    requires 0x1E00 <= cp <= 0x1EFF
    ensures FoldBase(cp) == LetterOf(cp)
  {
    BaseRowLetter((cp - 0x1E00) / 8, (cp - 0x1E00) % 8, cp);
  }

  // A character of the block becomes its letter, whatever the placeholder.
  lemma LetterFolded(cp: nat, u: byte)
    requires 0x1E00 <= cp <= 0x1EFF
    ensures LetterOf(cp) < 0x800 && Folded(Utf8([cp]), u) == Utf8([LetterOf(cp)])
  {
    FoldBaseLetter(cp);
    FoldBaseRange(cp);
    CharRoundTrip(cp, []);
    var c := Utf8Char(cp);
    assert Utf8([cp]) == c == c + [];
    assert c[SeqLen(c)..] == [];
    assert FirstChar(c) == Some(cp);
    assert Utf8([LetterOf(cp)]) == Utf8Char(LetterOf(cp));
  }

  // What the driver reads for a character: its letter in the block, the placeholder for
  // any other character the font lacks, otherwise the character.
  function Read(cp: nat, u: byte): nat {
    if 0x1E00 <= cp <= 0x1EFF then LetterOf(cp) else if cp >= 0x800 && u != 0 then u else cp
  }

  function ReadAll(cps: seq<nat>, u: byte): (r: seq<nat>)
    ensures |r| == |cps|
  {
    if cps == [] then [] else [Read(cps[0], u)] + ReadAll(cps[1..], u)
  }

  lemma {:induction false} ReadIsImage(cps: seq<nat>, u: byte)
    ensures ReadAll(cps, u) == Images(cps, u)
  {
    if cps != [] {
      var cp := cps[0];
      FoldBaseRange(cp);
      if 0x1E00 <= cp <= 0x1EFF {
        FoldBaseLetter(cp);
      }
      ReadIsImage(cps[1..], u);
    }
  }

  // A folded well-formed text reads letter by letter.
  lemma FoldedReads(s: seq<byte>, cps: seq<nat>, u: byte)
    requires u < 0x80 && Decode(s) == Some(cps)
    ensures Decode(Folded(s, u)) == Some(ReadAll(cps, u))
    ensures s != [] ==> Folded(s, u) != []
  {
    FoldMeaning(s, cps, u);
    ReadIsImage(cps, u);
  }

  lemma ImageNoNul(s: seq<byte>, u: byte)
    requires s != [] && 0 !in s
    ensures 0 !in Image(s, u)
  {
    if SeqLen(s) == 3 {
      FoldBaseRange(CodePoint3(s[0], s[1], s[2]));
    }
  }

  // The fold puts no terminator into a C string.
  lemma {:induction false} FoldedNoNul(s: seq<byte>, u: byte)
    requires 0 !in s
    ensures 0 !in Folded(s, u)
    decreases |s|
  {
    if s != [] {
      ImageNoNul(s, u);
      FoldedNoNul(s[SeqLen(s)..], u);
    }
  }
}
