/** strlen, word at a time: sw/common/strlen.c. */
module Strlen {
  import opened Words

  const ONES: Word := 0x0101_0101
  const HIGHS: Word := 0x8080_8080

  function HasZero(x: Word): Word {
    (x - ONES) & !x & HIGHS
  }

  /** The bit trick is exact: nonzero if and only if some byte of the word is zero. */
  lemma HasZeroIsExact(b0: Byte, b1: Byte, b2: Byte, b3: Byte)
    ensures HasZero(WordOf(b0, b1, b2, b3)) != 0 <==> b0 == 0 || b1 == 0 || b2 == 0 || b3 == 0
  {
  }

  lemma HasZeroOfWord(m: seq<Byte>, a: int)
    requires 0 <= a && a + 4 <= |m|
    ensures HasZero(WordAt(m, a)) != 0 <==> exists k :: a <= k < a + 4 && m[k] == 0
  {
    HasZeroIsExact(m[a], m[a + 1], m[a + 2], m[a + 3]);
    if HasZero(WordAt(m, a)) != 0 {
      assert m[a] == 0 || m[a + 1] == 0 || m[a + 2] == 0 || m[a + 3] == 0;
    }
  }

  /** Length of the string at s in memory m (ISO/IEC 9899:2011, section 7.24.6.3). */
  ghost predicate IsLength(m: seq<Byte>, s: nat, len: nat) {
    s + len < |m| && m[s + len] == 0 && forall k :: s <= k < s + len ==> m[k] != 0
  }

  /** The first address past the aligned word that holds address z. */
  function WordEnd(z: nat): nat {
    z - z % 4 + 4
  }

  /** A word load inside the string's own words: aligned, and not past the one with the terminator. */
  method LoadWord(mem: array<Byte>, a: int, ghost s: nat, ghost z: nat) returns (w: Word)
    requires s <= a && a % 4 == 0 && a + 4 <= WordEnd(z) <= mem.Length
    ensures w == WordAt(mem[..], a)
  {
    w := WordOf(mem[a], mem[a + 1], mem[a + 2], mem[a + 3]);
  }

  method LoadByte(mem: array<Byte>, a: int, ghost s: nat, ghost z: nat) returns (b: Byte)
    requires s <= a <= z < mem.Length
    ensures b == mem[a]
  {
    b := mem[a];
  }

  /** strlen for every string and every alignment. z is the terminator; memory need only exist
      up to the end of the aligned word that holds it. */
  method Strlen(mem: array<Byte>, a: nat, ghost z: nat) returns (len: nat)
    requires a <= z && IsLength(mem[..], a, z - a)
    requires WordEnd(z) <= mem.Length <= 0x1_0000_0000
    ensures IsLength(mem[..], a, len)
  {
    var s: int := a;
    var b: Byte;
    while s % 4 != 0
      invariant a <= s <= z
      invariant forall k :: a <= k < s ==> mem[k] != 0
      decreases z - s
    {
      b := LoadByte(mem, s, a, z);
      if b == 0 {
        return s - a;
      }
      s := s + 1;
    }
    hide HasZero, WordAt;
    var w := s;
    var x := LoadWord(mem, w, a, z);
    while HasZero(x) == 0
      invariant s <= w <= z && w % 4 == 0 && x == WordAt(mem[..], w)
      invariant forall k :: a <= k < w ==> mem[k] != 0
      decreases z - w
    {
      HasZeroOfWord(mem[..], w);
      assert forall k :: w <= k < w + 4 ==> mem[..][k] != 0;
      w := w + 4;
      x := LoadWord(mem, w, a, z);
    }
    s := w;
    b := LoadByte(mem, s, a, z);
    while b != 0
      invariant a <= s <= z && b == mem[s]
      invariant forall k :: a <= k < s ==> mem[k] != 0
      decreases z - s
    {
      s := s + 1;
      b := LoadByte(mem, s, a, z);
    }
    return s - a;
  }

  lemma LengthIsUnique(m: seq<Byte>, s: nat, l1: nat, l2: nat)
    requires IsLength(m, s, l1) && IsLength(m, s, l2)
    ensures l1 == l2
  {
  }
}
