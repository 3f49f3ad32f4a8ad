/** Little-endian 32-bit words over a flat byte memory (the address is the index). */
module Words {

  type Byte = bv8
  type Word = bv32

  predicate Aligned(a: int) {
    a % 4 == 0
  }

  lemma AlignedNext(a: int)
    requires Aligned(a)
    ensures Aligned(a + 4) && Aligned(a + 8) && Aligned(a + 12) && Aligned(a + 16)
  {
  }

  function WordOf(b0: Byte, b1: Byte, b2: Byte, b3: Byte): Word {
    (b0 as Word) | ((b1 as Word) << 8) | ((b2 as Word) << 16) | ((b3 as Word) << 24)
  }

  /** The word a 32-bit load at address a yields. */
  function WordAt(m: seq<Byte>, a: int): Word
    requires 0 <= a && a + 4 <= |m|
  {
    WordOf(m[a], m[a + 1], m[a + 2], m[a + 3])
  }

  function ByteOf(w: Word, k: nat): Byte
    requires k < 4
  {
    match k
    case 0 => (w & 0xFF) as Byte
    case 1 => ((w >> 8) & 0xFF) as Byte
    case 2 => ((w >> 16) & 0xFF) as Byte
    case 3 => ((w >> 24) & 0xFF) as Byte
  }

  /** The memory after a 32-bit store of w at address a. */
  function WithWord(m: seq<Byte>, a: int, w: Word): (r: seq<Byte>)
    requires 0 <= a && a + 4 <= |m|
    ensures |r| == |m|
  {
    m[a := ByteOf(w, 0)][a + 1 := ByteOf(w, 1)][a + 2 := ByteOf(w, 2)][a + 3 := ByteOf(w, 3)]
  }

  lemma BytesOfWord(b0: Byte, b1: Byte, b2: Byte, b3: Byte)
    ensures ByteOf(WordOf(b0, b1, b2, b3), 0) == b0
    ensures ByteOf(WordOf(b0, b1, b2, b3), 1) == b1
    ensures ByteOf(WordOf(b0, b1, b2, b3), 2) == b2
    ensures ByteOf(WordOf(b0, b1, b2, b3), 3) == b3
  {
  }

  /** Copying a word moves four bytes in order. */
  lemma StoreOfLoad(m: seq<Byte>, a: nat, src: seq<Byte>, b: nat)
    requires a + 4 <= |m| && b + 4 <= |src|
    ensures WithWord(m, a, WordAt(src, b)) == m[..a] + src[b..b + 4] + m[a + 4..]
  {
    BytesOfWord(src[b], src[b + 1], src[b + 2], src[b + 3]);
  }

  /** memcpy's `(w LS ls) | (x RS 32-ls)`: the end of one word, then the start of the next. */
  function Merged(w: Word, x: Word, ls: nat): Word
    requires ls == 8 || ls == 16 || ls == 24
  {
    match ls
    case 8 => (w >> 8) | (x << 24)
    case 16 => (w >> 16) | (x << 16)
    case _ => (w >> 24) | (x << 8)
  }

  /** Merging two adjacent aligned words gives the word that starts ls bits into the first. */
  lemma MergeOfAdjacent(m: seq<Byte>, a: int, ls: nat)
    requires 0 <= a && a + 8 <= |m|
    requires ls == 8 || ls == 16 || ls == 24
    ensures Merged(WordAt(m, a), WordAt(m, a + 4), ls) == WordAt(m, a + ls / 8)
  {
    match ls
    case 8 => MergeBy1(m[a], m[a + 1], m[a + 2], m[a + 3], m[a + 4], m[a + 5], m[a + 6], m[a + 7]);
    case 16 => MergeBy2(m[a], m[a + 1], m[a + 2], m[a + 3], m[a + 4], m[a + 5], m[a + 6], m[a + 7]);
    case _ => MergeBy3(m[a], m[a + 1], m[a + 2], m[a + 3], m[a + 4], m[a + 5], m[a + 6], m[a + 7]);
  }

  lemma MergeBy1(b0: Byte, b1: Byte, b2: Byte, b3: Byte, b4: Byte, b5: Byte, b6: Byte, b7: Byte)
    ensures (WordOf(b0, b1, b2, b3) >> 8) | (WordOf(b4, b5, b6, b7) << 24) == WordOf(b1, b2, b3, b4)
  {
  }

  lemma MergeBy2(b0: Byte, b1: Byte, b2: Byte, b3: Byte, b4: Byte, b5: Byte, b6: Byte, b7: Byte)
    ensures (WordOf(b0, b1, b2, b3) >> 16) | (WordOf(b4, b5, b6, b7) << 16) == WordOf(b2, b3, b4, b5)
  {
  }

  lemma MergeBy3(b0: Byte, b1: Byte, b2: Byte, b3: Byte, b4: Byte, b5: Byte, b6: Byte, b7: Byte)
    ensures (WordOf(b0, b1, b2, b3) >> 24) | (WordOf(b4, b5, b6, b7) << 8) == WordOf(b3, b4, b5, b6)
  {
  }
}
