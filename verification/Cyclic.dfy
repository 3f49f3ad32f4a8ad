/** A window of a circular buffer: the slots from r up to but not including w. */
module Cyclic {

  function Slice<T>(s: seq<T>, r: nat, w: nat): (q: seq<T>)
    requires r < |s| && w < |s|
  {
    if r <= w then s[r..w] else s[r..] + s[..w]
  }

  function Next(i: nat, n: nat): nat
    requires i < n
  {
    if i + 1 == n then 0 else i + 1
  }

  lemma SliceLength<T>(s: seq<T>, r: nat, w: nat)
    requires r < |s| && w < |s|
    ensures |Slice(s, r, w)| == if r <= w then w - r else w + |s| - r
  {
  }

  /** Writing the slot at w and advancing w appends, unless the window already has all but one slot. */
  lemma Append<T>(s: seq<T>, r: nat, w: nat, d: T)
    requires r < |s| && w < |s| && |Slice(s, r, w)| < |s| - 1
    ensures Slice(s[w := d], r, Next(w, |s|)) == Slice(s, r, w) + [d]
  {
    var t := s[w := d];
    if r <= w {
      if w + 1 == |s| {
        assert t[r..] + t[..0] == s[r..w] + [d];
      } else {
        assert t[r..w + 1] == s[r..w] + [d];
      }
    } else {
      assert t[r..] == s[r..];
      assert t[..w + 1] == s[..w] + [d];
      assert s[r..] + (s[..w] + [d]) == (s[r..] + s[..w]) + [d];
    }
  }

  /** Advancing r drops the oldest element. */
  lemma Pop<T>(s: seq<T>, r: nat, w: nat)
    requires r < |s| && w < |s| && r != w
    ensures Slice(s, r, w) == [s[r]] + Slice(s, Next(r, |s|), w)
  {
    if r < w {
      assert s[r..w] == [s[r]] + s[r + 1..w];
    } else if r + 1 == |s| {
      assert s[r..] == [s[r]];
    } else {
      assert s[r..] == [s[r]] + s[r + 1..];
      assert [s[r]] + s[r + 1..] + s[..w] == [s[r]] + (s[r + 1..] + s[..w]);
    }
  }
}
