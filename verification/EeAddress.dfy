/** The hardware and network address printers of the CoreMark printf. */
module EeAddress {
  import opened EeNumber

  type Octet = b: nat | b < 256

  /** The text in its field: spaces go to the right of it or to the left. */
  function Justified(text: string, size: int, left: bool): string {
    if left then text + Repeat(' ', size - |text|) else Repeat(' ', size - |text|) + text
  }

  /** t is body with spaces to one side, as long as the longer of body and size. */
  ghost predicate IsPadded(t: string, body: string, size: int, left: bool) {
    && |t| == Max(size, |body|)
    && if left then body == t[..|body|] && All(t[|body|..], ' ')
       else body == t[|t| - |body|..] && All(t[..|t| - |body|], ' ')
  }

  lemma JustifiedIsPadded(text: string, size: int, left: bool)
    ensures IsPadded(Justified(text, size, left), text, size, left)
  {
  }

  lemma PaddedIsUnique(t: string, u: string, body: string, size: int, left: bool)
    requires IsPadded(t, body, size, left) && IsPadded(u, body, size, left)
    ensures t == u
  {
    var n := |t| - |body|;
    if left {
      AllSame(t[|body|..], u[|body|..], ' ');
      assert t == t[..|body|] + t[|body|..] && u == u[..|body|] + u[|body|..];
    } else {
      AllSame(t[..n], u[..n], ' ');
      assert t == t[..n] + t[n..] && u == u[..n] + u[n..];
    }
  }

  /** Both printers end alike: padding, the text, padding. */
  method Justify(tmp: array<char>, len: nat, size0: int, left: bool) returns (str: string)
    requires len <= tmp.Length
    ensures str == Justified(tmp[..len], size0, left)
  {
    hide Repeat;
    var gap := size0 - len;
    str := "";
    if !left {
      str, gap := Pad(str, ' ', gap);
    }
    ghost var front := str;
    NoRepeat(' ', gap);
    var i := 0;
    while i < len
      invariant 0 <= i <= len && str == front + tmp[..i]
    {
      str := str + [tmp[i]];
      i := i + 1;
    }
    str, gap := Pad(str, ' ', gap);
  }

  // ----- hexadecimal octets between colons -----

  function Hex(b: Octet, upper: bool): string {
    [Digit(b / 16, upper), Digit(b % 16, upper)]
  }

  function Colons(bs: seq<Octet>, upper: bool): string {
    if bs == [] then "" else if |bs| == 1 then Hex(bs[0], upper) else Hex(bs[0], upper) + ":" + Colons(bs[1..], upper)
  }

  lemma {:induction false} ColonsMore(bs: seq<Octet>, b: Octet, upper: bool)
    ensures Colons(bs + [b], upper) == Colons(bs, upper) + (if bs == [] then "" else ":") + Hex(b, upper)
  {
    hide Hex;
    if bs == [] {
    } else if |bs| == 1 {
      assert (bs + [b])[1..] == [b];
    } else {
      assert (bs + [b])[1..] == bs[1..] + [b];
      ColonsMore(bs[1..], b, upper);
    }
  }

  function HexValue(t: string): nat
    requires |t| == 2
  {
    16 * DigitOf(t[0]) + DigitOf(t[1])
  }

  /** Reading the text back two characters at a time, skipping the colons. */
  function ReadColons(t: string): seq<nat> {
    if |t| < 2 then [] else if |t| == 2 then [HexValue(t)] else [HexValue(t[..2])] + ReadColons(t[3..])
  }

  lemma {:induction false} ColonsReadBack(bs: seq<Octet>, upper: bool)
    ensures ReadColons(Colons(bs, upper)) == bs
    ensures |bs| > 0 ==> |Colons(bs, upper)| == 3 * |bs| - 1
  {
    hide Hex, HexValue;
    if bs != [] {
      HexReadBack(bs[0], upper);
      ColonsReadBack(bs[1..], upper);
      if |bs| > 1 {
        var h, rest := Hex(bs[0], upper), Colons(bs[1..], upper);
        var t := h + ":" + rest;
        assert Colons(bs, upper) == t;
        assert t[..2] == h && t[3..] == rest;
      }
    }
  }

  lemma HexReadBack(b: Octet, upper: bool)
    ensures |Hex(b, upper)| == 2 && HexValue(Hex(b, upper)) == b
  {
    DigitRead(b / 16, upper);
    DigitRead(b % 16, upper);
    hide Digit, DigitOf;
  }

  /** Two digits for each octet, a colon between two octets. */
  ghost predicate IsColons(t: string, bs: seq<Octet>, upper: bool) {
    && (bs == [] ==> t == "") && (bs != [] ==> |t| == 3 * |bs| - 1)
    && (forall i :: 0 <= i < |bs| ==> OctetAt(t, 3 * i, bs[i], upper))
    && forall i :: 0 <= i < |bs| - 1 ==> ColonAt(t, 3 * i + 2)
  }

  ghost predicate OctetAt(t: string, k: nat, b: Octet, upper: bool) {
    && k + 2 <= |t| && IsDigitOf(t[k], 16, upper) && IsDigitOf(t[k + 1], 16, upper)
    && b == 16 * DigitOf(t[k]) + DigitOf(t[k + 1])
  }

  ghost predicate ColonAt(t: string, k: nat) {
    k < |t| && t[k] == ':'
  }

  lemma HexIsOctet(b: Octet, upper: bool, rest: string)
    ensures OctetAt(Hex(b, upper) + rest, 0, b, upper)
  {
    CaseOfDigit(b / 16, 16, upper);
    CaseOfDigit(b % 16, 16, upper);
    HexReadBack(b, upper);
    hide Digit, DigitOf, IsDigitOf;
  }

  lemma OctetBehind(front: string, t: string, k: nat, b: Octet, upper: bool)
    requires OctetAt(t, k, b, upper)
    ensures OctetAt(front + t, |front| + k, b, upper)
  {
    hide DigitOf, IsDigitOf;
    assert (front + t)[|front| + k] == t[k] && (front + t)[|front| + k + 1] == t[k + 1];
  }

  lemma OctetsGrow(b: Octet, bs: seq<Octet>, rest: string, upper: bool, i: nat)
    requires bs != [] && IsColons(rest, bs, upper) && i <= |bs|
    ensures OctetAt((Hex(b, upper) + ":") + rest, 3 * i, ([b] + bs)[i], upper)
  {
    hide Hex, OctetAt;
    if i == 0 {
      HexIsOctet(b, upper, ":" + rest);
      assert Hex(b, upper) + (":" + rest) == Hex(b, upper) + ":" + rest;
    } else {
      HexReadBack(b, upper);
      assert OctetAt(rest, 3 * (i - 1), bs[i - 1], upper);
      OctetBehind(Hex(b, upper) + ":", rest, 3 * (i - 1), bs[i - 1], upper);
    }
  }

  lemma ColonsGrow(b: Octet, bs: seq<Octet>, rest: string, upper: bool)
    requires bs != [] && IsColons(rest, bs, upper)
    ensures IsColons(Hex(b, upper) + ":" + rest, [b] + bs, upper)
  {
    var t, cs := Hex(b, upper) + ":" + rest, [b] + bs;
    HexReadBack(b, upper);
    hide Hex, OctetAt, HexValue;
    forall i | 0 <= i < |cs| ensures OctetAt(t, 3 * i, cs[i], upper) {
      OctetsGrow(b, bs, rest, upper, i);
    }
    forall i | 0 <= i < |cs| - 1 ensures ColonAt(t, 3 * i + 2) {
      if i > 0 {
        assert ColonAt(rest, 3 * (i - 1) + 2);
        assert t[3 * i + 2] == rest[3 * (i - 1) + 2];
      }
    }
  }

  lemma {:induction false} ColonsAre(bs: seq<Octet>, upper: bool)
    ensures IsColons(Colons(bs, upper), bs, upper)
  {
    if |bs| == 1 {
      HexIsOctet(bs[0], upper, "");
      assert Hex(bs[0], upper) + "" == Hex(bs[0], upper);
      hide Hex, OctetAt;
    } else if |bs| > 1 {
      ColonsAre(bs[1..], upper);
      assert [bs[0]] + bs[1..] == bs;
      hide Hex, IsColons;
      ColonsGrow(bs[0], bs[1..], Colons(bs[1..], upper), upper);
    }
  }

  lemma ColonsAreUnique(t: string, u: string, bs: seq<Octet>, upper: bool)
    requires IsColons(t, bs, upper) && IsColons(u, bs, upper)
    ensures t == u
  {
    hide DigitOf, IsDigitOf;
    forall k | 0 <= k < |t| ensures |t| == |u| && t[k] == u[k] {
      var i := k / 3;
      if k % 3 == 2 {
        assert ColonAt(t, 3 * i + 2) && ColonAt(u, 3 * i + 2);
      } else {
        assert OctetAt(t, 3 * i, bs[i], upper) && OctetAt(u, 3 * i, bs[i], upper);
        OctetIsUnique(t, u, 3 * i, bs[i], upper);
      }
    }
  }

  lemma OctetIsUnique(t: string, u: string, k: nat, b: Octet, upper: bool)
    requires OctetAt(t, k, b, upper) && OctetAt(u, k, b, upper)
    ensures t[k] == u[k] && t[k + 1] == u[k + 1]
  {
    assert DigitOf(t[k]) < 16 && DigitOf(t[k + 1]) < 16 && DigitOf(u[k]) < 16 && DigitOf(u[k + 1]) < 16;
    hide DigitOf;
    SameDigit(t[k], u[k], 16, upper);
    SameDigit(t[k + 1], u[k + 1], 16, upper);
  }

  lemma ThreeMore(t: string, done: string, colon: string, hex: string)
    requires |hex| == 2 && |t| == |done| + |colon| + 2 && |colon| <= 1 && t[..|done|] == done
    requires colon != "" ==> t[|done|] == colon[0]
    requires t[|t| - 2] == hex[0] && t[|t| - 1] == hex[1]
    ensures t == done + colon + hex
  {
  }

  method Eaddr(addr: seq<Octet>, size: int, f: Flags) returns (str: string)
    requires |addr| >= 6
    ensures str == Justified(Colons(addr[..6], f.uppercase), size, f.left)
    ensures exists body :: IsColons(body, addr[..6], f.uppercase) && IsPadded(str, body, size, f.left)
  {
    hide Colons, Digit;
    var tmp := new char[24];
    var len, i := 0, 0;
    assert tmp[..0] == Colons(addr[..0], f.uppercase) by {
      ColonsNone(f.uppercase);
    }
    while i < 6
      invariant 0 <= i <= 6 && len == (if i == 0 then 0 else 3 * i - 1)
      invariant tmp[..len] == Colons(addr[..i], f.uppercase)
    {
      ghost var done := tmp[..len];
      if i != 0 {
        tmp[len] := ':';
        len := len + 1;
      }
      tmp[len] := Digit(addr[i] / 16, f.uppercase);
      tmp[len + 1] := Digit(addr[i] % 16, f.uppercase);
      len := len + 2;
      ColonsMore(addr[..i], addr[i], f.uppercase);
      assert addr[..i + 1] == addr[..i] + [addr[i]];
      ThreeMore(tmp[..len], done, if i == 0 then "" else ":", Hex(addr[i], f.uppercase));
      i := i + 1;
    }
    str := Justify(tmp, len, size, f.left);
    ColonsAre(addr[..6], f.uppercase);
    JustifiedIsPadded(Colons(addr[..6], f.uppercase), size, f.left);
  }

  lemma ColonsNone(upper: bool)
    ensures Colons([], upper) == ""
  {
  }

  // ----- decimal octets between dots -----

  function Dotted(bs: seq<Octet>): string {
    if bs == [] then ""
    else if |bs| == 1 then DigitText(bs[0], 10, false)
    else DigitText(bs[0], 10, false) + "." + Dotted(bs[1..])
  }

  lemma {:induction false} DottedMore(bs: seq<Octet>, b: Octet)
    ensures Dotted(bs + [b]) == Dotted(bs) + (if bs == [] then "" else ".") + DigitText(b, 10, false)
  {
    hide DigitText;
    if bs == [] {
    } else if |bs| == 1 {
      assert (bs + [b])[1..] == [b];
    } else {
      assert (bs + [b])[1..] == bs[1..] + [b];
      DottedMore(bs[1..], b);
    }
  }

  /** Reading the text back with the decimal parser, run by run. */
  function ReadDotted(t: string): seq<nat>
    decreases |t|
  {
    var e := DigitsEnd(t, 0);
    if e == 0 then []
    else if e == |t| then [Value(Read(t), 10)]
    else [Value(Read(t[..e]), 10)] + ReadDotted(t[e + 1..])
  }

  lemma {:induction false} DottedReadBack(bs: seq<Octet>)
    ensures ReadDotted(Dotted(bs)) == bs
  {
    if bs != [] {
      hide DigitText, DigitsEnd, Value, Read;
      var t := DigitText(bs[0], 10, false);
      DigitTextValue(bs[0], 10, false);
      OctetIsDigits(bs[0]);
      if |bs| > 1 {
        DottedReadBack(bs[1..]);
        hide ReadDotted, Dotted;
        RunReadBack(t, "." + Dotted(bs[1..]));
        assert ("." + Dotted(bs[1..]))[1..] == Dotted(bs[1..]);
        DottedSteps0(bs);
        assert bs == [bs[0]] + bs[1..];
      } else {
        RunReadBack(t, "");
        assert t + "" == t;
      }
    }
  }

  lemma DottedSteps0(bs: seq<Octet>)
    requires |bs| > 1
    ensures Dotted(bs) == DigitText(bs[0], 10, false) + ("." + Dotted(bs[1..]))
  {
    hide DigitText;
  }

  /** A run of digits, and what follows the character behind it. */
  lemma RunReadBack(t: string, rest: string)
    requires AllDigits(t) && t != "" && (rest != "" ==> !IsDigit(rest[0]))
    ensures ReadDotted(t + rest) == [Value(Read(t), 10)] + if rest == "" then [] else ReadDotted(rest[1..])
  {
    ParseRun(t, rest);
    hide DigitsEnd, Value, Read, AllDigits, IsDigit;
    var s := t + rest;
    assert s[..|t|] == t;
    if rest == "" {
      assert s == t;
    } else {
      assert s[|t| + 1..] == rest[1..];
    }
  }

  lemma OctetIsDigits(b: Octet)
    ensures AllDigits(DigitText(b, 10, false)) && |DigitText(b, 10, false)| > 0
  {
    BodyIsDigits(b, 0, NO_FLAGS);
    assert Body(b, 10, 0, NO_FLAGS) == DigitText(b, 10, false);
  }

  lemma ThreeDigits(b: Octet)
    requires b >= 100
    ensures Numeral(b, 10) == [b / 100, b % 100 / 10, b % 100 % 10]
  {
    hide Numeral;
    var q, d := NumeralMore(b, 10);
    assert q / 10 == b / 100 && q % 10 == b % 100 / 10 && d == b % 100 % 10;
    var p, e := NumeralMore(q, 10);
    OneDigit(p);
  }

  lemma TwoDigits(b: Octet)
    requires 10 <= b < 100
    ensures Numeral(b, 10) == [b / 10, b % 10]
  {
    hide Numeral;
    var q, d := NumeralMore(b, 10);
    OneDigit(q);
  }

  lemma OneDigit(b: Octet)
    requires 0 < b < 10
    ensures Numeral(b, 10) == [b]
  {
    assert Numeral(b / 10, 10) == [];
  }

  /** At most three digits, written out one by one. */
  lemma OctetText(b: Octet)
    ensures DigitText(b, 10, false) ==
      if b >= 100 then [Digit(b / 100, false), Digit(b % 100 / 10, false), Digit(b % 100 % 10, false)]
      else if b >= 10 then [Digit(b / 10, false), Digit(b % 10, false)]
      else [Digit(b, false)]
  {
    hide Digit, Numeral;
    if b >= 100 {
      ThreeDigits(b);
    } else if b >= 10 {
      TwoDigits(b);
    } else if b > 0 {
      OneDigit(b);
    } else {
      ZeroDigit();
    }
  }

  lemma ZeroDigit()
    ensures Digit(0, false) == '0'
  {
  }

  /** One octet's digits go behind what tmp holds. */
  method OctetInto(tmp: array<char>, len0: nat, b: Octet) returns (len: nat)
    requires len0 + 3 <= tmp.Length
    modifies tmp
    ensures len <= len0 + 3 && len <= tmp.Length && tmp[..len] == old(tmp[..len0]) + DigitText(b, 10, false)
  {
    hide DigitText, Digit;
    OctetText(b);
    var n := b;
    len := len0;
    if n == 0 {
      tmp[len] := Digit(0, false);
      len := len + 1;
    } else {
      if n >= 100 {
        tmp[len] := Digit(n / 100, false);
        len := len + 1;
        n := n % 100;
        tmp[len] := Digit(n / 10, false);
        len := len + 1;
        n := n % 10;
      } else if n >= 10 {
        tmp[len] := Digit(n / 10, false);
        len := len + 1;
        n := n % 10;
      }
      tmp[len] := Digit(n, false);
      len := len + 1;
    }
  }

  /** Four decimal numerals with dots between them. */
  ghost predicate IsDotted(t: string, bs: seq<Octet>) {
    |bs| == 4 && exists p, q, r, s: string ::
      && IsDigits(p, bs[0], 10, false) && IsDigits(q, bs[1], 10, false)
      && IsDigits(r, bs[2], 10, false) && IsDigits(s, bs[3], 10, false)
      && t == p + "." + q + "." + r + "." + s
  }

  lemma DottedSteps(bs: seq<Octet>, i: nat)
    requires |bs| == 4 && i < 4
    ensures Dotted(bs[i..]) == DigitText(bs[i], 10, false) + if i == 3 then "" else "." + Dotted(bs[i + 1..])
  {
    hide DigitText;
    assert bs[i..][1..] == bs[i + 1..];
    if i == 3 {
      assert DigitText(bs[i], 10, false) + "" == DigitText(bs[i], 10, false);
    }
  }

  lemma JoinedLeft(p: string, q: string, r: string, s: string)
    ensures p + ("." + (q + ("." + (r + ("." + s))))) == p + "." + q + "." + r + "." + s
  {
    assert r + ("." + s) == r + "." + s;
    assert q + ("." + (r + "." + s)) == q + "." + r + "." + s;
  }

  lemma DottedText(bs: seq<Octet>)
    requires |bs| == 4
    ensures Dotted(bs) == DigitText(bs[0], 10, false) + "." + DigitText(bs[1], 10, false)
                          + "." + DigitText(bs[2], 10, false) + "." + DigitText(bs[3], 10, false)
  {
    hide Dotted, DigitText;
    DottedSteps(bs, 0);
    DottedSteps(bs, 1);
    DottedSteps(bs, 2);
    DottedSteps(bs, 3);
    assert bs[0..] == bs && DigitText(bs[3], 10, false) + "" == DigitText(bs[3], 10, false);
    JoinedLeft(DigitText(bs[0], 10, false), DigitText(bs[1], 10, false),
               DigitText(bs[2], 10, false), DigitText(bs[3], 10, false));
  }

  lemma DottedAre(bs: seq<Octet>)
    requires |bs| == 4
    ensures IsDotted(Dotted(bs), bs)
  {
    DottedText(bs);
    DigitTextIs(bs[0], 10, false);
    DigitTextIs(bs[1], 10, false);
    DigitTextIs(bs[2], 10, false);
    DigitTextIs(bs[3], 10, false);
    hide Dotted, DigitText, IsDigits;
  }

  lemma DottedAreUnique(t: string, u: string, bs: seq<Octet>)
    requires IsDotted(t, bs) && IsDotted(u, bs)
    ensures t == u
  {
    hide IsDigits;
    var p, q, r, s :| IsDigits(p, bs[0], 10, false) && IsDigits(q, bs[1], 10, false)
      && IsDigits(r, bs[2], 10, false) && IsDigits(s, bs[3], 10, false) && t == p + "." + q + "." + r + "." + s;
    var p', q', r', s' :| IsDigits(p', bs[0], 10, false) && IsDigits(q', bs[1], 10, false)
      && IsDigits(r', bs[2], 10, false) && IsDigits(s', bs[3], 10, false) && u == p' + "." + q' + "." + r' + "." + s';
    DigitsAreUnique(p, p', bs[0], 10, false);
    DigitsAreUnique(q, q', bs[1], 10, false);
    DigitsAreUnique(r, r', bs[2], 10, false);
    DigitsAreUnique(s, s', bs[3], 10, false);
  }

  method Iaddr(addr: seq<Octet>, size: int, f: Flags) returns (str: string)
    requires |addr| >= 4
    ensures str == Justified(Dotted(addr[..4]), size, f.left)
    ensures exists body :: IsDotted(body, addr[..4]) && IsPadded(str, body, size, f.left)
  {
    hide Dotted, DigitText, Digit;
    var tmp := new char[24];
    var len, i := 0, 0;
    DottedNone();
    while i < 4
      invariant 0 <= i <= 4 && 0 <= len <= 4 * i
      invariant tmp[..len] == Dotted(addr[..i])
    {
      ghost var done := tmp[..len];
      if i != 0 {
        tmp[len] := '.';
        len := len + 1;
      }
      assert tmp[..len] == done + if i == 0 then "" else ".";
      len := OctetInto(tmp, len, addr[i]);
      DottedMore(addr[..i], addr[i]);
      assert addr[..i + 1] == addr[..i] + [addr[i]];
      i := i + 1;
    }
    str := Justify(tmp, len, size, f.left);
    DottedAre(addr[..4]);
    JustifiedIsPadded(Dotted(addr[..4]), size, f.left);
    hide IsDotted;
  }

  lemma DottedNone()
    ensures Dotted([]) == ""
  {
  }
}
