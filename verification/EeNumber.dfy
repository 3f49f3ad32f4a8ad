/** The integer printer and the decimal parser of the CoreMark printf
    (sw/common/coremark/barebones/ee_printf.c). Integers wrap around at 32 bits. */
module EeNumber {
  import opened Arith

  datatype Option<T> = None | Some(value: T)

  /** The bits of the flag word. */
  datatype Flags = Flags(zeropad: bool, sign: bool, plus: bool, space: bool, left: bool, hexPrep: bool, uppercase: bool)

  const NO_FLAGS := Flags(false, false, false, false, false, false, false)

  const DIGITS: string := "0123456789abcdefghijklmnopqrstuvwxyz"
  const UPPER_DIGITS: string := "0123456789ABCDEFGHIJKLMNOPQRSTUVWXYZ"

  const TWO_32: int := 0x1_0000_0000

  // ----- 32-bit words -----

  predicate IsLong(v: int) {
    -0x8000_0000 <= v < 0x8000_0000
  }

  /** The value with v's lowest 32 bits, read as a signed word. */
  function Wrap(v: int): (r: int)
    ensures IsLong(r)
  {
    (v + 0x8000_0000) % TWO_32 - 0x8000_0000
  }

  function Unsigned(v: int): (r: int)
    requires IsLong(v)
    ensures 0 <= r < TWO_32
  {
    if v < 0 then v + TWO_32 else v
  }

  // ----- numerals -----

  /** The digits of v, most significant first; none for zero. */
  function Numeral(v: nat, base: nat): (ds: seq<nat>)
    requires base >= 2
    ensures forall i :: 0 <= i < |ds| ==> ds[i] < base
  {
    if v == 0 then [] else Numeral(v / base, base) + [v % base]
  }

  function Value(ds: seq<nat>, base: nat): nat {
    if ds == [] then 0 else Value(ds[..|ds| - 1], base) * base + ds[|ds| - 1]
  }

  lemma ValueOfMore(ds: seq<nat>, d: nat, base: nat)
    ensures Value(ds + [d], base) == Value(ds, base) * base + d
  {
    assert (ds + [d])[..|ds|] == ds;
  }

  lemma NumeralMore(v: nat, base: nat) returns (q: nat, d: nat)
    requires base >= 2 && v > 0
    ensures q == v / base && d == v % base && q < v && v == q * base + d
    ensures d < base && Numeral(v, base) == Numeral(q, base) + [d]
  {
    q, d := v / base, v % base;
  }

  lemma {:induction false} NumeralValue(v: nat, base: nat)
    requires base >= 2
    ensures Value(Numeral(v, base), base) == v
  {
    if v > 0 {
      hide Value, Numeral;
      var q, d := NumeralMore(v, base);
      NumeralValue(q, base);
      ValueOfMore(Numeral(q, base), d, base);
    } else {
      assert Numeral(v, base) == [];
    }
  }

  lemma {:induction false} LeadingZeros(k: nat, ds: seq<nat>, base: nat)
    ensures Value(seq(k, _ => 0) + ds, base) == Value(ds, base)
    decreases |ds|, k
  {
    var zs: seq<nat> := seq(k, _ => 0);
    if ds != [] {
      assert (zs + ds)[..|zs + ds| - 1] == zs + ds[..|ds| - 1];
      LeadingZeros(k, ds[..|ds| - 1], base);
    } else if k > 0 {
      assert (zs + ds)[..k - 1] == seq(k - 1, _ => 0) + ds;
      LeadingZeros(k - 1, ds, base);
    } else {
      assert zs + ds == [];
    }
  }

  lemma QuotientHalves(v: nat, base: nat, q: nat, d: nat)
    requires base >= 2 && v == q * base + d
    ensures 2 * q <= v
  {
    assert q * (base - 2) >= 0;
    assert q * base == q * (base - 2) + 2 * q;
  }

  lemma {:induction false} NumeralLength(v: nat, base: nat, k: nat)
    requires base >= 2 && v < Two(k)
    ensures |Numeral(v, base)| <= k
    decreases k
  {
    if v > 0 {
      hide Numeral;
      var q, d := NumeralMore(v, base);
      QuotientHalves(v, base, q, d);
      NumeralLength(q, base, k - 1);
    }
  }

  /** A word has at most 32 digits in any base. */
  lemma WordLength(v: nat, base: nat)
    requires base >= 2 && v < TWO_32
    ensures |Numeral(v, base)| <= 32
  {
    assert Two(8) == 256 by {
      assert Two(4) == 16;
    }
    assert Two(16) == 65536 by {
      assert Two(12) == 4096;
    }
    assert Two(24) == 0x100_0000 by {
      assert Two(20) == 0x10_0000;
    }
    assert Two(32) == TWO_32 by {
      assert Two(28) == 0x1000_0000;
    }
    NumeralLength(v, base, 32);
  }

  // ----- text -----

  function Digit(d: nat, upper: bool): char
    requires d < 36
  {
    if upper then UPPER_DIGITS[d] else DIGITS[d]
  }

  /** What a digit character stands for, in either case. */
  function DigitOf(c: char): nat {
    if '0' <= c <= '9' then c as int - '0' as int
    else if 'a' <= c <= 'z' then c as int - 'a' as int + 10
    else if 'A' <= c <= 'Z' then c as int - 'A' as int + 10
    else 0
  }

  lemma LowerDigitRead(d: nat)
    requires d < 36
    ensures DigitOf(DIGITS[d]) == d && (d < 10 ==> '0' <= DIGITS[d] <= '9')
  {
  }

  lemma UpperDigitRead(d: nat)
    requires d < 36
    ensures DigitOf(UPPER_DIGITS[d]) == d && (d < 10 ==> '0' <= UPPER_DIGITS[d] <= '9')
  {
  }

  lemma DigitRead(d: nat, upper: bool)
    requires d < 36
    ensures DigitOf(Digit(d, upper)) == d
    ensures d < 10 ==> '0' <= Digit(d, upper) <= '9'
  {
    if upper {
      UpperDigitRead(d);
    } else {
      LowerDigitRead(d);
    }
    hide DigitOf;
  }

  function Text(ds: seq<nat>, upper: bool): (t: string)
    requires forall i :: 0 <= i < |ds| ==> ds[i] < 36
    ensures |t| == |ds|
  {
    seq(|ds|, i requires 0 <= i < |ds| => Digit(ds[i], upper))
  }

  function Read(t: string): (ds: seq<nat>)
    ensures |ds| == |t|
  {
    seq(|t|, i requires 0 <= i < |t| => DigitOf(t[i]))
  }

  lemma TextRead(ds: seq<nat>, upper: bool)
    requires forall i :: 0 <= i < |ds| ==> ds[i] < 36
    ensures Read(Text(ds, upper)) == ds
  {
    forall i | 0 <= i < |ds| ensures Read(Text(ds, upper))[i] == ds[i] {
      DigitRead(ds[i], upper);
    }
  }

  function Repeat(c: char, n: int): (t: string)
    ensures |t| == if n > 0 then n else 0
    ensures forall i :: 0 <= i < |t| ==> t[i] == c
  {
    seq(if n > 0 then n else 0, _ => c)
  }

  function Max(a: int, b: int): int {
    if a > b then a else b
  }

  /** The digits printed for v: a lone zero when v is zero. */
  function DigitText(v: nat, base: nat, upper: bool): (t: string)
    requires 2 <= base <= 36
    ensures |t| > 0
  {
    if v == 0 then "0" else Text(Numeral(v, base), upper)
  }

  function Sign(num: int, f: Flags): string {
    if !f.sign then "" else if num < 0 then "-" else if f.plus then "+" else if f.space then " " else ""
  }

  function Prefix(base: int, f: Flags): string {
    if !f.hexPrep then "" else if base == 16 then "0x" else if base == 8 then "0" else ""
  }

  /** The unsigned value whose digits are printed. */
  function Magnitude(num: int, f: Flags): (m: nat)
    requires IsLong(num)
    ensures m < TWO_32
  {
    if f.sign && num < 0 then -num else Unsigned(num)
  }

  /** Zeros up to the precision, then the digits. */
  function Body(num: int, base: nat, precision: int, f: Flags): string
    requires IsLong(num) && 2 <= base <= 36
  {
    var ds := DigitText(Magnitude(num, f), base, f.uppercase);
    Repeat('0', precision - |ds|) + ds
  }

  /** Padding goes to the right, between the prefix and the digits, or to the left. */
  function Placed(head: string, body: string, gap: int, f: Flags): string {
    if f.left then head + body + Repeat(' ', gap)
    else if f.zeropad then head + Repeat('0', gap) + body
    else Repeat(' ', gap) + head + body
  }

  /** The whole field. */
  function Formatted(num: int, base: nat, size: int, precision: int, f: Flags): string
    requires IsLong(num) && 2 <= base <= 36
  {
    var head, body := Sign(num, f) + Prefix(base, f), Body(num, base, precision, f);
    Placed(head, body, size - |head| - |body|, f)
  }

  lemma NoRepeat(c: char, n: int)
    ensures n <= 0 ==> Repeat(c, n) == ""
  {
  }

  // ----- the printer -----

  /** `while (n-- > 0) *str++ = c` */
  method Pad(str: string, c: char, n: int) returns (out: string, rest: int)
    ensures out == str + Repeat(c, n)
    ensures rest == (if n > 0 then 0 else n) - 1
  {
    out, rest := str, n;
    while rest > 0
      invariant rest <= n && (n > 0 ==> rest >= 0) && (n <= 0 ==> rest == n)
      invariant out == str + Repeat(c, if n > 0 then n - rest else 0)
    {
      out := out + [c];
      rest := rest - 1;
      assert Repeat(c, n - rest) == Repeat(c, n - rest - 1) + [c];
    }
    rest := rest - 1;
  }

  /** tmp read from its end, as the printer does. */
  function Backwards(t: seq<char>): (r: string)
    ensures |r| == |t|
  {
    seq(|t|, i requires 0 <= i < |t| => t[|t| - 1 - i])
  }

  lemma BackwardsMore(t: seq<char>, c: char)
    ensures Backwards(t + [c]) == [c] + Backwards(t)
  {
  }

  lemma TextSplit(ds: seq<nat>, es: seq<nat>, upper: bool)
    requires (forall i :: 0 <= i < |ds| ==> ds[i] < 36) && (forall i :: 0 <= i < |es| ==> es[i] < 36)
    ensures Text(ds + es, upper) == Text(ds, upper) + Text(es, upper)
  {
  }

  /** One turn of the digit loop: the last digit of now goes behind the others. */
  lemma DigitStep(u: string, now: nat, q: nat, d: nat, base: nat, upper: bool, done: string)
    requires 2 <= base <= 36 && d < base && Numeral(now, base) == Numeral(q, base) + [d]
    requires u == Text(Numeral(now, base), upper) + Backwards(done)
    ensures u == Text(Numeral(q, base), upper) + Backwards(done + [Digit(d, upper)])
    ensures |Numeral(now, base)| == |Numeral(q, base)| + 1
  {
    hide Digit, Backwards, Numeral, Text;
    TextSplit(Numeral(q, base), [d], upper);
    TextOne(d, upper);
    BackwardsMore(done, Digit(d, upper));
  }

  lemma TextOne(d: nat, upper: bool)
    requires d < 36
    ensures Text([d], upper) == [Digit(d, upper)]
  {
  }

  lemma Quotient(u: nat, base: nat)
    requires 2 <= base && 0 < u < TWO_32
    ensures 0 <= u / base < u && u / base < 0x8000_0000 && 0 <= u % base < base
  {
    assert u / base <= u / 2;
  }

  /** The digit loop: v's digits, least significant first, into tmp. */
  method DigitLoop(tmp: array<char>, v: int, base: int, upper: bool) returns (i: nat)
    requires tmp.Length == 66 && 2 <= base <= 36 && IsLong(v)
    modifies tmp
    ensures i <= 32 && Backwards(tmp[..i]) == Text(Numeral(Unsigned(v), base), upper)
  {
    hide Numeral, Text, Backwards;
    ghost var u := Unsigned(v);
    var num := v;
    i := 0;
    WordLength(u, base);
    BackwardsNone(tmp[..0]);
    while num != 0
      invariant IsLong(num) && 0 <= i && |Numeral(Unsigned(num), base)| + i <= 32
      invariant Text(Numeral(u, base), upper) == Text(Numeral(Unsigned(num), base), upper) + Backwards(tmp[..i])
      decreases Unsigned(num)
    {
      ghost var now, done := Unsigned(num), tmp[..i];
      Quotient(now, base);
      var q, d := NumeralMore(now, base);
      DigitStep(Text(Numeral(u, base), upper), now, q, d, base, upper, done);
      tmp[i] := if upper then UPPER_DIGITS[Unsigned(num) % base] else DIGITS[Unsigned(num) % base];
      i := i + 1;
      num := Unsigned(num) / base;
      assert tmp[..i] == done + [Digit(now % base, upper)];
    }
    NumeralNone(base, upper);
  }

  lemma BackwardsNone(t: string)
    requires t == ""
    ensures Backwards(t) == ""
  {
  }

  lemma NumeralNone(base: nat, upper: bool)
    requires 2 <= base <= 36
    ensures Text(Numeral(0, base), upper) == ""
  {
  }

  method DigitsInto(tmp: array<char>, num: int, base: int, upper: bool) returns (i: nat)
    requires tmp.Length == 66 && 2 <= base <= 36 && IsLong(num)
    modifies tmp
    ensures i <= 32 && Backwards(tmp[..i]) == DigitText(Unsigned(num), base, upper)
  {
    if num == 0 {
      tmp[0] := '0';
      i := 1;
      assert tmp[..1] == ['0'];
    } else {
      i := DigitLoop(tmp, num, base, upper);
    }
  }

  lemma Assembled(head: string, zeros: string, digits: string, gap: int, f: Flags,
                  before: string, between: string, after: string)
    requires !(f.left && f.zeropad)
    requires before == if f.left || f.zeropad then "" else Repeat(' ', gap)
    requires between == if f.zeropad then Repeat('0', gap) else ""
    requires after == if f.left then Repeat(' ', gap) else ""
    ensures before + head + between + zeros + digits + after == Placed(head, zeros + digits, gap, f)
  {
    hide Repeat;
    assert between + zeros + digits + after == between + (zeros + digits) + after;
    assert before + head + between + zeros + digits + after == before + head + between + (zeros + digits) + after;
  }

  /** The second half of `number`: padding, sign, prefix, zeros and digits, in that order. */
  method Layout(size0: int, precision: int, tmp: array<char>, i: nat, sign: string, base: int, f: Flags)
    returns (str: string)
    requires i <= tmp.Length && !(f.left && f.zeropad)
    ensures str == Placed(sign + Prefix(base, f), Repeat('0', precision - i) + Backwards(tmp[..i]), size0, f)
  {
    hide Repeat, Backwards, Placed;
    var c, size := if f.zeropad then '0' else ' ', size0;
    ghost var before, between := "", "";
    str := "";
    if !f.zeropad && !f.left {
      str, size := Pad(str, ' ', size);
      before := Repeat(' ', size0);
      assert str == before;
    }
    str := str + sign;
    if f.hexPrep {
      if base == 8 {
        str := str + "0";
      } else if base == 16 {
        str := str + "0" + [DIGITS[33]];
      }
    }
    assert str == before + (sign + Prefix(base, f));
    if !f.left {
      between := Repeat(c, size);
      NoRepeat(c, size);
      str, size := Pad(str, c, size);
    }
    assert str == before + (sign + Prefix(base, f)) + between;
    var rest;
    str, rest := Pad(str, '0', precision - i);
    str := AppendBackwards(str, tmp, i);
    NoRepeat(' ', size);
    Assembled(sign + Prefix(base, f), Repeat('0', precision - i), Backwards(tmp[..i]), size0, f,
              before, between, Repeat(' ', size));
    str, rest := Pad(str, ' ', size);
  }

  /** The sign character, the value whose digits are printed, and the room left for them. */
  method TakeSign(num0: int, size0: int, f: Flags) returns (sign: string, num: int, size: int)
    requires IsLong(num0)
    ensures sign == Sign(num0, f) && size == size0 - |sign|
    ensures IsLong(num) && Unsigned(num) == Magnitude(num0, f)
  {
    sign, num, size := "", num0, size0;
    if f.sign {
      if num < 0 {
        sign := "-";
        num := Wrap(-num);
        size := size - 1;
      } else if f.plus {
        sign := "+";
        size := size - 1;
      } else if f.space {
        sign := " ";
        size := size - 1;
      }
    }
  }

  lemma FieldIs(num: int, base: nat, size: int, precision: int, f: Flags, digits: string)
    requires IsLong(num) && 2 <= base <= 36 && digits == DigitText(Magnitude(num, f), base, f.uppercase)
    ensures var head, p := Sign(num, f) + Prefix(base, f), Max(|digits|, precision);
      var g := if f.left then f.(zeropad := false) else f;
      Placed(head, Repeat('0', p - |digits|) + digits, size - |head| - p, g) == Formatted(num, base, size, precision, f)
  {
    hide DigitText, Sign, Prefix, Magnitude;
    var p := Max(|digits|, precision);
    assert Repeat('0', p - |digits|) == Repeat('0', precision - |digits|);
  }

  method Number(num0: int, base: int, size0: int, precision0: int, type0: Flags) returns (out: Option<string>)
    requires IsLong(num0)
    ensures out == if 2 <= base <= 36 then Some(Formatted(num0, base, size0, precision0, type0)) else None
    ensures 2 <= base <= 36 ==> IsField(out.value, num0, base, size0, precision0, type0)
  {
    hide Repeat, Backwards, DigitText, Unsigned, Magnitude, Placed, Sign, Formatted;
    var precision, f := precision0, type0;
    if f.left {
      f := f.(zeropad := false);
    }
    if base < 2 || base > 36 {
      return None;
    }
    var sign, num, size := TakeSign(num0, size0, f);
    if f.hexPrep {
      if base == 16 {
        size := size - 2;
      } else if base == 8 {
        size := size - 1;
      }
    }
    SameSign(num0, type0);
    assert size == size0 - |Sign(num0, type0) + Prefix(base, type0)|;
    var tmp := new char[66];
    var i := DigitsInto(tmp, num, base, f.uppercase);
    FieldIs(num0, base, size0, precision0, type0, Backwards(tmp[..i]));
    if i > precision {
      precision := i;
    }
    size := size - precision;
    var str := Layout(size, precision, tmp, i, sign, base, f);
    FormattedIsField(num0, base, size0, precision0, type0);
    hide IsField;
    return Some(str);
  }

  lemma SameSign(num: int, f: Flags)
    requires IsLong(num)
    ensures Sign(num, f.(zeropad := false)) == Sign(num, f) && Magnitude(num, f.(zeropad := false)) == Magnitude(num, f)
  {
  }

  /** `while (i-- > 0) *str++ = tmp[i]` */
  method AppendBackwards(str: string, tmp: array<char>, n: nat) returns (out: string)
    requires n <= tmp.Length
    ensures out == str + Backwards(tmp[..n])
  {
    out := str;
    var i := n;
    while i > 0
      invariant 0 <= i <= n && out == str + Backwards(tmp[..n])[..n - i]
    {
      i := i - 1;
      out := out + [tmp[i]];
    }
  }

  // ----- what is printed -----

  lemma DigitCount(v: nat, base: nat, upper: bool)
    requires 2 <= base <= 36 && v < TWO_32
    ensures 1 <= |DigitText(v, base, upper)| <= 32
  {
    WordLength(v, base);
  }

  /** Every field is as long as its width asks, or as its sign, prefix, zeros and digits need. */
  lemma FieldLength(num: int, base: nat, size: int, precision: int, f: Flags)
    requires IsLong(num) && 2 <= base <= 36
    ensures var digits := |DigitText(Magnitude(num, f), base, f.uppercase)|;
      1 <= digits <= 32
      && |Formatted(num, base, size, precision, f)|
         == Max(size, |Sign(num, f)| + |Prefix(base, f)| + Max(digits, precision))
  {
    DigitCount(Magnitude(num, f), base, f.uppercase);
    hide DigitText, Sign, Prefix, Magnitude;
  }

  /** The digits of the field, zeros in front or not, stand for the value printed. */
  lemma BodyValue(num: int, base: nat, precision: int, f: Flags)
    requires IsLong(num) && 2 <= base <= 36
    ensures Value(Read(Body(num, base, precision, f)), base) == Magnitude(num, f)
  {
    var m := Magnitude(num, f);
    var ds := DigitText(m, base, f.uppercase);
    DigitTextValue(m, base, f.uppercase);
    ReadZeros(precision - |ds|, ds);
    LeadingZeros(|Repeat('0', precision - |ds|)|, Read(ds), base);
  }

  lemma DigitTextValue(m: nat, base: nat, upper: bool)
    requires 2 <= base <= 36
    ensures Value(Read(DigitText(m, base, upper)), base) == m
  {
    if m == 0 {
      assert Read("0") == [0];
      assert Value([0], base) == Value([], base) * base + 0;
    } else {
      TextRead(Numeral(m, base), upper);
      NumeralValue(m, base);
    }
  }

  lemma ReadZeros(k: int, t: string)
    ensures Read(Repeat('0', k) + t) == seq(|Repeat('0', k)|, _ => 0) + Read(t)
  {
  }

  /** Digits in a base, with no zero in front. */
  ghost predicate Canonical(ds: seq<nat>, base: nat) {
    (forall i :: 0 <= i < |ds| ==> ds[i] < base) && (ds != [] ==> ds[0] != 0)
  }

  lemma {:induction false} NumeralIsCanonical(v: nat, base: nat)
    requires base >= 2
    ensures Canonical(Numeral(v, base), base) && (v > 0 ==> Numeral(v, base) != [])
  {
    if v > 0 {
      hide Numeral;
      var q, d := NumeralMore(v, base);
      NumeralIsCanonical(q, base);
      if q == 0 {
        NumeralOfZero(base);
      }
    }
  }

  lemma NumeralOfZero(base: nat)
    requires base >= 2
    ensures Numeral(0, base) == []
  {
  }

  lemma DivideBack(v: nat, base: nat, q: nat, d: nat)
    requires base >= 2 && d < base && v == q * base + d
    ensures v / base == q && v % base == d
  {
    DivUnique(v, base, q, d);
  }

  /** The printed numeral is the only one without leading zeros that stands for its value. */
  lemma {:induction false} CanonicalIsNumeral(ds: seq<nat>, base: nat)
    requires base >= 2 && Canonical(ds, base)
    ensures Numeral(Value(ds, base), base) == ds
    decreases |ds|
  {
    if ds == [] {
      NumeralOfZero(base);
    } else {
      var rest, d := ds[..|ds| - 1], ds[|ds| - 1];
      var q := Value(rest, base);
      CanonicalIsNumeral(rest, base);
      ValueOfMore(rest, d, base);
      assert ds == rest + [d];
      hide Value, Numeral;
      DivideBack(Value(ds, base), base, q, d);
      Positive(q, base, d, rest);
      NumeralSplit(Value(ds, base), base);
    }
  }

  lemma NumeralSplit(v: nat, base: nat)
    requires base >= 2 && v > 0
    ensures Numeral(v, base) == Numeral(v / base, base) + [v % base]
  {
  }

  /** A numeral without a leading zero stands for more than zero. */
  lemma Positive(q: nat, base: nat, d: nat, rest: seq<nat>)
    requires base >= 2 && Numeral(q, base) == rest && (rest == [] ==> d > 0)
    ensures q * base + d > 0
  {
    hide Numeral;
    NumeralOfZero(base);
    if q > 0 {
      Times(q, base);
    }
  }

  lemma Times(q: nat, base: nat)
    requires q > 0 && base > 0
    ensures q * base > 0
  {
  }

  /** The digits printed start with a zero only when the value is zero. */
  lemma NoLeadingZero(v: nat, base: nat, upper: bool)
    requires 2 <= base <= 36
    ensures DigitText(v, base, upper)[0] == '0' <==> v == 0
  {
    NumeralIsCanonical(v, base);
    if v > 0 {
      hide Numeral;
      DigitRead(Numeral(v, base)[0], upper);
      assert DigitOf('0') == 0;
      hide DigitOf, Digit;
    }
  }

  // ----- the field as the directive asks for it -----

  ghost predicate All(t: string, c: char) {
    forall i :: 0 <= i < |t| ==> t[i] == c
  }

  /** A digit of the base, its letters in one case. */
  predicate IsDigitOf(c: char, base: nat, upper: bool) {
    ('0' <= c <= '9' || (upper && 'A' <= c <= 'Z') || (!upper && 'a' <= c <= 'z')) && DigitOf(c) < base
  }

  /** ds is v in the given base and case, without leading zeros. */
  ghost predicate IsDigits(ds: string, v: int, base: nat, upper: bool) {
    && ds != "" && (forall i :: 0 <= i < |ds| ==> IsDigitOf(ds[i], base, upper))
    && (ds[0] == '0' ==> |ds| == 1) && Value(Read(ds), base) == v
  }

  /** The pieces of a field, in the order they are printed. */
  datatype Parts = Parts(front: string, sign: string, prefix: string, zeros: string, digits: string, back: string)
  {
    function Text(): string {
      front + sign + prefix + zeros + digits + back
    }
  }

  /** Spaces to one side, the sign the flags ask for, the base's prefix, zeros, digits. Zeros fill up to the
      precision, or to the width when zero padding applies; spaces fill up to the width otherwise. */
  ghost predicate AreParts(p: Parts, num: int, base: nat, size: int, precision: int, f: Flags) {
    && All(p.front, ' ') && All(p.zeros, '0') && All(p.back, ' ')
    && (f.left ==> p.front == "") && (!f.left ==> p.back == "") && (f.zeropad ==> p.front == "")
    && p.sign == (if !f.sign then "" else if num < 0 then "-" else if f.plus then "+" else if f.space then " " else "")
    && p.prefix == (if f.hexPrep && base == 16 then "0x" else if f.hexPrep && base == 8 then "0" else "")
    && (if num >= 0 then IsDigits(p.digits, num, base, f.uppercase)
        else if f.sign then IsDigits(p.digits, -num, base, f.uppercase)
        else IsDigits(p.digits, 0x1_0000_0000 + num, base, f.uppercase))
    && ((f.zeropad && !f.left) || |p.zeros| == Max(precision - |p.digits|, 0))
    && |p.Text()| == Max(size, |p.sign| + |p.prefix| + Max(|p.digits|, precision))
  }

  ghost predicate IsField(t: string, num: int, base: nat, size: int, precision: int, f: Flags) {
    exists p: Parts :: t == p.Text() && AreParts(p, num, base, size, precision, f)
  }

  lemma CaseOfDigit(d: nat, base: nat, upper: bool)
    requires d < base <= 36
    ensures IsDigitOf(Digit(d, upper), base, upper)
  {
    DigitRead(d, upper);
    hide DigitOf;
  }

  lemma DigitTextIs(m: nat, base: nat, upper: bool)
    requires 2 <= base <= 36
    ensures IsDigits(DigitText(m, base, upper), m, base, upper)
  {
    DigitTextValue(m, base, upper);
    NoLeadingZero(m, base, upper);
    hide Value, Read, IsDigitOf, Digit;
    if m == 0 {
      CaseOfDigit(0, base, upper);
      ZeroIsZero(upper);
    } else {
      var ds := Numeral(m, base);
      hide Numeral;
      forall i | 0 <= i < |ds| ensures IsDigitOf(Text(ds, upper)[i], base, upper) {
        CaseOfDigit(ds[i], base, upper);
      }
    }
  }

  lemma ZeroIsZero(upper: bool)
    ensures Digit(0, upper) == '0'
  {
  }

  lemma PlacedParts(sign: string, prefix: string, zeros: string, ds: string, gap: int, f: Flags)
    ensures Placed(sign + prefix, zeros + ds, gap, f) ==
      Parts(if f.left || f.zeropad then "" else Repeat(' ', gap), sign, prefix,
            (if f.zeropad && !f.left then Repeat('0', gap) else "") + zeros, ds,
            if f.left then Repeat(' ', gap) else "").Text()
  {
    hide Repeat;
    if f.left {
      assert "" + sign + prefix + ("" + zeros) + ds == sign + prefix + (zeros + ds);
    } else if f.zeropad {
      var fill := Repeat('0', gap);
      assert "" + sign + prefix + (fill + zeros) + ds + "" == sign + prefix + fill + (zeros + ds);
    } else {
      var fill := Repeat(' ', gap);
      assert fill + sign + prefix + ("" + zeros) + ds + "" == fill + (sign + prefix) + (zeros + ds);
    }
  }

  lemma ZerosAgain(gap: int, n: int)
    ensures All(Repeat('0', gap) + Repeat('0', n), '0') && All("" + Repeat('0', n), '0')
    ensures |"" + Repeat('0', n)| == Max(n, 0)
  {
  }

  function PartsOf(num: int, base: nat, size: int, precision: int, f: Flags): Parts
    requires IsLong(num) && 2 <= base <= 36
  {
    var sign, prefix, ds := Sign(num, f), Prefix(base, f), DigitText(Magnitude(num, f), base, f.uppercase);
    var zeros := Repeat('0', precision - |ds|);
    var gap := size - |sign + prefix| - |zeros + ds|;
    Parts(if f.left || f.zeropad then "" else Repeat(' ', gap), sign, prefix,
          (if f.zeropad && !f.left then Repeat('0', gap) else "") + zeros, ds,
          if f.left then Repeat(' ', gap) else "")
  }

  lemma PartsText(num: int, base: nat, size: int, precision: int, f: Flags)
    requires IsLong(num) && 2 <= base <= 36
    ensures Formatted(num, base, size, precision, f) == PartsOf(num, base, size, precision, f).Text()
  {
    hide Sign, Prefix, DigitText, Magnitude, Repeat, Placed, Parts.Text;
    var sign, prefix, ds := Sign(num, f), Prefix(base, f), DigitText(Magnitude(num, f), base, f.uppercase);
    var zeros := Repeat('0', precision - |ds|);
    PlacedParts(sign, prefix, zeros, ds, size - |sign + prefix| - |zeros + ds|, f);
  }

  lemma PartsLength(num: int, base: nat, size: int, precision: int, f: Flags)
    requires IsLong(num) && 2 <= base <= 36
    ensures var p := PartsOf(num, base, size, precision, f);
      |p.Text()| == Max(size, |p.sign| + |p.prefix| + Max(|p.digits|, precision))
  {
    PartsText(num, base, size, precision, f);
    FieldLength(num, base, size, precision, f);
    hide DigitText, Parts.Text, Formatted, Sign, Prefix, Magnitude, Max, Repeat;
  }

  lemma PartsFill(num: int, base: nat, size: int, precision: int, f: Flags)
    requires IsLong(num) && 2 <= base <= 36
    ensures var p := PartsOf(num, base, size, precision, f);
      && All(p.front, ' ') && All(p.zeros, '0') && All(p.back, ' ')
      && (f.left ==> p.front == "") && (!f.left ==> p.back == "") && (f.zeropad ==> p.front == "")
      && ((f.zeropad && !f.left) || |p.zeros| == Max(precision - |p.digits|, 0))
  {
    hide DigitText, Sign, Prefix, Magnitude;
    var p, ds := PartsOf(num, base, size, precision, f), DigitText(Magnitude(num, f), base, f.uppercase);
    ZerosAgain(size - |p.sign + p.prefix| - |Repeat('0', precision - |ds|) + ds|, precision - |ds|);
  }

  lemma PartsAre(num: int, base: nat, size: int, precision: int, f: Flags)
    requires IsLong(num) && 2 <= base <= 36
    ensures AreParts(PartsOf(num, base, size, precision, f), num, base, size, precision, f)
  {
    PartsLength(num, base, size, precision, f);
    PartsFill(num, base, size, precision, f);
    DigitTextIs(Magnitude(num, f), base, f.uppercase);
    hide DigitText, IsDigits, Parts.Text, Repeat, All, Max;
  }

  /** What `number` writes is such a field. */
  lemma FormattedIsField(num: int, base: nat, size: int, precision: int, f: Flags)
    requires IsLong(num) && 2 <= base <= 36
    ensures IsField(Formatted(num, base, size, precision, f), num, base, size, precision, f)
  {
    PartsText(num, base, size, precision, f);
    PartsAre(num, base, size, precision, f);
    hide Formatted, PartsOf, Parts.Text, AreParts;
  }

  // ----- there is one such field, and it reads back -----

  lemma SameDigit(c: char, d: char, base: nat, upper: bool)
    requires IsDigitOf(c, base, upper) && IsDigitOf(d, base, upper) && DigitOf(c) == DigitOf(d)
    ensures c == d
  {
  }

  lemma ZeroDigitOf(c: char, base: nat, upper: bool)
    requires IsDigitOf(c, base, upper)
    ensures DigitOf(c) == 0 <==> c == '0'
  {
  }

  /** Digits without a leading zero are the numeral of their value; a lone zero stands for zero. */
  lemma DigitsAreNumeral(ds: string, v: int, base: nat, upper: bool)
    requires base >= 2 && IsDigits(ds, v, base, upper)
    ensures v >= 0 && if v == 0 then ds == "0" else Read(ds) == Numeral(v, base)
  {
    forall i | 0 <= i < |ds| ensures DigitOf(ds[i]) < base {
      assert IsDigitOf(ds[i], base, upper);
    }
    ZeroDigitOf(ds[0], base, upper);
    if ds[0] == '0' {
      assert Read(ds) == [0] && ds == "0";
      assert Value([0], base) == Value([], base) * base + 0;
    } else {
      assert Canonical(Read(ds), base);
      hide Value, Numeral, IsDigitOf;
      CanonicalIsNumeral(Read(ds), base);
      if v == 0 {
        NumeralOfZero(base);
      }
    }
  }

  lemma DigitsAreUnique(ds: string, es: string, v: int, base: nat, upper: bool)
    requires base >= 2 && IsDigits(ds, v, base, upper) && IsDigits(es, v, base, upper)
    ensures ds == es
  {
    DigitsAreNumeral(ds, v, base, upper);
    DigitsAreNumeral(es, v, base, upper);
    if v != 0 {
      hide Value, Numeral;
      forall i | 0 <= i < |ds| ensures |ds| == |es| && ds[i] == es[i] {
        assert |Read(ds)| == |Read(es)| && Read(ds)[i] == Read(es)[i];
        SameDigit(ds[i], es[i], base, upper);
      }
      assert |Read(ds)| == |ds| && |Read(es)| == |es|;
    }
  }

  lemma AllSame(t: string, u: string, c: char)
    requires All(t, c) && All(u, c) && |t| == |u|
    ensures t == u
  {
  }

  /** The value whose digits are printed, in two's complement unless the sign is. */
  function Printed(num: int, f: Flags): int {
    if num >= 0 then num else if f.sign then -num else 0x1_0000_0000 + num
  }

  lemma PartsAreUnique(p: Parts, q: Parts, num: int, base: nat, size: int, precision: int, f: Flags)
    requires base >= 2 && AreParts(p, num, base, size, precision, f) && AreParts(q, num, base, size, precision, f)
    ensures p == q
  {
    DigitsAreUnique(p.digits, q.digits, Printed(num, f), base, f.uppercase);
    hide IsDigits;
    assert |p.zeros| == |q.zeros| && |p.front| == |q.front| && |p.back| == |q.back|;
    hide All;
    AllSame(p.front, q.front, ' ');
    AllSame(p.zeros, q.zeros, '0');
    AllSame(p.back, q.back, ' ');
  }

  /** The number, the base and the flags determine the field. */
  lemma FieldIsUnique(t: string, u: string, num: int, base: nat, size: int, precision: int, f: Flags)
    requires base >= 2 && IsField(t, num, base, size, precision, f) && IsField(u, num, base, size, precision, f)
    ensures t == u
  {
    var p: Parts :| t == p.Text() && AreParts(p, num, base, size, precision, f);
    var q: Parts :| u == q.Text() && AreParts(q, num, base, size, precision, f);
    hide AreParts, Parts.Text;
    PartsAreUnique(p, q, num, base, size, precision, f);
  }

  function SkipSpaces(t: string): string {
    if t != "" && t[0] == ' ' then SkipSpaces(t[1..]) else t
  }

  function UpToSpace(t: string): string {
    if t == "" || t[0] == ' ' then "" else [t[0]] + UpToSpace(t[1..])
  }

  /** Digits in the base, behind 0x if the base has that prefix, up to a space. */
  function ReadDigits(t: string, base: nat): int {
    if base == 16 && |t| >= 2 && t[0] == '0' && t[1] == 'x' then Value(Read(UpToSpace(t[2..])), base)
    else Value(Read(UpToSpace(t)), base)
  }

  /** A number as a reader takes it: spaces, a sign or none, digits. */
  function ReadNumber(t: string, base: nat): int {
    var u := SkipSpaces(t);
    if u != "" && u[0] == '-' then -ReadDigits(u[1..], base)
    else if u != "" && u[0] == '+' then ReadDigits(u[1..], base)
    else ReadDigits(u, base)
  }

  lemma {:induction false} SpacesSkipped(front: string, t: string)
    requires All(front, ' ') && t != "" && t[0] != ' '
    ensures SkipSpaces(front + t) == t
    decreases |front|
  {
    if front == "" {
      assert front + t == t;
    } else {
      assert (front + t)[1..] == front[1..] + t;
      SpacesSkipped(front[1..], t);
    }
  }

  lemma {:induction false} SpaceEnds(t: string, back: string)
    requires ' ' !in t && All(back, ' ')
    ensures UpToSpace(t + back) == t
    decreases |t|
  {
    if t == "" {
      assert t + back == back;
    } else {
      assert (t + back)[1..] == t[1..] + back && (t + back)[0] == t[0];
      SpaceEnds(t[1..], back);
      assert t == [t[0]] + t[1..];
    }
  }

  lemma NoSpaceInDigits(zeros: string, ds: string, v: int, base: nat, upper: bool)
    requires base <= 36 && All(zeros, '0') && IsDigits(ds, v, base, upper)
    ensures forall c :: c in zeros + ds ==> c != ' ' && c != '-' && c != '+' && (base == 16 ==> c != 'x')
  {
    hide Value, Read;
    forall c | c in zeros + ds ensures c != ' ' && c != '-' && c != '+' && (base == 16 ==> c != 'x') {
      var i :| 0 <= i < |zeros + ds| && (zeros + ds)[i] == c;
      if i >= |zeros| {
        assert IsDigitOf(ds[i - |zeros|], base, upper);
      }
    }
  }

  lemma {:induction false} ZerosAhead(zeros: string, ds: string, base: nat)
    requires All(zeros, '0')
    ensures Value(Read(zeros + ds), base) == Value(Read(ds), base)
  {
    assert Read(zeros + ds) == seq(|zeros|, _ => 0) + Read(ds);
    LeadingZeros(|zeros|, Read(ds), base);
  }

  /** Digits without an x, behind a prefix or not. */
  lemma ReadBehind(prefix: string, ds: string, back: string, base: nat)
    requires ds != "" && ' ' !in ds && All(back, ' ') && (base == 16 ==> 'x' !in ds)
    requires prefix == "" || (base == 16 && prefix == "0x")
    ensures ReadDigits(prefix + ds + back, base) == Value(Read(ds), base)
  {
    hide Value, Read, UpToSpace, All;
    SpaceEnds(ds, back);
    var t := prefix + ds + back;
    if prefix == "0x" {
      assert t[2..] == ds + back;
    } else {
      assert t == ds + back;
      NoPrefix(ds, back, base);
    }
  }

  /** Digits without an x are not taken for a prefix. */
  lemma NoPrefix(ds: string, back: string, base: nat)
    requires ds != "" && All(back, ' ') && (base == 16 ==> 'x' !in ds)
    ensures ReadDigits(ds + back, base) == Value(Read(UpToSpace(ds + back)), base)
  {
    hide Value, Read, UpToSpace;
    var t := ds + back;
    assert |t| >= 2 ==> t[1] == if |ds| >= 2 then ds[1] else back[0];
  }

  /** The digits behind a prefix and zeros, up to the padding. */
  lemma DigitsReadBack(prefix: string, zeros: string, ds: string, back: string, v: int, base: nat, upper: bool)
    requires base <= 36 && All(zeros, '0') && All(back, ' ') && IsDigits(ds, v, base, upper)
    requires prefix == "" || (base == 16 && prefix == "0x") || (base == 8 && prefix == "0")
    ensures ReadDigits(prefix + zeros + ds + back, base) == v
  {
    NoSpaceInDigits(zeros, ds, v, base, upper);
    hide Value, Read, ReadDigits;
    var all := zeros + ds;
    if prefix == "0" {
      ZerosAhead("0" + zeros, ds, base);
      hide IsDigits, All;
      assert "0" + zeros + ds == "0" + all;
      ReadBehind("", "0" + all, back, base);
      assert prefix + zeros + ds + back == "" + ("0" + all) + back;
    } else {
      ZerosAhead(zeros, ds, base);
      hide All;
      ReadBehind(prefix, all, back, base);
      assert prefix + zeros + ds + back == prefix + all + back;
    }
  }

  lemma PartsReadBack(p: Parts, num: int, base: nat, size: int, precision: int, f: Flags)
    requires 2 <= base <= 36 && AreParts(p, num, base, size, precision, f)
    ensures ReadNumber(p.Text(), base) == if f.sign then num else Printed(num, f)
    ensures '-' in p.Text() <==> f.sign && num < 0
    ensures '+' in p.Text() <==> f.sign && num >= 0 && f.plus
  {
    var v, rest := Printed(num, f), p.prefix + p.zeros + p.digits + p.back;
    hide IsDigits, ReadDigits, ReadNumber;
    DigitsReadBack(p.prefix, p.zeros, p.digits, p.back, v, base, f.uppercase);
    NoSignIn(p, v, base, f);
    RestStarts(p, v, base, f);
    assert rest[0] in rest;
    ReadSigned(p.front, p.sign, rest, base);
    TextSigned(p, rest);
    SignsIn(p.front, p.sign, rest);
  }

  lemma SignsIn(front: string, sign: string, rest: string)
    requires All(front, ' ') && sign in ["", "-", "+", " "] && '-' !in rest && '+' !in rest
    ensures '-' in front + sign + rest <==> sign == "-"
    ensures '+' in front + sign + rest <==> sign == "+"
  {
    assert "-"[0] == '-' && "+"[0] == '+';
  }

  lemma RestStarts(p: Parts, v: int, base: nat, f: Flags)
    requires base <= 36 && All(p.zeros, '0') && All(p.back, ' ') && IsDigits(p.digits, v, base, f.uppercase)
    requires p.prefix == "" || p.prefix == "0x" || p.prefix == "0"
    ensures var rest := p.prefix + p.zeros + p.digits + p.back; rest != "" && rest[0] != ' '
  {
    NoSpaceInDigits(p.zeros, p.digits, v, base, f.uppercase);
    hide All;
    var t := p.zeros + p.digits;
    assert t[|p.zeros|] == p.digits[0];
    hide IsDigits;
    assert t[0] in t;
    assert p.prefix == "" ==> (p.prefix + p.zeros + p.digits + p.back)[0] == t[0];
  }

  lemma TextSigned(p: Parts, rest: string)
    requires rest == p.prefix + p.zeros + p.digits + p.back
    ensures p.Text() == p.front + p.sign + rest
  {
  }

  /** Behind the sign there is neither a minus nor a plus. */
  lemma NoSignIn(p: Parts, v: int, base: nat, f: Flags)
    requires base <= 36 && All(p.zeros, '0') && All(p.back, ' ') && IsDigits(p.digits, v, base, f.uppercase)
    requires p.prefix == "" || p.prefix == "0x" || p.prefix == "0"
    ensures '-' !in p.prefix + p.zeros + p.digits + p.back && '+' !in p.prefix + p.zeros + p.digits + p.back
  {
    NoSpaceInDigits(p.zeros, p.digits, v, base, f.uppercase);
    hide IsDigits;
    var t := p.prefix + (p.zeros + p.digits) + p.back;
    assert t == p.prefix + p.zeros + p.digits + p.back;
  }

  lemma ReadSigned(front: string, sign: string, rest: string, base: nat)
    requires All(front, ' ') && sign in ["", "-", "+", " "]
    requires rest != "" && rest[0] != ' ' && rest[0] != '-' && rest[0] != '+'
    ensures ReadNumber(front + sign + rest, base) == if sign == "-" then -ReadDigits(rest, base) else ReadDigits(rest, base)
  {
    hide ReadDigits;
    if sign == " " {
      assert All(front + " ", ' ');
      SpacesSkipped(front + " ", rest);
    } else if sign == "" {
      assert front + sign + rest == front + rest;
      SpacesSkipped(front, rest);
    } else {
      assert front + sign + rest == front + (sign + rest);
      SpacesSkipped(front, sign + rest);
      assert (sign + rest)[0] == sign[0] && (sign + rest)[1..] == rest;
    }
  }

  /** Reading a field back gives the number, in two's complement unless the sign is printed; a minus
      appears exactly in front of a negative number, a plus exactly where the flags ask for it. */
  lemma FieldReadsBack(t: string, num: int, base: nat, size: int, precision: int, f: Flags)
    requires IsLong(num) && 2 <= base <= 36 && IsField(t, num, base, size, precision, f)
    ensures ReadNumber(t, base) == if f.sign || num >= 0 then num else num + 0x1_0000_0000
    ensures '-' in t <==> f.sign && num < 0
    ensures '+' in t <==> f.sign && num >= 0 && f.plus
    ensures |t| >= size
  {
    var p: Parts :| t == p.Text() && AreParts(p, num, base, size, precision, f);
    PartsReadBack(p, num, base, size, precision, f);
  }

  lemma Ends(front: string, sign: string, core: string, back: string)
    requires core != "" && ' ' !in core
    ensures var t := front + sign + core + back;
      && t != "" && (back == "" ==> t[|t| - 1] != ' ')
      && (front != "" ==> t[0] == front[0]) && (front == "" && sign != "" ==> t[0] == sign[0])
      && (front == "" && sign == "" ==> t[0] != ' ')
      && (front == "" && back == "" && ' ' !in sign ==> ' ' !in t)
  {
    assert core[0] in core && core[|core| - 1] in core;
  }

  /** The prefix and the digits, in which there is no space. */
  lemma CoreOf(p: Parts, num: int, base: nat, size: int, precision: int, f: Flags)
    requires 2 <= base <= 36 && AreParts(p, num, base, size, precision, f)
    ensures var core := p.prefix + (p.zeros + p.digits);
      core != "" && ' ' !in core && p.Text() == p.front + p.sign + core + p.back
    ensures p.zeros + p.digits != "" && (base == 16 ==> 'x' !in p.zeros + p.digits)
  {
    NoSpaceInDigits(p.zeros, p.digits, Printed(num, f), base, f.uppercase);
    hide IsDigits;
    Regrouped(p);
    assert (p.zeros + p.digits)[|p.zeros|] == p.digits[0];
  }

  lemma Regrouped(p: Parts)
    ensures p.Text() == p.front + p.sign + (p.prefix + (p.zeros + p.digits)) + p.back
  {
    assert p.front + p.sign + p.prefix + p.zeros + p.digits == p.front + p.sign + (p.prefix + (p.zeros + p.digits));
  }

  /** Where the padding stands: at the back only with the left flag, at the front only without it, and
      nowhere when zeros pad; a space for the sign stands first. */
  lemma PaddingShows(t: string, num: int, base: nat, size: int, precision: int, f: Flags)
    requires 2 <= base <= 36 && IsField(t, num, base, size, precision, f)
    ensures t != "" && (!f.left ==> t[|t| - 1] != ' ')
    ensures var blank := f.sign && num >= 0 && !f.plus && f.space;
      && (blank ==> t[0] == ' ') && (f.left && !blank ==> t[0] != ' ')
      && (f.zeropad && !f.left && !blank ==> ' ' !in t)
  {
    var p: Parts :| t == p.Text() && AreParts(p, num, base, size, precision, f);
    CoreOf(p, num, base, size, precision, f);
    hide IsDigits, Parts.Text;
    Ends(p.front, p.sign, p.prefix + (p.zeros + p.digits), p.back);
  }

  /** A digit in base 16 is no letter in the other case. */
  lemma CaseShows(ds: string, v: int, upper: bool)
    requires IsDigits(ds, v, 16, upper)
    ensures forall c :: c in ds && 'a' <= c <= 'f' ==> !upper
    ensures forall c :: c in ds && 'A' <= c <= 'F' ==> upper
  {
    hide Value, Read;
    forall i | 0 <= i < |ds| ensures ('a' <= ds[i] <= 'f' ==> !upper) && ('A' <= ds[i] <= 'F' ==> upper) {
      assert IsDigitOf(ds[i], 16, upper);
    }
  }

  lemma InPieces(p: Parts, c: char)
    ensures c in p.Text() <==> c in p.front || c in p.sign || c in p.prefix || c in p.zeros + p.digits || c in p.back
    ensures c in p.zeros + p.digits <==> c in p.zeros || c in p.digits
  {
    assert p.Text() == p.front + p.sign + p.prefix + (p.zeros + p.digits) + p.back;
  }

  lemma NotAmong(t: string, d: char, c: char)
    requires All(t, d) && c != d
    ensures c !in t
  {
  }

  lemma LetterAt(p: Parts, num: int, size: int, precision: int, f: Flags, c: char)
    requires AreParts(p, num, 16, size, precision, f)
    requires c == 'x' || 'a' <= c <= 'f' || 'A' <= c <= 'F'
    ensures c in p.Text() <==> (c == 'x' && f.hexPrep) || (c != 'x' && c in p.digits)
  {
    CoreOf(p, num, 16, size, precision, f);
    hide IsDigits, All, Parts.Text;
    NotAmong(p.front, ' ', c);
    NotAmong(p.zeros, '0', c);
    NotAmong(p.back, ' ', c);
    InPieces(p, c);
    assert c !in p.sign;
    assert "0x"[1] == 'x';
    assert c in p.prefix <==> c == 'x' && f.hexPrep;
  }

  /** In base 16 the letters are in one case, and an x stands for the prefix. */
  lemma LettersShow(t: string, num: int, size: int, precision: int, f: Flags)
    requires IsField(t, num, 16, size, precision, f)
    ensures 'x' in t <==> f.hexPrep
    ensures forall c :: c in t && 'a' <= c <= 'f' ==> !f.uppercase
    ensures forall c :: c in t && 'A' <= c <= 'F' ==> f.uppercase
  {
    var p: Parts :| t == p.Text() && AreParts(p, num, 16, size, precision, f);
    CaseShows(p.digits, Printed(num, f), f.uppercase);
    LetterAt(p, num, size, precision, f, 'x');
    forall c | 'a' <= c <= 'f' || 'A' <= c <= 'F' ensures c in t ==> c in p.digits {
      LetterAt(p, num, size, precision, f, c);
    }
  }

  // ----- the decimal parser -----

  predicate IsDigit(c: char) {
    '0' <= c <= '9'
  }

  /** The character at k of a NUL-terminated string. */
  function At(s: string, k: nat): char
    requires k <= |s|
  {
    if k < |s| then s[k] else '\0'
  }

  /** The end of the run of digits at k. */
  function DigitsEnd(s: string, k: nat): (e: nat)
    requires k <= |s|
    ensures k <= e <= |s| && !IsDigit(At(s, e)) && forall j :: k <= j < e ==> IsDigit(s[j])
    decreases |s| - k
  {
    if k < |s| && IsDigit(s[k]) then DigitsEnd(s, k + 1) else k
  }

  lemma WrapStep(i: int, v: int, c: char)
    requires IsDigit(c) && i == Wrap(v)
    ensures Wrap(Wrap(Wrap(i * 10) + c as int) - '0' as int) == Wrap(v * 10 + DigitOf(c))
  {
    assert DigitOf(c) == c as int - '0' as int;
    hide Wrap, DigitOf;
    var j := WrapAgrees(v);
    var k := WrapAgrees(i * 10);
    var l := WrapAgrees(Wrap(i * 10) + c as int);
    WrapShift(v * 10 + DigitOf(c), 10 * j + k + l);
  }

  lemma WrapAgrees(v: int) returns (k: int)
    ensures Wrap(v) == v - k * TWO_32
  {
    k := (v + 0x8000_0000) / TWO_32;
  }

  lemma WrapShift(v: int, k: int)
    ensures Wrap(v - k * TWO_32) == Wrap(v)
  {
    var a := v + 0x8000_0000;
    assert (a - k * TWO_32) % TWO_32 == a % TWO_32;
  }

  lemma ReadMore(s: string, k: nat, e: nat)
    requires k <= e < |s|
    ensures Value(Read(s[k..e + 1]), 10) == Value(Read(s[k..e]), 10) * 10 + DigitOf(s[e])
  {
    assert Read(s[k..e + 1]) == Read(s[k..e]) + [DigitOf(s[e])];
    ValueOfMore(Read(s[k..e]), DigitOf(s[e]), 10);
  }

  lemma DigitsEndStep(s: string, k: nat)
    requires k <= |s|
    ensures if IsDigit(At(s, k)) then k < |s| && DigitsEnd(s, k) == DigitsEnd(s, k + 1) else DigitsEnd(s, k) == k
  {
  }

  /** The run of digits from k on, read with 32-bit wrap-around, and where it ends. */
  method SkipAtoi(s: string, k: nat) returns (i: int, e: nat)
    requires k <= |s|
    ensures e == DigitsEnd(s, k) && i == Wrap(Value(Read(s[k..e]), 10))
  {
    i, e := 0, k;
    assert s[k..k] == "" && Read("") == [] && Value([], 10) == 0;
    hide Value, Read, Wrap, DigitsEnd, DigitOf;
    WrapSmall(0);
    DigitsEndStep(s, k);
    while IsDigit(At(s, e))
      invariant k <= e <= |s| && DigitsEnd(s, k) == DigitsEnd(s, e)
      invariant i == Wrap(Value(Read(s[k..e]), 10))
      decreases |s| - e
    {
      WrapStep(i, Value(Read(s[k..e]), 10), s[e]);
      ReadMore(s, k, e);
      DigitsEndStep(s, e);
      i := Wrap(Wrap(Wrap(i * 10) + s[e] as int) - '0' as int);
      e := e + 1;
    }
    DigitsEndStep(s, e);
  }

  // ----- printing, then parsing -----

  ghost predicate AllDigits(t: string) {
    forall i :: 0 <= i < |t| ==> IsDigit(t[i])
  }

  lemma {:induction false} DigitsEndAt(s: string, k: nat, e: nat)
    requires k <= e <= |s| && !IsDigit(At(s, e)) && forall j :: k <= j < e ==> IsDigit(s[j])
    ensures DigitsEnd(s, k) == e
    decreases e - k
  {
    if k < e {
      DigitsEndAt(s, k + 1, e);
    }
  }

  lemma BodyIsDigits(num: int, precision: int, f: Flags)
    requires IsLong(num)
    ensures AllDigits(Body(num, 10, precision, f)) && |Body(num, 10, precision, f)| > 0
  {
    var m := Magnitude(num, f);
    var ds := Numeral(m, 10);
    forall i | 0 <= i < |ds| ensures IsDigit(Text(ds, f.uppercase)[i]) {
      DigitRead(ds[i], f.uppercase);
    }
    hide Magnitude;
  }

  /** What the parser makes of a run of digits that something else follows. */
  lemma ParseRun(t: string, rest: string)
    requires AllDigits(t) && (rest != "" ==> !IsDigit(rest[0]))
    ensures DigitsEnd(t + rest, 0) == |t| && (t + rest)[0..|t|] == t
  {
    DigitsEndAt(t + rest, 0, |t|);
  }

  lemma PlainField(n: int, size: int, precision: int, f: Flags)
    requires 0 <= n < 0x8000_0000 && !(f.sign && (f.plus || f.space))
    ensures var body := Body(n, 10, precision, f);
      Formatted(n, 10, size, precision, f) == Placed("", body, size - |body|, f)
      && Value(Read(body), 10) == n && AllDigits(body) && |body| > 0
  {
    BodyIsDigits(n, precision, f);
    BodyValue(n, 10, precision, f);
    assert Sign(n, f) == "";
    hide Body, Value, Read, Sign, Placed;
    assert "" + "" == "";
  }

  lemma WrapSmall(n: int)
    requires 0 <= n < 0x8000_0000
    ensures Wrap(n) == n
  {
  }

  /** Digits with zeros in front and spaces or something else behind. */
  lemma ParseField(zeros: string, body: string, spaces: string, rest: string, n: int)
    requires AllDigits(body) && Value(Read(body), 10) == n && (rest != "" ==> !IsDigit(rest[0]))
    requires forall i :: 0 <= i < |zeros| ==> zeros[i] == '0'
    requires forall i :: 0 <= i < |spaces| ==> spaces[i] == ' '
    ensures var s := zeros + body + spaces + rest; var e := |zeros| + |body|;
      DigitsEnd(s, 0) == e && Value(Read(s[0..e]), 10) == n
  {
    hide Value, Read, DigitsEnd;
    var t := zeros + body;
    assert t + spaces + rest == t + (spaces + rest);
    assert AllDigits(t);
    ParseRun(t, spaces + rest);
    ZerosInFront(zeros, body);
  }

  /** Parsing the decimal text of n gives n back and stops right behind its last digit, whatever
      zeros the width and the precision put in front. */
  lemma PrintThenParse(n: int, size: int, precision: int, f: Flags, rest: string)
    requires 0 <= n < 0x8000_0000 && !(f.sign && (f.plus || f.space)) && (rest != "" ==> !IsDigit(rest[0]))
    requires f.left || f.zeropad || size <= |Body(n, 10, precision, f)|
    ensures var text := Formatted(n, 10, size, precision, f);
      var e := DigitsEnd(text + rest, 0);
      && Wrap(Value(Read((text + rest)[0..e]), 10)) == n
      && e == if f.left then |Body(n, 10, precision, f)| else |text|
  {
    hide Formatted, Body, Wrap, Value, Read, Sign, DigitsEnd;
    var body := Body(n, 10, precision, f);
    var gap := size - |body|;
    PlainField(n, size, precision, f);
    WrapSmall(n);
    NoRepeat(' ', gap);
    var zeros, spaces := if f.zeropad && !f.left then Repeat('0', gap) else "", if f.left then Repeat(' ', gap) else "";
    assert Placed("", body, gap, f) == zeros + body + spaces;
    hide Placed;
    ParseField(zeros, body, spaces, rest, n);
  }

  lemma ZerosInFront(zeros: string, body: string)
    requires forall i :: 0 <= i < |zeros| ==> zeros[i] == '0'
    ensures Value(Read(zeros + body), 10) == Value(Read(body), 10)
  {
    assert Read(zeros + body) == seq(|zeros|, _ => 0) + Read(body);
    LeadingZeros(|zeros|, Read(body), 10);
  }
}
