/** The format scanner of the CoreMark printf: what a format and its arguments print. */
module EePrintf {
  import opened EeNumber
  import opened EeAddress

  type CString = t: string | |t| < TWO_32 - 1 && '\0' !in t witness ""
  type Word = v: int | IsLong(v) witness 0
  type Address = a: seq<Octet> | |a| == 6 witness [0, 0, 0, 0, 0, 0]

  /** One variadic argument, as each conversion may take it: a word, a string (or a null pointer),
      six octets, or a float that only `flt` looks at. */
  datatype Arg = Arg(word: Word, text: Option<CString>, octets: Address)

  type Args = nat -> Arg
  type Flt = (Arg, int, int, Flags) -> string

  // ----- what one directive says -----

  datatype Spec = Spec(flags: Flags, width: int, precision: int, qualifier: char, pos: nat, next: nat)

  /** The flag characters from k on. */
  function ScanFlags(fmt: string, k: nat, f: Flags): (r: (Flags, nat))
    requires k <= |fmt|
    ensures k <= r.1 <= |fmt|
    decreases |fmt| - k
  {
    match At(fmt, k)
    case '-' => ScanFlags(fmt, k + 1, f.(left := true))
    case '+' => ScanFlags(fmt, k + 1, f.(plus := true))
    case ' ' => ScanFlags(fmt, k + 1, f.(space := true))
    case '#' => ScanFlags(fmt, k + 1, f.(hexPrep := true))
    case '0' => ScanFlags(fmt, k + 1, f.(zeropad := true))
    case _ => (f, k)
  }

  function Parsed(fmt: string, k: nat): int
    requires k <= |fmt|
  {
    Wrap(Value(Read(fmt[k..DigitsEnd(fmt, k)]), 10))
  }

  /** The width at d.pos: digits, or a star that takes an argument, whose sign is a minus flag. */
  function ScanWidth(fmt: string, d: Spec, args: Args): (r: Spec)
    requires d.pos <= |fmt|
    ensures d.pos <= r.pos <= |fmt| && r.precision == d.precision
  {
    if IsDigit(At(fmt, d.pos)) then d.(width := Parsed(fmt, d.pos), pos := DigitsEnd(fmt, d.pos))
    else if At(fmt, d.pos) == '*' then
      var w: int := args(d.next).word;
      d.(width := if w < 0 then Wrap(-w) else w, flags := if w < 0 then d.flags.(left := true) else d.flags,
         pos := d.pos + 1, next := d.next + 1)
    else d
  }

  /** The precision at d.pos: a dot, then digits, a star, or nothing; never negative. */
  function ScanPrecision(fmt: string, d: Spec, args: Args): (r: Spec)
    requires d.pos <= |fmt| && d.precision == -1
    ensures d.pos <= r.pos <= |fmt| && r.precision >= -1
  {
    if At(fmt, d.pos) != '.' then d
    else if IsDigit(At(fmt, d.pos + 1)) then
      d.(precision := Max(Parsed(fmt, d.pos + 1), 0), pos := DigitsEnd(fmt, d.pos + 1))
    else if At(fmt, d.pos + 1) == '*' then
      d.(precision := Max(args(d.next).word, 0), pos := d.pos + 2, next := d.next + 1)
    else d.(precision := 0, pos := d.pos + 1)
  }

  function ScanQualifier(fmt: string, d: Spec): (r: Spec)
    requires d.pos <= |fmt|
    ensures d.pos <= r.pos <= |fmt| && r.precision == d.precision
  {
    if At(fmt, d.pos) == 'l' || At(fmt, d.pos) == 'L' then d.(qualifier := At(fmt, d.pos), pos := d.pos + 1) else d
  }

  /** The directive behind the percent sign at k; pos is where its conversion character stands. */
  function Scan(fmt: string, k: nat, args: Args, n: nat): (r: Spec)
    requires k < |fmt|
    ensures k < r.pos <= |fmt| && r.precision >= -1
  {
    var (f, e) := ScanFlags(fmt, k + 1, NO_FLAGS);
    var d := ScanWidth(fmt, Spec(f, -1, -1, ' ', e, n), args);
    ScanQualifier(fmt, ScanPrecision(fmt, d, args))
  }

  // ----- what one directive prints -----

  function Shortened(text: string, precision: int): string {
    if 0 <= precision < |text| then text[..precision] else text
  }

  function StringText(a: Arg): (t: CString) {
    match a.text
    case None => "<NULL>"
    case Some(t) => t
  }

  function CharOf(v: int): char {
    (v % 256) as char
  }

  function NumberText(d: Spec, a: Arg, base: nat, f: Flags): string
    requires 2 <= base <= 36
  {
    Formatted(a.word, base, d.width, d.precision, f)
  }

  function PointerText(d: Spec, a: Arg): string {
    if d.width == -1 then Formatted(a.word, 16, 8, d.precision, d.flags.(zeropad := true))
    else Formatted(a.word, 16, d.width, d.precision, d.flags)
  }

  function AddressText(d: Spec, a: Arg, f: Flags): string {
    if d.qualifier == 'l' then Justified(Colons(a.octets, f.uppercase), d.width, f.left)
    else Justified(Dotted(a.octets[..4]), d.width, f.left)
  }

  predicate TakesArgument(c: char) {
    c in "cspAaoXxdiuf"
  }

  /** The text of a directive whose conversion character is c; any other character prints itself
      behind a percent sign. */
  function Converted(d: Spec, c: char, a: Arg, flt: Flt): string {
    match c
    case 'c' => Justified([CharOf(a.word)], d.width, d.flags.left)
    case 's' => Justified(Shortened(StringText(a), d.precision), d.width, d.flags.left)
    case 'p' => PointerText(d, a)
    case 'A' => AddressText(d, a, d.flags.(uppercase := true))
    case 'a' => AddressText(d, a, d.flags)
    case 'o' => NumberText(d, a, 8, d.flags)
    case 'X' => NumberText(d, a, 16, d.flags.(uppercase := true))
    case 'x' => NumberText(d, a, 16, d.flags)
    case 'd' => NumberText(d, a, 10, d.flags.(sign := true))
    case 'i' => NumberText(d, a, 10, d.flags.(sign := true))
    case 'u' => NumberText(d, a, 10, d.flags)
    case 'f' => flt(a, d.width, d.precision, d.flags.(sign := true))
    case '%' => "%"
    case '\0' => "%"
    case _ => "%" + [c]
  }

  /** Where the scan goes on behind a directive: a conversion character is passed, the terminator is not. */
  function Behind(fmt: string, d: Spec): (k: nat)
    requires d.pos <= |fmt|
    ensures d.pos <= k <= |fmt|
  {
    if d.pos < |fmt| then d.pos + 1 else d.pos
  }

  function ArgsAfter(fmt: string, d: Spec): nat
    requires d.pos <= |fmt|
  {
    if TakesArgument(At(fmt, d.pos)) then d.next + 1 else d.next
  }

  /** Everything the format prints from position k on, n arguments having been taken. */
  function Output(fmt: string, k: nat, args: Args, n: nat, flt: Flt): string
    requires k <= |fmt|
    decreases |fmt| - k
  {
    if k == |fmt| then ""
    else if fmt[k] != '%' then [fmt[k]] + Output(fmt, k + 1, args, n, flt)
    else
      var d := Scan(fmt, k, args, n);
      Converted(d, At(fmt, d.pos), args(d.next), flt) + Output(fmt, Behind(fmt, d), args, ArgsAfter(fmt, d), flt)
  }

  // ----- the scanner -----

  /** `repeat:` up to the width. */
  method ReadFlags(fmt: string, k0: nat) returns (flags: Flags, k: nat)
    requires k0 < |fmt| && '\0' !in fmt
    ensures k0 < k <= |fmt| && (flags, k) == ScanFlags(fmt, k0 + 1, NO_FLAGS)
  {
    flags, k := NO_FLAGS, k0;
    var repeat := true;
    while repeat
      invariant k0 <= k && (repeat ==> k < |fmt|) && (!repeat ==> k0 < k <= |fmt|)
      invariant ScanFlags(fmt, k0 + 1, NO_FLAGS) == if repeat then ScanFlags(fmt, k + 1, flags) else (flags, k)
      decreases repeat, |fmt| - k
    {
      k := k + 1;
      match At(fmt, k) {
        case '-' => flags := flags.(left := true);
        case '+' => flags := flags.(plus := true);
        case ' ' => flags := flags.(space := true);
        case '#' => flags := flags.(hexPrep := true);
        case '0' => flags := flags.(zeropad := true);
        case _ => repeat := false;
      }
    }
  }

  method ReadWidth(fmt: string, flags: Flags, k: nat, args: Args, n: nat) returns (d: Spec)
    requires k <= |fmt|
    ensures d == ScanWidth(fmt, Spec(flags, -1, -1, ' ', k, n), args)
  {
    hide Value, Read, Wrap, DigitsEnd;
    d := Spec(flags, -1, -1, ' ', k, n);
    if IsDigit(At(fmt, k)) {
      var w, e := SkipAtoi(fmt, k);
      d := d.(width := w, pos := e);
    } else if At(fmt, k) == '*' {
      d := d.(pos := k + 1, width := args(n).word, next := n + 1);
      if d.width < 0 {
        d := d.(width := Wrap(-d.width), flags := flags.(left := true));
      }
    }
  }

  method ReadPrecision(fmt: string, d0: Spec, args: Args) returns (d: Spec)
    requires d0.pos <= |fmt| && d0.precision == -1
    ensures d == ScanPrecision(fmt, d0, args)
  {
    hide Value, Read, Wrap, DigitsEnd;
    d := d0;
    if At(fmt, d.pos) == '.' {
      d := d.(pos := d.pos + 1);
      if IsDigit(At(fmt, d.pos)) {
        var p, e := SkipAtoi(fmt, d.pos);
        d := d.(precision := p, pos := e);
      } else if At(fmt, d.pos) == '*' {
        d := d.(pos := d.pos + 1, precision := args(d.next).word, next := d.next + 1);
      }
      if d.precision < 0 {
        d := d.(precision := 0);
      }
    }
  }

  /** `strnlen`: a precision of -1 is the largest count there is. */
  method StrnLen(s: string, precision: int) returns (len: nat)
    requires |s| < TWO_32 - 1 && precision >= -1
    ensures len <= |s| && s[..len] == Shortened(s, precision)
  {
    var count := if precision < 0 then TWO_32 - 1 else precision;
    len := 0;
    while len < |s| && count > 0
      invariant 0 <= len <= |s| && count == (if precision < 0 then TWO_32 - 1 else precision) - len
      invariant 0 <= count
    {
      count := count - 1;
      len := len + 1;
    }
  }

  /** A string or a single character in its field. */
  method Field(text: string, width: int, left: bool) returns (str: string)
    ensures str == Justified(text, width, left)
  {
    hide Repeat;
    str := "";
    var gap := width - |text|;
    if !left {
      str, gap := Pad(str, ' ', gap);
    }
    str := str + text;
    NoRepeat(' ', gap);
    str, gap := Pad(str, ' ', gap);
  }

  method ReadSpec(fmt: string, k: nat, args: Args, n: nat) returns (d: Spec)
    requires k < |fmt| && '\0' !in fmt
    ensures d == Scan(fmt, k, args, n)
  {
    hide ScanFlags, ScanWidth, ScanPrecision;
    var flags, e := ReadFlags(fmt, k);
    d := ReadWidth(fmt, flags, e, args, n);
    d := ReadPrecision(fmt, d, args);
    if At(fmt, d.pos) == 'l' || At(fmt, d.pos) == 'L' {
      d := d.(qualifier := At(fmt, d.pos), pos := d.pos + 1);
    }
  }

  /** `number`, whose base is never refused here. */
  method NumberField(d: Spec, a: Arg, base: int, f: Flags) returns (str: string)
    requires 2 <= base <= 36
    ensures str == Formatted(a.word, base, d.width, d.precision, f)
  {
    var r := Number(a.word, base, d.width, d.precision, f);
    return r.value;
  }

  /** The second `switch`: one conversion. */
  method Convert(d: Spec, c: char, a: Arg, flt: Flt) returns (str: string)
    requires c != '\0' && d.precision >= -1
    ensures str == Converted(d, c, a, flt) && IsConversion(d, c, a, flt, str)
  {
    hide Justified, Formatted, Shortened, Colons, Dotted, IsConversion;
    ConvertedIs(d, c, a, flt);
    match c {
      case 'c' =>
        str := Field([CharOf(a.word)], d.width, d.flags.left);
      case 's' =>
        var t := StringText(a);
        var len := StrnLen(t, d.precision);
        str := Field(t[..len], d.width, d.flags.left);
      case 'p' =>
        var e := d;
        if e.width == -1 {
          e := e.(width := 8, flags := e.flags.(zeropad := true));
        }
        str := NumberField(e, a, 16, e.flags);
      case 'A' =>
        str := AddressField(d, a, d.flags.(uppercase := true));
      case 'a' =>
        str := AddressField(d, a, d.flags);
      case 'o' =>
        str := NumberField(d, a, 8, d.flags);
      case 'X' =>
        str := NumberField(d, a, 16, d.flags.(uppercase := true));
      case 'x' =>
        str := NumberField(d, a, 16, d.flags);
      case 'd' =>
        str := NumberField(d, a, 10, d.flags.(sign := true));
      case 'i' =>
        str := NumberField(d, a, 10, d.flags.(sign := true));
      case 'u' =>
        str := NumberField(d, a, 10, d.flags);
      case 'f' =>
        str := flt(a, d.width, d.precision, d.flags.(sign := true));
      case _ =>
        str := if c != '%' then "%" + [c] else "%";
    }
  }

  method AddressField(d: Spec, a: Arg, f: Flags) returns (str: string)
    ensures str == AddressText(d, a, f)
  {
    hide Justified, Colons, Dotted;
    assert a.octets[..6] == a.octets;
    if d.qualifier == 'l' {
      str := Eaddr(a.octets, d.width, f);
    } else {
      str := Iaddr(a.octets, d.width, f);
    }
  }

  /** The whole of `ee_vsprintf`: the text in front of the terminator, and its length. A directive cut
      short by the end of the format prints a percent sign, steps back, and the loop steps onto the
      terminator again. */
  method Sprintf(fmt: string, args: Args, flt: Flt) returns (str: string, len: nat)
    requires '\0' !in fmt
    ensures str == Output(fmt, 0, args, 0, flt) && len == |str|
    ensures IsOutput(fmt, 0, args, 0, flt, str)
  {
    hide Scan, Converted, IsOutput, IsConversion;
    OutputIs(fmt, 0, args, 0, flt);
    str := "";
    var k, n := 0, 0;
    while k < |fmt|
      invariant 0 <= k <= |fmt|
      invariant Output(fmt, 0, args, 0, flt) == str + Output(fmt, k, args, n, flt)
      decreases |fmt| - k
    {
      if fmt[k] != '%' {
        str := str + [fmt[k]];
      } else {
        var d := ReadSpec(fmt, k, args, n);
        k := d.pos;
        n := ArgsAfter(fmt, d);
        if k == |fmt| {
          str := str + "%";
          CutShort(d, args(d.next), flt);
          k := k - 1;
        } else {
          var text := Convert(d, fmt[k], args(d.next), flt);
          str := str + text;
        }
      }
      k := k + 1;
    }
    len := |str|;
  }

  lemma CutShort(d: Spec, a: Arg, flt: Flt)
    ensures Converted(d, '\0', a, flt) == "%"
  {
  }

  // ----- what a directive says, character by character -----

  predicate IsFlagChar(c: char) {
    c == '-' || c == '+' || c == ' ' || c == '#' || c == '0'
  }

  /** Where the width, the precision and the qualifier of a directive begin; each may be empty. */
  datatype Cuts = Cuts(w: nat, p: nat, q: nat)

  /** Flag characters, as many as there are, and what they and a negative star width switch on. */
  ghost predicate FlagsRead(fmt: string, k: nat, w: nat, f: Flags, negative: bool)
    requires k < w <= |fmt|
  {
    var fl := fmt[k + 1..w];
    && (forall i :: k < i < w ==> IsFlagChar(fmt[i])) && !IsFlagChar(At(fmt, w))
    && (f.left <==> '-' in fl || negative) && (f.plus <==> '+' in fl) && (f.space <==> ' ' in fl)
    && (f.hexPrep <==> '#' in fl) && (f.zeropad <==> '0' in fl) && !f.sign && !f.uppercase
  }

  /** Digits in decimal, or a star for an argument, or nothing, which is -1. */
  ghost predicate WidthRead(fmt: string, w: nat, p: nat, width: int, star: int)
    requires w <= p <= |fmt|
  {
    if fmt[w..p] == "*" then width == if star < 0 then Wrap(-star) else star
    else if w == p then width == -1 && !IsDigit(At(fmt, p)) && At(fmt, p) != '*'
    else AllDigits(fmt[w..p]) && !IsDigit(At(fmt, p)) && width == Wrap(Value(Read(fmt[w..p]), 10))
  }

  /** The same behind a dot, where nothing is 0 and so is what is negative; without a dot it is -1. */
  ghost predicate PrecisionRead(fmt: string, p: nat, q: nat, precision: int, star: int)
    requires p <= q <= |fmt|
  {
    if p == q then precision == -1 && At(fmt, p) != '.'
    else
      && fmt[p] == '.'
      && if fmt[p + 1..q] == "*" then precision == Max(star, 0)
         else if p + 1 == q then precision == 0 && !IsDigit(At(fmt, q)) && At(fmt, q) != '*'
         else AllDigits(fmt[p + 1..q]) && !IsDigit(At(fmt, q)) && precision == Max(Wrap(Value(Read(fmt[p + 1..q]), 10)), 0)
  }

  ghost predicate IsCut(fmt: string, k: nat, args: Args, n: nat, d: Spec, c: Cuts) {
    && k < c.w <= c.p <= c.q <= d.pos <= |fmt|
    && var stars := if fmt[c.w..c.p] == "*" then 1 else 0;
    && FlagsRead(fmt, k, c.w, d.flags, stars == 1 && args(n).word < 0)
    && WidthRead(fmt, c.w, c.p, d.width, args(n).word)
    && PrecisionRead(fmt, c.p, c.q, d.precision, args(n + stars).word)
    && d.next == n + stars + (if fmt[c.p..c.q] == ".*" then 1 else 0)
    && (if At(fmt, c.q) == 'l' || At(fmt, c.q) == 'L' then d.qualifier == At(fmt, c.q) && d.pos == c.q + 1
        else d.qualifier == ' ' && d.pos == c.q)
  }

  /** d is what the directive behind the percent sign at k says. */
  ghost predicate IsDirective(fmt: string, k: nat, args: Args, n: nat, d: Spec) {
    exists c: Cuts :: IsCut(fmt, k, args, n, d, c)
  }

  /** f with what the flag characters in fl switch on. */
  ghost function Gathered(f: Flags, fl: string): Flags {
    Flags(f.zeropad || '0' in fl, f.sign, f.plus || '+' in fl, f.space || ' ' in fl,
          f.left || '-' in fl, f.hexPrep || '#' in fl, f.uppercase)
  }

  lemma GatheredMore(f: Flags, c: char, rest: string)
    ensures Gathered(FlagSet(f, c), rest) == Gathered(f, [c] + rest)
  {
    assert ([c] + rest)[0] == c;
    assert forall x :: x in [c] + rest <==> x == c || x in rest;
  }

  lemma FlagStep(fmt: string, k: nat, f: Flags)
    requires k <= |fmt|
    ensures if IsFlagChar(At(fmt, k)) then k < |fmt| && ScanFlags(fmt, k, f) == ScanFlags(fmt, k + 1, FlagSet(f, fmt[k]))
            else ScanFlags(fmt, k, f) == (f, k)
  {
  }

  lemma {:induction false} FlagsScanned(fmt: string, k: nat, f: Flags)
    requires k <= |fmt|
    ensures var (g, e) := ScanFlags(fmt, k, f);
      && (forall i :: k <= i < e ==> IsFlagChar(fmt[i])) && !IsFlagChar(At(fmt, e)) && g == Gathered(f, fmt[k..e])
    decreases |fmt| - k
  {
    FlagStep(fmt, k, f);
    hide ScanFlags;
    if IsFlagChar(At(fmt, k)) {
      FlagsScanned(fmt, k + 1, FlagSet(f, fmt[k]));
      var e := ScanFlags(fmt, k, f).1;
      GatheredMore(f, fmt[k], fmt[k + 1..e]);
      hide Gathered, FlagSet;
      assert fmt[k..e] == [fmt[k]] + fmt[k + 1..e];
    }
  }

  function FlagSet(f: Flags, c: char): Flags {
    f.(zeropad := f.zeropad || c == '0', plus := f.plus || c == '+', space := f.space || c == ' ',
       left := f.left || c == '-', hexPrep := f.hexPrep || c == '#')
  }

  lemma WidthScanned(fmt: string, d: Spec, args: Args)
    requires d.pos <= |fmt| && d.width == -1
    ensures var r, w := ScanWidth(fmt, d, args), d.pos;
      && w <= r.pos <= |fmt| && WidthRead(fmt, w, r.pos, r.width, args(d.next).word)
      && r == (if fmt[w..r.pos] == "*" && args(d.next).word < 0 then d.(flags := d.flags.(left := true)) else d)
              .(pos := r.pos, width := r.width, next := d.next + if fmt[w..r.pos] == "*" then 1 else 0)
  {
    hide Value, Read, Wrap;
    if IsDigit(At(fmt, d.pos)) {
      var e := DigitsEnd(fmt, d.pos);
      assert fmt[d.pos..e][0] == fmt[d.pos];
    }
  }

  lemma PrecisionScanned(fmt: string, d: Spec, args: Args)
    requires d.pos <= |fmt| && d.precision == -1
    ensures var r, p := ScanPrecision(fmt, d, args), d.pos;
      && p <= r.pos <= |fmt| && PrecisionRead(fmt, p, r.pos, r.precision, args(d.next).word)
      && r == d.(pos := r.pos, precision := r.precision, next := d.next + if fmt[p..r.pos] == ".*" then 1 else 0)
  {
    hide Value, Read, Wrap;
    if At(fmt, d.pos) == '.' && IsDigit(At(fmt, d.pos + 1)) {
      var e := DigitsEnd(fmt, d.pos + 1);
      assert fmt[d.pos + 1..e][0] == fmt[d.pos + 1] && fmt[d.pos..e][1] == fmt[d.pos + 1];
    }
  }

  lemma FlagsAreRead(fmt: string, k: nat, negative: bool)
    requires k < |fmt|
    ensures var (f, e) := ScanFlags(fmt, k + 1, NO_FLAGS);
      k < e <= |fmt| && FlagsRead(fmt, k, e, if negative then f.(left := true) else f, negative)
  {
    FlagsScanned(fmt, k + 1, NO_FLAGS);
    hide ScanFlags, IsFlagChar;
  }

  /** The scan reads a directive as it is written. */
  lemma ScanIsDirective(fmt: string, k: nat, args: Args, n: nat)
    requires k < |fmt|
    ensures IsDirective(fmt, k, args, n, Scan(fmt, k, args, n))
  {
    var (f, e) := ScanFlags(fmt, k + 1, NO_FLAGS);
    FlagsAreRead(fmt, k, false);
    FlagsAreRead(fmt, k, true);
    var d0 := Spec(f, -1, -1, ' ', e, n);
    WidthScanned(fmt, d0, args);
    var d1 := ScanWidth(fmt, d0, args);
    PrecisionScanned(fmt, d1, args);
    var d2 := ScanPrecision(fmt, d1, args);
    hide ScanFlags, ScanWidth, ScanPrecision, FlagsRead, WidthRead, PrecisionRead;
    assert IsCut(fmt, k, args, n, Scan(fmt, k, args, n), Cuts(e, d1.pos, d2.pos));
  }

  // ----- what a conversion prints -----

  /** An address in its field: octets in hexadecimal behind an l, else the first four in decimal. */
  ghost predicate IsAddress(d: Spec, octets: Address, upper: bool, t: string) {
    if d.qualifier == 'l' then exists body :: IsColons(body, octets, upper) && IsPadded(t, body, d.width, d.flags.left)
    else exists body :: IsDotted(body, octets[..4]) && IsPadded(t, body, d.width, d.flags.left)
  }

  /** t is the text of a directive with conversion character c. */
  ghost predicate IsConversion(d: Spec, c: char, a: Arg, flt: Flt, t: string) {
    if c == 'd' || c == 'i' then IsField(t, a.word, 10, d.width, d.precision, d.flags.(sign := true))
    else if c == 'u' then IsField(t, a.word, 10, d.width, d.precision, d.flags)
    else if c == 'o' then IsField(t, a.word, 8, d.width, d.precision, d.flags)
    else if c == 'x' then IsField(t, a.word, 16, d.width, d.precision, d.flags)
    else if c == 'X' then IsField(t, a.word, 16, d.width, d.precision, d.flags.(uppercase := true))
    else if c == 'p' && d.width == -1 then IsField(t, a.word, 16, 8, d.precision, d.flags.(zeropad := true))
    else if c == 'p' then IsField(t, a.word, 16, d.width, d.precision, d.flags)
    else if c == 'c' then IsPadded(t, [(a.word % 256) as char], d.width, d.flags.left)
    else if c == 's' then
      var s: string := if a.text.None? then "<NULL>" else a.text.value;
      IsPadded(t, if 0 <= d.precision < |s| then s[..d.precision] else s, d.width, d.flags.left)
    else if c == 'a' then IsAddress(d, a.octets, d.flags.uppercase, t)
    else if c == 'A' then IsAddress(d, a.octets, true, t)
    else if c == 'f' then t == flt(a, d.width, d.precision, d.flags.(sign := true))
    else if c == '%' || c == '\0' then t == "%"
    else t == ['%', c]
  }

  lemma AddressIs(d: Spec, a: Arg, f: Flags)
    requires f.left == d.flags.left
    ensures IsAddress(d, a.octets, f.uppercase, AddressText(d, a, f))
  {
    hide Colons, Dotted, Justified, IsColons, IsDotted, IsPadded;
    ColonsAre(a.octets, f.uppercase);
    DottedAre(a.octets[..4]);
    JustifiedIsPadded(Colons(a.octets, f.uppercase), d.width, f.left);
    JustifiedIsPadded(Dotted(a.octets[..4]), d.width, f.left);
  }

  lemma NumberIs(d: Spec, a: Arg, base: nat, f: Flags)
    requires 2 <= base <= 36
    ensures IsField(NumberText(d, a, base, f), a.word, base, d.width, d.precision, f)
  {
    hide Formatted, IsField;
    FormattedIsField(a.word, base, d.width, d.precision, f);
  }

  lemma PointerIs(d: Spec, a: Arg)
    ensures if d.width == -1 then IsField(PointerText(d, a), a.word, 16, 8, d.precision, d.flags.(zeropad := true))
            else IsField(PointerText(d, a), a.word, 16, d.width, d.precision, d.flags)
  {
    hide Formatted, IsField;
    FormattedIsField(a.word, 16, 8, d.precision, d.flags.(zeropad := true));
    FormattedIsField(a.word, 16, d.width, d.precision, d.flags);
  }

  /** Every conversion prints what its character asks for. */
  lemma ConvertedIs(d: Spec, c: char, a: Arg, flt: Flt)
    ensures IsConversion(d, c, a, flt, Converted(d, c, a, flt))
  {
    hide NumberText, PointerText, AddressText, Justified, IsField, IsPadded, IsAddress;
    NumberIs(d, a, 8, d.flags);
    NumberIs(d, a, 16, d.flags);
    NumberIs(d, a, 16, d.flags.(uppercase := true));
    NumberIs(d, a, 10, d.flags);
    NumberIs(d, a, 10, d.flags.(sign := true));
    PointerIs(d, a);
    AddressIs(d, a, d.flags);
    AddressIs(d, a, d.flags.(uppercase := true));
    JustifiedIsPadded([CharOf(a.word)], d.width, d.flags.left);
    JustifiedIsPadded(Shortened(StringText(a), d.precision), d.width, d.flags.left);
  }

  /** Read as a number, the text is the argument again: signed in decimal for d and i, in two's complement
      in decimal for u, in octal for o, in hexadecimal for x, X and p. */
  lemma NumbersReadBack(d: Spec, c: char, a: Arg, flt: Flt, t: string)
    requires IsConversion(d, c, a, flt, t) && !d.flags.sign
    ensures var unsigned := if a.word >= 0 then a.word else a.word + 0x1_0000_0000;
      && (c in "di" ==> ReadNumber(t, 10) == a.word && ('-' in t <==> a.word < 0))
      && (c == 'u' ==> ReadNumber(t, 10) == unsigned)
      && (c == 'o' ==> ReadNumber(t, 8) == unsigned)
      && (c in "xXp" ==> ReadNumber(t, 16) == unsigned)
  {
    hide IsField, ReadNumber;
    if c in "di" {
      FieldReadsBack(t, a.word, 10, d.width, d.precision, d.flags.(sign := true));
    } else if c == 'u' {
      FieldReadsBack(t, a.word, 10, d.width, d.precision, d.flags);
    } else if c == 'o' {
      FieldReadsBack(t, a.word, 8, d.width, d.precision, d.flags);
    } else if c == 'X' {
      FieldReadsBack(t, a.word, 16, d.width, d.precision, d.flags.(uppercase := true));
    } else if c == 'p' && d.width == -1 {
      FieldReadsBack(t, a.word, 16, 8, d.precision, d.flags.(zeropad := true));
    } else if c in "xp" {
      FieldReadsBack(t, a.word, 16, d.width, d.precision, d.flags);
    }
  }

  /** The base and the flags an integer conversion gives to `number`. */
  lemma IntegerField(d: Spec, c: char, a: Arg, flt: Flt, t: string) returns (base: nat, f: Flags)
    requires IsConversion(d, c, a, flt, t) && c in "oxXdiu" && !d.flags.sign && !d.flags.uppercase
    ensures 2 <= base <= 36 && IsField(t, a.word, base, d.width, d.precision, f) && (c in "xX" ==> base == 16)
    ensures f == d.flags.(sign := c == 'd' || c == 'i', uppercase := c == 'X')
  {
    hide IsField;
    base := if c == 'o' then 8 else if c in "xX" then 16 else 10;
    f := d.flags.(sign := c == 'd' || c == 'i', uppercase := c == 'X');
  }

  /** What the flags do to an integer. */
  lemma IntegerShows(d: Spec, c: char, a: Arg, flt: Flt, t: string)
    requires IsConversion(d, c, a, flt, t) && c in "oxXdiu" && !d.flags.sign && !d.flags.uppercase
    ensures t != "" && (d.flags.left && !d.flags.space ==> t[0] != ' ') && (!d.flags.left ==> t[|t| - 1] != ' ')
    ensures d.flags.zeropad && !d.flags.left && !d.flags.space ==> ' ' !in t
    ensures c in "di" && a.word >= 0 ==>
      ('+' in t <==> d.flags.plus) && (d.flags.space && !d.flags.plus ==> t[0] == ' ')
  {
    var base, f := IntegerField(d, c, a, flt, t);
    hide IsConversion, IsField, ReadNumber;
    PaddingShows(t, a.word, base, d.width, d.precision, f);
    FieldReadsBack(t, a.word, base, d.width, d.precision, f);
  }

  lemma HexShows(d: Spec, c: char, a: Arg, flt: Flt, t: string)
    requires IsConversion(d, c, a, flt, t) && c in "xX" && !d.flags.sign && !d.flags.uppercase
    ensures 'x' in t <==> d.flags.hexPrep
    ensures c == 'x' ==> forall l :: 'A' <= l <= 'F' ==> l !in t
    ensures c == 'X' ==> forall l :: 'a' <= l <= 'f' ==> l !in t
  {
    var base, f := IntegerField(d, c, a, flt, t);
    hide IsConversion, IsField;
    LettersShow(t, a.word, d.width, d.precision, f);
  }

  /** The flags of a directive, as they are written. */
  lemma FlagsWritten(fmt: string, k: nat, args: Args, n: nat, d: Spec) returns (w: nat)
    requires IsDirective(fmt, k, args, n, d)
    ensures k < w <= |fmt| && (forall i :: k < i < w ==> IsFlagChar(fmt[i])) && !IsFlagChar(At(fmt, w))
    ensures var f, fl := d.flags, fmt[k + 1..w];
      && ('-' in fl ==> f.left) && ('-' !in fl && At(fmt, w) != '*' ==> !f.left) && (f.plus <==> '+' in fl)
      && (f.space <==> ' ' in fl) && (f.hexPrep <==> '#' in fl) && (f.zeropad <==> '0' in fl) && !f.sign && !f.uppercase
  {
    var cuts :| IsCut(fmt, k, args, n, d, cuts);
    w := cuts.w;
    hide WidthRead, PrecisionRead, IsFlagChar;
    FirstOfRun(fmt, w, cuts.p);
  }

  /** What the flag characters do to an integer: a minus puts the padding behind it, a zero pads it with zeros,
      a plus or a space stands for the sign of what is not negative, a hash gives the hexadecimal prefix; and
      the letters are small for x and capital for X. */
  lemma FlagsShow(fmt: string, k: nat, args: Args, n: nat, d: Spec, flt: Flt, t: string) returns (w: nat)
    requires IsDirective(fmt, k, args, n, d) && At(fmt, d.pos) in "oxXdiu"
    requires IsConversion(d, At(fmt, d.pos), args(d.next), flt, t)
    ensures k < w <= |fmt| && (forall i :: k < i < w ==> IsFlagChar(fmt[i])) && !IsFlagChar(At(fmt, w))
    ensures var c, fl, num: int := At(fmt, d.pos), fmt[k + 1..w], args(d.next).word;
      && t != ""
      && ('-' in fl && ' ' !in fl ==> t[0] != ' ')
      && ('-' !in fl && At(fmt, w) != '*' ==> t[|t| - 1] != ' ')
      && ('0' in fl && '-' !in fl && At(fmt, w) != '*' && ' ' !in fl ==> ' ' !in t)
      && (c in "di" && num >= 0 ==> ('+' in t <==> '+' in fl) && (' ' in fl && '+' !in fl ==> t[0] == ' '))
      && (c in "xX" ==> ('x' in t <==> '#' in fl))
      && (c == 'x' ==> forall l :: 'A' <= l <= 'F' ==> l !in t)
      && (c == 'X' ==> forall l :: 'a' <= l <= 'f' ==> l !in t)
  {
    hide IsConversion, IsFlagChar;
    w := FlagsWritten(fmt, k, args, n, d);
    hide IsDirective;
    IntegerShows(d, At(fmt, d.pos), args(d.next), flt, t);
    if At(fmt, d.pos) in "xX" {
      HexShows(d, At(fmt, d.pos), args(d.next), flt, t);
    }
  }

  // ----- what a whole format prints -----

  /** t is what the format prints from k on: other characters themselves, for each directive what it says, with
      the arguments in their order; a directive that the end of the format cuts short ends the output. */
  ghost predicate IsOutput(fmt: string, k: nat, args: Args, n: nat, flt: Flt, t: string)
    requires k <= |fmt|
    decreases |fmt| - k
  {
    if k == |fmt| then t == ""
    else if fmt[k] != '%' then t != "" && t[0] == fmt[k] && IsOutput(fmt, k + 1, args, n, flt, t[1..])
    else exists d: Spec, m: nat ::
      && IsDirective(fmt, k, args, n, d) && k < d.pos <= |fmt| && m <= |t|
      && IsConversion(d, At(fmt, d.pos), args(d.next), flt, t[..m])
      && IsOutput(fmt, if d.pos < |fmt| then d.pos + 1 else d.pos, args,
                  if At(fmt, d.pos) in "cspAaoXxdiuf" then d.next + 1 else d.next, flt, t[m..])
  }

  lemma OutputAfter(fmt: string, k: nat, args: Args, n: nat, flt: Flt, d: Spec, t: string, rest: string)
    requires k < |fmt| && fmt[k] == '%' && IsDirective(fmt, k, args, n, d) && k < d.pos <= |fmt|
    requires IsConversion(d, At(fmt, d.pos), args(d.next), flt, t)
    requires IsOutput(fmt, Behind(fmt, d), args, ArgsAfter(fmt, d), flt, rest)
    ensures IsOutput(fmt, k, args, n, flt, t + rest)
  {
    hide IsDirective, IsConversion;
    assert (t + rest)[..|t|] == t && (t + rest)[|t|..] == rest;
  }

  lemma {:induction false} OutputIs(fmt: string, k: nat, args: Args, n: nat, flt: Flt)
    requires k <= |fmt|
    ensures IsOutput(fmt, k, args, n, flt, Output(fmt, k, args, n, flt))
    decreases |fmt| - k
  {
    hide Scan, Converted, IsDirective, IsConversion;
    if k == |fmt| {
    } else if fmt[k] != '%' {
      var rest := Output(fmt, k + 1, args, n, flt);
      OutputIs(fmt, k + 1, args, n, flt);
      assert ([fmt[k]] + rest)[1..] == rest;
    } else {
      var d := Scan(fmt, k, args, n);
      ScanIsDirective(fmt, k, args, n);
      ConvertedIs(d, At(fmt, d.pos), args(d.next), flt);
      OutputIs(fmt, Behind(fmt, d), args, ArgsAfter(fmt, d), flt);
      hide IsOutput;
      OutputAfter(fmt, k, args, n, flt, d, Converted(d, At(fmt, d.pos), args(d.next), flt),
                  Output(fmt, Behind(fmt, d), args, ArgsAfter(fmt, d), flt));
    }
  }

  // ----- and nothing else -----

  lemma FlagsEndOnce(fmt: string, k: nat, w: nat, v: nat, f: Flags, g: Flags, x: bool, y: bool)
    requires k < w <= |fmt| && k < v <= |fmt| && FlagsRead(fmt, k, w, f, x) && FlagsRead(fmt, k, v, g, y)
    ensures w == v && (x == y ==> f == g)
  {
  }

  lemma RunEndOnce(fmt: string, w: nat, p: nat, q: nat)
    requires w < p <= |fmt| && w < q <= |fmt| && AllDigits(fmt[w..p]) && AllDigits(fmt[w..q])
    requires !IsDigit(At(fmt, p)) && !IsDigit(At(fmt, q))
    ensures p == q
  {
    RunDigits(fmt, w, p);
    RunDigits(fmt, w, q);
  }

  lemma RunDigits(fmt: string, w: nat, p: nat)
    requires w < p <= |fmt| && AllDigits(fmt[w..p])
    ensures forall i :: w <= i < p ==> IsDigit(fmt[i])
  {
    forall i | w <= i < p ensures IsDigit(fmt[i]) {
      assert fmt[w..p][i - w] == fmt[i];
    }
  }

  lemma WidthOnce(fmt: string, w: nat, p: nat, q: nat, x: int, y: int, star: int)
    requires w <= p <= |fmt| && w <= q <= |fmt| && WidthRead(fmt, w, p, x, star) && WidthRead(fmt, w, q, y, star)
    ensures p == q && x == y
  {
    hide Wrap, Value, Read;
    FirstOfRun(fmt, w, p);
    FirstOfRun(fmt, w, q);
    if IsDigit(At(fmt, w)) {
      RunEndOnce(fmt, w, p, q);
    }
  }

  lemma FirstOfRun(fmt: string, w: nat, p: nat)
    requires w <= p <= |fmt|
    ensures fmt[w..p] == "*" ==> p == w + 1 && At(fmt, w) == '*'
    ensures w < p && AllDigits(fmt[w..p]) ==> IsDigit(At(fmt, w))
  {
    if w < p {
      assert fmt[w..p][0] == fmt[w];
    }
  }

  lemma PrecisionOnce(fmt: string, w: nat, p: nat, q: nat, x: int, y: int, star: int)
    requires w <= p <= |fmt| && w <= q <= |fmt| && PrecisionRead(fmt, w, p, x, star) && PrecisionRead(fmt, w, q, y, star)
    ensures p == q && x == y
  {
    hide Wrap, Value, Read;
    if w < p && w < q {
      FirstOfRun(fmt, w + 1, p);
      FirstOfRun(fmt, w + 1, q);
      if IsDigit(At(fmt, w + 1)) {
        RunEndOnce(fmt, w + 1, p, q);
      }
    }
  }

  lemma CutsAgree(fmt: string, k: nat, args: Args, n: nat, d: Spec, e: Spec, a: Cuts, b: Cuts)
    requires IsCut(fmt, k, args, n, d, a) && IsCut(fmt, k, args, n, e, b)
    ensures a == b
  {
    hide FlagsRead, WidthRead, PrecisionRead;
    FlagsEndOnce(fmt, k, a.w, b.w, d.flags, e.flags,
                 fmt[a.w..a.p] == "*" && args(n).word < 0, fmt[b.w..b.p] == "*" && args(n).word < 0);
    WidthOnce(fmt, a.w, a.p, b.p, d.width, e.width, args(n).word);
    PrecisionOnce(fmt, a.p, a.q, b.q, d.precision, e.precision, args(n + if fmt[a.w..a.p] == "*" then 1 else 0).word);
  }

  lemma CutSays(fmt: string, k: nat, args: Args, n: nat, d: Spec, e: Spec, a: Cuts)
    requires IsCut(fmt, k, args, n, d, a) && IsCut(fmt, k, args, n, e, a)
    ensures d == e
  {
    hide FlagsRead, WidthRead, PrecisionRead;
    var stars := if fmt[a.w..a.p] == "*" then 1 else 0;
    FlagsEndOnce(fmt, k, a.w, a.w, d.flags, e.flags, stars == 1 && args(n).word < 0, stars == 1 && args(n).word < 0);
    WidthOnce(fmt, a.w, a.p, a.p, d.width, e.width, args(n).word);
    PrecisionOnce(fmt, a.p, a.q, a.q, d.precision, e.precision, args(n + stars).word);
  }

  /** A directive says one thing. */
  lemma DirectiveIsUnique(fmt: string, k: nat, args: Args, n: nat, d: Spec, e: Spec)
    requires IsDirective(fmt, k, args, n, d) && IsDirective(fmt, k, args, n, e)
    ensures d == e
  {
    hide IsCut;
    var a :| IsCut(fmt, k, args, n, d, a);
    var b :| IsCut(fmt, k, args, n, e, b);
    CutsAgree(fmt, k, args, n, d, e, a, b);
    CutSays(fmt, k, args, n, d, e, a);
  }

  lemma AddressIsUnique(d: Spec, octets: Address, upper: bool, t: string, u: string)
    requires IsAddress(d, octets, upper, t) && IsAddress(d, octets, upper, u)
    ensures t == u
  {
    hide IsColons, IsDotted, IsPadded;
    if d.qualifier == 'l' {
      var x :| IsColons(x, octets, upper) && IsPadded(t, x, d.width, d.flags.left);
      var y :| IsColons(y, octets, upper) && IsPadded(u, y, d.width, d.flags.left);
      ColonsAreUnique(x, y, octets, upper);
      PaddedIsUnique(t, u, x, d.width, d.flags.left);
    } else {
      var x :| IsDotted(x, octets[..4]) && IsPadded(t, x, d.width, d.flags.left);
      var y :| IsDotted(y, octets[..4]) && IsPadded(u, y, d.width, d.flags.left);
      DottedAreUnique(x, y, octets[..4]);
      PaddedIsUnique(t, u, x, d.width, d.flags.left);
    }
  }

  /** And a conversion prints one text. */
  lemma ConversionIsUnique(d: Spec, c: char, a: Arg, flt: Flt, t: string, u: string)
    requires IsConversion(d, c, a, flt, t) && IsConversion(d, c, a, flt, u)
    ensures t == u
  {
    hide IsField, IsPadded, IsAddress;
    if c == 'c' {
      PaddedIsUnique(t, u, [(a.word % 256) as char], d.width, d.flags.left);
    } else if c == 's' {
      var s: string := if a.text.None? then "<NULL>" else a.text.value;
      PaddedIsUnique(t, u, if 0 <= d.precision < |s| then s[..d.precision] else s, d.width, d.flags.left);
    } else if c == 'a' || c == 'A' {
      AddressIsUnique(d, a.octets, c == 'A' || d.flags.uppercase, t, u);
    } else if c in "dioxXup" {
      FieldConversionIsUnique(d, c, a, flt, t, u);
    }
  }

  lemma FieldConversionIsUnique(d: Spec, c: char, a: Arg, flt: Flt, t: string, u: string)
    requires IsConversion(d, c, a, flt, t) && IsConversion(d, c, a, flt, u) && c in "dioxXup"
    ensures t == u
  {
    hide IsField, IsPadded, IsAddress;
    if c == 'p' && d.width == -1 {
      FieldIsUnique(t, u, a.word, 16, 8, d.precision, d.flags.(zeropad := true));
    } else {
      var base := if c in "di" || c == 'u' then 10 else if c == 'o' then 8 else 16;
      var f := if c in "di" then d.flags.(sign := true) else if c == 'X' then d.flags.(uppercase := true) else d.flags;
      FieldIsUnique(t, u, a.word, base, d.width, d.precision, f);
    }
  }

  /** The format and the arguments determine the output. */
  lemma {:induction false} OutputIsUnique(fmt: string, k: nat, args: Args, n: nat, flt: Flt, t: string, u: string)
    requires k <= |fmt| && IsOutput(fmt, k, args, n, flt, t) && IsOutput(fmt, k, args, n, flt, u)
    ensures t == u
    decreases |fmt| - k
  {
    hide IsDirective, IsConversion;
    if k == |fmt| {
    } else if fmt[k] != '%' {
      OutputIsUnique(fmt, k + 1, args, n, flt, t[1..], u[1..]);
      assert t == [t[0]] + t[1..] && u == [u[0]] + u[1..];
    } else {
      var d, i := FirstText(fmt, k, args, n, flt, t);
      var e, j := FirstText(fmt, k, args, n, flt, u);
      hide IsOutput;
      DirectiveIsUnique(fmt, k, args, n, d, e);
      ConversionIsUnique(d, At(fmt, d.pos), args(d.next), flt, t[..i], u[..j]);
      OutputIsUnique(fmt, Behind(fmt, d), args, ArgsAfter(fmt, d), flt, t[i..], u[j..]);
      assert t == t[..i] + t[i..] && u == u[..j] + u[j..];
    }
  }

  lemma FirstText(fmt: string, k: nat, args: Args, n: nat, flt: Flt, t: string) returns (d: Spec, m: nat)
    requires k < |fmt| && fmt[k] == '%' && IsOutput(fmt, k, args, n, flt, t)
    ensures IsDirective(fmt, k, args, n, d) && k < d.pos <= |fmt| && m <= |t|
    ensures IsConversion(d, At(fmt, d.pos), args(d.next), flt, t[..m])
    ensures IsOutput(fmt, Behind(fmt, d), args, ArgsAfter(fmt, d), flt, t[m..])
  {
    hide IsDirective, IsConversion;
    d, m :| IsDirective(fmt, k, args, n, d) && k < d.pos <= |fmt| && m <= |t|
      && IsConversion(d, At(fmt, d.pos), args(d.next), flt, t[..m])
      && IsOutput(fmt, if d.pos < |fmt| then d.pos + 1 else d.pos, args,
                  if At(fmt, d.pos) in "cspAaoXxdiuf" then d.next + 1 else d.next, flt, t[m..]);
  }

  // ----- what a format prints -----

  /** A format without a percent sign is copied. */
  lemma {:induction false} LiteralIsCopied(fmt: string, k: nat, args: Args, n: nat, flt: Flt)
    requires k <= |fmt| && '%' !in fmt[k..]
    ensures Output(fmt, k, args, n, flt) == fmt[k..]
    decreases |fmt| - k
  {
    hide Scan, Converted;
    if k < |fmt| {
      assert fmt[k..] == [fmt[k]] + fmt[k + 1..];
      LiteralIsCopied(fmt, k + 1, args, n, flt);
    }
  }

  /** A directive that the format's end cuts short prints one percent sign and ends the output. */
  lemma CutShortPrintsPercent(fmt: string, k: nat, args: Args, n: nat, flt: Flt)
    requires k < |fmt| && fmt[k] == '%' && Scan(fmt, k, args, n).pos == |fmt|
    ensures Output(fmt, k, args, n, flt) == "%"
  {
    hide Scan, Converted;
    CutShort(Scan(fmt, k, args, n), args(Scan(fmt, k, args, n).next), flt);
  }

  lemma JustifiedLength(text: string, width: int, left: bool)
    ensures |Justified(text, width, left)| == Max(width, |text|)
  {
  }

  /** What a conversion prints when no width is asked for. */
  function Unpadded(d: Spec, c: char, a: Arg, flt: Flt): string {
    Converted(d.(width := 0), c, a, flt)
  }

  /** Every conversion but the float pads its text to the width and never cuts it: the field is as long
      as the longer of the two. */
  lemma WidthIsMet(d: Spec, c: char, a: Arg, flt: Flt)
    requires c in "csAaoXxdiu" || (c == 'p' && d.width != -1)
    ensures |Converted(d, c, a, flt)| == Max(d.width, |Unpadded(d, c, a, flt)|)
  {
    hide Justified, Formatted, Shortened, Colons, Dotted, DigitText, Sign, Prefix, Magnitude, Digit;
    match c
    case 'c' => BothLengths([CharOf(a.word)], d.width, d.flags.left);
    case 's' => BothLengths(Shortened(StringText(a), d.precision), d.width, d.flags.left);
    case 'A' => AddressLengths(d, a, d.flags.(uppercase := true));
    case 'a' => AddressLengths(d, a, d.flags);
    case 'p' => NumberLengths(d, a, 16, d.flags);
    case 'o' => NumberLengths(d, a, 8, d.flags);
    case 'X' => NumberLengths(d, a, 16, d.flags.(uppercase := true));
    case 'x' => NumberLengths(d, a, 16, d.flags);
    case 'd' => NumberLengths(d, a, 10, d.flags.(sign := true));
    case 'i' => NumberLengths(d, a, 10, d.flags.(sign := true));
    case _ => NumberLengths(d, a, 10, d.flags);
  }

  lemma BothLengths(text: string, width: int, left: bool)
    ensures |Justified(text, width, left)| == Max(width, |Justified(text, 0, left)|)
  {
    hide Justified;
    JustifiedLength(text, width, left);
    JustifiedLength(text, 0, left);
  }

  lemma AddressLengths(d: Spec, a: Arg, f: Flags)
    ensures |AddressText(d, a, f)| == Max(d.width, |AddressText(d.(width := 0), a, f)|)
  {
    hide Justified, Colons, Dotted;
    BothLengths(Colons(a.octets, f.uppercase), d.width, f.left);
    BothLengths(Dotted(a.octets[..4]), d.width, f.left);
  }

  lemma NumberLengths(d: Spec, a: Arg, base: nat, f: Flags)
    requires 2 <= base <= 36
    ensures |Formatted(a.word, base, d.width, d.precision, f)| == Max(d.width, |Formatted(a.word, base, 0, d.precision, f)|)
  {
    hide Formatted, DigitText, Sign, Prefix, Magnitude;
    FieldLength(a.word, base, d.width, d.precision, f);
    FieldLength(a.word, base, 0, d.precision, f);
  }

  /** No directive from k on is cut short by the end of the format. */
  predicate Complete(fmt: string, k: nat, args: Args, n: nat)
    requires k <= |fmt|
    decreases |fmt| - k
  {
    if k == |fmt| then true
    else if fmt[k] != '%' then Complete(fmt, k + 1, args, n)
    else
      var d := Scan(fmt, k, args, n);
      d.pos < |fmt| && Complete(fmt, d.pos + 1, args, ArgsAfter(fmt, d))
  }

  /** How many arguments have been taken at the end of the format. */
  function ArgsUsed(fmt: string, k: nat, args: Args, n: nat): nat
    requires k <= |fmt|
    decreases |fmt| - k
  {
    if k == |fmt| then n
    else if fmt[k] != '%' then ArgsUsed(fmt, k + 1, args, n)
    else
      var d := Scan(fmt, k, args, n);
      ArgsUsed(fmt, Behind(fmt, d), args, ArgsAfter(fmt, d))
  }

  // A scan that ends inside a does not look at what follows a.

  lemma {:induction false} DigitsEndLocal(a: string, b: string, k: nat)
    requires k <= |a| && DigitsEnd(a, k) < |a|
    ensures DigitsEnd(a + b, k) == DigitsEnd(a, k) && Parsed(a + b, k) == Parsed(a, k)
  {
    DigitsEndAt(a + b, k, DigitsEnd(a, k));
    assert (a + b)[k..DigitsEnd(a, k)] == a[k..DigitsEnd(a, k)];
  }

  lemma {:induction false} ScanFlagsLocal(a: string, b: string, k: nat, f: Flags)
    requires k <= |a| && ScanFlags(a, k, f).1 < |a|
    ensures ScanFlags(a + b, k, f) == ScanFlags(a, k, f)
    decreases |a| - k
  {
    match At(a, k)
    case '-' => ScanFlagsLocal(a, b, k + 1, f.(left := true));
    case '+' => ScanFlagsLocal(a, b, k + 1, f.(plus := true));
    case ' ' => ScanFlagsLocal(a, b, k + 1, f.(space := true));
    case '#' => ScanFlagsLocal(a, b, k + 1, f.(hexPrep := true));
    case '0' => ScanFlagsLocal(a, b, k + 1, f.(zeropad := true));
    case _ =>
  }

  lemma ScanWidthLocal(a: string, b: string, d: Spec, args: Args)
    requires d.pos <= |a| && ScanWidth(a, d, args).pos < |a|
    ensures ScanWidth(a + b, d, args) == ScanWidth(a, d, args)
  {
    hide Parsed;
    if IsDigit(At(a, d.pos)) {
      DigitsEndLocal(a, b, d.pos);
    }
  }

  lemma ScanPrecisionLocal(a: string, b: string, d: Spec, args: Args)
    requires d.pos <= |a| && d.precision == -1 && ScanPrecision(a, d, args).pos < |a|
    ensures ScanPrecision(a + b, d, args) == ScanPrecision(a, d, args)
  {
    hide Parsed;
    if At(a, d.pos) == '.' && IsDigit(At(a, d.pos + 1)) {
      DigitsEndLocal(a, b, d.pos + 1);
    }
  }

  lemma ScanLocal(a: string, b: string, k: nat, args: Args, n: nat)
    requires k < |a| && Scan(a, k, args, n).pos < |a|
    ensures Scan(a + b, k, args, n) == Scan(a, k, args, n)
  {
    hide ScanFlags, ScanWidth, ScanPrecision;
    var (f, e) := ScanFlags(a, k + 1, NO_FLAGS);
    var d := Spec(f, -1, -1, ' ', e, n);
    ScanFlagsLocal(a, b, k + 1, NO_FLAGS);
    ScanWidthLocal(a, b, d, args);
    ScanPrecisionLocal(a, b, ScanWidth(a, d, args), args);
  }

  // A scan does not look at what stands in front.

  lemma {:induction false} DigitsEndShift(a: string, b: string, k: nat)
    requires k <= |b|
    ensures DigitsEnd(a + b, |a| + k) == |a| + DigitsEnd(b, k) && Parsed(a + b, |a| + k) == Parsed(b, k)
  {
    DigitsEndAt(a + b, |a| + k, |a| + DigitsEnd(b, k));
    assert (a + b)[|a| + k..|a| + DigitsEnd(b, k)] == b[k..DigitsEnd(b, k)];
  }

  lemma {:induction false} ScanFlagsShift(a: string, b: string, k: nat, f: Flags)
    requires k <= |b|
    ensures ScanFlags(a + b, |a| + k, f) == (ScanFlags(b, k, f).0, |a| + ScanFlags(b, k, f).1)
    decreases |b| - k
  {
    match At(b, k)
    case '-' => ScanFlagsShift(a, b, k + 1, f.(left := true));
    case '+' => ScanFlagsShift(a, b, k + 1, f.(plus := true));
    case ' ' => ScanFlagsShift(a, b, k + 1, f.(space := true));
    case '#' => ScanFlagsShift(a, b, k + 1, f.(hexPrep := true));
    case '0' => ScanFlagsShift(a, b, k + 1, f.(zeropad := true));
    case _ =>
  }

  function Moved(d: Spec, step: nat): Spec {
    d.(pos := step + d.pos)
  }

  lemma ScanWidthShift(a: string, b: string, d: Spec, args: Args)
    requires d.pos <= |b|
    ensures ScanWidth(a + b, Moved(d, |a|), args) == Moved(ScanWidth(b, d, args), |a|)
  {
    hide Parsed;
    DigitsEndShift(a, b, d.pos);
  }

  lemma ScanPrecisionShift(a: string, b: string, d: Spec, args: Args)
    requires d.pos <= |b| && d.precision == -1
    ensures ScanPrecision(a + b, Moved(d, |a|), args) == Moved(ScanPrecision(b, d, args), |a|)
  {
    hide Parsed;
    if d.pos < |b| {
      DigitsEndShift(a, b, d.pos + 1);
    }
  }

  lemma ScanShift(a: string, b: string, k: nat, args: Args, n: nat)
    requires k < |b|
    ensures Scan(a + b, |a| + k, args, n) == Moved(Scan(b, k, args, n), |a|)
  {
    hide ScanFlags, ScanWidth, ScanPrecision;
    var (f, e) := ScanFlags(b, k + 1, NO_FLAGS);
    var d := Spec(f, -1, -1, ' ', e, n);
    ScanFlagsShift(a, b, k + 1, NO_FLAGS);
    ScanWidthShift(a, b, d, args);
    ScanPrecisionShift(a, b, ScanWidth(b, d, args), args);
  }

  lemma ConvertedMoved(d: Spec, step: nat, c: char, a: Arg, flt: Flt)
    ensures Converted(Moved(d, step), c, a, flt) == Converted(d, c, a, flt)
  {
    hide Justified, Formatted, Shortened, Colons, Dotted;
  }

  lemma OutputAtPercent(fmt: string, k: nat, args: Args, n: nat, flt: Flt)
    requires k < |fmt| && fmt[k] == '%'
    ensures var d := Scan(fmt, k, args, n);
      Output(fmt, k, args, n, flt)
      == Converted(d, At(fmt, d.pos), args(d.next), flt) + Output(fmt, Behind(fmt, d), args, ArgsAfter(fmt, d), flt)
  {
    hide Scan, Converted;
  }

  lemma OutputAtOther(fmt: string, k: nat, args: Args, n: nat, flt: Flt)
    requires k < |fmt| && fmt[k] != '%'
    ensures Output(fmt, k, args, n, flt) == [fmt[k]] + Output(fmt, k + 1, args, n, flt)
  {
    hide Scan, Converted;
  }

  lemma OutputAtEnd(fmt: string, args: Args, n: nat, flt: Flt)
    ensures Output(fmt, |fmt|, args, n, flt) == ""
  {
    hide Scan, Converted;
  }

  /** Behind a directive everything stands as many places further as the directive itself. */
  lemma MovedAgrees(a: string, b: string, d: Spec)
    requires d.pos <= |b|
    ensures At(a + b, Moved(d, |a|).pos) == At(b, d.pos) && Moved(d, |a|).next == d.next
    ensures Behind(a + b, Moved(d, |a|)) == |a| + Behind(b, d)
    ensures ArgsAfter(a + b, Moved(d, |a|)) == ArgsAfter(b, d)
  {
    hide TakesArgument;
  }

  lemma {:induction false} OutputShift(a: string, b: string, k: nat, args: Args, n: nat, flt: Flt)
    requires k <= |b|
    ensures Output(a + b, |a| + k, args, n, flt) == Output(b, k, args, n, flt)
    decreases |b| - k
  {
    hide Scan, Converted, Output, At, Behind, ArgsAfter, Moved;
    if k == |b| {
      OutputAtEnd(b, args, n, flt);
      OutputAtEnd(a + b, args, n, flt);
    } else if b[k] != '%' {
      OutputAtOther(b, k, args, n, flt);
      OutputAtOther(a + b, |a| + k, args, n, flt);
      OutputShift(a, b, k + 1, args, n, flt);
    } else {
      var d := Scan(b, k, args, n);
      OutputAtPercent(b, k, args, n, flt);
      OutputAtPercent(a + b, |a| + k, args, n, flt);
      ScanShift(a, b, k, args, n);
      MovedAgrees(a, b, d);
      ConvertedMoved(d, |a|, At(b, d.pos), args(d.next), flt);
      OutputShift(a, b, Behind(b, d), args, ArgsAfter(b, d), flt);
    }
  }

  lemma {:induction false} OutputPrefix(a: string, b: string, k: nat, args: Args, n: nat, flt: Flt)
    requires k <= |a| && Complete(a, k, args, n)
    ensures Output(a + b, k, args, n, flt) ==
      Output(a, k, args, n, flt) + Output(a + b, |a|, args, ArgsUsed(a, k, args, n), flt)
    decreases |a| - k
  {
    hide Scan, Converted;
    if k == |a| {
    } else if a[k] != '%' {
      OutputPrefix(a, b, k + 1, args, n, flt);
    } else {
      var d := Scan(a, k, args, n);
      ScanLocal(a, b, k, args, n);
      OutputPrefix(a, b, d.pos + 1, args, ArgsAfter(a, d), flt);
    }
  }

  /** Two formats one behind the other print what they print by themselves, the second one going on
      with the arguments the first one left, unless the first one ends inside a directive. */
  lemma OutputAppend(a: string, b: string, args: Args, flt: Flt)
    requires Complete(a, 0, args, 0)
    ensures Output(a + b, 0, args, 0, flt) == Output(a, 0, args, 0, flt) + Output(b, 0, args, ArgsUsed(a, 0, args, 0), flt)
  {
    hide Scan, Converted, Output;
    OutputPrefix(a, b, 0, args, 0, flt);
    OutputShift(a, b, 0, args, ArgsUsed(a, 0, args, 0), flt);
  }

  /** "%d" prints a number that the parser reads back. */
  lemma DecimalReadsBack(args: Args, flt: Flt)
    requires args(0).word >= 0
    ensures var text := Output("%d", 0, args, 0, flt);
      DigitsEnd(text, 0) == |text| && Wrap(Value(Read(text), 10)) == args(0).word
  {
    var f := NO_FLAGS.(sign := true);
    var d := Spec(NO_FLAGS, -1, -1, ' ', 1, 0);
    var n := args(0).word;
    PercentD(args);
    hide Scan, Formatted, DigitsEnd, Read, Value, Wrap, Body;
    var text := Formatted(n, 10, -1, -1, f);
    assert Output("%d", 2, args, 1, flt) == "";
    assert Output("%d", 0, args, 0, flt) == text + "";
    PrintThenParse(n, -1, -1, f, "");
    assert text + "" == text && text[0..|text|] == text;
  }

  lemma PercentD(args: Args)
    ensures Scan("%d", 0, args, 0) == Spec(NO_FLAGS, -1, -1, ' ', 1, 0)
  {
    assert ScanFlags("%d", 1, NO_FLAGS) == (NO_FLAGS, 1);
  }
}
