/** The Dhrystone 2.1 loop: what its variables hold after any number of runs. */
module Dhrystone {

  datatype Enumeration = Ident1 | Ident2 | Ident3 | Ident4 | Ident5

  /** A record with its first variant, the only one the program uses. */
  class Record {
    var ptrComp: Record?
    var discr: Enumeration
    var enumComp: Enumeration
    var intComp: int
    var strComp: string

    /** What malloc returns: the fields hold anything. */
    constructor ()
    {
      discr, enumComp, intComp, strComp := *, *, *, *;
    }
  }

  const PROGRAM := "DHRYSTONE PROGRAM, "
  const SOME_STRING := PROGRAM + "SOME STRING"
  const FIRST_STRING := PROGRAM + "1'ST STRING"
  const SECOND_STRING := PROGRAM + "2'ND STRING"
  const THIRD_STRING := PROGRAM + "3'RD STRING"

  /** strcmp(s, t) > 0, for strings without a terminator inside */
  predicate Greater(s: string, t: string) {
    s != [] && (t == [] || s[0] > t[0] || (s[0] == t[0] && Greater(s[1..], t[1..])))
  }

  /** s and t agree in front of i, where s has the greater character. */
  predicate ExceedsAt(s: string, t: string, i: nat) {
    i < |s| && i < |t| && s[..i] == t[..i] && s[i] > t[i]
  }

  lemma ExceedsBehind(c: char, s: string, t: string, i: nat)
    ensures ExceedsAt([c] + s, [c] + t, i + 1) <==> ExceedsAt(s, t, i)
  {
    if i < |s| && i < |t| {
      assert ([c] + s)[..i + 1] == [c] + s[..i] && ([c] + t)[..i + 1] == [c] + t[..i];
      assert s[..i] == ([c] + s[..i])[1..] && t[..i] == ([c] + t[..i])[1..];
    }
  }

  /** The first place where the two differ decides, the end of a string being less than any character. */
  lemma {:induction false} GreaterIff(s: string, t: string)
    ensures Greater(s, t) <==> (|t| < |s| && t <= s) || exists i: nat :: ExceedsAt(s, t, i)
  {
    if s != [] && t != [] && s[0] == t[0] {
      var c, s', t' := s[0], s[1..], t[1..];
      assert s == [c] + s' && t == [c] + t';
      GreaterIff(s', t');
      assert t <= s <==> t' <= s' by {
        assert |t'| <= |s'| ==> s[..|t|] == [c] + s'[..|t'|];
      }
      forall i: nat ensures ExceedsAt(s, t, i + 1) <==> ExceedsAt(s', t', i) {
        ExceedsBehind(c, s', t', i);
      }
      assert forall i: nat :: ExceedsAt(s, t, i) ==> i > 0 && ExceedsAt(s', t', i - 1);
    } else if s != [] && t != [] && s[0] > t[0] {
      assert ExceedsAt(s, t, 0);
    } else if s != [] && t != [] {
      assert forall i: nat :: !ExceedsAt(s, t, i) by {
        forall i: nat ensures !ExceedsAt(s, t, i) {
          assert i > 0 && i <= |s| && i <= |t| ==> s[..i][0] == s[0] && t[..i][0] == t[0];
        }
      }
    }
  }

  /** A common beginning does not matter. */
  lemma {:induction false} GreaterBehind(p: string, s: string, t: string)
    ensures Greater(p + s, p + t) == Greater(s, t)
  {
    if p == [] {
      assert p + s == s && p + t == t;
    } else {
      assert (p + s)[1..] == p[1..] + s && (p + t)[1..] == p[1..] + t;
      GreaterBehind(p[1..], s, t);
    }
  }

  lemma FirstBeforeSecond()
    ensures !Greater(FIRST_STRING, SECOND_STRING) && FIRST_STRING[2] != SECOND_STRING[3]
  {
    GreaterBehind(PROGRAM, "1'ST STRING", "2'ND STRING");
    assert PROGRAM[2] == 'R' && PROGRAM[3] == 'Y';
  }

  function Func3(e: Enumeration): bool {
    e == Ident3
  }

  /** What Proc_6 makes of its argument. */
  function Sixth(val: Enumeration, intGlob: int): Enumeration {
    match val
    case Ident1 => Ident1
    case Ident2 => if intGlob > 100 then Ident1 else Ident4
    case Ident3 => Ident2
    case Ident4 => Ident4
    case Ident5 => Ident3
  }

  method Proc7(int1: int, int2: int) returns (r: int)
    ensures r == int1 + int2 + 2
  {
    var intLoc := int1 + 2;
    r := int2 + intLoc;
  }

  /** The global variables. By-reference results come back as out-parameters. */
  class Globals {
    var ptrGlob: Record
    var nextPtrGlob: Record
    var intGlob: int
    var boolGlob: bool
    var ch1Glob: char
    var ch2Glob: char
    const arr1Glob: array<int>
    const arr2Glob: array2<int>

    constructor ()
      ensures fresh(ptrGlob) && fresh(nextPtrGlob) && ptrGlob != nextPtrGlob && fresh(arr1Glob) && fresh(arr2Glob)
      ensures arr1Glob.Length == 50 && arr2Glob.Length0 == arr2Glob.Length1 == 50
      ensures forall i :: 0 <= i < 50 ==> arr1Glob[i] == 0
      ensures forall i, j :: 0 <= i < 50 && 0 <= j < 50 ==> arr2Glob[i, j] == 0
    {
      intGlob, boolGlob, ch1Glob, ch2Glob := 0, false, '\0', '\0';
      arr1Glob := new int[50](_ => 0);
      arr2Glob := new int[50, 50]((_, _) => 0);
      var next := new Record();
      var ptr := new Record();
      nextPtrGlob := next;
      ptrGlob := ptr;
    }

    method Proc5()
      modifies `ch1Glob, `boolGlob
      ensures ch1Glob == 'A' && !boolGlob
    {
      ch1Glob := 'A';
      boolGlob := false;
    }

    method Proc4()
      modifies `ch2Glob, `boolGlob
      ensures boolGlob == (ch1Glob == 'A' || old(boolGlob)) && ch2Glob == 'B'
    {
      var boolLoc := ch1Glob == 'A';
      boolGlob := boolLoc || boolGlob;
      ch2Glob := 'B';
    }

    /** Equal letters are remembered in the first global one. */
    method Func1(ch1: char, ch2: char) returns (e: Enumeration)
      modifies `ch1Glob
      ensures e == (if ch1 != ch2 then Ident1 else Ident2)
      ensures ch1Glob == if ch1 != ch2 then old(ch1Glob) else ch1
    {
      var ch1Loc := ch1;
      var ch2Loc := ch1Loc;
      if ch2Loc != ch2 {
        return Ident1;
      } else {
        ch1Glob := ch1Loc;
        return Ident2;
      }
    }

    /** Its loop ends only when the two letters it compares differ. */
    method Func2(str1: string, str2: string) returns (r: bool)
      requires |str1| > 2 && |str2| > 3 && str1[2] != str2[3]
      modifies `ch1Glob, `intGlob
      ensures ch1Glob == old(ch1Glob) && r == Greater(str1, str2)
      ensures intGlob == if r then 10 else old(intGlob)
    {
      var intLoc := 2;
      var chLoc: char := *;
      while intLoc <= 2
        invariant 2 <= intLoc <= 3 && ch1Glob == old(ch1Glob) && intGlob == old(intGlob)
        invariant intLoc == 3 ==> chLoc == 'A'
      {
        var e := Func1(str1[intLoc], str2[intLoc + 1]);
        if e == Ident1 {
          chLoc := 'A';
          intLoc := intLoc + 1;
        }
      }
      if 'W' <= chLoc < 'Z' {
        intLoc := 7;
      }
      if chLoc == 'R' {
        return true;
      } else {
        if Greater(str1, str2) {
          intLoc := intLoc + 7;
          intGlob := intLoc;
          return true;
        } else {
          return false;
        }
      }
    }

    method Proc6(val: Enumeration, ref: Enumeration) returns (r: Enumeration)
      ensures r == Sixth(val, intGlob)
      ensures r == Ident1 <==> val == Ident1 || (val == Ident2 && intGlob > 100)
      ensures r == Ident2 <==> val == Ident3
      ensures r == Ident3 <==> val == Ident5
      ensures r == Ident4 <==> val == Ident4 || (val == Ident2 && intGlob <= 100)
    {
      r := val;
      if !Func3(val) {
        r := Ident4;
      }
      match val {
        case Ident1 => r := Ident1;
        case Ident2 => r := if intGlob > 100 then Ident1 else Ident4;
        case Ident3 => r := Ident2;
        case Ident4 =>
        case Ident5 => r := Ident3;
      }
    }

    /** A row of the first array, a corner of the second, and the counter in [8][7]. */
    method Proc8(int1: int, int2: int)
      requires arr1Glob.Length == 50 && arr2Glob.Length0 == arr2Glob.Length1 == 50
      requires -4 <= int1 && int1 + 5 + 30 < 50
      modifies arr1Glob, arr2Glob, `intGlob
      ensures intGlob == 5
      ensures arr1Glob[int1 + 5] == arr1Glob[int1 + 6] == int2 && arr1Glob[int1 + 35] == int1 + 5
      ensures forall i :: 0 <= i < 50 && i != int1 + 5 && i != int1 + 6 && i != int1 + 35 ==> arr1Glob[i] == old(arr1Glob[i])
      ensures arr2Glob[int1 + 5, int1 + 5] == arr2Glob[int1 + 5, int1 + 6] == int1 + 5
      ensures arr2Glob[int1 + 5, int1 + 4] == old(arr2Glob[int1 + 5, int1 + 4]) + 1
      ensures arr2Glob[int1 + 25, int1 + 5] == int2
      ensures forall i, j ::
        (0 <= i < 50 && 0 <= j < 50
         && !(i == int1 + 5 && int1 + 4 <= j <= int1 + 6) && !(i == int1 + 25 && j == int1 + 5)) ==>
        arr2Glob[i, j] == old(arr2Glob[i, j])
    {
      var intLoc := int1 + 5;
      arr1Glob[intLoc] := int2;
      arr1Glob[intLoc + 1] := arr1Glob[intLoc];
      arr1Glob[intLoc + 30] := intLoc;
      var intIndex := intLoc;
      while intIndex <= intLoc + 1
        invariant intLoc <= intIndex <= intLoc + 2
        invariant arr1Glob[intLoc] == arr1Glob[intLoc + 1] == int2 && arr1Glob[intLoc + 30] == intLoc
        invariant forall i :: 0 <= i < 50 && i != intLoc && i != intLoc + 1 && i != intLoc + 30 ==>
          arr1Glob[i] == old(arr1Glob[i])
        invariant forall i, j :: 0 <= i < 50 && 0 <= j < 50 ==>
          arr2Glob[i, j] == (if i == intLoc && intLoc <= j < intIndex then intLoc else old(arr2Glob[i, j]))
      {
        arr2Glob[intLoc, intIndex] := intLoc;
        intIndex := intIndex + 1;
      }
      arr2Glob[intLoc, intLoc - 1] := arr2Glob[intLoc, intLoc - 1] + 1;
      arr2Glob[intLoc + 20, intLoc] := arr1Glob[intLoc];
      intGlob := 5;
    }

    /** *ref becomes the next record of the global one; the global record's number is overwritten. */
    method Proc3() returns (ref: Record?)
      modifies ptrGlob`intComp
      ensures ref == ptrGlob.ptrComp && ptrGlob.intComp == intGlob + 12
    {
      ref := ptrGlob.ptrComp;
      var r := Proc7(10, intGlob);
      ptrGlob.intComp := r;
    }

    /** The two records point at the second one and hold the same text. */
    ghost predicate Linked()
      reads this, ptrGlob
    {
      ptrGlob != nextPtrGlob && ptrGlob.ptrComp == nextPtrGlob && ptrGlob.discr == Ident1
      && ptrGlob.enumComp == Ident3 && ptrGlob.strComp == SOME_STRING
    }

    /** Proc_1, however the record, its successor and the global record coincide. The successor becomes a
        copy of the global record but for its last fields; when the global record is of another kind, the
        record in turn becomes a copy of the one it then points at. */
    method Proc1(par: Record)
      requires par.ptrComp != null
      requires par.ptrComp == par != ptrGlob && ptrGlob.discr != Ident1 ==> ptrGlob.ptrComp != null
      modifies par, par.ptrComp, ptrGlob
      ensures var next, g, p, number := old(par.ptrComp), old(Val(ptrGlob)), old(Val(par)), intGlob + 12;
        var copied := if next == ptrGlob then g.(ptrComp := ptrGlob) else g;
        if g.discr == Ident1 then
          && Val(next) ==
             copied.(enumComp := Sixth(if par == next then g.enumComp else p.enumComp, intGlob), intComp := 18)
          && (par != next && par != ptrGlob ==> Val(par) == p.(intComp := 5))
          && (ptrGlob != next ==> Val(ptrGlob) == g.(intComp := number))
        else if par != next then
          && Val(next) == copied.(intComp := if next == ptrGlob then number else 5) && Val(par) == Val(next)
          && (ptrGlob != next && ptrGlob != par ==> Val(ptrGlob) == g.(intComp := number))
        else
          && Val(ptrGlob) == g.(intComp := number)
          && (par != ptrGlob ==>
              Val(par) == if g.ptrComp == par then g.(intComp := 5) else if g.ptrComp == ptrGlob then Val(ptrGlob)
                          else old(Val(g.ptrComp)))
    {
      var nextRecord: Record := par.ptrComp;
      CopyRecord(nextRecord, ptrGlob);
      par.intComp := 5;
      nextRecord.intComp := par.intComp;
      nextRecord.ptrComp := par.ptrComp;
      var ref := Proc3();
      nextRecord.ptrComp := ref;
      if nextRecord.discr == Ident1 {
        nextRecord.intComp := 6;
        var e := Proc6(par.enumComp, nextRecord.enumComp);
        nextRecord.enumComp := e;
        nextRecord.ptrComp := ptrGlob.ptrComp;
        var r := Proc7(nextRecord.intComp, 10);
        nextRecord.intComp := r;
      } else {
        CopyRecord(par, par.ptrComp);
      }
    }

    /** Its loop ends because the first global letter is an A; the result is nine more, less Int_Glob. */
    method Proc2(par: int) returns (r: int)
      requires ch1Glob == 'A'
      ensures r == par + 9 - intGlob
    {
      r := par;
      var intLoc := par + 10;
      var enumLoc: Enumeration := *;
      var again := true;
      while again
        invariant again ==> intLoc == par + 10
        invariant !again ==> r == par + 9 - intGlob
        decreases again
      {
        if ch1Glob == 'A' {
          intLoc := intLoc - 1;
          r := intLoc - intGlob;
          enumLoc := Ident1;
        }
        again := enumLoc != Ident1;
      }
    }
  }

  /** What a record holds. */
  datatype Fields = Fields(ptrComp: Record?, discr: Enumeration, enumComp: Enumeration, intComp: int, strComp: string)

  ghost function Val(r: Record?): Fields
    requires r != null
    reads r
  {
    Fields(r.ptrComp, r.discr, r.enumComp, r.intComp, r.strComp)
  }

  /** structassign(d, s) */
  method CopyRecord(d: Record, s: Record)
    modifies d
    ensures Val(d) == old(Val(s))
  {
    d.ptrComp, d.discr, d.enumComp, d.intComp, d.strComp := s.ptrComp, s.discr, s.enumComp, s.intComp, s.strComp;
  }

  /** The local variables of the main program. */
  datatype Locals = Locals(int1: int, int2: int, int3: int, enum_: Enumeration, str1: string, str2: string)

  /** What the program prints as "should be" after its last run. */
  const SHOULD_BE := Locals(5, 13, 7, Ident2, FIRST_STRING, SECOND_STRING)

  ghost predicate Shaped(g: Globals)
    reads g
  {
    g.arr1Glob.Length == 50 && g.arr2Glob.Length0 == g.arr2Glob.Length1 == 50
  }

  predicate Settled(i: int, j: int) {
    (i == 8 && 8 <= j <= 9) || (i == 28 && j == 8)
  }

  /** The arrays after k runs, every cell of them. */
  ghost predicate Arrays(g: Globals, k: nat)
    requires Shaped(g)
    reads g, g.arr1Glob, g.arr2Glob
  {
    && (forall i :: 0 <= i < 50 && (k == 0 || (i != 8 && i != 9 && i != 38)) ==> g.arr1Glob[i] == 0)
    && (k > 0 ==> g.arr1Glob[8] == g.arr1Glob[9] == 7 && g.arr1Glob[38] == 8)
    && g.arr2Glob[8, 7] == 10 + k
    && (k > 0 ==> g.arr2Glob[8, 8] == g.arr2Glob[8, 9] == 8 && g.arr2Glob[28, 8] == 7)
    && (forall i, j ::
          0 <= i < 50 && 0 <= j < 50 && !(i == 8 && j == 7) && (k == 0 || !Settled(i, j)) ==> g.arr2Glob[i, j] == 0)
  }

  /** The global variables after k runs. */
  ghost predicate After(g: Globals, k: nat)
    reads g, g.ptrGlob, g.nextPtrGlob, g.arr1Glob, g.arr2Glob
  {
    && Shaped(g) && g.Linked() && Arrays(g, k)
    && (k > 0 ==>
        && g.intGlob == 5 && g.boolGlob && g.ch1Glob == 'A' && g.ch2Glob == 'B'
        && g.ptrGlob.intComp == 17
        && g.nextPtrGlob.ptrComp == g.nextPtrGlob && g.nextPtrGlob.discr == Ident1
        && g.nextPtrGlob.enumComp == Ident2 && g.nextPtrGlob.intComp == 18 && g.nextPtrGlob.strComp == SOME_STRING)
  }

  /** The first loop of a run: three becomes the first number, seven the third. */
  method FirstLoop(a: int, b: int, c: int) returns (int1: int, int3: int)
    requires a < b
    ensures int1 == b && int3 == b + (b - 1) + 2
  {
    int1, int3 := a, c;
    while int1 < b
      invariant a <= int1 <= b && (int1 > a ==> int3 == b + (int1 - 1) + 2)
    {
      int3 := 5 * int1 - b;
      int3 := Proc7(int1, b);
      int1 := int1 + 1;
    }
  }

  /** The second loop of a run: neither letter is a C, so nothing is changed. */
  method SecondLoop(g: Globals, runIndex: int, l: Locals) returns (l': Locals)
    requires g.ch2Glob == 'B' && l.enum_ == Ident2
    modifies g`ch1Glob, g`intGlob
    ensures l' == l && g.ch1Glob == old(g.ch1Glob) && g.intGlob == old(g.intGlob)
  {
    l' := l;
    var chIndex := 'A';
    while chIndex <= g.ch2Glob
      invariant 'A' <= chIndex <= 'C' && l' == l && g.ch1Glob == old(g.ch1Glob) && g.intGlob == old(g.intGlob)
      decreases 'C' as int - chIndex as int
    {
      var e := g.Func1(chIndex, 'C');
      if l'.enum_ == e {
        var e' := g.Proc6(Ident1, l'.enum_);
        l' := l'.(enum_ := e', str2 := THIRD_STRING, int2 := runIndex);
        g.intGlob := runIndex;
      }
      chIndex := (chIndex as int + 1) as char;
    }
  }

  /** The loop body up to the arrays: the letters, the strings and the first three numbers are set. */
  method ArraysOnce(g: Globals, l0: Locals, ghost k: nat) returns (l: Locals)
    requires After(g, k) && l0.str1 == FIRST_STRING
    modifies g, g.arr1Glob, g.arr2Glob
    ensures l == Locals(3, 3, 7, Ident2, FIRST_STRING, SECOND_STRING)
    ensures g.ptrGlob == old(g.ptrGlob) && g.nextPtrGlob == old(g.nextPtrGlob)
    ensures Shaped(g) && Arrays(g, k + 1)
    ensures g.intGlob == 5 && g.boolGlob && g.ch1Glob == 'A' && g.ch2Glob == 'B'
  {
    g.Proc5();
    g.Proc4();
    FirstBeforeSecond();
    l := l0.(int1 := 2, int2 := 3, str2 := SECOND_STRING, enum_ := Ident2);
    var r := g.Func2(l.str1, l.str2);
    g.boolGlob := !r;
    var int1, int3 := FirstLoop(l.int1, l.int2, l.int3);
    l := l.(int1 := int1, int3 := int3);
    g.Proc8(l.int1, l.int3);
  }

  /** One run through the loop body. */
  method OneRun(g: Globals, runIndex: int, l0: Locals, ghost k: nat) returns (l: Locals)
    requires After(g, k) && l0.str1 == FIRST_STRING
    modifies g, g.ptrGlob, g.nextPtrGlob, g.arr1Glob, g.arr2Glob
    ensures After(g, k + 1) && l == SHOULD_BE
    ensures g.ptrGlob == old(g.ptrGlob) && g.nextPtrGlob == old(g.nextPtrGlob)
  {
    l := ArraysOnce(g, l0, k);
    g.Proc1(g.ptrGlob);
    l := SecondLoop(g, runIndex, l);
    l := l.(int2 := l.int2 * l.int1);
    assert l.int2 == 9;
    l := l.(int1 := l.int2 / l.int3);
    l := l.(int2 := 7 * (l.int2 - l.int3) - l.int1);
    var p := g.Proc2(l.int1);
    l := l.(int1 := p);
  }

  /** The main program for n runs: every variable ends as the program says it should. */
  method Dhrystones(n: int) returns (g: Globals, l: Locals)
    requires 1 <= n && n + 10 < 0x8000_0000
    ensures After(g, n) && l == Locals(5, 13, 7, Ident2, "DHRYSTONE PROGRAM, 1'ST STRING", "DHRYSTONE PROGRAM, 2'ND STRING")
    ensures g.intGlob == 5 && g.boolGlob && g.ch1Glob == 'A' && g.ch2Glob == 'B'
    ensures g.ptrGlob != g.nextPtrGlob
    ensures Val(g.ptrGlob) == Fields(g.nextPtrGlob, Ident1, Ident3, 17, "DHRYSTONE PROGRAM, SOME STRING")
    ensures Val(g.nextPtrGlob) == Fields(g.nextPtrGlob, Ident1, Ident2, 18, "DHRYSTONE PROGRAM, SOME STRING")
    ensures g.arr1Glob.Length == 50 && g.arr1Glob[8] == g.arr1Glob[9] == 7 && g.arr1Glob[38] == 8
    ensures forall i :: 0 <= i < 50 && i != 8 && i != 9 && i != 38 ==> g.arr1Glob[i] == 0
    ensures g.arr2Glob.Length0 == g.arr2Glob.Length1 == 50 && g.arr2Glob[8, 7] == n + 10
    ensures g.arr2Glob[8, 8] == g.arr2Glob[8, 9] == 8 && g.arr2Glob[28, 8] == 7
    ensures forall i, j :: 0 <= i < 50 && 0 <= j < 50 && !(i == 8 && 7 <= j <= 9) && !(i == 28 && j == 8) ==>
      g.arr2Glob[i, j] == 0
  {
    g := new Globals();
    g.ptrGlob.ptrComp := g.nextPtrGlob;
    g.ptrGlob.discr := Ident1;
    g.ptrGlob.enumComp := Ident3;
    g.ptrGlob.intComp := 40;
    g.ptrGlob.strComp := SOME_STRING;
    l := *;
    l := l.(str1 := FIRST_STRING);
    g.arr2Glob[8, 7] := 10;
    var runIndex := 1;
    while runIndex <= n
      invariant 1 <= runIndex <= n + 1 && fresh(g) && fresh(g.ptrGlob) && fresh(g.nextPtrGlob)
      invariant fresh(g.arr1Glob) && fresh(g.arr2Glob)
      invariant After(g, runIndex - 1) && l.str1 == FIRST_STRING && (runIndex > 1 ==> l == SHOULD_BE)
    {
      l := OneRun(g, runIndex, l, runIndex - 1);
      runIndex := runIndex + 1;
    }
    StringsAre();
  }

  lemma StringsAre()
    ensures SOME_STRING == "DHRYSTONE PROGRAM, SOME STRING"
    ensures FIRST_STRING == "DHRYSTONE PROGRAM, 1'ST STRING" && SECOND_STRING == "DHRYSTONE PROGRAM, 2'ND STRING"
  {
  }
}
