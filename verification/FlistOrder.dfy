/** The file-list order (server-send.go flistNameCmp).

    Names are compared component by component. Below protocol 29 the result is
    plain byte order; from 29 on it is the lexicographic order of `Key`s, which
    puts a level's files before its directories and every directory right before
    its contents.
 */
module FlistOrder {
  import opened Bytes
  import opened Paths

  /** What the comparison sees of an entry. */
  datatype Node = Node(name: Name, dir: bool)

  // ---------------------------------------------------------------- the comparison

  /** A component, with the implied slash if it continues the path. */
  function Implied(c: Name, continues: bool): Name {
    if continues then c + [SLASH] else c
  }

  /** The loop of flistNameCmp from some position on: the components left. */
  function CompareFrom(xs: seq<Name>, dirA: bool, ys: seq<Name>, dirB: bool, version: int): (r: int) {
    if xs == [] && ys == [] then 0
    else if xs == [] then -1
    else if ys == [] then 1
    else
      var a, b := xs[0], ys[0];
      if version < 29 then
        var c := Lex(Implied(a, |xs| > 1), Implied(b, |ys| > 1));
        if c != 0 then c else CompareFrom(xs[1..], dirA, ys[1..], dirB, version)
      else
        var aDir, bDir := |xs| > 1 || dirA, |ys| > 1 || dirB;
        if a == [DOT] && aDir then -1
        else if b == [DOT] && bDir then 1
        else if aDir != bDir then if aDir then 1 else -1
        else if aDir then
          var c := Lex(a + [SLASH], b + [SLASH]);
          if c != 0 then c else CompareFrom(xs[1..], dirA, ys[1..], dirB, version)
        else Lex(a, b)
  }

  function NameCmp(a: Node, b: Node, version: int): (r: int) {
    CompareFrom(Split(a.name), a.dir, Split(b.name), b.dir, version)
  }

  // -------------------------------------------------- below protocol 29: byte order

  /** The implied slash occurs in no plain component. */
  lemma ImpliedPrefix(a: Name, b: Name, contB: bool)
    requires Plain(a) && Plain(b)
    ensures !(Implied(a, true) < Implied(b, contB))
  {
    assert Implied(a, true)[|a|] == SLASH;
    if |a| < |b| {
      assert Implied(b, contB)[|a|] == b[|a|] != SLASH;
    }
  }

  lemma ImpliedEqual(a: Name, contA: bool, b: Name, contB: bool)
    requires Plain(a) && Plain(b)
    ensures Implied(a, contA) == Implied(b, contB) ==> contA == contB && a == b
  {
    assert Implied(a, true)[|a|] == SLASH && Implied(b, true)[|b|] == SLASH;
    assert |b| == |a| + 1 ==> b[|a|] != SLASH;
    assert |a| == |b| + 1 ==> a[|b|] != SLASH;
    assert a == Implied(a, true)[..|a|] && b == Implied(b, true)[..|b|];
  }

  /** The joined name, cut after its first component. */
  lemma JoinImplied(cs: seq<Name>)
    requires |cs| >= 1
    ensures Join(cs) == Implied(cs[0], |cs| > 1) + (if |cs| > 1 then Join(cs[1..]) else [])
  {
    if |cs| > 1 {
      Assoc(cs[0], [SLASH], Join(cs[1..]));
    } else {
      assert cs[0] + [] == cs[0];
    }
  }

  lemma {:induction false} CompareIsLex(xs: seq<Name>, ys: seq<Name>, dirA: bool, dirB: bool, version: int)
    requires |xs| >= 1 && |ys| >= 1 && AllPlain(xs) && AllPlain(ys) && version < 29
    ensures CompareFrom(xs, dirA, ys, dirB, version) == Lex(Join(xs), Join(ys))
    decreases |xs|
  {
    var a, b := Implied(xs[0], |xs| > 1), Implied(ys[0], |ys| > 1);
    var s, t := if |xs| > 1 then Join(xs[1..]) else [], if |ys| > 1 then Join(ys[1..]) else [];
    JoinImplied(xs);
    JoinImplied(ys);
    LexZero(a, b);
    if a == b {
      ImpliedEqual(xs[0], |xs| > 1, ys[0], |ys| > 1);
      LexCommon(a, s, t);
      if |xs| > 1 {
        CompareIsLex(xs[1..], ys[1..], dirA, dirB, version);
      }
    } else {
      ImpliedPrefix(xs[0], ys[0], |ys| > 1);
      ImpliedPrefix(ys[0], xs[0], |xs| > 1);
      LexDecided(a, b, s, t);
    }
  }

  /** Below protocol 29, for all strings, comparing component by component with
      implied slashes is comparing the whole names byte by byte. */
  lemma OldOrderIsByteOrder(a: Node, b: Node, version: int)
    requires version < 29
    ensures NameCmp(a, b, version) == Lex(a.name, b.name)
  {
    SplitPlain(a.name);
    SplitPlain(b.name);
    JoinOfSplit(a.name);
    JoinOfSplit(b.name);
    CompareIsLex(Split(a.name), Split(b.name), a.dir, b.dir, version);
  }

  // ------------------------------------------------------- from protocol 29: by keys

  /** One step of a key: files before directories, then by name. */
  datatype Step = Step(dir: bool, name: Name)

  function StepCmp(x: Step, y: Step): (c: int)
    ensures -1 <= c <= 1
  {
    if x.dir != y.dir then if x.dir then 1 else -1
    else if x.dir then Lex(x.name + [SLASH], y.name + [SLASH])
    else Lex(x.name, y.name)
  }

  function KeyCmp(ks: seq<Step>, ls: seq<Step>): (c: int)
    ensures -1 <= c <= 1
  {
    if ks == [] && ls == [] then 0
    else if ks == [] then -1
    else if ls == [] then 1
    else if StepCmp(ks[0], ls[0]) != 0 then StepCmp(ks[0], ls[0])
    else KeyCmp(ks[1..], ls[1..])
  }

  /** Every component but the last is a directory. */
  function Steps(cs: seq<Name>, dir: bool): (ks: seq<Step>)
    ensures |ks| == |cs|
    ensures forall i :: 0 <= i < |cs| ==> ks[i] == Step(i < |cs| - 1 || dir, cs[i])
  {
    if cs == [] then [] else [Step(|cs| > 1 || dir, cs[0])] + Steps(cs[1..], dir)
  }

  /** The top directory has the empty key. */
  function Key(n: Node): seq<Step> {
    if n == Node([DOT], true) then [] else Steps(Split(n.name), n.dir)
  }

  /** fs.ValidPath: "." alone, or non-empty components other than "." and "..". */
  predicate ValidPath(name: Name) {
    name == [DOT] ||
    forall i :: 0 <= i < |Split(name)| ==>
      Split(name)[i] != [] && Split(name)[i] != [DOT] && Split(name)[i] != [DOT, DOT]
  }

  lemma SlashedLex(a: Name, b: Name)
    ensures Lex(a + [SLASH], b + [SLASH]) == 0 <==> a == b
  {
    LexZero(a + [SLASH], b + [SLASH]);
    if a + [SLASH] == b + [SLASH] {
      assert a == (a + [SLASH])[..|a|] == (b + [SLASH])[..|b|] == b;
    }
  }

  lemma StepZero(x: Step, y: Step)
    ensures StepCmp(x, y) == 0 <==> x == y
  {
    SlashedLex(x.name, y.name);
    LexZero(x.name, y.name);
  }

  lemma StepFlip(x: Step, y: Step)
    ensures StepCmp(x, y) == -StepCmp(y, x)
  {
    LexFlip(x.name + [SLASH], y.name + [SLASH]);
    LexFlip(x.name, y.name);
  }

  lemma StepTrans(x: Step, y: Step, z: Step)
    requires StepCmp(x, y) < 0 && StepCmp(y, z) < 0
    ensures StepCmp(x, z) < 0
  {
    if x.dir == y.dir == z.dir {
      if x.dir {
        LexTrans(x.name + [SLASH], y.name + [SLASH], z.name + [SLASH]);
      } else {
        LexTrans(x.name, y.name, z.name);
      }
    }
  }

  lemma {:induction false} KeyZero(ks: seq<Step>, ls: seq<Step>)
    ensures KeyCmp(ks, ls) == 0 <==> ks == ls
  {
    if ks != [] && ls != [] {
      StepZero(ks[0], ls[0]);
      KeyZero(ks[1..], ls[1..]);
      assert ks == [ks[0]] + ks[1..] && ls == [ls[0]] + ls[1..];
    }
  }

  lemma {:induction false} KeyFlip(ks: seq<Step>, ls: seq<Step>)
    ensures KeyCmp(ks, ls) == -KeyCmp(ls, ks)
  {
    if ks != [] && ls != [] {
      StepFlip(ks[0], ls[0]);
      KeyFlip(ks[1..], ls[1..]);
    }
  }

  lemma {:induction false} KeyTrans(ks: seq<Step>, ls: seq<Step>, ms: seq<Step>)
    requires KeyCmp(ks, ls) < 0 && KeyCmp(ls, ms) < 0
    ensures KeyCmp(ks, ms) < 0
  {
    if ks != [] && ls != [] && ms != [] {
      StepZero(ks[0], ls[0]);
      StepZero(ls[0], ms[0]);
      if ks[0] == ls[0] && ls[0] == ms[0] {
        KeyTrans(ks[1..], ls[1..], ms[1..]);
      } else if ks[0] != ls[0] && ls[0] != ms[0] {
        StepTrans(ks[0], ls[0], ms[0]);
      }
    }
  }

  /** Without a "." among the components, the loop compares keys. */
  lemma {:induction false} CompareIsKeyCmp(xs: seq<Name>, dirA: bool, ys: seq<Name>, dirB: bool, version: int)
    requires version >= 29
    requires forall i :: 0 <= i < |xs| ==> xs[i] != [DOT]
    requires forall i :: 0 <= i < |ys| ==> ys[i] != [DOT]
    ensures CompareFrom(xs, dirA, ys, dirB, version) == KeyCmp(Steps(xs, dirA), Steps(ys, dirB))
    decreases |xs|
  {
    if xs != [] && ys != [] {
      var ks, ls := Steps(xs, dirA), Steps(ys, dirB);
      assert ks[1..] == Steps(xs[1..], dirA) && ls[1..] == Steps(ys[1..], dirB);
      CompareIsKeyCmp(xs[1..], dirA, ys[1..], dirB, version);
      if !ks[0].dir && !ls[0].dir {
        assert |xs| == 1 && |ys| == 1;
      }
    }
  }

  /** From protocol 29 on the comparison is the order of the keys, except that
      the top directory against itself comes out as less. */
  lemma NewOrderIsKeyOrder(a: Node, b: Node, version: int)
    requires version >= 29 && ValidPath(a.name) && ValidPath(b.name)
    ensures NameCmp(a, b, version) ==
      if a == b == Node([DOT], true) then -1 else KeyCmp(Key(a), Key(b))
  {
    SplitDot();
    var xs, ys := Split(a.name), Split(b.name);
    var dotA, dotB := a == Node([DOT], true), b == Node([DOT], true);
    if !dotA && !dotB {
      NoDot(a, b, version);
    } else if dotA {
      assert xs[0] == [DOT];
    } else {
      assert ys[0] == [DOT];
      assert xs[0] == [DOT] ==> a == Node([DOT], false);
    }
  }

  lemma SplitDot()
    ensures Split([DOT]) == [[DOT]]
  {
    SplitCons([DOT], []);
  }

  /** A file named "." is an ordinary name. */
  lemma NoDot(a: Node, b: Node, version: int)
    requires version >= 29 && ValidPath(a.name) && ValidPath(b.name)
    requires a != Node([DOT], true) && b != Node([DOT], true)
    ensures NameCmp(a, b, version) == KeyCmp(Key(a), Key(b))
  {
    SplitDot();
    if a.name != [DOT] && b.name != [DOT] {
      CompareIsKeyCmp(Split(a.name), a.dir, Split(b.name), b.dir, version);
    } else {
      OneFile(Split(a.name), a.dir, Split(b.name), b.dir, version);
    }
  }

  lemma OneFile(xs: seq<Name>, dirA: bool, ys: seq<Name>, dirB: bool, version: int)
    requires version >= 29 && |xs| >= 1 && |ys| >= 1
    requires (|xs| == 1 && !dirA) || (|ys| == 1 && !dirB)
    requires ys[0] == [DOT] ==> |ys| == 1 && !dirB
    requires xs[0] == [DOT] ==> |xs| == 1 && !dirA
    ensures CompareFrom(xs, dirA, ys, dirB, version) == KeyCmp(Steps(xs, dirA), Steps(ys, dirB))
  {
    var ks, ls := Steps(xs, dirA), Steps(ys, dirB);
    if !ks[0].dir && !ls[0].dir {
      assert ks[1..] == [] && ls[1..] == [];
    }
  }
}
