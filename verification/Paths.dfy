/** Path strings: strings.Split on the slash, its inverse, and strings.Compare. */
module Paths {
  import opened Bytes

  type Name = seq<byte>

  const SLASH: byte := 47
  const DOT: byte := 46

  // ------------------------------------------------------------- split and join

  function Split(s: Name): (cs: seq<Name>)
    ensures |cs| >= 1
  {
    if s == [] then [[]]
    else if s[0] == SLASH then [[]] + Split(s[1..])
    else var r := Split(s[1..]); [[s[0]] + r[0]] + r[1..]
  }

  function Join(cs: seq<Name>): Name
    requires |cs| >= 1
  {
    if |cs| == 1 then cs[0] else cs[0] + ([SLASH] + Join(cs[1..]))
  }

  predicate Plain(c: Name) {
    SLASH !in c
  }

  predicate AllPlain(cs: seq<Name>) {
    forall i :: 0 <= i < |cs| ==> Plain(cs[i])
  }

  lemma {:induction false} SplitPlain(s: Name)
    ensures AllPlain(Split(s))
  {
    if s != [] {
      SplitPlain(s[1..]);
      var r := Split(s[1..]);
      if s[0] != SLASH {
        assert Plain([s[0]] + r[0]);
        assert forall i :: 1 <= i < |Split(s)| ==> Split(s)[i] == r[i];
      }
    }
  }

  lemma {:induction false} JoinOfSplit(s: Name)
    ensures Join(Split(s)) == s
  {
    if s != [] {
      JoinOfSplit(s[1..]);
      JoinPush(s[0], Split(s[1..]));
      assert s == [s[0]] + s[1..];
    }
  }

  /** A slash opens a new component; any other byte lengthens the first one. */
  lemma JoinPush(b: byte, r: seq<Name>)
    requires |r| >= 1
    ensures Join([[]] + r) == [SLASH] + Join(r)
    ensures Join([[b] + r[0]] + r[1..]) == [b] + Join(r)
  {
    assert ([[]] + r)[1..] == r;
    assert [] + ([SLASH] + Join(r)) == [SLASH] + Join(r);
    assert ([[b] + r[0]] + r[1..])[1..] == r[1..];
    if |r| > 1 {
      Assoc([b], r[0], [SLASH] + Join(r[1..]));
    }
  }

  /** Splitting "a/b" splits a and b, when a is one plain component. */
  lemma {:induction false} SplitCons(a: Name, s: Name)
    requires Plain(a)
    ensures Split(a + ([SLASH] + s)) == [a] + Split(s)
    ensures Split(a) == [a]
  {
    if a == [] {
      assert a + ([SLASH] + s) == [SLASH] + s;
    } else {
      var t := a + ([SLASH] + s);
      assert t[1..] == a[1..] + ([SLASH] + s);
      assert Plain(a[1..]);
      SplitCons(a[1..], s);
      assert [a[0]] + a[1..] == a;
    }
  }

  lemma {:induction false} SplitOfJoin(cs: seq<Name>)
    requires |cs| >= 1 && AllPlain(cs)
    ensures Split(Join(cs)) == cs
  {
    if |cs| == 1 {
      SplitCons(cs[0], []);
    } else {
      SplitOfJoin(cs[1..]);
      SplitCons(cs[0], Join(cs[1..]));
    }
  }

  lemma {:induction false} JoinConcat(xs: seq<Name>, ys: seq<Name>)
    requires |xs| >= 1 && |ys| >= 1
    ensures Join(xs + ys) == Join(xs) + ([SLASH] + Join(ys))
  {
    if |xs| == 1 {
      assert (xs + ys)[1..] == ys;
    } else {
      JoinConcat(xs[1..], ys);
      assert (xs + ys)[1..] == xs[1..] + ys;
      Assoc(xs[0], [SLASH] + Join(xs[1..]), [SLASH] + Join(ys));
      Assoc([SLASH], Join(xs[1..]), [SLASH] + Join(ys));
    }
  }

  /** Splitting "d/rest" gives d's components and then the rest's. */
  lemma SplitConcat(d: Name, rest: Name)
    ensures Split(d + ([SLASH] + rest)) == Split(d) + Split(rest)
  {
    var xs, ys := Split(d), Split(rest);
    SplitPlain(d);
    SplitPlain(rest);
    JoinOfSplit(d);
    JoinOfSplit(rest);
    JoinConcat(xs, ys);
    SplitOfJoin(xs + ys);
  }

  // -------------------------------------------------------------------- comparing

  /** strings.Compare: byte-wise lexicographic. */
  function Lex(a: Name, b: Name): (c: int)
    ensures -1 <= c <= 1
  {
    if a == [] && b == [] then 0
    else if a == [] then -1
    else if b == [] then 1
    else if a[0] < b[0] then -1
    else if a[0] > b[0] then 1
    else Lex(a[1..], b[1..])
  }

  lemma {:induction false} LexZero(a: Name, b: Name)
    ensures Lex(a, b) == 0 <==> a == b
  {
    if a != [] && b != [] {
      LexZero(a[1..], b[1..]);
      assert a == [a[0]] + a[1..] && b == [b[0]] + b[1..];
    }
  }

  lemma {:induction false} LexFlip(a: Name, b: Name)
    ensures Lex(a, b) == -Lex(b, a)
  {
    if a != [] && b != [] {
      LexFlip(a[1..], b[1..]);
    }
  }

  lemma {:induction false} LexTrans(a: Name, b: Name, c: Name)
    requires Lex(a, b) < 0 && Lex(b, c) < 0
    ensures Lex(a, c) < 0
  {
    if a != [] && b != [] && c != [] && a[0] == b[0] == c[0] {
      LexTrans(a[1..], b[1..], c[1..]);
    }
  }

  lemma {:induction false} LexCommon(x: Name, s: Name, t: Name)
    ensures Lex(x + s, x + t) == Lex(s, t)
  {
    if x == [] {
      assert x + s == s && x + t == t;
    } else {
      assert (x + s)[1..] == x[1..] + s && (x + t)[1..] == x[1..] + t;
      LexCommon(x[1..], s, t);
    }
  }

  /** A comparison that is decided stays decided when text is appended, unless
      one side is a proper prefix of the other and only it grows. */
  lemma {:induction false} LexDecided(a: Name, b: Name, s: Name, t: Name)
    requires Lex(a, b) != 0
    requires a < b ==> s == []
    requires b < a ==> t == []
    ensures Lex(a + s, b + t) == Lex(a, b)
  {
    if a == [] {
      assert a + s == [];
    } else if b == [] {
      assert b + t == [];
    } else if a[0] == b[0] {
      assert (a + s)[1..] == a[1..] + s && (b + t)[1..] == b[1..] + t;
      LexDecided(a[1..], b[1..], s, t);
    }
  }
}
