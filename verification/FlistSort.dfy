/** Sorted file lists: one order for both ends (server-send.go sortFlist,
    client-open.go sortFlistEntries), and the shape of the tree in it. */
module FlistSort {
  import opened Paths
  import opened FlistOrder
  import StableSort

  // ------------------------------------------------------------ a strict total order

  predicate Before(version: int, a: Node, b: Node) {
    NameCmp(a, b, version) < 0
  }

  /** Two nodes with the same key are the same node. */
  lemma KeyInjective(a: Node, b: Node)
    requires ValidPath(a.name) && ValidPath(b.name) && Key(a) == Key(b)
    ensures a == b
  {
    SplitDot();
    var xs, ys := Split(a.name), Split(b.name);
    JoinOfSplit(a.name);
    JoinOfSplit(b.name);
    if a != Node([DOT], true) && b != Node([DOT], true) {
      var ks, ls := Steps(xs, a.dir), Steps(ys, b.dir);
      assert forall i :: 0 <= i < |xs| ==> ks[i].name == xs[i] && ls[i].name == ys[i];
      assert xs == ys;
      assert ks[|xs| - 1].dir == a.dir && ls[|ys| - 1].dir == b.dir;
    }
  }

  /** On distinct nodes with valid names the comparison is total and decides
      opposite ways round, for every protocol version; it is zero for none. */
  lemma OrderTotal(version: int, a: Node, b: Node)
    requires ValidPath(a.name) && ValidPath(b.name) && a != b && (version < 29 ==> a.name != b.name)
    ensures NameCmp(a, b, version) == -NameCmp(b, a, version) && NameCmp(a, b, version) != 0
  {
    if version < 29 {
      OldOrderIsByteOrder(a, b, version);
      OldOrderIsByteOrder(b, a, version);
      LexFlip(a.name, b.name);
      LexZero(a.name, b.name);
    } else {
      NewOrderIsKeyOrder(a, b, version);
      NewOrderIsKeyOrder(b, a, version);
      KeyFlip(Key(a), Key(b));
      KeyZero(Key(a), Key(b));
      if Key(a) == Key(b) {
        KeyInjective(a, b);
      }
    }
  }

  lemma OrderTransitive(version: int, a: Node, b: Node, c: Node)
    requires ValidPath(a.name) && ValidPath(b.name) && ValidPath(c.name)
    requires a != b && b != c
    requires Before(version, a, b) && Before(version, b, c)
    ensures Before(version, a, c)
  {
    if version < 29 {
      OldOrderIsByteOrder(a, b, version);
      OldOrderIsByteOrder(b, c, version);
      OldOrderIsByteOrder(a, c, version);
      LexTrans(a.name, b.name, c.name);
    } else {
      NewOrderIsKeyOrder(a, b, version);
      NewOrderIsKeyOrder(b, c, version);
      NewOrderIsKeyOrder(a, c, version);
      KeyTrans(Key(a), Key(b), Key(c));
    }
  }

  // ------------------------------------------------------------------- sorted lists

  /** Valid names, no name twice. */
  predicate Proper(ns: seq<Node>) {
    && (forall i :: 0 <= i < |ns| ==> ValidPath(ns[i].name))
    && (forall i, j :: 0 <= i < j < |ns| ==> ns[i].name != ns[j].name)
  }

  predicate Sorted(version: int, ns: seq<Node>) {
    forall i, j :: 0 <= i < j < |ns| ==> Before(version, ns[i], ns[j])
  }

  function Cmp(version: int): (Node, Node) -> int {
    (a, b) => NameCmp(a, b, version)
  }

  /** sortFlist, and the sort in sortFlistEntries. */
  function Sort(version: int, ns: seq<Node>): seq<Node> {
    StableSort.Sort(Cmp(version), ns)
  }

  lemma ProperTail(ns: seq<Node>)
    requires ns != [] && Proper(ns)
    ensures Proper(ns[1..]) && ns[0] !in ns[1..]
    ensures forall m :: m in ns[1..] ==> ValidPath(m.name) && m.name != ns[0].name
  {
  }

  lemma DistinctNames(ns: seq<Node>, a: Node, b: Node)
    requires Proper(ns) && a in ns && b in ns && a != b
    ensures a.name != b.name && ValidPath(a.name) && ValidPath(b.name)
  {
    var i :| 0 <= i < |ns| && ns[i] == a;
    var j :| 0 <= j < |ns| && ns[j] == b;
  }

  lemma SelfCmp(version: int, a: Node)
    requires ValidPath(a.name)
    ensures NameCmp(a, a, version) <= 0
  {
    if version < 29 {
      OldOrderIsByteOrder(a, a, version);
      LexZero(a.name, a.name);
    } else {
      NewOrderIsKeyOrder(a, a, version);
      KeyZero(Key(a), Key(a));
    }
  }

  lemma PairOrdered(version: int, ns: seq<Node>, a: Node, b: Node)
    requires Proper(ns) && a in ns && b in ns
    ensures NameCmp(a, b, version) > 0 ==> NameCmp(b, a, version) <= 0
    ensures a != b ==> NameCmp(a, b, version) != 0
  {
    if a != b {
      DistinctNames(ns, a, b);
      OrderTotal(version, a, b);
    } else {
      SelfCmp(version, a);
    }
  }

  lemma TripleOrdered(version: int, ns: seq<Node>, a: Node, b: Node, c: Node)
    requires Proper(ns) && a in ns && b in ns && c in ns
    requires NameCmp(a, b, version) <= 0 && NameCmp(b, c, version) <= 0
    ensures NameCmp(a, c, version) <= 0
  {
    if a == c {
      SelfCmp(version, a);
    } else if a != b && b != c {
      PairOrdered(version, ns, a, b);
      PairOrdered(version, ns, b, c);
      DistinctNames(ns, a, b);
      DistinctNames(ns, b, c);
      OrderTransitive(version, a, b, c);
    }
  }

  lemma ProperOrdered(version: int, ns: seq<Node>)
    requires Proper(ns)
    ensures StableSort.Orders(Cmp(version), iset n | n in ns)
  {
    forall a, b | a in ns && b in ns && Cmp(version)(a, b) > 0 ensures Cmp(version)(b, a) <= 0 {
      PairOrdered(version, ns, a, b);
    }
    forall a, b, c | a in ns && b in ns && c in ns && Cmp(version)(a, b) <= 0 && Cmp(version)(b, c) <= 0
      ensures Cmp(version)(a, c) <= 0
    {
      TripleOrdered(version, ns, a, b, c);
    }
  }

  /** The sort of a proper list is strictly sorted, and has the same nodes. */
  lemma SortSorts(version: int, ns: seq<Node>)
    requires Proper(ns)
    ensures Sorted(version, Sort(version, ns)) && multiset(Sort(version, ns)) == multiset(ns)
    ensures Proper(Sort(version, ns))
  {
    var r := Sort(version, ns);
    StableSort.SortKeeps(Cmp(version), ns);
    ProperPermuted(ns, r);
    ProperOrdered(version, ns);
    StableSort.SortSorts(Cmp(version), (iset n | n in ns), ns);
    forall i, j | 0 <= i < j < |r| ensures Before(version, r[i], r[j]) {
      assert Cmp(version)(r[i], r[j]) <= 0;
      PairOrdered(version, r, r[i], r[j]);
    }
  }

  /** A permutation of a proper list is proper. */
  lemma {:induction false} ProperPermuted(ns: seq<Node>, ms: seq<Node>)
    requires Proper(ns) && multiset(ns) == multiset(ms)
    ensures Proper(ms)
  {
    forall i | 0 <= i < |ms| ensures ValidPath(ms[i].name) {
      assert ms[i] in multiset(ms);
      assert ms[i] in ns;
    }
    forall i, j | 0 <= i < j < |ms| ensures ms[i].name != ms[j].name {
      assert ms[i] in multiset(ms) && ms[j] in multiset(ms);
      assert ms[i] in ns && ms[j] in ns;
      if ms[i] == ms[j] {
        TwiceInMultiset(ms, i, j);
        OnceInProper(ns, ms[i]);
      } else {
        var a :| 0 <= a < |ns| && ns[a] == ms[i];
        var b :| 0 <= b < |ns| && ns[b] == ms[j];
      }
    }
  }

  lemma TwiceInMultiset(ms: seq<Node>, i: nat, j: nat)
    requires i < j < |ms| && ms[i] == ms[j]
    ensures multiset(ms)[ms[i]] >= 2
  {
    assert ms == ms[..j] + ms[j..];
    assert ms[i] in ms[..j] && ms[j] in ms[j..];
  }

  lemma {:induction false} OnceInProper(ns: seq<Node>, n: Node)
    requires Proper(ns)
    ensures multiset(ns)[n] <= 1
  {
    if ns != [] {
      ProperTail(ns);
      OnceInProper(ns[1..], n);
      assert ns == [ns[0]] + ns[1..];
    }
  }

  lemma SameFirst(version: int, ns: seq<Node>, ms: seq<Node>)
    requires Proper(ns) && Proper(ms) && Sorted(version, ns) && Sorted(version, ms)
    requires ns != [] && ms != [] && multiset(ns) == multiset(ms)
    ensures ns[0] == ms[0]
  {
    assert ns[0] in multiset(ms) && ms[0] in multiset(ns);
    var j :| 0 <= j < |ms| && ms[j] == ns[0];
    var k :| 0 <= k < |ns| && ns[k] == ms[0];
    if j > 0 && k > 0 {
      assert Before(version, ns[0], ns[k]) && Before(version, ms[0], ms[j]);
      assert ns[0].name != ns[k].name;
      OrderTotal(version, ns[0], ns[k]);
      assert false;
    }
  }

  lemma TailMultiset(ns: seq<Node>)
    requires ns != []
    ensures multiset(ns[1..]) == multiset(ns) - multiset{ns[0]}
  {
    assert ns == [ns[0]] + ns[1..];
  }

  /** Sorted lists of the same nodes are the same list. */
  lemma {:induction false} SortedUnique(version: int, ns: seq<Node>, ms: seq<Node>)
    requires Proper(ns) && Proper(ms) && Sorted(version, ns) && Sorted(version, ms)
    requires multiset(ns) == multiset(ms)
    ensures ns == ms
  {
    SameSize(ns, ms);
    if ns != [] {
      SameFirst(version, ns, ms);
      TailMultiset(ns);
      TailMultiset(ms);
      SortedTail(version, ns);
      SortedTail(version, ms);
      SortedUnique(version, ns[1..], ms[1..]);
      SameParts(ns, ms);
    }
  }

  lemma SameSize(ns: seq<Node>, ms: seq<Node>)
    requires multiset(ns) == multiset(ms)
    ensures |ns| == |ms|
  {
    assert |multiset(ns)| == |ns| && |multiset(ms)| == |ms|;
  }

  lemma SortedTail(version: int, ns: seq<Node>)
    requires ns != [] && Proper(ns) && Sorted(version, ns)
    ensures Proper(ns[1..]) && Sorted(version, ns[1..])
  {
    ProperTail(ns);
  }

  lemma SameParts(ns: seq<Node>, ms: seq<Node>)
    requires ns != [] && ms != [] && ns[0] == ms[0] && ns[1..] == ms[1..]
    ensures ns == ms
  {
    assert ns == [ns[0]] + ns[1..] && ms == [ms[0]] + ms[1..];
  }

  /** Any two arrival orders of the same entries sort to one sequence, and so
      does any other sort that orders by the comparison. */
  lemma ArrivalOrderIrrelevant(version: int, ns: seq<Node>, ms: seq<Node>)
    requires Proper(ns) && multiset(ns) == multiset(ms)
    ensures Sort(version, ns) == Sort(version, ms)
    ensures Sorted(version, ms) ==> Sort(version, ns) == ms
  {
    ProperPermuted(ns, ms);
    SortSorts(version, ns);
    SortSorts(version, ms);
    SortedUnique(version, Sort(version, ns), Sort(version, ms));
    if Sorted(version, ms) {
      SortedUnique(version, Sort(version, ns), ms);
    }
  }
}
