/** The tree in a sorted list (protocol 29 and up), and the client's index map. */
module FlistTree {
  import opened Bytes
  import opened Paths
  import opened FlistOrder
  import opened FlistSort

  const TOP: Node := Node([DOT], true)

  // -------------------------------------------------------------- prefixes of keys

  lemma {:induction false} PrefixFirst(p: seq<Step>, z: seq<Step>)
    requires p < z
    ensures KeyCmp(p, z) < 0
  {
    if p != [] {
      StepZero(p[0], z[0]);
      assert p[1..] < z[1..];
      PrefixFirst(p[1..], z[1..]);
    }
  }

  /** What sorts between a key and an extension of it extends it too. */
  lemma {:induction false} PrefixBetween(p: seq<Step>, k: seq<Step>, z: seq<Step>)
    requires p < z && KeyCmp(p, k) < 0 && KeyCmp(k, z) < 0
    ensures p < k
  {
    if p != [] {
      StepFlip(p[0], k[0]);
      StepZero(p[0], k[0]);
      StepZero(k[0], z[0]);
      assert p[1..] < z[1..];
      PrefixBetween(p[1..], k[1..], z[1..]);
      assert p == [p[0]] + p[1..] && k == [k[0]] + k[1..];
    }
  }

  lemma {:induction false} CommonKeyPrefix(p: seq<Step>, x: seq<Step>, z: seq<Step>)
    ensures KeyCmp(p + x, p + z) == KeyCmp(x, z)
  {
    if p == [] {
      assert p + x == x && p + z == z;
    } else {
      StepZero(p[0], p[0]);
      assert (p + x)[1..] == p[1..] + x && (p + z)[1..] == p[1..] + z;
      CommonKeyPrefix(p[1..], x, z);
    }
  }

  // ------------------------------------------------------------------- inside a directory

  /** x lies inside directory d: by name, everything else lies inside the top. */
  predicate Under(d: Node, x: Node) {
    d.dir && if d == TOP then x.name != [DOT] else d.name + [SLASH] <= x.name
  }

  lemma DirSteps(xs: seq<Name>, ys: seq<Name>, dir: bool)
    requires |ys| >= 1
    ensures Steps(xs + ys, dir) == Steps(xs, true) + Steps(ys, dir)
  {
    var l, r := Steps(xs + ys, dir), Steps(xs, true) + Steps(ys, dir);
    forall i | 0 <= i < |xs| + |ys| ensures l[i] == r[i] {
    }
  }

  lemma SlashedNotDot(d: Name, rest: Name)
    ensures d + ([SLASH] + rest) != [DOT]
  {
    assert (d + ([SLASH] + rest))[|d|] == SLASH;
  }

  /** Inside by name is a proper extension by key. */
  lemma UnderIsPrefix(d: Node, x: Node)
    requires ValidPath(d.name) && ValidPath(x.name) && d.dir && (x.name == [DOT] ==> x.dir)
    ensures Under(d, x) <==> Key(d) < Key(x)
  {
    if d != TOP {
      var xs := Split(d.name);
      if Under(d, x) {
        var rest := x.name[|d.name| + 1..];
        assert x.name == d.name + ([SLASH] + rest);
        SplitConcat(d.name, rest);
        SlashedNotDot(d.name, rest);
        DirSteps(xs, Split(rest), x.dir);
      }
      if Key(d) < Key(x) {
        PrefixIsUnder(d, x);
      }
    }
  }

  lemma {:induction false} SameComponents(xs: seq<Name>, ys: seq<Name>, dir: bool)
    requires Steps(xs, true) < Steps(ys, dir)
    ensures |xs| < |ys| && ys == xs + ys[|xs|..]
  {
    forall i | 0 <= i < |xs| ensures xs[i] == ys[i] {
      SameStep(Steps(xs, true), Steps(ys, dir), i);
    }
    assert ys[..|xs|] == xs;
  }

  lemma SameStep(ks: seq<Step>, ls: seq<Step>, i: nat)
    requires ks < ls && i < |ks|
    ensures ks[i] == ls[i]
  {
  }

  lemma PrefixIsUnder(d: Node, x: Node)
    requires d.dir && d != TOP && Key(d) < Key(x)
    ensures d.name + [SLASH] <= x.name
  {
    var xs, ys := Split(d.name), Split(x.name);
    SameComponents(xs, ys, x.dir);
    JoinOfSplit(d.name);
    JoinOfSplit(x.name);
    JoinConcat(xs, ys[|xs|..]);
    assert x.name == d.name + ([SLASH] + Join(ys[|xs|..]));
    Assoc(d.name, [SLASH], Join(ys[|xs|..]));
  }

  /** A list with the top directory, as the walk produces it. */
  predicate Rooted(ns: seq<Node>) {
    Proper(ns) && TOP in ns
  }

  lemma RootedDot(ns: seq<Node>, x: Node)
    requires Rooted(ns) && x in ns && x.name == [DOT]
    ensures x == TOP
  {
    var i :| 0 <= i < |ns| && ns[i] == x;
    var j :| 0 <= j < |ns| && ns[j] == TOP;
    if i != j {
      assert false;
    }
  }

  /** In a sorted list positions follow keys. */
  lemma KeysInOrder(version: int, ns: seq<Node>, i: nat, j: nat)
    requires version >= 29 && Proper(ns) && Sorted(version, ns) && i < |ns| && j < |ns|
    ensures i < j <==> KeyCmp(Key(ns[i]), Key(ns[j])) < 0
  {
    if i == j {
      KeyZero(Key(ns[i]), Key(ns[j]));
    } else {
      assert ns[i].name != ns[j].name;
      NewOrderIsKeyOrder(ns[i], ns[j], version);
      NewOrderIsKeyOrder(ns[j], ns[i], version);
      KeyFlip(Key(ns[i]), Key(ns[j]));
      assert Before(version, ns[if i < j then i else j], ns[if i < j then j else i]);
    }
  }

  /** The list starts with the top directory. */
  lemma StartsWithTop(version: int, ns: seq<Node>)
    requires version >= 29 && Rooted(ns) && Sorted(version, ns)
    ensures ns[0] == TOP
  {
    var i :| 0 <= i < |ns| && ns[i] == TOP;
    KeysInOrder(version, ns, i, 0);
    EmptyKey(ns[0]);
  }

  lemma EmptyKey(n: Node)
    ensures Key(n) == [] <==> n == TOP
  {
  }

  /** Right after every directory come exactly the entries inside it: they are
      all behind it, and nothing else lies between it and any of them. */
  lemma SubtreeContiguous(version: int, ns: seq<Node>, i: nat, j: nat)
    requires version >= 29 && Rooted(ns) && Sorted(version, ns)
    requires i < |ns| && j < |ns| && Under(ns[i], ns[j])
    ensures i < j && forall k :: i < k <= j ==> Under(ns[i], ns[k])
  {
    InTree(ns, i, j);
    PrefixFirst(Key(ns[i]), Key(ns[j]));
    KeysInOrder(version, ns, i, j);
    forall k | i < k <= j ensures Under(ns[i], ns[k]) {
      if k < j {
        KeysInOrder(version, ns, i, k);
        KeysInOrder(version, ns, k, j);
        PrefixBetween(Key(ns[i]), Key(ns[k]), Key(ns[j]));
        InTree(ns, i, k);
      }
    }
  }

  lemma InTree(ns: seq<Node>, i: nat, j: nat)
    requires Rooted(ns) && i < |ns| && j < |ns| && ns[i].dir
    ensures Under(ns[i], ns[j]) <==> Key(ns[i]) < Key(ns[j])
  {
    if ns[j].name == [DOT] {
      RootedDot(ns, ns[j]);
    }
    UnderIsPrefix(ns[i], ns[j]);
  }

  /** The first step into d on the way to x. */
  function StepInto(d: Node, x: Node): Step
    requires Key(d) < Key(x)
  {
    Key(x)[|Key(d)|]
  }

  /** At every level files come before directories and all they contain: what is
      reached through a file step precedes what is reached through a directory. */
  lemma FilesFirst(version: int, ns: seq<Node>, d: nat, x: nat, z: nat)
    requires version >= 29 && Rooted(ns) && Sorted(version, ns)
    requires d < |ns| && x < |ns| && z < |ns|
    requires Key(ns[d]) < Key(ns[x]) && Key(ns[d]) < Key(ns[z])
    requires !StepInto(ns[d], ns[x]).dir && StepInto(ns[d], ns[z]).dir
    ensures x < z
  {
    FileStepFirst(Key(ns[d]), Key(ns[x]), Key(ns[z]));
    KeysInOrder(version, ns, x, z);
  }

  lemma FileStepFirst(p: seq<Step>, a: seq<Step>, b: seq<Step>)
    requires p < a && p < b && !a[|p|].dir && b[|p|].dir
    ensures KeyCmp(a, b) < 0
  {
    var x, z := a[|p|..], b[|p|..];
    assert a == p + x && b == p + z;
    CommonKeyPrefix(p, x, z);
  }

  // ------------------------------------------------------------- the client's index

  /** The position of every name in a list. */
  predicate Indexes(ndxByName: map<Name, int>, order: seq<Node>) {
    forall i :: 0 <= i < |order| ==> order[i].name in ndxByName && ndxByName[order[i].name] == i
  }

  /** A name that occurs more than once keeps its last position. */
  predicate LastIndexes(ndxByName: map<Name, int>, order: seq<Node>) {
    && (forall i :: 0 <= i < |order| ==> order[i].name in ndxByName && i <= ndxByName[order[i].name])
    && (forall name :: name in ndxByName ==> 0 <= ndxByName[name] < |order| && order[ndxByName[name]].name == name)
  }

  lemma LastIsOnly(ndxByName: map<Name, int>, order: seq<Node>)
    requires Proper(order) && LastIndexes(ndxByName, order)
    ensures Indexes(ndxByName, order)
  {
  }

  /** sortFlistEntries: sort a copy, then record positions. */
  method SortFlistEntries(version: int, entries: seq<Node>) returns (ndxByName: map<Name, int>)
    ensures LastIndexes(ndxByName, Sort(version, entries))
  {
    var order := Sort(version, entries);
    ndxByName := map[];
    assert order[..0] == [];
    for i := 0 to |order|
      invariant LastIndexes(ndxByName, order[..i])
    {
      IndexStep(ndxByName, order[..i], order[i]);
      assert order[..i + 1] == order[..i] + [order[i]];
      ndxByName := ndxByName[order[i].name := i];
    }
    assert order[..|order|] == order;
  }

  lemma IndexStep(ndxByName: map<Name, int>, order: seq<Node>, n: Node)
    requires LastIndexes(ndxByName, order)
    ensures LastIndexes(ndxByName[n.name := |order|], order + [n])
  {
  }

  /** Whatever order the entries arrive in, the client's index for a name is the
      server's: the server sends requests' answers from its own sorted walk. */
  lemma ClientIndexIsServerIndex(version: int, walk: seq<Node>, received: seq<Node>, ndxByName: map<Name, int>)
    requires Proper(walk) && multiset(received) == multiset(walk)
    requires LastIndexes(ndxByName, Sort(version, received))
    ensures Indexes(ndxByName, Sort(version, walk))
  {
    ArrivalOrderIrrelevant(version, walk, received);
    SortSorts(version, walk);
    LastIsOnly(ndxByName, Sort(version, walk));
  }
}
