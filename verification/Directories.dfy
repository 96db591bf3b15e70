/** Directory listings on the client (client-open.go filterFlistChildren and
    moduleDirFile.ReadDir): which entries are a directory's children, and how
    they are handed out in pages. */
module Directories {
  import opened Paths
  import opened FlistOrder
  import StableSort

  // ------------------------------------------------------------------- the children

  /** The filter of filterFlistChildren. */
  predicate IsChild(dirName: Name, name: Name) {
    if dirName == [DOT] then name != [DOT] && Plain(name)
    else dirName + [SLASH] <= name && Plain(name[|dirName| + 1..])
  }

  /** The path of the directory an entry belongs to. */
  function Parent(name: Name): Name {
    var cs := Split(name);
    if |cs| == 1 then [DOT] else Join(cs[..|cs| - 1])
  }

  /** The last component. */
  function BaseName(name: Name): Name {
    var cs := Split(name);
    cs[|cs| - 1]
  }

  lemma {:induction false} PlainSplit(name: Name)
    ensures Plain(name) <==> |Split(name)| == 1
  {
    if Plain(name) {
      SplitCons(name, []);
    }
    if |Split(name)| == 1 {
      SplitPlain(name);
      JoinOfSplit(name);
    }
  }

  /** name = d/rel with a plain rel: d is all components but the last. */
  lemma ChildSplit(d: Name, rel: Name)
    requires Plain(rel)
    ensures Split(d + ([SLASH] + rel)) == Split(d) + [rel]
    ensures Parent(d + ([SLASH] + rel)) == d && BaseName(d + ([SLASH] + rel)) == rel
  {
    SplitConcat(d, rel);
    SplitCons(rel, []);
    JoinOfSplit(d);
    var cs := Split(d) + [rel];
    assert cs[..|cs| - 1] == Split(d);
  }

  lemma ParentSplit(name: Name)
    requires |Split(name)| > 1
    ensures name == Parent(name) + ([SLASH] + BaseName(name)) && Plain(BaseName(name))
  {
    SplitPlain(name);
    JoinOfSplit(name);
    JoinLast(Split(name));
  }

  lemma {:induction false} JoinLast(cs: seq<Name>)
    requires |cs| > 1
    ensures Join(cs) == Join(cs[..|cs| - 1]) + ([SLASH] + cs[|cs| - 1])
  {
    var init, last := cs[..|cs| - 1], cs[|cs| - 1];
    JoinConcat(init, [last]);
    assert cs == init + [last];
  }

  /** The components of a valid path other than "." never spell ".". */
  lemma ParentNotDot(name: Name)
    requires ValidPath(name) && |Split(name)| > 1
    ensures Parent(name) != [DOT]
  {
    var cs := Split(name);
    var init := cs[..|cs| - 1];
    SplitDot();
    SplitPlain(name);
    SplitOfJoin(init);
    assert init[0] == cs[0];
  }

  /** An entry is a child of exactly one path: its parent's. */
  lemma ChildOfParentOnly(d: Name, name: Name)
    requires ValidPath(name) && name != [DOT]
    ensures IsChild(d, name) <==> d == Parent(name)
  {
    PlainSplit(name);
    if |Split(name)| > 1 {
      ParentSplit(name);
      ParentNotDot(name);
      var p, b := Parent(name), BaseName(name);
      assert name[|p| + 1..] == b;
    }
    if d != [DOT] && IsChild(d, name) {
      var rel := name[|d| + 1..];
      assert name == d + ([SLASH] + rel);
      ChildSplit(d, rel);
      SplitConcat(d, rel);
    }
  }

  /** A list in which every entry's directory is listed, as a directory. */
  ghost predicate Closed(ns: seq<Node>) {
    && (forall i :: 0 <= i < |ns| ==> ValidPath(ns[i].name))
    && (forall i, j :: 0 <= i < j < |ns| ==> ns[i].name != ns[j].name)
    && (forall i :: 0 <= i < |ns| && ns[i].name != [DOT] ==> Node(Parent(ns[i].name), true) in ns)
  }

  predicate OnlyListing(ns: seq<Node>, p: nat, name: Name)
    requires p < |ns|
  {
    IsChild(ns[p].name, name) && forall q :: 0 <= q < |ns| && q != p ==> !IsChild(ns[q].name, name)
  }

  /** Over such a tree every entry but the top is listed in one directory, and
      in no other. */
  lemma ListedExactlyOnce(ns: seq<Node>, i: nat)
    requires Closed(ns) && i < |ns| && ns[i].name != [DOT]
    ensures exists p :: 0 <= p < |ns| && ns[p].dir && OnlyListing(ns, p, ns[i].name)
  {
    var name := ns[i].name;
    var p :| 0 <= p < |ns| && ns[p] == Node(Parent(name), true);
    ChildOfParentOnly(ns[p].name, name);
    forall q | 0 <= q < |ns| && q != p ensures !IsChild(ns[q].name, name) {
      ChildOfParentOnly(ns[q].name, name);
      assert ns[q].name != ns[p].name;
    }
  }

  /** Siblings have different base names, so ordering by base name is strict. */
  lemma SiblingsDiffer(d: Name, a: Name, b: Name)
    requires ValidPath(a) && ValidPath(b) && a != [DOT] && b != [DOT] && a != b
    requires IsChild(d, a) && IsChild(d, b)
    ensures BaseName(a) != BaseName(b)
  {
    ChildOfParentOnly(d, a);
    ChildOfParentOnly(d, b);
    PlainSplit(a);
    PlainSplit(b);
    JoinOfSplit(a);
    JoinOfSplit(b);
    if |Split(a)| > 1 {
      ParentSplit(a);
      ParentNotDot(a);
    }
    if |Split(b)| > 1 {
      ParentSplit(b);
      ParentNotDot(b);
    }
  }

  function BaseCmp(): (Node, Node) -> int {
    (a: Node, b: Node) => Lex(BaseName(a.name), BaseName(b.name))
  }

  lemma BaseOrders(ns: seq<Node>)
    ensures StableSort.Orders(BaseCmp(), iset n | n in ns)
  {
    forall a: Node, b: Node | BaseCmp()(a, b) > 0 ensures BaseCmp()(b, a) <= 0 {
      LexFlip(BaseName(a.name), BaseName(b.name));
    }
    forall a: Node, b: Node, c: Node | BaseCmp()(a, b) <= 0 && BaseCmp()(b, c) <= 0 ensures BaseCmp()(a, c) <= 0 {
      LexWeakTrans(BaseName(a.name), BaseName(b.name), BaseName(c.name));
    }
  }

  lemma LexWeakTrans(a: Name, b: Name, c: Name)
    requires Lex(a, b) <= 0 && Lex(b, c) <= 0
    ensures Lex(a, c) <= 0
  {
    LexZero(a, b);
    LexZero(b, c);
    if a != b && b != c {
      LexTrans(a, b, c);
    }
  }

  /** The children in list order. */
  function Filter(dirName: Name, ns: seq<Node>): seq<Node> {
    if ns == [] then []
    else (if IsChild(dirName, ns[0].name) then [ns[0]] else []) + Filter(dirName, ns[1..])
  }

  lemma {:induction false} FilterExact(dirName: Name, ns: seq<Node>, n: Node)
    ensures multiset(Filter(dirName, ns))[n] == if IsChild(dirName, n.name) then multiset(ns)[n] else 0
  {
    if ns != [] {
      FilterExact(dirName, ns[1..], n);
      assert ns == [ns[0]] + ns[1..];
    }
  }

  /** filterFlistChildren: the children, all of them and no others, as often as
      they are listed, in base-name order. */
  method FilterFlistChildren(entries: seq<Node>, dirName: Name) returns (children: seq<Node>)
    ensures forall n :: multiset(children)[n] == if IsChild(dirName, n.name) then multiset(entries)[n] else 0
    ensures forall i, j :: 0 <= i < j < |children| ==>
      Lex(BaseName(children[i].name), BaseName(children[j].name)) <= 0
  {
    children := [];
    assert entries[0..] == entries;
    for i := 0 to |entries|
      invariant children + Filter(dirName, entries[i..]) == Filter(dirName, entries)
    {
      assert entries[i..][1..] == entries[i + 1..];
      if IsChild(dirName, entries[i].name) {
        children := children + [entries[i]];
      }
    }
    assert children + [] == children;
    forall n ensures multiset(children)[n] == if IsChild(dirName, n.name) then multiset(entries)[n] else 0 {
      FilterExact(dirName, entries, n);
    }
    children := SortChildren(children);
  }

  method SortChildren(children: seq<Node>) returns (sorted: seq<Node>)
    ensures multiset(sorted) == multiset(children)
    ensures forall i, j :: 0 <= i < j < |sorted| ==> Lex(BaseName(sorted[i].name), BaseName(sorted[j].name)) <= 0
  {
    BaseOrders(children);
    StableSort.SortKeeps(BaseCmp(), children);
    StableSort.SortSorts(BaseCmp(), (iset n | n in children), children);
    sorted := StableSort.Sort(BaseCmp(), children);
    forall i, j | 0 <= i < j < |sorted| ensures Lex(BaseName(sorted[i].name), BaseName(sorted[j].name)) <= 0 {
      assert BaseCmp()(sorted[i], sorted[j]) <= 0;
    }
  }

  // ---------------------------------------------------------------------- the pages

  /** One ReadDir call: a page, or the end of the directory. */
  datatype Page = Page(nodes: seq<Node>) | Done

  function PageAt(children: seq<Node>, off: nat, n: int): (Page, nat)
    requires off <= |children|
  {
    if off == |children| then (if n <= 0 then Page([]) else Done, off)
    else
      var m := if n <= 0 || n > |children| - off then |children| - off else n;
      (Page(children[off..off + m]), off + m)
  }

  class ModuleDirFile {
    const children: seq<Node>
    var off: nat

    constructor (children: seq<Node>)
      ensures this.children == children && off == 0
    {
      this.children, off := children, 0;
    }

    method ReadDir(n: int) returns (page: Page)
      requires off <= |children|
      modifies this
      ensures (page, off) == PageAt(children, old(off), n)
      ensures off <= |children|
    {
      if off >= |children| {
        if n <= 0 {
          return Page([]);
        }
        return Done;
      }
      var m := n;
      if m <= 0 || m > |children| - off {
        m := |children| - off;
      }
      var out: seq<Node> := [];
      for i := 0 to m
        invariant out == children[off..off + i]
        modifies {}
      {
        out := out + [children[off + i]];
      }
      off := off + m;
      return Page(out);
    }
  }

  /** What a sequence of page requests delivers, from some offset on. */
  function Delivered(children: seq<Node>, off: nat, sizes: seq<int>): (r: (seq<Node>, nat))
    requires off <= |children|
    ensures r.1 <= |children|
    decreases |sizes|
  {
    if sizes == [] then ([], off)
    else
      var (page, off') := PageAt(children, off, sizes[0]);
      var (rest, end) := Delivered(children, off', sizes[1..]);
      ((if page.Page? then page.nodes else []) + rest, end)
  }

  /** Any page sizes deliver the children in order, without gap or repeat; a
      request without limit, or one answered by the end of the directory, means all were delivered. */
  lemma {:induction false} PagesDeliverAll(children: seq<Node>, off: nat, sizes: seq<int>)
    requires off <= |children|
    ensures var (got, end) := Delivered(children, off, sizes);
      && off <= end && got == children[off..end]
      && (forall i :: 0 <= i < |sizes| && sizes[i] <= 0 ==> end == |children|)
      && (forall n :: n > 0 && PageAt(children, end, n).0 == Done ==> end == |children|)
    decreases |sizes|
  {
    if sizes != [] {
      var (page, off') := PageAt(children, off, sizes[0]);
      PagesDeliverAll(children, off', sizes[1..]);
      var (rest, end) := Delivered(children, off', sizes[1..]);
      assert children[off..end] == children[off..off'] + children[off'..end];
      if sizes[0] <= 0 {
        assert off' == |children|;
      }
      forall i | 0 <= i < |sizes| && sizes[i] <= 0 ensures end == |children| {
        if i > 0 {
          assert sizes[1..][i - 1] == sizes[i];
        }
      }
    }
  }
}
