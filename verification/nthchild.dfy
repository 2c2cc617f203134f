/** Expr.filter.CHILD: :first-child, :only-of-type, :nth-child(an+b), :nth-last-child and
    their kin, with the indexes cached on the parent and on the elements. */
module NthChild {
  import opened Dom

  datatype Position = First | Last | Only | Nth | NthLast

  /** Which nodes are counted: all elements, or those of one (lower-case) name. */
  datatype Kind = Elements | Named(name: string)

  /** Lower-case node names. */
  type Names = int -> string

  ghost predicate Counts(doc: Document, names: Names, kind: Kind, node: int)
    requires doc.Valid() && doc.Has(node)
  {
    match kind
    case Elements => doc.element[node]
    case Named(name) => names(node) == name
  }

  /** How many of p's children with an index below k are counted. */
  ghost function Count(doc: Document, names: Names, kind: Kind, p: int, k: int): nat
    requires doc.Valid() && doc.Has(p) && 0 <= k <= |doc.kids[p]|
    decreases k
  {
    if k == 0 then 0
    else Count(doc, names, kind, p, k - 1) + if Counts(doc, names, kind, doc.kids[p][k - 1]) then 1 else 0
  }

  ghost predicate Parented(doc: Document, node: int)
    requires doc.Valid()
  {
    doc.Has(node) && doc.parent[node] != NIL
  }

  /** How many counted siblings come before node. */
  ghost function Before(doc: Document, names: Names, kind: Kind, node: int): nat
    requires doc.Valid() && Parented(doc, node)
  {
    Count(doc, names, kind, doc.parent[node], doc.pos[node])
  }

  /** How many counted siblings come after node. */
  ghost function After(doc: Document, names: Names, kind: Kind, node: int): int
    requires doc.Valid() && Parented(doc, node)
  {
    var p := doc.parent[node];
    Count(doc, names, kind, p, |doc.kids[p]|) - Count(doc, names, kind, p, doc.pos[node] + 1)
  }

  /** Section 6.6.5.2 of Selectors Level 3: a*n+b equals the rank for some n >= 0. */
  ghost predicate InProgression(a: int, b: int, rank: int) {
    exists n :: 0 <= n && Term(a, b, n) == rank
  }

  ghost function Term(a: int, b: int, n: int): int {
    a * n + b
  }

  /** What the pseudo-class asks of an element. */
  ghost predicate Selected(doc: Document, names: Names, position: Position, ofType: bool, a: int, b: int, elem: int)
    requires doc.Valid() && doc.Has(elem)
  {
    var kind := if ofType then Named(names(elem)) else Elements;
    && Parented(doc, elem)
    && match position
       case First => Before(doc, names, kind, elem) == 0
       case Last => After(doc, names, kind, elem) == 0
       case Only => Before(doc, names, kind, elem) == 0 && After(doc, names, kind, elem) == 0
       case Nth => InProgression(a, b, Before(doc, names, kind, elem) + 1)
       case NthLast => InProgression(a, b, After(doc, names, kind, elem) + 1)
  }

  /** The same in the standard, which counts among the children of a parent element. */
  ghost predicate InStandard(doc: Document, names: Names, position: Position, ofType: bool, a: int, b: int, elem: int)
    requires doc.Valid() && doc.Has(elem)
  {
    var kind := if ofType then Named(names(elem)) else Elements;
    && Parented(doc, elem) && doc.element[doc.parent[elem]]
    && var before, after := Before(doc, names, kind, elem), After(doc, names, kind, elem);
       match position
       case First => before == 0
       case Last => after == 0
       case Only => before + after == 0
       case Nth => InProgression(a, b, before + 1)
       case NthLast => InProgression(a, b, after + 1)
  }

  /** The children of p at positions from j up to, but not including, k that are counted. */
  ghost function Counted(doc: Document, names: Names, kind: Kind, p: int, j: int, k: int): set<int>
    requires doc.Valid()
  {
    set x: int | 0 <= x < |doc.parent| && doc.parent[x] == p && j <= doc.pos[x] < k
                 && (match kind case Elements => doc.element[x] case Named(name) => names(x) == name)
  }

  lemma {:induction false} CountIsSize(doc: Document, names: Names, kind: Kind, p: int, j: int, k: int)
    requires doc.Valid() && doc.Has(p) && 0 <= j <= k <= |doc.kids[p]|
    ensures Count(doc, names, kind, p, k) - Count(doc, names, kind, p, j) == |Counted(doc, names, kind, p, j, k)|
    decreases k
  {
    if j < k {
      CountIsSize(doc, names, kind, p, j, k - 1);
      CountedMore(doc, names, kind, p, j, k);
      hide Counted, Counts, Document.Linked, Document.Rooted;
    } else {
      assert Counted(doc, names, kind, p, j, k) == {};
    }
  }

  lemma CountedMore(doc: Document, names: Names, kind: Kind, p: int, j: int, k: int)
    requires doc.Valid() && doc.Has(p) && 0 <= j < k <= |doc.kids[p]|
    ensures var x, fewer := doc.kids[p][k - 1], Counted(doc, names, kind, p, j, k - 1);
      && doc.Has(x) && x !in fewer
      && Counted(doc, names, kind, p, j, k) == if Counts(doc, names, kind, x) then fewer + {x} else fewer
  {
    hide Document.Rooted;
  }

  /** The ranks are numbers of siblings: of those before a node and of those after it, the
      elements or the nodes of the name. */
  lemma RanksAreSizes(doc: Document, names: Names, kind: Kind, node: int)
    requires doc.Valid() && Parented(doc, node)
    ensures var p := doc.parent[node];
      && Before(doc, names, kind, node) == |Counted(doc, names, kind, p, 0, doc.pos[node])|
      && After(doc, names, kind, node) == |Counted(doc, names, kind, p, doc.pos[node] + 1, |doc.kids[p]|)|
  {
    var p := doc.parent[node];
    CountIsSize(doc, names, kind, p, 0, doc.pos[node]);
    CountIsSize(doc, names, kind, p, doc.pos[node] + 1, |doc.kids[p]|);
  }

  /** The code asks for a parent of any kind: the two agree if and only if the parent is an
      element or the element is not selected, as the root element is not by the standard. */
  lemma AgreesWithStandard(doc: Document, names: Names, position: Position, ofType: bool, a: int, b: int, elem: int)
    requires doc.Valid() && doc.Has(elem)
    ensures var selected := Selected(doc, names, position, ofType, a, b, elem);
      && (Parented(doc, elem) && doc.element[doc.parent[elem]] ==>
            (InStandard(doc, names, position, ofType, a, b, elem) <==> selected))
      && (!(Parented(doc, elem) && doc.element[doc.parent[elem]]) ==>
            !InStandard(doc, names, position, ofType, a, b, elem))
  {
    if Parented(doc, elem) {
      var kind := if ofType then Named(names(elem)) else Elements;
      CountMonotone(doc, names, kind, doc.parent[elem], doc.pos[elem] + 1, |doc.kids[doc.parent[elem]]|);
    }
  }

  /** The only child of a document is :first-child by the code, and not by the standard. */
  lemma RootIsFirstChild(names: Names)
    ensures exists doc: Document ::
      && doc.Valid() && doc.Has(1)
      && Selected(doc, names, First, false, 0, 0, 1) && !InStandard(doc, names, First, false, 0, 0, 1)
  {
    var doc := Document([NIL, 0], [0, 0], [[1], []], [false, true]);
    assert doc.Shaped() && doc.Linked() && doc.Rooted();
    assert Selected(doc, names, First, false, 0, 0, 1);
  }

  // ---------- the arithmetic test ----------

  /** JavaScript's remainder, which takes the sign of the dividend. */
  function Remainder(x: int, y: int): int
    requires y != 0
  {
    var m := (if x < 0 then -x else x) % (if y < 0 then -y else y);
    if x < 0 then -m else m
  }

  /** diff === first || ( diff % first === 0 && diff / first >= 0 ), where a division by
      zero gives NaN or an infinity and % by zero NaN. */
  predicate OnCycle(first: int, diff: int) {
    diff == first || (first != 0 && Remainder(diff, first) == 0 && diff as real / first as real >= 0.0)
  }

  lemma QuotientSign(x: int, y: int)
    requires y != 0
    ensures x as real / y as real >= 0.0 <==> x == 0 || (x > 0 <==> y > 0)
  {
  }

  lemma DivisionExact(x: nat, m: nat) returns (q: nat)
    requires m > 0 && x % m == 0
    ensures m * q == x
  {
    q := x / m;
  }

  lemma MultipleModulo(m: nat, q: nat)
    requires m > 0
    ensures (m * q) % m == 0
  {
    var x := m * q;
    var d, r := x / m, x % m;
    assert m * d + r == m * q;
    assert m * (q - d) == r;
    assert q - d >= 1 ==> m * (q - d) >= m;
    assert q - d <= -1 ==> m * (d - q) >= m;
  }

  lemma OnCycleIffTerm(a: int, b: int, rank: int)
    ensures OnCycle(a, rank - b) <==> InProgression(a, b, rank)
  {
    if OnCycle(a, rank - b) {
      TermFromCycle(a, b, rank);
    }
    if n :| 0 <= n && Term(a, b, n) == rank {
      CycleFromTerm(a, b, rank, n);
    }
  }

  lemma TermFromCycle(a: int, b: int, rank: int)
    requires OnCycle(a, rank - b)
    ensures InProgression(a, b, rank)
  {
    var diff := rank - b;
    if diff == a {
      assert Term(a, b, 1) == rank;
    } else {
      QuotientSign(diff, a);
      var q := DivisionExact(if diff < 0 then -diff else diff, if a < 0 then -a else a);
      assert a * q == diff;
      assert Term(a, b, q) == rank;
    }
  }

  lemma CycleFromTerm(a: int, b: int, rank: int, n: nat)
    requires Term(a, b, n) == rank
    ensures OnCycle(a, rank - b)
  {
    var diff := rank - b;
    assert diff == a * n;
    if a != 0 {
      MultipleModulo(if a < 0 then -a else a, n);
      assert (if diff < 0 then -diff else diff) == (if a < 0 then -a else a) * n;
      QuotientSign(diff, a);
    }
  }

  // ---------- counting along the siblings ----------

  ghost function One(b: bool): nat {
    if b then 1 else 0
  }

  lemma {:induction false} CountMonotone(doc: Document, names: Names, kind: Kind, p: int, j: int, k: int)
    requires doc.Valid() && doc.Has(p) && 0 <= j <= k <= |doc.kids[p]|
    ensures Count(doc, names, kind, p, j) <= Count(doc, names, kind, p, k)
    decreases k - j
  {
    if j < k {
      CountMonotone(doc, names, kind, p, j + 1, k);
    }
  }

  /** Going to the next sibling passes node. */
  lemma NextCounts(doc: Document, names: Names, kind: Kind, node: int)
    requires doc.Valid() && Parented(doc, node)
    ensures var next := doc.Next(node);
      if next == NIL then After(doc, names, kind, node) == 0 && doc.pos[node] + 1 == |doc.kids[doc.parent[node]]|
      else
        && doc.pos[next] < |doc.kids[doc.parent[node]]|
        && Before(doc, names, kind, next) == Before(doc, names, kind, node) + One(Counts(doc, names, kind, node))
        && After(doc, names, kind, node) == After(doc, names, kind, next) + One(Counts(doc, names, kind, next))
  {
  }

  /** Going to the previous sibling passes node, seen from the end. */
  lemma PreviousCounts(doc: Document, names: Names, kind: Kind, node: int)
    requires doc.Valid() && Parented(doc, node)
    ensures var previous := doc.Previous(node);
      if previous == NIL then Before(doc, names, kind, node) == 0 && doc.pos[node] == 0
      else
        && After(doc, names, kind, previous) == After(doc, names, kind, node) + One(Counts(doc, names, kind, node))
        && Before(doc, names, kind, node) ==
             Before(doc, names, kind, previous) + One(Counts(doc, names, kind, previous))
  {
  }

  lemma FirstAndLast(doc: Document, names: Names, kind: Kind, elem: int)
    requires doc.Valid() && Parented(doc, elem)
    ensures var p := doc.parent[elem];
      && |doc.kids[p]| > 0
      && Parented(doc, doc.kids[p][0]) && doc.parent[doc.kids[p][0]] == p && doc.pos[doc.kids[p][0]] == 0
      && Before(doc, names, kind, doc.kids[p][0]) == 0
      && Parented(doc, doc.kids[p][|doc.kids[p]| - 1]) && doc.parent[doc.kids[p][|doc.kids[p]| - 1]] == p
      && doc.pos[doc.kids[p][|doc.kids[p]| - 1]] == |doc.kids[p]| - 1
      && After(doc, names, kind, doc.kids[p][|doc.kids[p]| - 1]) == 0
      && 0 <= doc.pos[elem] < |doc.kids[p]|
  {
  }

  /** Siblings at the same position are the same node. */
  lemma SamePosition(doc: Document, x: int, y: int)
    requires doc.Valid() && Parented(doc, x) && Parented(doc, y) && doc.parent[x] == doc.parent[y]
    ensures doc.pos[x] == doc.pos[y] <==> x == y
  {
  }

  // ---------- the filter and its caches ----------

  /** The caches of :nth-child on a parent, and of :nth-last-child on an element. */
  datatype ParentCache = ParentCache(run: int, nodeIndex: int, diff: int)
  datatype NodeCache = NodeCache(run: int, diff: int)

  predicate CountsNode(doc: Document, names: Names, kind: Kind, node: int)
    requires doc.Valid() && doc.Has(node)
    ensures CountsNode(doc, names, kind, node) <==> Counts(doc, names, kind, node)
  {
    match kind
    case Elements => doc.element[node]
    case Named(name) => names(node) == name
  }

  class ChildFilter {
    var dirruns: int
    var doc: Document
    var names: Names
    var parentCache: map<int, ParentCache>  // parent[expando]["nth"]
    var nodeCache: map<int, NodeCache>      // node[expando]["nth-last"]

    /** Entries of this run hold true positions. */
    ghost predicate Valid()
      reads this
    {
      && doc.Valid()
      && (forall p :: p in parentCache ==> parentCache[p].run <= dirruns)
      && (forall n :: n in nodeCache ==> nodeCache[n].run <= dirruns)
      && (forall p :: p in parentCache && parentCache[p].run == dirruns ==> TrueIndex(doc, names, p, parentCache[p]))
      && (forall n :: n in nodeCache && nodeCache[n].run == dirruns ==> TrueRank(doc, names, n, nodeCache[n]))
    }

    static ghost predicate TrueIndex(doc: Document, names: Names, p: int, cache: ParentCache)
      requires doc.Valid()
    {
      && doc.Has(p) && 0 <= cache.nodeIndex < |doc.kids[p]|
      && var node := doc.kids[p][cache.nodeIndex];
         Parented(doc, node) && doc.parent[node] == p && doc.pos[node] == cache.nodeIndex
         && doc.element[node] && cache.diff == Before(doc, names, Elements, node) + 1
    }

    static ghost predicate TrueRank(doc: Document, names: Names, n: int, cache: NodeCache)
      requires doc.Valid()
    {
      Parented(doc, n) && cache.diff == After(doc, names, Elements, n) + 1
    }

    constructor (doc: Document, names: Names)
      requires doc.Valid()
      ensures Valid()
    {
      this.dirruns, this.doc, this.names, parentCache, nodeCache := 0, doc, names, map[], map[];
    }

    method BeginRun(doc: Document, names: Names)
      requires Valid() && doc.Valid()
      modifies this
      ensures Valid() && this.doc == doc && this.names == names
    {
      dirruns, this.doc, this.names := dirruns + 1, doc, names;
    }

    /** The search of :nth-child: on from the cached child, then once from the first. */
    static method SeekForward(doc: Document, names: Names, elem: int, nodeIndex0: int, diff0: int)
        returns (nodeIndex: int, diff: int)
      requires doc.Valid() && Parented(doc, elem) && doc.element[elem]
      requires nodeIndex0 != 0 ==> TrueIndex(doc, names, doc.parent[elem], ParentCache(0, nodeIndex0, diff0))
      ensures nodeIndex == doc.pos[elem]
      ensures diff == Before(doc, names, Elements, elem) + 1
    {
      hide Document.Linked, Document.Rooted;
      var p := doc.parent[elem];
      nodeIndex, diff := nodeIndex0, diff0;
      FirstAndLast(doc, names, Elements, elem);
      var node := if nodeIndex != 0 then doc.kids[p][nodeIndex] else NIL;
      var start := true;
      while true
        invariant node == NIL ==> start
        invariant node != NIL ==> Parented(doc, node) && doc.parent[node] == p && doc.pos[node] == nodeIndex
        invariant node != NIL ==> diff == Before(doc, names, Elements, node) + One(Counts(doc, names, Elements, node))
        invariant !start ==> nodeIndex < doc.pos[elem]
        decreases start, if node == NIL then |doc.kids[p]| else |doc.kids[p]| - nodeIndex
      {
        nodeIndex := nodeIndex + 1;
        if node != NIL {
          NextCounts(doc, names, Elements, node);
          node := doc.Next(node);
        }
        if node == NIL {
          // start.pop() yields the first child once: a second time elem would have been passed
          assert start;
          diff, nodeIndex, node, start := 0, 0, doc.kids[p][0], false;
        }
        SamePosition(doc, node, elem);
        if doc.element[node] {
          diff := diff + 1;
          if node == elem {
            return;
          }
        }
      }
    }

    /** :nth-child without the cache (XML), and :nth-of-type: count from the first child. */
    static method SeekFromFirst(doc: Document, names: Names, kind: Kind, elem: int) returns (diff: int)
      requires doc.Valid() && Parented(doc, elem) && Counts(doc, names, kind, elem)
      ensures diff == Before(doc, names, kind, elem) + 1
    {
      hide Document.Linked, Document.Rooted;
      FirstAndLast(doc, names, kind, elem);
      var node := doc.kids[doc.parent[elem]][0];
      diff := 0;
      while true
        invariant Parented(doc, node) && doc.parent[node] == doc.parent[elem] && doc.pos[node] <= doc.pos[elem]
        invariant diff == Before(doc, names, kind, node)
        decreases doc.pos[elem] - doc.pos[node]
      {
        SamePosition(doc, node, elem);
        if CountsNode(doc, names, kind, node) {
          diff := diff + 1;
          if node == elem {
            return;
          }
        }
        NextCounts(doc, names, kind, node);
        NextCounts(doc, names, kind, elem);
        node := doc.Next(node);
      }
    }

    /** :nth-last-child and :nth-last-of-type: count from the last child, recording the
        index of every element passed where the cache may be used. */
    method SeekFromLast(kind: Kind, useCache: bool, elem: int) returns (diff: int)
      requires Valid() && Parented(doc, elem) && Counts(doc, names, kind, elem)
      requires useCache ==> kind == Elements
      modifies `nodeCache
      ensures Valid() && diff == After(doc, names, kind, elem) + 1
    {
      hide Document.Linked, Document.Rooted;
      FirstAndLast(doc, names, kind, elem);
      var node := doc.kids[doc.parent[elem]][|doc.kids[doc.parent[elem]]| - 1];
      diff := 0;
      while true
        invariant Valid()
        invariant Parented(doc, node) && doc.parent[node] == doc.parent[elem] && doc.pos[elem] <= doc.pos[node]
        invariant diff == After(doc, names, kind, node)
        decreases doc.pos[node]
      {
        SamePosition(doc, node, elem);
        if CountsNode(doc, names, kind, node) {
          diff := diff + 1;
          if useCache {
            nodeCache := nodeCache[node := NodeCache(dirruns, diff)];
          }
          if node == elem {
            return;
          }
        }
        PreviousCounts(doc, names, kind, node);
        node := doc.Previous(node);
      }
    }

    /** The loop of :first-, :last- and :only-: no counted sibling in the given direction. */
    static method Alone(doc: Document, names: Names, kind: Kind, elem: int, backward: bool) returns (alone: bool)
      requires doc.Valid() && Parented(doc, elem)
      ensures alone <==> (if backward then Before(doc, names, kind, elem) else After(doc, names, kind, elem)) == 0
    {
      hide Document.Linked, Document.Rooted;
      var node := elem;
      while true
        invariant Parented(doc, node) && doc.parent[node] == doc.parent[elem]
        invariant if backward then Before(doc, names, kind, node) == Before(doc, names, kind, elem)
                  else After(doc, names, kind, node) == After(doc, names, kind, elem)
        decreases if backward then doc.pos[node] else |doc.kids[doc.parent[elem]]| - doc.pos[node]
      {
        PreviousCounts(doc, names, kind, node);
        NextCounts(doc, names, kind, node);
        node := if backward then doc.Previous(node) else doc.Next(node);
        if node == NIL {
          return true;
        }
        if CountsNode(doc, names, kind, node) {
          NonNegative(doc, names, kind, node);
          return false;
        }
      }
    }

    static lemma NonNegative(doc: Document, names: Names, kind: Kind, node: int)
      requires doc.Valid() && Parented(doc, node)
      ensures After(doc, names, kind, node) >= 0
    {
      CountMonotone(doc, names, kind, doc.parent[node], doc.pos[node] + 1, |doc.kids[doc.parent[node]]|);
    }

    /** The closure of Expr.filter.CHILD: the caches never show in its answer. */
    method Test(position: Position, ofType: bool, first: int, last: int, xml: bool, elem: int) returns (selected: bool)
      requires Valid() && doc.Element(elem)
      modifies `parentCache, `nodeCache
      ensures Valid()
      ensures selected == Selected(doc, names, position, ofType, first, last, elem)
    {
      hide Document.Linked, Document.Rooted;
      if doc.parent[elem] == NIL {
        return false;
      }
      var kind := if ofType then Named(names(elem)) else Elements;
      if position.First? || position.Last? || position.Only? {
        // :only- walks to both sides, the previous siblings first
        selected := Alone(doc, names, kind, elem, !position.Last?);
        if selected && position.Only? {
          selected := Alone(doc, names, kind, elem, false);
        }
        return;
      }
      NonNegative(doc, names, kind, elem);
      if first == 1 && last == 0 {
        AlwaysInProgression(Before(doc, names, kind, elem) + 1);
        AlwaysInProgression(After(doc, names, kind, elem) + 1);
        return true;
      }
      var useCache := !xml && !ofType;
      var diff;
      if position.Nth? && useCache {
        var p := doc.parent[elem];
        var cached := p in parentCache && parentCache[p].run == dirruns;
        var nodeIndex;
        nodeIndex, diff := SeekForward(doc, names, elem, if cached then parentCache[p].nodeIndex else 0,
                                       if cached then parentCache[p].diff else 0);
        FirstAndLast(doc, names, Elements, elem);
        SeatOf(doc, elem);
        parentCache := parentCache[p := ParentCache(dirruns, nodeIndex, diff)];
      } else if useCache && elem in nodeCache && nodeCache[elem].run == dirruns {
        diff := nodeCache[elem].diff;
      } else if position.Nth? {
        diff := SeekFromFirst(doc, names, kind, elem);
      } else {
        diff := SeekFromLast(kind, useCache, elem);
      }
      OnCycleIffTerm(first, last, diff);
      return OnCycle(first, diff - last);
    }

    static lemma SeatOf(doc: Document, elem: int)
      requires doc.Valid() && Parented(doc, elem)
      ensures doc.Has(doc.parent[elem]) && 0 <= doc.pos[elem] < |doc.kids[doc.parent[elem]]|
      ensures doc.kids[doc.parent[elem]][doc.pos[elem]] == elem
    {
    }

    /** an+b with a = 1 and b = 0 holds of every index. */
    static lemma AlwaysInProgression(rank: nat)
      ensures InProgression(1, 0, rank)
    {
      assert Term(1, 0, rank) == rank;
    }
  }
}
