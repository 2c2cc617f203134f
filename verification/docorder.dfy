/** Document order: the fallback comparator sortOrder with siblingCheck, and uniqueSort. */
module DocumentOrder {
  import opened Dom
  import opened Wrappers

  // ---------- preorder, the reference ----------

  /** The subtree of n in preorder. */
  ghost function Preorder(doc: Document, n: int): (s: seq<int>)
    requires doc.Valid() && doc.Has(n)
    decreases |doc.parent| - n, |doc.kids[n]| + 1
  {
    [n] + PreorderFrom(doc, n, 0)
  }

  /** The subtrees of p's children from the k-th on. */
  ghost function PreorderFrom(doc: Document, p: int, k: nat): seq<int>
    requires doc.Valid() && doc.Has(p) && k <= |doc.kids[p]|
    decreases |doc.parent| - p, |doc.kids[p]| - k
  {
    if k == |doc.kids[p]| then []
    else Preorder(doc, doc.kids[p][k]) + PreorderFrom(doc, p, k + 1)
  }

  /** a stands before b in s. */
  ghost predicate Precedes(s: seq<int>, a: int, b: int) {
    exists i, j :: 0 <= i < j < |s| && s[i] == a && s[j] == b
  }

  /** The ancestors of n from its root down to n itself. */
  ghost function Path(doc: Document, n: int): (path: seq<int>)
    requires doc.Valid() && doc.Has(n)
    ensures |path| > 0 && path[|path| - 1] == n
    ensures forall i :: 0 <= i < |path| ==> doc.Has(path[i])
    decreases n
  {
    if doc.Parent(n) == NIL then [n] else Path(doc, doc.Parent(n)) + [n]
  }

  ghost function Root(doc: Document, n: int): int
    requires doc.Valid() && doc.Has(n)
  {
    Path(doc, n)[0]
  }

  /** d is n or a descendant of n. */
  ghost predicate Under(doc: Document, n: int, d: int)
    requires doc.Valid() && doc.Has(n) && doc.Has(d)
  {
    Path(doc, n) <= Path(doc, d)
  }

  /** Each entry of a path is the parent of the next, and its own path is a prefix. */
  lemma {:induction false} PathSteps(doc: Document, n: int, i: nat)
    requires doc.Valid() && doc.Has(n) && i < |Path(doc, n)|
    ensures Path(doc, Path(doc, n)[i]) == Path(doc, n)[..i + 1]
    ensures i > 0 ==> doc.parent[Path(doc, n)[i]] == Path(doc, n)[i - 1]
    ensures i == 0 ==> doc.parent[Path(doc, n)[i]] == NIL
    decreases n
  {
    var path := Path(doc, n);
    if i + 1 == |path| {
      assert path[..i + 1] == path;
    } else {
      var init := Path(doc, doc.Parent(n));
      assert init == path[..|path| - 1];
      PathSteps(doc, doc.Parent(n), i);
      assert init[..i + 1] == path[..i + 1];
    }
  }

  /** The subtree of n holds exactly the nodes under n. */
  lemma {:induction false} SubtreeMembers(doc: Document, n: int, d: int)
    requires doc.Valid() && doc.Has(n)
    ensures d in Preorder(doc, n) <==> doc.Has(d) && Under(doc, n, d)
    decreases |doc.parent| - n, |doc.kids[n]| + 1
  {
    SubtreesMembers(doc, n, 0, d);
    if doc.Has(d) && Under(doc, n, d) && d != n {
      var depth := |Path(doc, n)|;
      assert Path(doc, n)[depth - 1] == n;
      assert Path(doc, d)[depth - 1] == n;
      assert |Path(doc, d)| > depth;
      var kid := Path(doc, d)[depth];
      PathSteps(doc, d, depth);
      assert Under(doc, doc.kids[n][doc.pos[kid]], d);
    }
  }

  lemma {:induction false} SubtreesMembers(doc: Document, p: int, k: nat, d: int)
    requires doc.Valid() && doc.Has(p) && k <= |doc.kids[p]|
    ensures d in PreorderFrom(doc, p, k) <==>
            doc.Has(d) && exists c :: k <= c < |doc.kids[p]| && Under(doc, doc.kids[p][c], d)
    ensures d in PreorderFrom(doc, p, k) ==> Under(doc, p, d) && d != p
    decreases |doc.parent| - p, |doc.kids[p]| - k
  {
    if k < |doc.kids[p]| {
      var kid := doc.kids[p][k];
      SubtreeMembers(doc, kid, d);
      SubtreesMembers(doc, p, k + 1, d);
      assert Path(doc, kid) == Path(doc, p) + [kid];
      if doc.Has(d) && Under(doc, kid, d) {
        assert |Path(doc, d)| > |Path(doc, p)|;
      }
    }
  }

  // ---------- preorder is a strict total order on a tree ----------

  ghost predicate Distinct(s: seq<int>) {
    forall i, j :: 0 <= i < j < |s| ==> s[i] != s[j]
  }

  lemma {:induction false} PreorderDistinct(doc: Document, n: int)
    requires doc.Valid() && doc.Has(n)
    ensures Distinct(Preorder(doc, n))
    decreases |doc.parent| - n, |doc.kids[n]| + 1
  {
    PreorderFromDistinct(doc, n, 0);
    SubtreesMembers(doc, n, 0, n);
  }

  lemma {:induction false} PreorderFromDistinct(doc: Document, p: int, k: nat)
    requires doc.Valid() && doc.Has(p) && k <= |doc.kids[p]|
    ensures Distinct(PreorderFrom(doc, p, k))
    decreases |doc.parent| - p, |doc.kids[p]| - k
  {
    if k < |doc.kids[p]| {
      var kid := doc.kids[p][k];
      PreorderDistinct(doc, kid);
      PreorderFromDistinct(doc, p, k + 1);
      forall d | d in Preorder(doc, kid) ensures d !in PreorderFrom(doc, p, k + 1) {
        SubtreeMembers(doc, kid, d);
        SubtreesMembers(doc, p, k + 1, d);
        forall c: nat | k + 1 <= c < |doc.kids[p]| ensures !Under(doc, doc.kids[p][c], d) {
          KidsApart(doc, p, k, c, d);
        }
      }
      DistinctConcat(Preorder(doc, kid), PreorderFrom(doc, p, k + 1));
    }
  }

  lemma DistinctConcat(s: seq<int>, t: seq<int>)
    requires Distinct(s) && Distinct(t) && forall d :: d in s ==> d !in t
    ensures Distinct(s + t)
  {
    var u := s + t;
    forall i, j | 0 <= i < j < |u| ensures u[i] != u[j] {
      if i < |s| <= j {
        assert u[i] in s && u[j] == t[j - |s|] && u[j] in t;
      }
    }
  }

  /** No node is under two children of p. */
  lemma KidsApart(doc: Document, p: int, j: nat, k: nat, d: int)
    requires doc.Valid() && doc.Has(p) && j < k < |doc.kids[p]| && doc.Has(d)
    requires Under(doc, doc.kids[p][j], d)
    ensures !Under(doc, doc.kids[p][k], d)
  {
    var depth := |Path(doc, p)|;
    assert Path(doc, doc.kids[p][j])[depth] == doc.kids[p][j];
    assert Path(doc, doc.kids[p][k])[depth] == doc.kids[p][k];
    assert doc.pos[doc.kids[p][j]] == j && doc.pos[doc.kids[p][k]] == k;
  }

  lemma PrecedesConcat(s: seq<int>, t: seq<int>, a: int, b: int)
    requires Precedes(s, a, b) || Precedes(t, a, b) || (a in s && b in t)
    ensures Precedes(s + t, a, b)
  {
    var u := s + t;
    if i, j :| 0 <= i < j < |s| && s[i] == a && s[j] == b {
      assert u[i] == a && u[j] == b;
    } else if i, j :| 0 <= i < j < |t| && t[i] == a && t[j] == b {
      assert u[|s| + i] == a && u[|s| + j] == b;
    } else {
      var i :| 0 <= i < |s| && s[i] == a;
      var j :| 0 <= j < |t| && t[j] == b;
      assert u[i] == a && u[|s| + j] == b;
    }
  }

  /** What stands in order below one child of p stands so among all children. */
  lemma {:induction false} OrderWithinKid(doc: Document, p: int, k: nat, c: nat, a: int, b: int)
    requires doc.Valid() && doc.Has(p) && k <= c < |doc.kids[p]|
    requires Precedes(Preorder(doc, doc.kids[p][c]), a, b)
    ensures Precedes(PreorderFrom(doc, p, k), a, b)
    decreases c - k
  {
    if k < c {
      OrderWithinKid(doc, p, k + 1, c, a, b);
    }
    PrecedesConcat(Preorder(doc, doc.kids[p][k]), PreorderFrom(doc, p, k + 1), a, b);
  }

  /** Nodes below an earlier child stand before nodes below a later one. */
  lemma {:induction false} OrderAcrossKids(doc: Document, p: int, k: nat, i: nat, j: nat, a: int, b: int)
    requires doc.Valid() && doc.Has(p) && k <= i < j < |doc.kids[p]| && doc.Has(a) && doc.Has(b)
    requires Under(doc, doc.kids[p][i], a) && Under(doc, doc.kids[p][j], b)
    ensures Precedes(PreorderFrom(doc, p, k), a, b)
    decreases i - k
  {
    hide Under, Precedes, Document.Rooted;
    if k < i {
      OrderAcrossKids(doc, p, k + 1, i, j, a, b);
    } else {
      SubtreeMembers(doc, doc.kids[p][k], a);
      SubtreesMembers(doc, p, k + 1, b);
    }
    PrecedesConcat(Preorder(doc, doc.kids[p][k]), PreorderFrom(doc, p, k + 1), a, b);
  }

  /** Document order in a subtree is that of the whole tree. */
  lemma {:induction false} OrderInTree(doc: Document, n: int, a: int, b: int)
    requires doc.Valid() && doc.Has(n)
    requires Precedes(Preorder(doc, n), a, b)
    ensures Precedes(Preorder(doc, Root(doc, n)), a, b)
    decreases n
  {
    var p := doc.Parent(n);
    if p != NIL {
      OrderWithinKid(doc, p, 0, doc.pos[n], a, b);
      PrecedesConcat([p], PreorderFrom(doc, p, 0), a, b);
      OrderInTree(doc, p, a, b);
    }
  }

  lemma PrecedesAsymmetric(s: seq<int>, a: int, b: int)
    requires Distinct(s) && Precedes(s, a, b)
    ensures !Precedes(s, b, a) && a != b
  {
  }

  // ---------- the comparator ----------

  /** A proper ancestor comes first. */
  lemma AncestorFirst(doc: Document, a: int, b: int)
    requires doc.Valid() && doc.Has(a) && doc.Has(b) && Path(doc, a) < Path(doc, b)
    ensures Precedes(Preorder(doc, Root(doc, a)), a, b)
  {
    assert a != b;
    SubtreeMembers(doc, a, b);
    assert b in PreorderFrom(doc, a, 0);
    PrecedesConcat([a], PreorderFrom(doc, a, 0), a, b);
    OrderInTree(doc, a, a, b);
  }

  /** Where two paths part, the order of the siblings decides. */
  lemma SiblingsDecide(doc: Document, a: int, b: int, i: nat)
    requires doc.Valid() && doc.Has(a) && doc.Has(b)
    requires 0 < i < |Path(doc, a)| && i < |Path(doc, b)|
    requires Path(doc, a)[..i] == Path(doc, b)[..i]
    requires doc.pos[Path(doc, a)[i]] < doc.pos[Path(doc, b)[i]]
    ensures Precedes(Preorder(doc, Root(doc, a)), a, b)
  {
    var x, y := Path(doc, a)[i], Path(doc, b)[i];
    PathSteps(doc, a, i);
    PathSteps(doc, b, i);
    var p := Path(doc, a)[i - 1];
    assert p == Path(doc, a)[..i][i - 1] == Path(doc, b)[..i][i - 1] == Path(doc, b)[i - 1];
    OrderAcrossKids(doc, p, 0, doc.pos[x], doc.pos[y], a, b);
    PrecedesConcat([p], PreorderFrom(doc, p, 0), a, b);
    OrderInTree(doc, p, a, b);
    PathSteps(doc, a, i - 1);
    assert Path(doc, a)[..i][0] == Path(doc, a)[0];
  }

  /** siblingCheck without the sourceIndex of old browsers; NIL is undefined. */
  method SiblingCheck(doc: Document, a: int, b: int) returns (r: int)
    requires doc.Valid() && (a == NIL || doc.Has(a)) && (b == NIL || doc.Has(b))
    ensures r == -1 || r == 1
    ensures a == NIL || b == NIL ==> (r == 1 <==> a != NIL)
    ensures a != NIL && b != NIL && a != b && doc.parent[a] == doc.parent[b] != NIL ==>
              (r == -1 <==> doc.pos[a] < doc.pos[b])
  {
    if a != NIL && b != NIL {
      var cur := doc.Next(a);
      while cur != NIL
        invariant cur == NIL || (doc.Has(cur) && doc.parent[cur] == doc.parent[a] != NIL && doc.pos[a] < doc.pos[cur])
        invariant doc.parent[a] == doc.parent[b] != NIL && doc.pos[a] < doc.pos[b] ==>
                    cur != NIL && doc.pos[cur] <= doc.pos[b]
        decreases if cur == NIL then 0 else |doc.kids[doc.parent[cur]]| - doc.pos[cur]
      {
        if cur == b {
          return -1;
        }
        cur := doc.Next(cur);
      }
    }
    return if a != NIL then 1 else -1;
  }

  /** The list of a node's ancestors, built by unshifting one parent after the other. */
  method Ancestors(doc: Document, n: int) returns (path: seq<int>)
    requires doc.Valid() && doc.Has(n)
    ensures path == Path(doc, n)
  {
    path := [n];
    var cur := doc.Parent(n);
    while cur != NIL
      invariant cur == NIL || doc.Has(cur)
      invariant (if cur == NIL then [] else Path(doc, cur)) + path == Path(doc, n)
      decreases cur
    {
      path := [cur] + path;
      cur := doc.Parent(cur);
    }
  }

  /** An index into an array that may run off its end. */
  function At(s: seq<int>, i: nat): int {
    if i < |s| then s[i] else NIL
  }

  /** The sign of r is the document order of a and b, nodes of one tree. */
  ghost predicate Decides(doc: Document, a: int, b: int, r: int)
    requires doc.Valid() && doc.Has(a) && doc.Has(b)
  {
    && (r < 0 <==> Precedes(Preorder(doc, Root(doc, a)), a, b))
    && (r > 0 <==> Precedes(Preorder(doc, Root(doc, a)), b, a))
    && (r == 0 <==> a == b)
  }

  /** Nodes of one tree, each with a parent or the document itself. */
  ghost predicate InOneTree(doc: Document, document: int, a: int, b: int)
    requires doc.Valid() && doc.Has(a) && doc.Has(b)
  {
    && Root(doc, a) == Root(doc, b)
    && (a == document || doc.parent[a] != NIL)
    && (b == document || doc.parent[b] != NIL)
  }

  /** indexOf: the first index of x in s, or -1. */
  function IndexOf(s: seq<int>, x: int): int {
    if x !in s then -1 else if s[0] == x then 0 else 1 + IndexOf(s[1..], x)
  }

  /** What the host's documents and the sort under way have to do with the comparator: the
      current document node, the window's, and results as they were if the host's sort is
      not stable. */
  datatype Setting = Setting(document: int, preferredDoc: int, sortInput: Option<seq<int>>)

  /** What the comparator computes: document order within a tree, except that a parentless
      node other than the document comes last; else the document's nodes first. */
  ghost function Comparison(doc: Document, env: Setting, a: int, b: int): int
    requires doc.Valid() && doc.Has(a) && doc.Has(b)
  {
    if a == b then 0
    else if doc.parent[a] == NIL || doc.parent[b] == NIL then
      if a == env.document then -1
      else if b == env.document then 1
      else if doc.parent[a] != NIL then -1
      else if doc.parent[b] != NIL then 1
      else if env.sortInput.Some? then IndexOf(env.sortInput.value, a) - IndexOf(env.sortInput.value, b)
      else 0
    else if Root(doc, a) == Root(doc, b) then
      if Precedes(Preorder(doc, Root(doc, a)), a, b) then -1 else 1
    else if Root(doc, a) == env.preferredDoc then -1
    else if Root(doc, b) == env.preferredDoc then 1
    else 0
  }

  /** For nodes of one tree the sign is document order, exactly if both have parents or are
      the document (or are the same node). */
  lemma ComparisonDecides(doc: Document, env: Setting, a: int, b: int)
    requires doc.Valid() && doc.Has(a) && doc.Has(b) && Root(doc, a) == Root(doc, b)
    ensures Decides(doc, a, b, Comparison(doc, env, a, b)) <==> a == b || InOneTree(doc, env.document, a, b)
  {
    if a == b {
      SameNode(doc, a);
    } else if doc.parent[a] == NIL {
      RootFirst(doc, a, b);
    } else if doc.parent[b] == NIL {
      RootFirst(doc, b, a);
      Opposite(doc, b, a);
    } else {
      TreeTotal(doc, a, b);
      OneWay(doc, a, b);
    }
  }

  /** A root element outside the document sorts after its child. */
  lemma ParentlessLast()
    ensures exists doc: Document, env: Setting, a, b ::
      && doc.Valid() && doc.Has(a) && doc.Has(b) && Root(doc, a) == Root(doc, b)
      && !Decides(doc, a, b, Comparison(doc, env, a, b))
  {
    var doc := Document([NIL, 0], [0, 0], [[1], []], [true, true]);
    var env := Setting(5, 5, None);
    assert doc.Shaped() && doc.Linked() && doc.Rooted();
    assert Path(doc, 0) == [0] && Path(doc, 1) == [0, 1];
    ComparisonDecides(doc, env, 0, 1);
    assert !Decides(doc, 0, 1, Comparison(doc, env, 0, 1));
  }

  /** Of two distinct nodes of one tree, one precedes the other. */
  lemma TreeTotal(doc: Document, a: int, b: int)
    requires doc.Valid() && doc.Has(a) && doc.Has(b) && a != b && Root(doc, a) == Root(doc, b)
    ensures Precedes(Preorder(doc, Root(doc, a)), a, b) || Precedes(Preorder(doc, Root(doc, a)), b, a)
  {
    var root := Root(doc, a);
    PathSteps(doc, a, 0);
    assert Path(doc, a)[..1] == [root] && Path(doc, b)[..1] == [root];
    SubtreeMembers(doc, root, a);
    SubtreeMembers(doc, root, b);
    hide Preorder, Precedes;
    DocumentOrderTotal(doc, root, a, b);
  }

  /** A parentless node and another one of its tree have no parentless partner. */
  lemma Opposite(doc: Document, a: int, b: int)
    requires doc.Valid() && doc.Has(a) && doc.Has(b) && a != b && Root(doc, a) == Root(doc, b)
    requires doc.parent[a] == NIL
    ensures doc.parent[b] != NIL
  {
  }

  /** Walks down the two lists while they agree. */
  method PartingIndex(ap: seq<int>, bp: seq<int>) returns (i: nat)
    requires |ap| > 0 && |bp| > 0 && ap[|ap| - 1] != bp[|bp| - 1]
    requires NIL !in ap && NIL !in bp
    ensures i <= |ap| && i <= |bp| && ap[..i] == bp[..i] && At(ap, i) != At(bp, i)
    ensures i == 0 ==> ap[0] != bp[0]
  {
    i := 0;
    while At(ap, i) == At(bp, i)
      invariant i <= |ap| && i <= |bp| && ap[..i] == bp[..i]
      invariant i > 0 ==> ap[0] == bp[0]
      decreases |ap| - i
    {
      assert ap[..|ap|] == ap && bp[..|bp|] == bp && ap[|ap| - 1] != bp[|bp| - 1];
      i := i + 1;
    }
  }

  lemma SameNode(doc: Document, a: int)
    requires doc.Valid() && doc.Has(a)
    ensures Decides(doc, a, a, 0)
  {
    PreorderDistinct(doc, Root(doc, a));
  }

  /** The paths of siblings part below their parent. */
  lemma SiblingPaths(doc: Document, a: int, b: int)
    requires doc.Valid() && doc.Has(a) && doc.Has(b) && a != b && doc.parent[a] == doc.parent[b] != NIL
    ensures var i := |Path(doc, doc.parent[a])|;
      && i < |Path(doc, a)| && i < |Path(doc, b)| && Path(doc, a)[..i] == Path(doc, b)[..i]
      && Path(doc, a)[i] == a && Path(doc, b)[i] == b
  {
  }

  /** The document node comes before every other node of its tree. */
  lemma RootFirst(doc: Document, a: int, b: int)
    requires doc.Valid() && doc.Has(a) && doc.Has(b) && a != b
    ensures doc.parent[a] == NIL && Root(doc, b) == Root(doc, a) ==> Decides(doc, a, b, -1) && Decides(doc, b, a, 1)
    ensures doc.parent[a] != NIL && doc.parent[b] == NIL ==> Root(doc, b) == b
  {
    if doc.parent[a] == NIL && Root(doc, b) == Root(doc, a) {
      assert Path(doc, a) == [a] <= Path(doc, b);
      AncestorFirst(doc, a, b);
      PreorderDistinct(doc, a);
      PrecedesAsymmetric(Preorder(doc, a), a, b);
    }
  }

  /** The paths of distinct nodes part at i: what decides their order. */
  lemma Parting(doc: Document, a: int, b: int, i: nat)
    requires doc.Valid() && doc.Has(a) && doc.Has(b) && a != b
    requires 0 < i <= |Path(doc, a)| && i <= |Path(doc, b)| && Path(doc, a)[..i] == Path(doc, b)[..i]
    requires At(Path(doc, a), i) != At(Path(doc, b), i)
    ensures var x, y := At(Path(doc, a), i), At(Path(doc, b), i);
            var before := if x == NIL || y == NIL then x == NIL else doc.pos[x] < doc.pos[y];
            && (x == NIL || doc.Has(x)) && (y == NIL || doc.Has(y))
            && (x != NIL && y != NIL ==> doc.parent[x] == doc.parent[y] != NIL)
            && (before ==> Precedes(Preorder(doc, Root(doc, a)), a, b))
            && (!before ==> Precedes(Preorder(doc, Root(doc, a)), b, a))
  {
    var ap, bp := Path(doc, a), Path(doc, b);
    assert ap[0] == ap[..i][0] == bp[..i][0] == bp[0];
    if i == |ap| {
      assert ap[..i] == ap;
      AncestorFirst(doc, a, b);
    } else if i == |bp| {
      assert bp[..i] == bp;
      AncestorFirst(doc, b, a);
    } else {
      PathSteps(doc, a, i);
      PathSteps(doc, b, i);
      assert ap[i - 1] == ap[..i][i - 1] == bp[..i][i - 1] == bp[i - 1];
      if doc.pos[ap[i]] < doc.pos[bp[i]] {
        SiblingsDecide(doc, a, b, i);
      } else {
        assert doc.kids[ap[i - 1]][doc.pos[ap[i]]] == ap[i];
        SiblingsDecide(doc, b, a, i);
      }
    }
  }

  lemma PartingDecides(doc: Document, a: int, b: int, i: nat, r: int)
    requires doc.Valid() && doc.Has(a) && doc.Has(b) && a != b
    requires 0 < i <= |Path(doc, a)| && i <= |Path(doc, b)| && Path(doc, a)[..i] == Path(doc, b)[..i]
    requires At(Path(doc, a), i) != At(Path(doc, b), i) && (r == -1 || r == 1)
    requires var x, y := At(Path(doc, a), i), At(Path(doc, b), i);
      && (x == NIL || doc.Has(x)) && (y == NIL || doc.Has(y))
      && (x == NIL || y == NIL ==> (r == 1 <==> x != NIL))
      && (x != NIL && y != NIL && doc.parent[x] == doc.parent[y] != NIL ==> (r == -1 <==> doc.pos[x] < doc.pos[y]))
    ensures Decides(doc, a, b, r)
  {
    hide Path, Preorder, Precedes;
    Parting(doc, a, b, i);
    OneWay(doc, a, b);
  }

  lemma OneWay(doc: Document, a: int, b: int)
    requires doc.Valid() && doc.Has(a) && doc.Has(b) && a != b
    ensures !(Precedes(Preorder(doc, Root(doc, a)), a, b) && Precedes(Preorder(doc, Root(doc, a)), b, a))
  {
    var order := Preorder(doc, Root(doc, a));
    PreorderDistinct(doc, Root(doc, a));
    if Precedes(order, a, b) {
      PrecedesAsymmetric(order, a, b);
    }
  }

  // ---------- uniqueSort ----------

  ghost predicate InOrder(order: seq<int>, s: seq<int>) {
    forall i, j :: 0 <= i < j < |s| ==> s[i] == s[j] || Precedes(order, s[i], s[j])
  }

  ghost predicate StrictlyInOrder(order: seq<int>, s: seq<int>) {
    forall i, j :: 0 <= i < j < |s| ==> Precedes(order, s[i], s[j])
  }

  predicate Surplus(s: seq<int>, k: int) {
    0 < k < |s| && s[k] == s[k - 1]
  }

  /** The entries from k on without the surplus copies. */
  ghost function Kept(s: seq<int>, k: nat): seq<int>
    requires k <= |s|
    decreases |s| - k
  {
    if k == |s| then [] else (if Surplus(s, k) then [] else [s[k]]) + Kept(s, k + 1)
  }

  lemma {:induction false} KeptRun(s: seq<int>, j: nat, k: nat)
    requires j <= k <= |s| && forall i :: j <= i < k ==> !Surplus(s, i)
    ensures Kept(s, j) == s[j..k] + Kept(s, k)
    decreases k - j
  {
    if j < k {
      KeptRun(s, j + 1, k);
      var rest := Kept(s, k);
      assert s[j..k] == [s[j]] + s[j + 1..k];
      assert Kept(s, j) == [s[j]] + (s[j + 1..k] + rest);
    }
  }

  /** Splicing out a surplus copy leaves what has to be kept from it on. */
  lemma SpliceStep(s: seq<int>, results: seq<int>, d: nat, left: nat)
    requires d < left <= |s| && Surplus(s, d) && forall i :: d < i < left ==> !Surplus(s, i)
    requires results == s[..left] + Kept(s, left)
    ensures results[..d] + results[d + 1..] == s[..d] + Kept(s, d)
  {
    KeptRun(s, d + 1, left);
    SplicedPrefix(s, Kept(s, left), d, left);
  }

  lemma SplicedPrefix(s: seq<int>, rest: seq<int>, d: nat, left: nat)
    requires d < left <= |s|
    ensures (s[..left] + rest)[..d] + (s[..left] + rest)[d + 1..] == s[..d] + (s[d + 1..left] + rest)
  {
    assert (s[..left] + rest)[..d] == s[..d];
    assert (s[..left] + rest)[d + 1..] == s[d + 1..left] + rest;
  }

  lemma {:induction false} KeptMembers(s: seq<int>, k: nat, x: int)
    requires k <= |s|
    ensures x in Kept(s, k) ==> exists i :: k <= i < |s| && !Surplus(s, i) && s[i] == x
    ensures (exists i :: k <= i < |s| && s[i] == x) ==> x in Kept(s, k) || (0 < k && s[k - 1] == x)
    decreases |s| - k
  {
    if k < |s| {
      KeptMembers(s, k + 1, x);
      if i :| k <= i < |s| && s[i] == x {
        if i == k {
          assert Surplus(s, k) || s[k] in Kept(s, k);
        }
      }
    }
  }

  /** Between two copies of a node, in order, there is nothing else. */
  lemma LaterPrecedes(order: seq<int>, s: seq<int>, k: nat, i: nat)
    requires Distinct(order) && InOrder(order, s) && k < i < |s| && !Surplus(s, i)
    ensures Precedes(order, s[k], s[i])
  {
    if s[k] == s[i] {
      PrecedesAsymmetric(order, s[k], s[i - 1]);
    }
  }

  lemma KeptLater(order: seq<int>, s: seq<int>, k: nat, x: int)
    requires Distinct(order) && InOrder(order, s) && k < |s| && x in Kept(s, k + 1)
    ensures Precedes(order, s[k], x)
  {
    hide Precedes, Distinct, InOrder, Kept;
    KeptMembers(s, k + 1, x);
    var i :| k + 1 <= i < |s| && !Surplus(s, i) && s[i] == x;
    LaterPrecedes(order, s, k, i);
  }

  lemma {:induction false} KeptStrict(order: seq<int>, s: seq<int>, k: nat)
    requires Distinct(order) && InOrder(order, s) && k <= |s|
    ensures StrictlyInOrder(order, Kept(s, k))
    decreases |s| - k
  {
    hide Precedes, Distinct, InOrder;
    if k < |s| {
      KeptStrict(order, s, k + 1);
      forall x | x in Kept(s, k + 1) ensures Precedes(order, s[k], x) {
        KeptLater(order, s, k, x);
      }
    }
  }

  /** The first loop of uniqueSort: the indices of the surplus copies, ascending. */
  method SurplusCopies(results: seq<int>) returns (duplicates: seq<int>)
    ensures forall d :: 0 <= d < |duplicates| ==> Surplus(results, duplicates[d])
    ensures forall d, e :: 0 <= d < e < |duplicates| ==> duplicates[d] < duplicates[e]
    ensures forall k :: Surplus(results, k) ==> k in duplicates
  {
    duplicates := [];
    var i := 0;
    while i < |results|
      invariant 0 <= i <= |results|
      invariant forall d :: 0 <= d < |duplicates| ==> Surplus(results, duplicates[d]) && duplicates[d] <= i
      invariant forall d, e :: 0 <= d < e < |duplicates| ==> duplicates[d] < duplicates[e]
      invariant forall k :: k <= i && Surplus(results, k) ==> k in duplicates
    {
      i := i + 1;
      if i < |results| && results[i - 1] == results[i] {
        duplicates := duplicates + [i];
      }
    }
  }

  /** The second loop of uniqueSort: splices the copies out, the last one first. */
  method SpliceOut(sorted: seq<int>, duplicates: seq<int>) returns (results: seq<int>)
    requires forall d :: 0 <= d < |duplicates| ==> Surplus(sorted, duplicates[d])
    requires forall d, e :: 0 <= d < e < |duplicates| ==> duplicates[d] < duplicates[e]
    requires forall k :: Surplus(sorted, k) ==> k in duplicates
    ensures results == Kept(sorted, 0)
  {
    results := sorted;
    var j := |duplicates|;
    ghost var left := |sorted|;
    while j > 0
      invariant 0 <= j <= |duplicates| && 0 <= left <= |sorted|
      invariant forall d :: 0 <= d < j ==> duplicates[d] < left
      invariant forall k :: k < left && Surplus(sorted, k) ==> k in duplicates[..j]
      invariant results == sorted[..left] + Kept(sorted, left)
    {
      j := j - 1;
      var d := duplicates[j];
      SpliceStep(sorted, results, d, left);
      results := results[..d] + results[d + 1..];
      left := d;
    }
    KeptRun(sorted, 0, left);
    assert sorted[0..left] == sorted[..left];
  }

  lemma NothingSurplus(s: seq<int>)
    requires forall k :: !Surplus(s, k)
    ensures Kept(s, 0) == s
  {
    KeptRun(s, 0, |s|);
    assert s[0..|s|] + [] == s;
  }

  /** Two nodes of one tree are comparable, in exactly one way. */
  lemma DocumentOrderTotal(doc: Document, root: int, a: int, b: int)
    requires doc.Valid() && doc.Has(root) && a in Preorder(doc, root) && b in Preorder(doc, root) && a != b
    ensures Precedes(Preorder(doc, root), a, b) <==> !Precedes(Preorder(doc, root), b, a)
  {
    var order := Preorder(doc, root);
    PreorderDistinct(doc, root);
    var i :| 0 <= i < |order| && order[i] == a;
    var j :| 0 <= j < |order| && order[j] == b;
    if i < j {
      PrecedesAsymmetric(order, a, b);
    } else {
      PrecedesAsymmetric(order, b, a);
    }
  }

  lemma PrecedesTransitive(order: seq<int>, a: int, b: int, c: int)
    requires Distinct(order) && Precedes(order, a, b) && Precedes(order, b, c)
    ensures Precedes(order, a, c)
  {
    var i, j :| 0 <= i < j < |order| && order[i] == a && order[j] == b;
    var k, l :| 0 <= k < l < |order| && order[k] == b && order[l] == c;
    assert j == k;
  }

  /** If neighbours are in order, so are all. */
  lemma {:induction false} NeighboursInOrder(order: seq<int>, s: seq<int>, i: nat, j: nat)
    requires Distinct(order) && i < j < |s|
    requires forall k :: 0 < k < |s| ==> s[k - 1] == s[k] || Precedes(order, s[k - 1], s[k])
    ensures s[i] == s[j] || Precedes(order, s[i], s[j])
    decreases j
  {
    if i + 1 < j {
      NeighboursInOrder(order, s, i, j - 1);
      assert s[j - 1] == s[j] || Precedes(order, s[j - 1], s[j]);
      if s[i] != s[j - 1] && s[j - 1] != s[j] {
        PrecedesTransitive(order, s[i], s[j - 1], s[j]);
      }
    }
  }

  // ---------- the module's state ----------

  /** A sort by comparison has compared x and y and may put x before y. */
  ghost predicate Ranked(doc: Document, env: Setting, trace: seq<(int, int)>, x: int, y: int)
    requires doc.Valid() && doc.Has(x) && doc.Has(y)
  {
    || ((x, y) in trace && Comparison(doc, env, x, y) <= 0)
    || ((y, x) in trace && Comparison(doc, env, y, x) >= 0)
  }

  /** sorted is what a host's sort can make of results by the comparisons in trace: a
      permutation, each two neighbours of which have been compared and are not the wrong way
      round. */
  ghost predicate HostSorted(doc: Document, env: Setting, before: seq<int>, sorted: seq<int>, trace: seq<(int, int)>)
    requires doc.Valid()
  {
    && (forall x :: x in before ==> doc.Has(x))
    && multiset(sorted) == multiset(before)
    && (forall x :: x in sorted ==> doc.Has(x))
    && (forall c :: c in trace ==> doc.Has(c.0) && doc.Has(c.1))
    && forall k :: 0 < k < |sorted| ==> Ranked(doc, env, trace, sorted[k - 1], sorted[k])
  }

  ghost predicate OneTree(doc: Document, document: int, nodes: seq<int>)
    requires doc.Valid() && forall x :: x in nodes ==> doc.Has(x)
  {
    forall x, y :: x in nodes && y in nodes ==> InOneTree(doc, document, x, y)
  }

  /** Sizzle's variables around sorting. */
  class Sorter {
    const document: int
    const preferredDoc: int
    const sortStable: bool
    const detectDuplicates: bool
    var sortInput: Option<seq<int>>
    var hasDuplicate: bool

    constructor (document: int, preferredDoc: int, sortStable: bool, detectDuplicates: bool)
      ensures this.document == document && this.preferredDoc == preferredDoc && sortInput.None?
    {
      this.document, this.preferredDoc := document, preferredDoc;
      this.sortStable, this.detectDuplicates := sortStable, detectDuplicates;
      sortInput, hasDuplicate := None, false;
    }

    ghost function Env(): Setting
      reads this
    {
      Setting(document, preferredDoc, sortInput)
    }

    /** While results are sorted. */
    ghost function SortEnv(before: seq<int>): Setting {
      Setting(document, preferredDoc, if sortStable then None else Some(before))
    }

    /** The fallback sortOrder; it notes when it compares a node with itself. */
    method SortOrder(doc: Document, a: int, b: int) returns (r: int)
      requires doc.Valid() && doc.Has(a) && doc.Has(b)
      modifies `hasDuplicate
      ensures r == Comparison(doc, Env(), a, b)
      ensures hasDuplicate == (old(hasDuplicate) || a == b)
    {
      hide Preorder, Precedes;
      if a == b {
        hasDuplicate := true;
        return 0;
      }
      var aup, bup := doc.Parent(a), doc.Parent(b);
      if aup == NIL || bup == NIL {
        return if a == document then -1
               else if b == document then 1
               else if aup != NIL then -1
               else if bup != NIL then 1
               else if sortInput.Some? then IndexOf(sortInput.value, a) - IndexOf(sortInput.value, b)
               else 0;
      } else if aup == bup {
        r := SiblingCheck(doc, a, b);
        SiblingPaths(doc, a, b);
        PartingDecides(doc, a, b, |Path(doc, aup)|, r);
        return;
      }
      r := ByAncestors(doc, a, b);
    }

    /** The rest of sortOrder, for nodes of different parents. */
    method ByAncestors(doc: Document, a: int, b: int) returns (r: int)
      requires doc.Valid() && doc.Has(a) && doc.Has(b) && a != b && doc.parent[a] != NIL && doc.parent[b] != NIL
      ensures r == Comparison(doc, Env(), a, b)
    {
      hide Preorder, Precedes, Path;
      var ap := Ancestors(doc, a);
      var bp := Ancestors(doc, b);
      var i := PartingIndex(ap, bp);
      if i > 0 {
        Parting(doc, a, b, i);
        r := SiblingCheck(doc, At(ap, i), At(bp, i));
        PartingDecides(doc, a, b, i, r);
        assert ap[0] == ap[..i][0] == bp[..i][0] == bp[0];
      } else {
        r := if At(ap, i) == preferredDoc then -1 else if At(bp, i) == preferredDoc then 1 else 0;
      }
    }

    /** uniqueSort, with the comparisons that the host's sort makes and the list it leaves. */
    method UniqueSort(doc: Document, before: seq<int>, sorted: seq<int>, trace: seq<(int, int)>)
        returns (results: seq<int>)
      requires doc.Valid() && HostSorted(doc, SortEnv(before), before, sorted, trace)
      modifies this
      ensures forall x :: x in results <==> x in before
      ensures before != [] && OneTree(doc, document, before) ==>
        StrictlyInOrder(Preorder(doc, Root(doc, before[0])), results)
      ensures sortInput.None?
    {
      hide Preorder, Precedes, Path, Comparison;
      hasDuplicate := !detectDuplicates;
      sortInput := if sortStable then None else Some(before);
      Sort(doc, before, sorted, trace);
      ghost var duplicated := hasDuplicate;
      if hasDuplicate {
        var duplicates := SurplusCopies(sorted);
        results := SpliceOut(sorted, duplicates);
      } else {
        results := sorted;
        NothingSurplus(sorted);
      }
      sortInput := None;
      SameNodes(before, sorted);
      if before != [] && OneTree(doc, document, before) {
        SortedInOrder(doc, SortEnv(before), before, sorted, trace);
        KeptStrict(Preorder(doc, Root(doc, before[0])), sorted, 0);
      }
    }

    /** results.sort( sortOrder ): calls the comparator; a list with equal neighbours has
        made it compare them. */
    method Sort(doc: Document, before: seq<int>, sorted: seq<int>, trace: seq<(int, int)>)
      requires doc.Valid() && HostSorted(doc, Env(), before, sorted, trace)
      modifies `hasDuplicate
      ensures hasDuplicate || forall k :: !Surplus(sorted, k)
    {
      hide Comparison;
      for i := 0 to |trace|
        invariant hasDuplicate || forall c :: c in trace[..i] ==> c.0 != c.1
      {
        var _ := SortOrder(doc, trace[i].0, trace[i].1);
        assert trace[..i + 1] == trace[..i] + [trace[i]];
      }
      assert trace[..|trace|] == trace;
    }
  }

  lemma SameNodes(before: seq<int>, sorted: seq<int>)
    requires multiset(sorted) == multiset(before)
    ensures forall x :: x in Kept(sorted, 0) <==> x in before
  {
    forall x ensures x in Kept(sorted, 0) <==> x in before {
      KeptMembers(sorted, 0, x);
      assert x in sorted <==> x in multiset(sorted);
      assert x in before <==> x in multiset(before);
    }
  }

  /** The comparator's verdicts on neighbours put the whole list in document order. */
  lemma SortedInOrder(doc: Document, env: Setting, before: seq<int>, sorted: seq<int>, trace: seq<(int, int)>)
    requires doc.Valid() && HostSorted(doc, env, before, sorted, trace)
    requires before != [] && OneTree(doc, env.document, before)
    ensures var order := Preorder(doc, Root(doc, before[0])); Distinct(order) && InOrder(order, sorted)
  {
    hide Preorder, Precedes, Path, Comparison, Distinct;
    var order := Preorder(doc, Root(doc, before[0]));
    PreorderDistinct(doc, Root(doc, before[0]));
    forall k | 0 < k < |sorted| ensures sorted[k - 1] == sorted[k] || Precedes(order, sorted[k - 1], sorted[k]) {
      var x, y := sorted[k - 1], sorted[k];
      assert Ranked(doc, env, trace, x, y);
      assert x in multiset(before) && y in multiset(before);
      assert InOneTree(doc, env.document, x, y) && InOneTree(doc, env.document, before[0], x);
      ComparisonDecides(doc, env, x, y);
      ComparisonDecides(doc, env, y, x);
    }
    forall i, j | 0 <= i < j < |sorted| ensures sorted[i] == sorted[j] || Precedes(order, sorted[i], sorted[j]) {
      NeighboursInOrder(order, sorted, i, j);
    }
  }
}
