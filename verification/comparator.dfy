/** What a sort may rely on: the comparator of DocumentOrder is a strict order on all nodes,
    of one tree or of several. */
module ComparatorLaws {
  import opened Dom
  import opened DocumentOrder
  import opened Wrappers

  /** Exchanging the nodes turns the comparison round. */
  lemma ComparisonOpposite(doc: Document, env: Setting, a: int, b: int)
    requires doc.Valid() && doc.Has(a) && doc.Has(b)
    ensures Comparison(doc, env, b, a) == -Comparison(doc, env, a, b)
    ensures Comparison(doc, env, a, b) < 0 ==> a != b
  {
    hide Preorder, Precedes, Path, Document.Linked, Document.Rooted;
    if a != b && doc.parent[a] != NIL && doc.parent[b] != NIL && Root(doc, a) == Root(doc, b) {
      TreeTotal(doc, a, b);
      OneWay(doc, a, b);
    }
  }

  /** It is transitive, whatever trees the nodes belong to. */
  lemma ComparisonTransitive(doc: Document, env: Setting, a: int, b: int, c: int)
    requires doc.Valid() && doc.Has(a) && doc.Has(b) && doc.Has(c)
    requires Comparison(doc, env, a, b) < 0 && Comparison(doc, env, b, c) < 0
    ensures Comparison(doc, env, a, c) < 0
  {
    hide Preorder, Precedes, Path, Document.Linked, Document.Rooted, IndexOf;
    ComparisonOpposite(doc, env, b, a);
    ComparisonOpposite(doc, env, c, b);
    if a != b && b != c && doc.parent[a] != NIL && doc.parent[b] != NIL && doc.parent[c] != NIL
       && Root(doc, a) == Root(doc, b) == Root(doc, c) {
      TreeTransitive(doc, a, b, c);
    }
  }

  lemma TreeTransitive(doc: Document, a: int, b: int, c: int)
    requires doc.Valid() && doc.Has(a) && doc.Has(b) && doc.Has(c)
    requires Precedes(Preorder(doc, Root(doc, a)), a, b) && Precedes(Preorder(doc, Root(doc, a)), b, c)
    ensures Precedes(Preorder(doc, Root(doc, a)), a, c) && a != c
  {
    var order := Preorder(doc, Root(doc, a));
    PreorderDistinct(doc, Root(doc, a));
    PrecedesTransitive(order, a, b, c);
    PrecedesAsymmetric(order, a, c);
  }

  /** Where a node stands beside nodes of other trees: first the document, then the nodes of
      the window's document, then other nodes that have parents, and last those without. */
  ghost function Standing(doc: Document, env: Setting, a: int): nat
    requires doc.Valid() && doc.Has(a)
  {
    if doc.parent[a] == NIL then (if a == env.document then 0 else 3)
    else if Root(doc, a) == env.preferredDoc then 1
    else 2
  }

  /** Nodes of different standing are ordered by it. */
  lemma StandingDecides(doc: Document, env: Setting, a: int, b: int)
    requires doc.Valid() && doc.Has(a) && doc.Has(b) && Standing(doc, env, a) < Standing(doc, env, b)
    ensures Comparison(doc, env, a, b) < 0 && Comparison(doc, env, b, a) > 0
  {
    hide Preorder, Precedes, Path, Document.Linked, Document.Rooted, IndexOf;
    ComparisonOpposite(doc, env, a, b);
  }

  /** Of equal standing, nodes of one tree are in document order, parentless nodes in the order
      of the sort's input, and nodes of two other trees tie. */
  lemma EqualStanding(doc: Document, env: Setting, a: int, b: int)
    requires doc.Valid() && doc.Has(a) && doc.Has(b) && a != b && Standing(doc, env, a) == Standing(doc, env, b)
    ensures doc.parent[a] != NIL && Root(doc, a) == Root(doc, b) ==> Decides(doc, a, b, Comparison(doc, env, a, b))
    ensures doc.parent[a] != NIL && Root(doc, a) != Root(doc, b) ==> Comparison(doc, env, a, b) == 0
    ensures doc.parent[a] == NIL && env.sortInput.None? ==> Comparison(doc, env, a, b) == 0
    ensures doc.parent[a] == NIL && env.sortInput.Some? && a in env.sortInput.value && b in env.sortInput.value ==>
      (Comparison(doc, env, a, b) < 0 <==> Earlier(env.sortInput.value, a, b))
  {
    hide Preorder, Precedes, Path, Document.Linked, Document.Rooted, IndexOf, Decides;
    if Root(doc, a) == Root(doc, b) {
      ComparisonDecides(doc, env, a, b);
    }
    if env.sortInput.Some? && a in env.sortInput.value && b in env.sortInput.value {
      FirstIndex(env.sortInput.value, a);
      FirstIndex(env.sortInput.value, b);
    }
  }

  /** a occurs in s before any b. */
  ghost predicate Earlier(s: seq<int>, a: int, b: int) {
    exists i :: 0 <= i < |s| && s[i] == a && b !in s[..i]
  }

  lemma {:induction false} FirstIndex(s: seq<int>, x: int)
    requires x in s
    ensures 0 <= IndexOf(s, x) < |s| && s[IndexOf(s, x)] == x && x !in s[..IndexOf(s, x)]
  {
    if s[0] != x {
      FirstIndex(s[1..], x);
      assert s[..IndexOf(s, x)] == [s[0]] + s[1..][..IndexOf(s[1..], x)];
    }
  }

  /** Two trees: 1 and 2 are children of 0, and 4 is a child of 3. */
  ghost function Forest(): Document {
    Document([NIL, 0, 0, NIL, 3], [0, 0, 1, 0, 0], [[1, 2], [], [], [4], []], [true, true, true, true, true])
  }

  lemma ForestRoots()
    ensures Forest().Valid() && |Forest().parent| == 5
    ensures Root(Forest(), 1) == Root(Forest(), 2) == 0 && Root(Forest(), 4) == 3
    ensures Forest().parent[1] == Forest().parent[2] == 0 && Forest().parent[4] == 3
  {
    ForestValid();
    hide Document.Linked, Document.Rooted, Document.Valid;
    assert Path(Forest(), 0) == [0] && Path(Forest(), 3) == [3];
  }

  lemma ForestValid()
    ensures Forest().Valid()
  {
    assert Forest().Shaped() && Forest().Linked() && Forest().Rooted();
  }

  /** But ties are not transitive: of two ordered nodes, both can tie with a node of another
      tree, so a sort cannot place that one. */
  lemma TiesNotTransitive()
    ensures exists doc: Document, env: Setting, a, b, c ::
      && doc.Valid() && doc.Has(a) && doc.Has(b) && doc.Has(c)
      && Comparison(doc, env, a, b) == 0 == Comparison(doc, env, b, c) && Comparison(doc, env, a, c) != 0
  {
    var doc, env := Forest(), Setting(9, 9, None);
    ForestRoots();
    hide Preorder, Precedes, Path, Root, Comparison, Forest, Document.Valid;
    EqualStanding(doc, env, 1, 4);
    EqualStanding(doc, env, 4, 2);
    EqualStanding(doc, env, 1, 2);
    assert Comparison(doc, env, 1, 4) == 0 == Comparison(doc, env, 4, 2) && Comparison(doc, env, 1, 2) != 0;
  }
}
