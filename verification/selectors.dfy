/** What a compiled selector means: the plain, uncached walks, and the definition of
    section 8 of Selectors Level 3 that they compute. */
module Selectors {
  import opened Dom

  datatype Direction = ParentNode | PreviousSibling

  /** The four combinators: ">", " ", "+" and "~". */
  datatype Relative = Child | Descendant | Adjacent | General {
    function Dir(): Direction {
      if Child? || Descendant? then ParentNode else PreviousSibling
    }

    predicate First() {
      Child? || Adjacent?
    }
  }

  /** A simple filter (TAG, CLASS, ATTR, ...) is an opaque test on nodes. */
  datatype Token = Rel(rel: Relative) | Filter(test: int -> bool)

  datatype Context = One(node: int) | Many(nodes: seq<int>) {
    ghost predicate Contains(n: int) {
      match this
      case One(c) => n == c
      case Many(cs) => n in cs
    }
  }

  /** What a matcher is called with; outermost says that context is the outermost one. */
  datatype Scope = Scope(doc: Document, context: Context, xml: bool, outermost: bool)

  /** The closures that matcherFromTokens builds. Combinator carries the doneName that
      addCombinator drew for it; Anchor is the foundational matcher. */
  datatype Matcher =
    | Test(test: int -> bool)
    | IsContext
    | InContexts
    | Anchor(leading: bool, one: Matcher, many: Matcher)
    | Combinator(name: nat, dir: Direction, first: bool, base: bool, inner: Matcher)
    | All(parts: seq<Matcher>)

  function Step(doc: Document, dir: Direction, n: int): (r: int)
    requires doc.Valid() && doc.Has(n)
    ensures r == NIL || doc.Has(r)
    ensures Remaining(doc, dir, r) < Remaining(doc, dir, n)
  {
    if dir.ParentNode? then doc.Parent(n) else doc.Previous(n)
  }

  /** Bounds the length of a walk from n. */
  ghost function Remaining(doc: Document, dir: Direction, n: int): nat
    requires doc.Valid() && (n == NIL || doc.Has(n))
  {
    if n == NIL then 0 else if dir.ParentNode? then n + 1 else doc.pos[n] + 1
  }

  /** The nodes a combinator's walk tests: elements, and for a base also documents. */
  predicate Visits(doc: Document, c: Matcher, n: int)
    requires doc.Valid() && doc.Has(n) && c.Combinator?
  {
    doc.element[n] || (c.base && c.dir.ParentNode?)
  }

  // ---------- the uncached meaning of a matcher ----------

  ghost predicate Accepts(s: Scope, m: Matcher, e: int)
    requires s.doc.Valid() && s.doc.Has(e)
    decreases m, 1, 0
  {
    match m
    case Test(test) => test(e)
    case IsContext => s.context.One? && e == s.context.node
    case InContexts => s.context.Many? && e in s.context.nodes
    case Anchor(leading, one, many) =>
      || (!leading && (s.xml || !s.outermost))
      || (if s.context.One? then Accepts(s, one, e) else Accepts(s, many, e))
    case Combinator(_, dir, _, _, _) => Reaches(s, m, Step(s.doc, dir, e))
    case All(parts) => forall i | 0 <= i < |parts| :: Accepts(s, parts[i], e)
  }

  /** The rest of a combinator's walk, from node n (included) on. */
  ghost predicate Reaches(s: Scope, c: Matcher, n: int)
    requires s.doc.Valid() && (n == NIL || s.doc.Has(n)) && c.Combinator?
    decreases c, 0, Remaining(s.doc, c.dir, n)
  {
    && n != NIL
    && if Visits(s.doc, c, n) then
         Accepts(s, c.inner, n) || (!c.first && Reaches(s, c, Step(s.doc, c.dir, n)))
       else
         Reaches(s, c, Step(s.doc, c.dir, n))
  }

  // ---------- the combinators of the standard ----------

  ghost predicate Ancestor(doc: Document, x: int, y: int)
    requires doc.Valid() && doc.Has(y)
    decreases y
  {
    var p := doc.Parent(y);
    p != NIL && (p == x || Ancestor(doc, x, p))
  }

  ghost predicate Before(doc: Document, x: int, y: int)
    requires doc.Valid() && doc.Has(y)
  {
    doc.Has(x) && doc.parent[y] != NIL && doc.parent[x] == doc.parent[y] && doc.pos[x] < doc.pos[y]
  }

  /** Node x stands in relation r to node y, as in "x r y". */
  ghost predicate Related(doc: Document, r: Relative, x: int, y: int)
    requires doc.Valid() && doc.Has(y)
  {
    match r
    case Child => doc.Has(x) && doc.parent[y] == x
    case Descendant => doc.Has(x) && Ancestor(doc, x, y)
    case Adjacent =>
      && Before(doc, x, y)
      && forall z :: doc.Has(z) && Before(doc, x, z) && Before(doc, z, y) ==> !doc.element[z]
    case General => Before(doc, x, y)
  }

  /** The context test of the leftmost compound: none for a document-wide selector,
      otherwise the context (one of the contexts) stands in relation r to e. */
  ghost predicate Anchored(s: Scope, leading: bool, r: Relative, e: int)
    requires s.doc.Valid() && s.doc.Has(e)
  {
    || (!leading && (s.xml || !s.outermost))
    || exists c :: Related(s.doc, r, c, e) && s.context.Contains(c)
                   && (r.Dir().PreviousSibling? ==> s.doc.element[c])
  }

  /** Whether a selector, read from its last token on, selects element e. */
  ghost predicate Selects(s: Scope, tokens: seq<Token>, e: int)
    requires s.doc.Valid() && s.doc.Element(e) && |tokens| > 0
    decreases |tokens|
  {
    var last := tokens[|tokens| - 1];
    if |tokens| == 1 then
      match last
      case Rel(r) => Anchored(s, true, r, e)
      case Filter(test) => test(e) && Anchored(s, false, Descendant, e)
    else
      match last
      case Rel(r) => exists x ::
        s.doc.Element(x) && Related(s.doc, r, x, e) && Selects(s, tokens[..|tokens| - 1], x)
      case Filter(test) => test(e) && Selects(s, tokens[..|tokens| - 1], e)
  }

  // ---------- section 8: a chain of elements, one for each compound ----------

  /** The number of combinators among the tokens after the first. */
  ghost function Links(tokens: seq<Token>): (n: nat)
    ensures |tokens| <= 1 ==> n == 0
  {
    if |tokens| <= 1 then 0
    else Links(tokens[..|tokens| - 1]) + if tokens[|tokens| - 1].Rel? then 1 else 0
  }

  /** Token i and the chain agree; chain[k] is the element of the compound after the
      k-th combinator. */
  ghost predicate Fits(doc: Document, tokens: seq<Token>, chain: seq<int>, i: nat)
    requires doc.Valid() && i < |tokens|
    requires forall k :: 0 <= k < |chain| ==> doc.Element(chain[k])
  {
    var k := Links(tokens[..i + 1]);
    && k < |chain|
    && doc.Element(chain[k])
    && match tokens[i]
       case Filter(test) => test(chain[k])
       case Rel(r) => i > 0 ==> 0 < k && Related(doc, r, chain[k - 1], chain[k])
  }

  ghost predicate IsChain(s: Scope, tokens: seq<Token>, chain: seq<int>)
    requires s.doc.Valid() && |tokens| > 0
  {
    && |chain| == Links(tokens) + 1
    && (forall k :: 0 <= k < |chain| ==> s.doc.Element(chain[k]))
    && Anchored(s, tokens[0].Rel?, if tokens[0].Rel? then tokens[0].rel else Descendant, chain[0])
    && (forall i :: 0 <= i < |tokens| ==> Fits(s.doc, tokens, chain, i))
  }

  lemma {:induction false} LinksOfPrefix(tokens: seq<Token>, i: nat)
    requires i <= |tokens|
    ensures Links(tokens[..i]) <= Links(tokens)
    decreases |tokens|
  {
    if i == |tokens| {
      assert tokens[..i] == tokens;
    } else if |tokens| > 1 {
      var init := tokens[..|tokens| - 1];
      LinksOfPrefix(init, i);
      assert init[..i] == tokens[..i];
    }
  }

  /** Whether a token fits depends only on the tokens and chain elements up to it. */
  lemma {:induction false} FitsPrefix(doc: Document, tokens: seq<Token>, chain: seq<int>,
                                      init: seq<Token>, shorter: seq<int>, i: nat)
    requires doc.Valid() && i < |init| && init <= tokens && shorter <= chain
    requires forall k :: 0 <= k < |chain| ==> doc.Element(chain[k])
    requires Links(init) < |shorter|
    ensures Fits(doc, tokens, chain, i) <==> Fits(doc, init, shorter, i)
  {
    LinksOfPrefix(init, i + 1);
    assert init[..i + 1] == tokens[..i + 1];
    var k := Links(init[..i + 1]);
    assert shorter[k] == chain[k];
    assert k > 0 ==> shorter[k - 1] == chain[k - 1];
  }

  lemma {:induction false} ChainToSelects(s: Scope, tokens: seq<Token>, chain: seq<int>)
    requires s.doc.Valid() && |tokens| > 0 && IsChain(s, tokens, chain)
    ensures Selects(s, tokens, chain[|chain| - 1])
    decreases |tokens|
  {
    var last := |tokens| - 1;
    assert tokens[..last + 1] == tokens;
    assert Fits(s.doc, tokens, chain, last);
    if |tokens| > 1 {
      var init := tokens[..last];
      var shorter := chain[..Links(init) + 1];
      forall i | 0 <= i < |init| ensures Fits(s.doc, init, shorter, i) {
        assert Fits(s.doc, tokens, chain, i);
        FitsPrefix(s.doc, tokens, chain, init, shorter, i);
      }
      ChainToSelects(s, init, shorter);
    }
  }

  lemma {:induction false} SelectsToChain(s: Scope, tokens: seq<Token>, e: int) returns (chain: seq<int>)
    requires s.doc.Valid() && s.doc.Element(e) && |tokens| > 0 && Selects(s, tokens, e)
    ensures IsChain(s, tokens, chain) && chain[|chain| - 1] == e
    decreases |tokens|
  {
    var last := |tokens| - 1;
    assert tokens[..last + 1] == tokens;
    if |tokens| == 1 {
      chain := [e];
    } else {
      var init := tokens[..last];
      var shorter;
      if tokens[last].Rel? {
        var x :| s.doc.Element(x) && Related(s.doc, tokens[last].rel, x, e) && Selects(s, init, x);
        shorter := SelectsToChain(s, init, x);
        chain := shorter + [e];
      } else {
        shorter := SelectsToChain(s, init, e);
        chain := shorter;
      }
      forall i | 0 <= i < |init| ensures Fits(s.doc, tokens, chain, i) {
        FitsPrefix(s.doc, tokens, chain, init, shorter, i);
      }
      assert Fits(s.doc, tokens, chain, last);
    }
  }

  /** A scope in which a selector without a leading combinator is not tied to the context. */
  ghost predicate Unscoped(s: Scope) {
    s.xml || !s.outermost
  }

  /** Outside the outermost context, and in XML, the context does not matter. */
  lemma {:induction false} ContextIgnored(s: Scope, t: Scope, tokens: seq<Token>, e: int)
    requires s.doc.Valid() && t.doc == s.doc && s.doc.Element(e)
    requires |tokens| > 0 && tokens[0].Filter? && Unscoped(s) && Unscoped(t)
    ensures Selects(s, tokens, e) <==> Selects(t, tokens, e)
    decreases |tokens|
  {
    if |tokens| > 1 {
      var init := tokens[..|tokens| - 1];
      forall x | s.doc.Element(x) ensures Selects(s, init, x) <==> Selects(t, init, x) {
        ContextIgnored(s, t, init, x);
      }
    }
  }

  lemma {:induction false} AncestorOfAncestor(doc: Document, c: int, x: int, e: int)
    requires doc.Valid() && doc.Has(x) && doc.Has(e) && Ancestor(doc, c, x) && Ancestor(doc, x, e)
    ensures Ancestor(doc, c, e)
    decreases e
  {
    var p := doc.Parent(e);
    if p != x {
      AncestorOfAncestor(doc, c, x, p);
    }
  }

  /** From an outermost context, in HTML, only its descendants are selected, whatever
      combinators the selector has. */
  lemma {:induction false} OnlyWithinContext(s: Scope, tokens: seq<Token>, e: int) returns (c: int)
    requires s.doc.Valid() && s.doc.Element(e) && |tokens| > 0 && tokens[0].Filter?
    requires !s.xml && s.outermost && Selects(s, tokens, e)
    ensures s.context.Contains(c) && s.doc.Has(c) && Ancestor(s.doc, c, e)
    decreases |tokens|
  {
    var last := tokens[|tokens| - 1];
    if |tokens| == 1 {
      assert Anchored(s, false, Descendant, e);
      c :| Related(s.doc, Descendant, c, e) && s.context.Contains(c);
    } else if last.Rel? {
      var init := tokens[..|tokens| - 1];
      var x :| s.doc.Element(x) && Related(s.doc, last.rel, x, e) && Selects(s, init, x);
      c := OnlyWithinContext(s, init, x);
      match last.rel
      case Descendant => AncestorOfAncestor(s.doc, c, x, e);
      case _ =>
    } else {
      c := OnlyWithinContext(s, tokens[..|tokens| - 1], e);
    }
  }

  /** Selects is the chain semantics of the standard. */
  lemma SelectsIffChain(s: Scope, tokens: seq<Token>, e: int)
    requires s.doc.Valid() && s.doc.Element(e) && |tokens| > 0
    ensures Selects(s, tokens, e) <==>
            exists chain :: IsChain(s, tokens, chain) && chain[|chain| - 1] == e
  {
    if Selects(s, tokens, e) {
      var chain := SelectsToChain(s, tokens, e);
    }
    if chain :| IsChain(s, tokens, chain) && chain[|chain| - 1] == e {
      ChainToSelects(s, tokens, chain);
    }
  }

  // ---------- a walk finds what stands in its relation ----------

  ghost predicate IsRelative(c: Matcher, r: Relative) {
    c.Combinator? && c.dir == r.Dir() && c.first == r.First()
  }

  /** A node the walk of c may stop at successfully. */
  ghost predicate Hit(s: Scope, c: Matcher, x: int)
    requires s.doc.Valid() && c.Combinator?
  {
    s.doc.Has(x) && Visits(s.doc, c, x) && Accepts(s, c.inner, x)
  }

  lemma {:induction false} DescendantWalk(s: Scope, c: Matcher, e: int)
    requires s.doc.Valid() && s.doc.Has(e) && IsRelative(c, Descendant)
    ensures Accepts(s, c, e) <==> exists x :: Related(s.doc, Descendant, x, e) && Hit(s, c, x)
    decreases e
  {
    var p := s.doc.Parent(e);
    if p != NIL {
      DescendantWalk(s, c, p);
      assert forall x :: Ancestor(s.doc, x, e) <==> x == p || Ancestor(s.doc, x, p);
      assert Accepts(s, c, e) <==> Hit(s, c, p) || Accepts(s, c, p);
    }
  }

  lemma {:induction false} GeneralWalk(s: Scope, c: Matcher, e: int)
    requires s.doc.Valid() && s.doc.Has(e) && IsRelative(c, General)
    ensures Accepts(s, c, e) <==> exists x :: Related(s.doc, General, x, e) && Hit(s, c, x)
    decreases s.doc.pos[e]
  {
    var p := s.doc.Previous(e);
    if p != NIL {
      GeneralWalk(s, c, p);
      assert forall x :: Before(s.doc, x, e) <==> x == p || Before(s.doc, x, p);
      assert Accepts(s, c, e) <==> Hit(s, c, p) || Accepts(s, c, p);
    }
  }

  lemma {:induction false} ChildWalk(s: Scope, c: Matcher, e: int)
    requires s.doc.Valid() && s.doc.Has(e) && IsRelative(c, Child)
    ensures Accepts(s, c, e) <==> exists x :: Related(s.doc, Child, x, e) && Hit(s, c, x)
  {
    var p := s.doc.Parent(e);
    if p != NIL {
      assert s.doc.kids[p][s.doc.pos[e]] == e;
      assert Reaches(s, c, NIL) == false;
      assert Accepts(s, c, e) <==> Hit(s, c, p);
    }
  }

  lemma {:induction false} AdjacentWalk(s: Scope, c: Matcher, e: int)
    requires s.doc.Valid() && s.doc.Has(e) && IsRelative(c, Adjacent)
    ensures Accepts(s, c, e) <==> exists x :: Related(s.doc, Adjacent, x, e) && Hit(s, c, x)
    decreases s.doc.pos[e]
  {
    var p := s.doc.Previous(e);
    if p != NIL {
      AdjacentWalk(s, c, p);
      assert forall x :: Before(s.doc, x, e) <==> x == p || Before(s.doc, x, p);
      if s.doc.element[p] {
        assert forall x :: Related(s.doc, Adjacent, x, e) && s.doc.element[x] ==> x == p;
        assert Related(s.doc, Adjacent, p, e);
      } else {
        assert forall x :: x != p ==> (Related(s.doc, Adjacent, x, e) <==> Related(s.doc, Adjacent, x, p));
        assert !Hit(s, c, p);
      }
    }
  }

  /** The uncached walk of a combinator succeeds exactly when some node it may visit
      stands in the combinator's relation to e and is accepted by the inner matcher. */
  lemma WalkFindsRelated(s: Scope, c: Matcher, r: Relative, e: int)
    requires s.doc.Valid() && s.doc.Has(e) && IsRelative(c, r)
    ensures Accepts(s, c, e) <==> exists x :: Related(s.doc, r, x, e) && Hit(s, c, x)
  {
    match r
    case Child => ChildWalk(s, c, e);
    case Descendant => DescendantWalk(s, c, e);
    case Adjacent => AdjacentWalk(s, c, e);
    case General => GeneralWalk(s, c, e);
  }

  // ---------- what the compiler has to build ----------

  function ElementMatcher(matchers: seq<Matcher>): Matcher
    requires |matchers| > 0
  {
    if |matchers| > 1 then All(matchers) else matchers[0]
  }

  /** m tests what the first tokens of a selector (none: its anchor) ask of an element. */
  ghost predicate Means(m: Matcher, tokens: seq<Token>) {
    forall s: Scope, e :: s.doc.Valid() && s.doc.Element(e) ==>
      (Accepts(s, m, e) <==>
       if tokens == [] then Anchored(s, false, Descendant, e) else Selects(s, tokens, e))
  }

  lemma AnchorMeans(anchor: Matcher, r: Relative, tokens: seq<Token>)
    requires anchor.Anchor? && IsRelative(anchor.one, r) && IsRelative(anchor.many, r)
    requires anchor.one.base && anchor.one.inner == IsContext
    requires anchor.many.base && anchor.many.inner == InContexts
    requires if anchor.leading then tokens == [Rel(r)] else tokens == [] && r == Descendant
    ensures Means(anchor, tokens)
  {
    forall s: Scope, e | s.doc.Valid() && s.doc.Element(e)
      ensures Accepts(s, anchor, e) <==> Anchored(s, anchor.leading, r, e)
    {
      var walk := if s.context.One? then anchor.one else anchor.many;
      WalkFindsRelated(s, walk, r, e);
      assert forall x :: s.doc.Has(x) ==>
        (Hit(s, walk, x) <==> s.context.Contains(x) && (r.Dir().PreviousSibling? ==> s.doc.element[x]));
    }
  }

  lemma FilterMeans(matchers: seq<Matcher>, tokens: seq<Token>, test: int -> bool)
    requires |matchers| > 0 && Means(ElementMatcher(matchers), tokens)
    ensures Means(ElementMatcher(matchers + [Test(test)]), tokens + [Filter(test)])
  {
    var all := matchers + [Test(test)];
    var longer := tokens + [Filter(test)];
    assert longer[..|longer| - 1] == tokens;
    forall s: Scope, e | s.doc.Valid() && s.doc.Element(e)
      ensures Accepts(s, ElementMatcher(all), e) <==> Selects(s, longer, e)
    {
      assert all[|matchers|] == Test(test) && forall i :: 0 <= i < |matchers| ==> all[i] == matchers[i];
      assert Accepts(s, ElementMatcher(matchers), e) <==>
             forall i :: 0 <= i < |matchers| ==> Accepts(s, matchers[i], e);
      assert Accepts(s, All(all), e) <==> test(e) && Accepts(s, ElementMatcher(matchers), e);
    }
  }

  lemma CombinatorMeans(c: Matcher, r: Relative, tokens: seq<Token>)
    requires IsRelative(c, r) && !c.base && Means(c.inner, tokens) && tokens != []
    ensures Means(c, tokens + [Rel(r)])
  {
    var longer := tokens + [Rel(r)];
    assert longer[..|longer| - 1] == tokens;
    forall s: Scope, e | s.doc.Valid() && s.doc.Element(e)
      ensures Accepts(s, c, e) <==> Selects(s, longer, e)
    {
      WalkFindsRelated(s, c, r, e);
      assert forall x :: s.doc.Has(x) ==> (Hit(s, c, x) <==> s.doc.Element(x) && Selects(s, tokens, x));
    }
  }
}
