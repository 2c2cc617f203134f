/** The compiled matchers at work: addCombinator with its per-node caches, the compiler
    matcherFromTokens, and the element loop of the super matcher. */
module MatcherEngine {
  import opened Dom
  import opened Selectors

  /** The array newCache = [dirruns, doneName, result] that one walk stores on every
      node it visits. */
  class WalkCache {
    const run: int
    const name: nat
    var found: bool

    constructor (run: int, name: nat)
      ensures this.run == run && this.name == name && !found
    {
      this.run, this.name, found := run, name, false;
    }
  }

  /** Where a walk keeps its array: elem[expando][dir]. */
  type Key = (int, Direction)

  /** An array with its contents at one moment. */
  datatype Entry = Entry(cache: WalkCache, run: int, name: nat, found: bool)

  // ---------- what the caches may hold ----------

  /** Every combinator of m has a doneName below n and is the one compiled under it. */
  ghost predicate Known(table: seq<Matcher>, n: nat, m: Matcher)
    decreases m
  {
    match m
    case Test(_) => true
    case IsContext => true
    case InContexts => true
    case Anchor(_, one, many) =>
      one.Combinator? && many.Combinator? && Known(table, n, one) && Known(table, n, many)
    case Combinator(name, _, _, _, inner) =>
      name < n && name < |table| && table[name] == m && Known(table, name, inner)
    case All(parts) => forall i | 0 <= i < |parts| :: Known(table, n, parts[i])
  }

  lemma {:induction false} KnownGrows(table: seq<Matcher>, n: nat, m: Matcher, table': seq<Matcher>, n': nat)
    requires Known(table, n, m) && table <= table' && n <= n'
    ensures Known(table', n', m)
    decreases m
  {
    match m
    case Test(_) =>
    case IsContext =>
    case InContexts =>
    case Anchor(_, one, many) =>
      KnownGrows(table, n, one, table', n');
      KnownGrows(table, n, many, table', n');
    case Combinator(name, _, _, _, inner) =>
      KnownGrows(table, name, inner, table', name);
    case All(parts) =>
      forall i | 0 <= i < |parts| ensures Known(table', n', parts[i]) {
        KnownGrows(table, n, parts[i], table', n');
      }
  }

  /** The entry holds the outcome of the uncached walk from v on. */
  ghost predicate Truthful(s: Scope, table: seq<Matcher>, v: int, w: Entry)
    requires s.doc.Valid()
  {
    && w.name < |table| && table[w.name].Combinator? && s.doc.Has(v)
    && w.found == Reaches(s, table[w.name], v)
  }

  /** Every entry of this run is truthful, unless its combinator is n or later (whose
      walks may still be in progress). */
  ghost predicate Sound(s: Scope, table: seq<Matcher>, run: int, snap: map<Key, Entry>, n: nat)
    requires s.doc.Valid()
  {
    forall k :: k in snap && snap[k].run == run && snap[k].name < n ==> Truthful(s, table, k.0, snap[k])
  }

  /** In a walk of c that has come to elem, v lies behind and leads to the same outcome. */
  ghost predicate Behind(s: Scope, c: Matcher, v: int, elem: int)
    requires s.doc.Valid() && c.Combinator? && (elem == NIL || s.doc.Has(elem))
  {
    && s.doc.Has(v)
    && Remaining(s.doc, c.dir, v) > Remaining(s.doc, c.dir, elem)
    && Reaches(s, c, v) == Reaches(s, c, elem)
  }

  /** During a cached walk of c that has come to elem: the nodes still holding the
      walk's own array lie behind; every other entry is truthful. */
  ghost predicate InProgress(s: Scope, table: seq<Matcher>, run: int, snap: map<Key, Entry>, n: nat,
                             c: Matcher, cache: WalkCache, elem: int)
    requires s.doc.Valid() && c.Combinator? && (elem == NIL || s.doc.Has(elem))
  {
    forall k :: k in snap && snap[k].run == run && snap[k].name < n ==>
      if snap[k].cache == cache then snap[k].name == c.name && Behind(s, c, k.0, elem)
      else Truthful(s, table, k.0, snap[k])
  }

  /** What a matcher whose combinators are below n does to the caches: it keeps an entry
      or replaces it by one of its own. */
  ghost predicate Evolved(run: int, before: map<Key, Entry>, after: map<Key, Entry>, n: nat) {
    forall k :: k in after ==>
      || (k in before && after[k] == before[k])
      || (after[k].run == run && after[k].name < n)
  }

  /** What a visit of elem by c's walk does to the caches. */
  ghost predicate Stored(run: int, before: map<Key, Entry>, after: map<Key, Entry>,
                         c: Matcher, cache: WalkCache, elem: int)
    requires c.Combinator?
  {
    forall k :: k in after ==>
      || (k == (elem, c.dir) && after[k].cache == cache && after[k].name == c.name)
      || (k in before && after[k].cache == before[k].cache && after[k].name == before[k].name
          && (after[k].cache == cache || after[k] == before[k]))
      || (after[k].cache != cache && after[k].run == run && after[k].name < c.name)
  }

  /** A failed test at elem: the walk moves on. */
  lemma AfterMiss(s: Scope, table: seq<Matcher>, run: int, before: map<Key, Entry>, after: map<Key, Entry>, n: nat,
                  c: Matcher, cache: WalkCache, elem: int)
    requires s.doc.Valid() && c.Combinator? && s.doc.Has(elem) && Stored(run, before, after, c, cache, elem)
    requires InProgress(s, table, run, before, n, c, cache, elem)
    requires Sound(s, table, run, after, c.name)
    requires Reaches(s, c, elem) == Reaches(s, c, Step(s.doc, c.dir, elem))
    requires forall k :: k in before && before[k].cache == cache ==> before[k].run == run
    ensures InProgress(s, table, run, after, n, c, cache, Step(s.doc, c.dir, elem))
  {
  }

  /** The walk's outcome is settled: recording it in its array makes every entry true. */
  lemma AfterWalk(s: Scope, table: seq<Matcher>, run: int, before: map<Key, Entry>, after: map<Key, Entry>, n: nat,
                  c: Matcher, cache: WalkCache, elem: int)
    requires s.doc.Valid() && c.Combinator? && (elem == NIL || s.doc.Has(elem))
    requires c.name < |table| && table[c.name] == c
    requires InProgress(s, table, run, before, n, c, cache, elem)
    requires after.Keys == before.Keys
    requires forall k :: k in after ==>
      after[k] == if before[k].cache == cache then before[k].(found := Reaches(s, c, elem)) else before[k]
    ensures Sound(s, table, run, after, n)
  {
  }

  /** A successful test at elem ends the walk, with the array saying so. */
  lemma AfterHit(s: Scope, table: seq<Matcher>, run: int, before: map<Key, Entry>, after: map<Key, Entry>, n: nat,
                 c: Matcher, cache: WalkCache, elem: int)
    requires s.doc.Valid() && c.Combinator? && s.doc.Has(elem) && Stored(run, before, after, c, cache, elem)
    requires c.name < |table| && table[c.name] == c
    requires InProgress(s, table, run, before, n, c, cache, elem)
    requires Sound(s, table, run, after, c.name)
    requires Reaches(s, c, elem)
    requires forall k :: k in before && before[k].cache == cache ==> before[k].run == run
    requires forall k :: k in after && after[k].cache == cache ==> after[k].found
    ensures Sound(s, table, run, after, n)
  {
  }

  // ---------- the matchers ----------

  class Engine {
    var dirruns: int
    var done: nat
    var scope: Scope
    var outerCache: map<Key, WalkCache>  // elem[expando][dir]
    ghost var table: seq<Matcher>        // the combinators compiled so far, by doneName

    ghost predicate Ready()
      reads this
    {
      && scope.doc.Valid()
      && done == |table|
      && (forall i :: 0 <= i < |table| ==> table[i].Combinator? && table[i].name == i)
    }

    ghost function Snapshot(): map<Key, Entry>
      reads this, outerCache.Values
    {
      map k | k in outerCache ::
        Entry(outerCache[k], outerCache[k].run, outerCache[k].name, outerCache[k].found)
    }

    /** All caches of this run below n can be trusted. */
    ghost predicate Trusted(n: nat)
      requires Ready()
      reads this, outerCache.Values
    {
      Sound(scope, table, dirruns, Snapshot(), n)
    }

    constructor (scope: Scope)
      requires scope.doc.Valid()
      ensures Ready() && Trusted(0) && this.scope == scope && table == []
    {
      dirruns, done, this.scope, outerCache, table := 0, 0, scope, map[], [];
    }

    /** Runs matcher m on e. */
    method Match(m: Matcher, e: int, ghost n: nat) returns (accepted: bool)
      requires Ready() && Trusted(n) && Known(table, n, m) && scope.doc.Has(e)
      modifies `outerCache
      ensures Trusted(n) && Evolved(dirruns, old(Snapshot()), Snapshot(), n)
      ensures accepted == Accepts(scope, m, e)
      decreases m, 1
    {
      match m
      case Test(test) => accepted := test(e);
      case IsContext => accepted := scope.context.One? && e == scope.context.node;
      case InContexts => accepted := scope.context.Many? && e in scope.context.nodes;
      case Anchor(leading, one, many) =>
        if !leading && (scope.xml || !scope.outermost) {
          accepted := true;
        } else if scope.context.One? {
          accepted := Match(one, e, n);
        } else {
          accepted := Match(many, e, n);
        }
      case Combinator(_, _, first, _, _) =>
        if first {
          accepted := WalkFirst(m, e, n);
        } else if scope.xml {
          accepted := WalkAll(m, e, n);
        } else {
          accepted := WalkCached(m, e, n);
        }
      case All(parts) => accepted := MatchAll(m, e, n);
    }

    /** elementMatcher: every matcher in turn, the last one first. */
    method MatchAll(m: Matcher, e: int, ghost n: nat) returns (accepted: bool)
      requires m.All?
      requires Ready() && Trusted(n) && Known(table, n, m) && scope.doc.Has(e)
      modifies `outerCache
      ensures Trusted(n) && Evolved(dirruns, old(Snapshot()), Snapshot(), n)
      ensures accepted == Accepts(scope, m, e)
      decreases m, 0
    {
      var i := |m.parts|;
      while i > 0
        invariant 0 <= i <= |m.parts|
        invariant Trusted(n) && Evolved(dirruns, old(Snapshot()), Snapshot(), n)
        invariant forall j :: i <= j < |m.parts| ==> Accepts(scope, m.parts[j], e)
      {
        i := i - 1;
        var ok := Match(m.parts[i], e, n);
        if !ok {
          return false;
        }
      }
      return true;
    }

    /** The closure for ">" and "+": only the closest node counts. */
    method WalkFirst(c: Matcher, e: int, ghost n: nat) returns (accepted: bool)
      requires c.Combinator? && c.first
      requires Ready() && Trusted(n) && Known(table, n, c) && scope.doc.Has(e)
      modifies `outerCache
      ensures Trusted(n) && Evolved(dirruns, old(Snapshot()), Snapshot(), n)
      ensures accepted == Accepts(scope, c, e)
      decreases c, 0
    {
      var elem := Step(scope.doc, c.dir, e);
      while elem != NIL
        invariant elem == NIL || scope.doc.Has(elem)
        invariant outerCache == old(outerCache)
        invariant Accepts(scope, c, e) == Reaches(scope, c, elem)
        decreases Remaining(scope.doc, c.dir, elem)
      {
        if Visits(scope.doc, c, elem) {
          KnownGrows(table, c.name, c.inner, table, n);
          accepted := Match(c.inner, elem, n);
          return;
        }
        elem := Step(scope.doc, c.dir, elem);
      }
      return false;
    }

    /** The uncached closure, taken for XML. */
    method WalkAll(c: Matcher, e: int, ghost n: nat) returns (accepted: bool)
      requires c.Combinator? && !c.first
      requires Ready() && Trusted(n) && Known(table, n, c) && scope.doc.Has(e)
      modifies `outerCache
      ensures Trusted(n) && Evolved(dirruns, old(Snapshot()), Snapshot(), n)
      ensures accepted == Accepts(scope, c, e)
      decreases c, 0
    {
      KnownGrows(table, c.name, c.inner, table, n);
      var elem := Step(scope.doc, c.dir, e);
      while elem != NIL
        invariant elem == NIL || scope.doc.Has(elem)
        invariant Trusted(n) && Evolved(dirruns, old(Snapshot()), Snapshot(), n)
        invariant Accepts(scope, c, e) == Reaches(scope, c, elem)
        decreases Remaining(scope.doc, c.dir, elem)
      {
        if Visits(scope.doc, c, elem) {
          var ok := Match(c.inner, elem, n);
          if ok {
            return true;
          }
        }
        elem := Step(scope.doc, c.dir, elem);
      }
      return false;
    }

    /** Takes over a result recorded on elem earlier in this run, if there is one. */
    method Recall(c: Matcher, cache: WalkCache, elem: int, ghost n: nat) returns (hit: bool)
      requires c.Combinator? && c.name < n
      requires Ready() && Known(table, n, c) && scope.doc.Has(elem)
      requires InProgress(scope, table, dirruns, Snapshot(), n, c, cache, elem)
      requires cache.run == dirruns && cache.name == c.name
      modifies cache
      ensures Evolved(dirruns, old(Snapshot()), Snapshot(), n)
      ensures hit ==> Trusted(n) && cache.found == Reaches(scope, c, elem)
      ensures !hit ==> unchanged(cache)
    {
      hit := (elem, c.dir) in outerCache
             && outerCache[(elem, c.dir)].run == dirruns && outerCache[(elem, c.dir)].name == c.name;
      if hit {
        ghost var before := Snapshot();
        assert before[(elem, c.dir)].found == Reaches(scope, c, elem);
        cache.found := outerCache[(elem, c.dir)].found;
        AfterWalk(scope, table, dirruns, before, Snapshot(), n, c, cache, elem);
      }
    }

    /** Stores the walk's array on elem, tests elem and records the result in the array. */
    method Visit(c: Matcher, cache: WalkCache, elem: int, ghost n: nat) returns (ok: bool)
      requires c.Combinator? && c.name < n
      requires Ready() && Known(table, n, c) && scope.doc.Has(elem)
      requires cache.run == dirruns && cache.name == c.name
      requires InProgress(scope, table, dirruns, Snapshot(), n, c, cache, elem)
      modifies `outerCache, cache
      ensures ok == Accepts(scope, c.inner, elem) && cache.found == ok
      ensures Sound(scope, table, dirruns, Snapshot(), c.name)
      ensures Stored(dirruns, old(Snapshot()), Snapshot(), c, cache, elem)
      decreases c.inner, 2
    {
      outerCache := outerCache[(elem, c.dir) := cache];
      ok := Match(c.inner, elem, c.name);
      cache.found := ok;
    }

    /** The cached closure. All nodes of one walk share one array, so that its last
        result counts for all of them. */
    method WalkCached(c: Matcher, e: int, ghost n: nat) returns (accepted: bool)
      requires c.Combinator? && !c.first
      requires Ready() && Trusted(n) && Known(table, n, c) && scope.doc.Has(e)
      modifies `outerCache
      ensures Trusted(n) && Evolved(dirruns, old(Snapshot()), Snapshot(), n)
      ensures accepted == Accepts(scope, c, e)
      decreases c, 0
    {
      var newCache := new WalkCache(dirruns, c.name);
      var elem := Step(scope.doc, c.dir, e);
      while elem != NIL
        invariant elem == NIL || scope.doc.Has(elem)
        invariant InProgress(scope, table, dirruns, Snapshot(), n, c, newCache, elem)
        invariant Evolved(dirruns, old(Snapshot()), Snapshot(), n)
        invariant Accepts(scope, c, e) == Reaches(scope, c, elem)
        invariant !newCache.found
        decreases Remaining(scope.doc, c.dir, elem)
      {
        if Visits(scope.doc, c, elem) {
          var hit := Recall(c, newCache, elem, n);
          if hit {
            return newCache.found;
          }
          ghost var before := Snapshot();
          var ok := Visit(c, newCache, elem, n);
          if ok {
            AfterHit(scope, table, dirruns, before, Snapshot(), n, c, newCache, elem);
            return true;
          }
          AfterMiss(scope, table, dirruns, before, Snapshot(), n, c, newCache, elem);
        }
        elem := Step(scope.doc, c.dir, elem);
      }
      AfterWalk(scope, table, dirruns, Snapshot(), Snapshot(), n, c, newCache, elem);
      return false;
    }

    // ---------- compiling ----------

    /** All names and runs in the caches have been drawn already. */
    ghost predicate Drawn()
      reads this, outerCache.Values
    {
      forall k :: k in Snapshot() ==> Snapshot()[k].run <= dirruns && Snapshot()[k].name < done
    }

    /** Between matches: every cache entry of this run is truthful. */
    ghost predicate Valid()
      reads this, outerCache.Values
    {
      Ready() && Drawn() && Trusted(done)
    }

    method AddCombinator(inner: Matcher, dir: Direction, first: bool, base: bool) returns (c: Matcher)
      requires Valid() && Known(table, done, inner)
      modifies `done, `table
      ensures Valid() && table == old(table) + [c] && Known(table, done, c)
      ensures c == Combinator(old(done), dir, first, base, inner)
    {
      c := Combinator(done, dir, first, base, inner);
      KnownGrows(table, done, inner, table + [c], done);
      table := table + [c];
      done := done + 1;
    }

    /** Compiles one group of a selector: the matcher accepts what the group selects,
        whatever the document and the context. */
    method MatcherFromTokens(tokens: seq<Token>) returns (m: Matcher)
      requires Valid() && |tokens| > 0
      modifies `done, `table
      ensures Valid() && old(table) <= table && Known(table, done, m)
      ensures Means(m, tokens)
    {
      hide Means;
      var leading := tokens[0].Rel?;
      var relative := if leading then tokens[0].rel else Descendant;
      var one := AddCombinator(IsContext, relative.Dir(), relative.First(), true);
      var many := AddCombinator(InContexts, relative.Dir(), relative.First(), true);
      KnownGrows(table[..|table| - 1], done - 1, one, table, done);
      var matchers := [Anchor(leading, one, many)];
      var i := if leading then 1 else 0;
      AnchorMeans(matchers[0], relative, tokens[..i]);
      while i < |tokens|
        invariant 0 <= i <= |tokens| && (leading ==> 1 <= i) && |matchers| > 0
        invariant Valid() && old(table) <= table
        invariant forall j :: 0 <= j < |matchers| ==> Known(table, done, matchers[j])
        invariant Means(ElementMatcher(matchers), tokens[..i])
      {
        assert tokens[..i + 1] == tokens[..i] + [tokens[i]];
        matchers := Extend(matchers, tokens[i], tokens[..i]);
        i := i + 1;
      }
      assert tokens[..i] == tokens;
      return ElementMatcher(matchers);
    }

    /** The body of that loop: a combinator wraps the matchers so far, a filter joins them. */
    method Extend(matchers: seq<Matcher>, token: Token, ghost tokens: seq<Token>) returns (longer: seq<Matcher>)
      requires Valid() && |matchers| > 0 && (token.Rel? ==> tokens != [])
      requires forall j :: 0 <= j < |matchers| ==> Known(table, done, matchers[j])
      requires Means(ElementMatcher(matchers), tokens)
      modifies `done, `table
      ensures Valid() && old(table) <= table && |longer| > 0
      ensures forall j :: 0 <= j < |longer| ==> Known(table, done, longer[j])
      ensures Means(ElementMatcher(longer), tokens + [token])
    {
      hide Means;
      match token
      case Rel(r) =>
        var c := AddCombinator(ElementMatcher(matchers), r.Dir(), r.First(), false);
        CombinatorMeans(c, r, tokens);
        return [c];
      case Filter(test) =>
        FilterMeans(matchers, tokens, test);
        return matchers + [Test(test)];
    }

    /** Compiles the groups of a selector, the last one first. */
    method Compile(groups: seq<seq<Token>>) returns (elementMatchers: seq<Matcher>)
      requires Valid() && forall g :: 0 <= g < |groups| ==> |groups[g]| > 0
      modifies `done, `table
      ensures Valid() && old(table) <= table
      ensures |elementMatchers| == |groups|
      ensures forall g :: 0 <= g < |groups| ==>
        Known(table, done, elementMatchers[g]) && Means(elementMatchers[g], groups[|groups| - 1 - g])
    {
      elementMatchers := [];
      var i := |groups|;
      while i > 0
        invariant 0 <= i <= |groups| && |elementMatchers| == |groups| - i
        invariant Valid() && old(table) <= table
        invariant forall g :: 0 <= g < |groups| - i ==>
          Known(table, done, elementMatchers[g]) && Means(elementMatchers[g], groups[|groups| - 1 - g])
      {
        i := i - 1;
        ghost var before, drawn := table, done;
        var m := MatcherFromTokens(groups[i]);
        forall g | 0 <= g < |elementMatchers| ensures Known(table, done, elementMatchers[g]) {
          KnownGrows(before, drawn, elementMatchers[g], table, done);
        }
        elementMatchers := elementMatchers + [m];
      }
    }

    // ---------- one run over the candidates ----------

    /** Starts an outermost run, on whatever the document has become. */
    method BeginRun(scope: Scope)
      requires Ready() && Drawn() && scope.doc.Valid()
      modifies `dirruns, `scope
      ensures Valid() && this.scope == scope
    {
      ghost var snap := Snapshot();
      dirruns := dirruns + 1;
      this.scope := scope;
      assert Snapshot() == snap;
    }

    /** Tries the matchers on e until one accepts. */
    method MatchOne(elementMatchers: seq<Matcher>, e: int) returns (found: bool)
      requires Valid() && scope.doc.Element(e)
      requires forall j :: 0 <= j < |elementMatchers| ==> Known(table, done, elementMatchers[j])
      modifies `outerCache
      ensures Valid() && found == SomeAccepts(scope, elementMatchers, e)
    {
      found := false;
      var j := 0;
      while j < |elementMatchers| && !found
        invariant 0 <= j <= |elementMatchers| && Valid()
        invariant found <==> exists g :: 0 <= g < j && Accepts(scope, elementMatchers[g], e)
      {
        found := Match(elementMatchers[j], e, done);
        j := j + 1;
      }
    }

    /** The candidates, in order, that some matcher accepts. */
    method MatchElements(elementMatchers: seq<Matcher>, elems: seq<int>) returns (results: seq<int>)
      requires Valid()
      requires forall j :: 0 <= j < |elementMatchers| ==> Known(table, done, elementMatchers[j])
      requires forall i :: 0 <= i < |elems| ==> scope.doc.Element(elems[i])
      modifies `outerCache
      ensures Valid()
      ensures results == Accepted(scope, elementMatchers, elems)
    {
      results := [];
      for i := 0 to |elems|
        invariant Valid()
        invariant results == Accepted(scope, elementMatchers, elems[..i])
      {
        var found := MatchOne(elementMatchers, elems[i]);
        assert elems[..i + 1][..i] == elems[..i];
        if found {
          results := results + [elems[i]];
        }
      }
      assert elems[..|elems|] == elems;
    }

    /** Compiling a selector and running it over candidates keeps exactly those that the
        selector selects, however the caches were filled before. */
    method Select(groups: seq<seq<Token>>, scope: Scope, elems: seq<int>) returns (results: seq<int>)
      requires Valid() && scope.doc.Valid()
      requires forall g :: 0 <= g < |groups| ==> |groups[g]| > 0
      requires forall i :: 0 <= i < |elems| ==> scope.doc.Element(elems[i])
      modifies this
      ensures Valid()
      ensures results == Selected(scope, groups, elems)
    {
      var elementMatchers := Compile(groups);
      BeginRun(scope);
      results := MatchElements(elementMatchers, elems);
      AcceptedIsSelected(scope, elementMatchers, groups, elems);
    }
  }

  ghost predicate SomeAccepts(s: Scope, ms: seq<Matcher>, e: int)
    requires s.doc.Valid() && s.doc.Element(e)
  {
    exists g :: 0 <= g < |ms| && Accepts(s, ms[g], e)
  }

  ghost function Accepted(s: Scope, ms: seq<Matcher>, elems: seq<int>): seq<int>
    requires s.doc.Valid() && forall i :: 0 <= i < |elems| ==> s.doc.Element(elems[i])
  {
    if elems == [] then []
    else
      var n := |elems| - 1;
      Accepted(s, ms, elems[..n]) + if SomeAccepts(s, ms, elems[n]) then [elems[n]] else []
  }

  /** Element e matches one of the comma-separated groups, by a chain of elements. */
  ghost predicate SomeSelects(s: Scope, groups: seq<seq<Token>>, e: int)
    requires s.doc.Valid() && forall g :: 0 <= g < |groups| ==> |groups[g]| > 0
  {
    exists g, chain :: 0 <= g < |groups| && IsChain(s, groups[g], chain) && chain[|chain| - 1] == e
  }

  ghost function Selected(s: Scope, groups: seq<seq<Token>>, elems: seq<int>): seq<int>
    requires s.doc.Valid() && forall g :: 0 <= g < |groups| ==> |groups[g]| > 0
  {
    if elems == [] then []
    else
      var n := |elems| - 1;
      Selected(s, groups, elems[..n]) + if SomeSelects(s, groups, elems[n]) then [elems[n]] else []
  }

  lemma SomeAcceptsIffSelects(s: Scope, ms: seq<Matcher>, groups: seq<seq<Token>>, e: int)
    requires s.doc.Valid() && s.doc.Element(e)
    requires forall g :: 0 <= g < |groups| ==> |groups[g]| > 0
    requires |ms| == |groups| && forall g :: 0 <= g < |groups| ==> Means(ms[g], groups[|groups| - 1 - g])
    ensures SomeAccepts(s, ms, e) <==> SomeSelects(s, groups, e)
  {
    if g :| 0 <= g < |ms| && Accepts(s, ms[g], e) {
      SelectsIffChain(s, groups[|groups| - 1 - g], e);
    }
    if g, chain :| 0 <= g < |groups| && IsChain(s, groups[g], chain) && chain[|chain| - 1] == e {
      SelectsIffChain(s, groups[g], e);
      assert Means(ms[|groups| - 1 - g], groups[g]);
    }
  }

  lemma {:induction false} AcceptedIsSelected(s: Scope, ms: seq<Matcher>, groups: seq<seq<Token>>, elems: seq<int>)
    requires s.doc.Valid() && forall i :: 0 <= i < |elems| ==> s.doc.Element(elems[i])
    requires forall g :: 0 <= g < |groups| ==> |groups[g]| > 0
    requires |ms| == |groups| && forall g :: 0 <= g < |groups| ==> Means(ms[g], groups[|groups| - 1 - g])
    ensures Accepted(s, ms, elems) == Selected(s, groups, elems)
  {
    if elems != [] {
      var n := |elems| - 1;
      AcceptedIsSelected(s, ms, groups, elems[..n]);
      SomeAcceptsIffSelects(s, ms, groups, elems[n]);
    }
  }
}
