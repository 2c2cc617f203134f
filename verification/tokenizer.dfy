/** tokenize, toSelector and the token cache shared with select. */
module Tokenizer {
  import opened BoundedCaches
  import opened Wrappers

  /** A lexer tells how long a prefix of the text it matches; 0 is no match. */
  type Lexer = string -> nat

  datatype Kind = Combinator | Filter(index: nat)

  datatype Token = Token(value: string, kind: Kind)

  /** rcomma, rcombinators, and matchExpr with its preFilter for each Expr.filter type. */
  datatype Lexers = Lexers(comma: Lexer, combinators: Lexer, filters: seq<Lexer>, idType: nat) {
    /** type === "ID"; idType is where "ID" stands among the filter types. */
    predicate IsId(t: Token) {
      t.kind == Filter(idType)
    }
  }

  function Length(lexer: Lexer, text: string): (n: nat)
    ensures n <= |text|
  {
    if lexer(text) <= |text| then lexer(text) else |text|
  }

  // ---------- the specification ----------

  /** The groups found so far, the separator consumed before each but the first, and the
      text that is left. */
  datatype Progress = Progress(groups: seq<seq<Token>>, separators: seq<string>, soFar: string)

  function AddToken(p: Progress, n: nat, kind: Kind): Progress
    requires p.groups != [] && n <= |p.soFar|
  {
    var last := |p.groups| - 1;
    p.(groups := p.groups[last := p.groups[last] + [Token(p.soFar[..n], kind)]], soFar := p.soFar[n..])
  }

  /** A new group after a comma, unless the comma is trailing. */
  function NextGroup(lx: Lexers, p: Progress): (q: Progress)
    requires p.groups != []
    ensures q.groups != [] && |q.soFar| <= |p.soFar| && (p.soFar != "" ==> q.soFar != "")
  {
    var n := Length(lx.comma, p.soFar);
    if n == 0 then p
    else
      var n' := if n == |p.soFar| then 0 else n;
      Progress(p.groups + [[]], p.separators + [p.soFar[..n']], p.soFar[n'..])
  }

  function TryCombinator(lx: Lexers, p: Progress): (q: Progress)
    requires p.groups != []
    ensures q.groups != [] && |q.soFar| <= |p.soFar|
  {
    var n := Length(lx.combinators, p.soFar);
    if n > 0 then AddToken(p, n, Kind.Combinator) else p
  }

  /** One pass over the filter types from the t-th on. */
  function TryFilters(lx: Lexers, p: Progress, t: nat): (q: Progress)
    requires p.groups != [] && t <= |lx.filters|
    ensures q.groups != [] && |q.soFar| <= |p.soFar|
    decreases |lx.filters| - t
  {
    if t == |lx.filters| then p
    else
      var n := Length(lx.filters[t], p.soFar);
      TryFilters(lx, if n > 0 then AddToken(p, n, Filter(t)) else p, t + 1)
  }

  /** The token loop, entered with a group at hand. */
  function Lex(lx: Lexers, p: Progress): (q: Progress)
    requires p.groups != []
    ensures q.groups != []
    decreases |p.soFar|
  {
    var q := TryFilters(lx, TryCombinator(lx, p), 0);
    if |q.soFar| == |p.soFar| || q.soFar == "" then q
    else Lex(lx, NextGroup(lx, q))
  }

  function Tokenized(lx: Lexers, selector: string): Progress {
    if selector == "" then Progress([], [], "") else Lex(lx, Progress([[]], [], selector))
  }

  predicate Accepted(lx: Lexers, selector: string) {
    Tokenized(lx, selector).soFar == ""
  }

  function ToSelector(tokens: seq<Token>): string {
    if tokens == [] then "" else ToSelector(tokens[..|tokens| - 1]) + tokens[|tokens| - 1].value
  }

  /** The groups' texts with the separators between them. */
  ghost function Joined(groups: seq<seq<Token>>, separators: seq<string>): string
    requires |groups| == 0 || |separators| == |groups| - 1
  {
    if groups == [] then ""
    else if |groups| == 1 then ToSelector(groups[0])
    else
      var n := |groups| - 1;
      Joined(groups[..n], separators[..n - 1]) + separators[n - 1] + ToSelector(groups[n])
  }

  // ---------- no text is lost ----------

  /** p accounts for all of selector: the groups' texts, the separators and the rest. */
  ghost predicate Covers(p: Progress, selector: string) {
    && |p.separators| == |p.groups| - 1
    && Joined(p.groups, p.separators) + p.soFar == selector
    && forall g, i :: 0 <= g < |p.groups| && 0 <= i < |p.groups[g]| ==> p.groups[g][i].value != ""
  }

  /** All groups but possibly the last have tokens. */
  ghost predicate Filled(p: Progress) {
    forall g :: 0 <= g < |p.groups| - 1 ==> p.groups[g] != []
  }

  lemma AddTokenCovers(p: Progress, n: nat, kind: Kind, selector: string)
    requires p.groups != [] && 0 < n <= |p.soFar| && Covers(p, selector) && Filled(p)
    ensures var q := AddToken(p, n, kind); Covers(q, selector) && Filled(q) && q.groups[|q.groups| - 1] != []
  {
    var q, last := AddToken(p, n, kind), |p.groups| - 1;
    var t := Token(p.soFar[..n], kind);
    assert (p.groups[last] + [t])[..|p.groups[last]|] == p.groups[last];
    assert ToSelector(q.groups[last]) == ToSelector(p.groups[last]) + p.soFar[..n];
    assert q.groups[..last] == p.groups[..last];
    assert Joined(q.groups, q.separators) == Joined(p.groups, p.separators) + p.soFar[..n];
    assert p.soFar == p.soFar[..n] + p.soFar[n..];
  }

  lemma NextGroupCovers(lx: Lexers, p: Progress, selector: string)
    requires p.groups != [] && Covers(p, selector) && Filled(p) && p.groups[|p.groups| - 1] != []
    ensures Covers(NextGroup(lx, p), selector) && Filled(NextGroup(lx, p))
  {
    var q := NextGroup(lx, p);
    if q != p {
      var m := |p.groups|;
      assert q.groups[..m] == p.groups && q.separators[..m - 1] == p.separators;
      var before, separator := Joined(p.groups, p.separators), q.separators[m - 1];
      assert Joined(q.groups, q.separators) == before + separator + "";
      hide Joined;
      assert p.soFar == separator + q.soFar;
      assert before + separator + "" == before + separator;
      Joins(before, separator, q.soFar);
    }
  }

  lemma {:induction false} TryFiltersCovers(lx: Lexers, p: Progress, t: nat, selector: string)
    requires p.groups != [] && t <= |lx.filters| && Covers(p, selector) && Filled(p)
    ensures var q := TryFilters(lx, p, t);
      && Covers(q, selector) && Filled(q)
      && (|q.soFar| < |p.soFar| || p.groups[|p.groups| - 1] != [] ==> q.groups[|q.groups| - 1] != [])
    decreases |lx.filters| - t
  {
    if t < |lx.filters| {
      var n := Length(lx.filters[t], p.soFar);
      if n > 0 {
        AddTokenCovers(p, n, Filter(t), selector);
        TryFiltersCovers(lx, AddToken(p, n, Filter(t)), t + 1, selector);
      } else {
        TryFiltersCovers(lx, p, t + 1, selector);
      }
    }
  }

  lemma {:induction false} LexCovers(lx: Lexers, p: Progress, selector: string)
    requires p.groups != [] && p.soFar != "" && Covers(p, selector) && Filled(p)
    ensures Covers(Lex(lx, p), selector) && Filled(Lex(lx, p))
    ensures Lex(lx, p).soFar == "" ==> Lex(lx, p).groups[|Lex(lx, p).groups| - 1] != []
    decreases |p.soFar|
  {
    var n := Length(lx.combinators, p.soFar);
    if n > 0 {
      AddTokenCovers(p, n, Kind.Combinator, selector);
    }
    TryFiltersCovers(lx, TryCombinator(lx, p), 0, selector);
    var q := TryFilters(lx, TryCombinator(lx, p), 0);
    if |q.soFar| != |p.soFar| && q.soFar != "" {
      NextGroupCovers(lx, q, selector);
      LexCovers(lx, NextGroup(lx, q), selector);
    }
  }

  /** Tokenizing an accepted selector loses nothing: the text of each group is what was
      consumed for it, and the texts with the separators between them are the selector.
      No group and no token is empty. */
  lemma TokensRebuildSelector(lx: Lexers, selector: string)
    requires Accepted(lx, selector)
    ensures var p := Tokenized(lx, selector);
      && (selector == "" ==> p.groups == [])
      && (selector != "" ==> |p.separators| == |p.groups| - 1 && Joined(p.groups, p.separators) == selector)
      && (forall g :: 0 <= g < |p.groups| ==> p.groups[g] != [])
      && (forall g, i :: 0 <= g < |p.groups| && 0 <= i < |p.groups[g]| ==> p.groups[g][i].value != "")
  {
    if selector != "" {
      var p := Progress([[]], [], selector);
      assert Joined(p.groups, p.separators) == "";
      LexCovers(lx, p, selector);
      var q := Tokenized(lx, selector);
      assert Joined(q.groups, q.separators) + "" == Joined(q.groups, q.separators);
    }
  }

  // ---------- what tokenizing means, token by token ----------

  /** What is taken from the front of the text: a token, or the comma before a new group. */
  datatype Item = Tok(token: Token) | Comma(text: string)

  function TextOf(item: Item): string {
    match item
    case Tok(t) => t.value
    case Comma(text) => text
  }

  /** The order in which a pass tries the lexers: the combinators, then the filter types. */
  function Place(kind: Kind): int {
    match kind
    case Combinator => 0
    case Filter(t) => t + 1
  }

  function LexerAt(lx: Lexers, j: int): Lexer
    requires 0 <= j <= |lx.filters|
  {
    if j == 0 then lx.combinators else lx.filters[j - 1]
  }

  /** No lexer from place i up to, but not including, place j matches the text. */
  ghost predicate NoneMatches(lx: Lexers, i: int, j: int, text: string)
    requires 0 <= i && j <= |lx.filters| + 1
  {
    forall k :: i <= k < j ==> Length(LexerAt(lx, k), text) == 0
  }

  /** Nothing at all can be taken from the text. */
  ghost predicate Stuck(lx: Lexers, text: string) {
    NoneMatches(lx, 0, |lx.filters| + 1, text)
  }

  /** Where the last item was taken in its pass; -1 where a group begins. */
  ghost function Last(items: seq<Item>): (r: int)
    ensures r >= -1
  {
    if items == [] || items[|items| - 1].Comma? then -1 else Place(items[|items| - 1].token.kind)
  }

  /** The pass that took the item at place last has come to place j. */
  ghost predicate InPass(lx: Lexers, last: int, j: int, text: string)
    requires j <= |lx.filters| + 1
  {
    0 <= last < j && NoneMatches(lx, last + 1, j, text)
  }

  /** A pass that has taken nothing has come to place j: it is the first of its group, or the
      pass before it took nothing more and no comma followed. */
  ghost predicate NewPass(lx: Lexers, last: int, j: int, text: string)
    requires j <= |lx.filters| + 1
  {
    && NoneMatches(lx, 0, j, text)
    && (last == -1 || (InPass(lx, last, |lx.filters| + 1, text) && Length(lx.comma, text) == 0))
  }

  /** The item is what comes next at the front of the text: the first match, by the lexer of
      its own kind, in this pass or in a new one; or a comma, when the pass has no more
      matches. A comma that would leave nothing is not taken from the text. */
  ghost predicate ComesNext(lx: Lexers, last: int, item: Item, text: string) {
    match item
    case Tok(t) =>
      var j := Place(t.kind);
      && 0 <= j <= |lx.filters|
      && (InPass(lx, last, j, text) || NewPass(lx, last, j, text))
      && var n := Length(LexerAt(lx, j), text);
         n > 0 && t.value == text[..n]
    case Comma(c) =>
      && InPass(lx, last, |lx.filters| + 1, text)
      && var n := Length(lx.comma, text);
         n > 0 && c == if n == |text| then "" else text[..n]
  }

  /** The items have been taken from the selector, one after the other, and rest is left. */
  ghost predicate Taken(lx: Lexers, selector: string, items: seq<Item>, rest: string) {
    if items == [] then rest == selector
    else
      var n := |items| - 1;
      var text := TextOf(items[n]) + rest;
      Taken(lx, selector, items[..n], text) && ComesNext(lx, Last(items[..n]), items[n], text)
  }

  /** Nothing is left, or a whole pass takes nothing. */
  ghost predicate AtEnd(lx: Lexers, items: seq<Item>, rest: string) {
    rest == "" || NewPass(lx, Last(items), |lx.filters| + 1, rest)
  }

  ghost function Grouped(items: seq<Item>): (groups: seq<seq<Token>>)
    ensures groups != []
  {
    if items == [] then [[]]
    else
      var groups := Grouped(items[..|items| - 1]);
      match items[|items| - 1]
      case Tok(t) => groups[|groups| - 1 := groups[|groups| - 1] + [t]]
      case Comma(_) => groups + [[]]
  }

  /** Taking what comes next from the selector until the end leaves rest, and gives the groups. */
  ghost predicate TokenizesTo(lx: Lexers, selector: string, groups: seq<seq<Token>>, rest: string) {
    if selector == "" then groups == [] && rest == ""
    else exists items :: Taken(lx, selector, items, rest) && AtEnd(lx, items, rest) && groups == Grouped(items)
  }

  lemma TakeMore(lx: Lexers, selector: string, items: seq<Item>, item: Item, text: string, rest: string)
    requires Taken(lx, selector, items, text) && ComesNext(lx, Last(items), item, text) && text == TextOf(item) + rest
    ensures Taken(lx, selector, items + [item], rest)
    ensures Grouped(items + [item]) == (match item
      case Tok(t) => var groups := Grouped(items); groups[|groups| - 1 := groups[|groups| - 1] + [t]]
      case Comma(_) => Grouped(items) + [[]])
    ensures Last(items + [item]) == if item.Comma? then -1 else Place(item.token.kind)
  {
    assert (items + [item])[..|items|] == items;
  }

  /** The match of the lexer at place j. */
  lemma TakeToken(lx: Lexers, selector: string, items: seq<Item>, p: Progress, kind: Kind)
    requires Taken(lx, selector, items, p.soFar) && p.groups == Grouped(items)
    requires var j := Place(kind);
      && 0 <= j <= |lx.filters|
      && (InPass(lx, Last(items), j, p.soFar) || NewPass(lx, Last(items), j, p.soFar))
      && Length(LexerAt(lx, j), p.soFar) > 0
    ensures var n := Length(LexerAt(lx, Place(kind)), p.soFar);
            var q, more := AddToken(p, n, kind), items + [Tok(Token(p.soFar[..n], kind))];
      && Taken(lx, selector, more, q.soFar) && q.groups == Grouped(more)
      && InPass(lx, Last(more), Place(kind) + 1, q.soFar)
  {
    hide Taken, Grouped, Last;
    var n := Length(LexerAt(lx, Place(kind)), p.soFar);
    var item := Tok(Token(p.soFar[..n], kind));
    assert p.soFar == TextOf(item) + p.soFar[n..];
    TakeMore(lx, selector, items, item, p.soFar, p.soFar[n..]);
  }

  lemma {:induction false} FiltersTaken(lx: Lexers, selector: string, p: Progress, t: nat,
                                        items: seq<Item>, unused: bool) returns (more: seq<Item>)
    requires t <= |lx.filters| && Taken(lx, selector, items, p.soFar) && p.groups == Grouped(items)
    requires if unused then NewPass(lx, Last(items), t + 1, p.soFar) else InPass(lx, Last(items), t + 1, p.soFar)
    ensures var q, all := TryFilters(lx, p, t), |lx.filters| + 1;
      && Taken(lx, selector, more, q.soFar) && q.groups == Grouped(more)
      && (if unused && |q.soFar| == |p.soFar| then more == items && NewPass(lx, Last(more), all, q.soFar)
          else InPass(lx, Last(more), all, q.soFar))
    decreases |lx.filters| - t
  {
    hide Taken, Grouped, Last, ComesNext;
    more := items;
    if t < |lx.filters| {
      var n := Length(lx.filters[t], p.soFar);
      if n > 0 {
        TakeToken(lx, selector, items, p, Filter(t));
        more := FiltersTaken(lx, selector, AddToken(p, n, Filter(t)), t + 1,
                             items + [Tok(Token(p.soFar[..n], Filter(t)))], false);
      } else {
        more := FiltersTaken(lx, selector, p, t + 1, items, unused);
      }
    }
  }

  /** One pass. */
  lemma PassTaken(lx: Lexers, selector: string, p: Progress, items: seq<Item>) returns (more: seq<Item>)
    requires Taken(lx, selector, items, p.soFar) && p.groups == Grouped(items)
    requires NewPass(lx, Last(items), 0, p.soFar)
    ensures var q, all := TryFilters(lx, TryCombinator(lx, p), 0), |lx.filters| + 1;
      && Taken(lx, selector, more, q.soFar) && q.groups == Grouped(more)
      && (if |q.soFar| == |p.soFar| then more == items && NewPass(lx, Last(more), all, q.soFar)
          else InPass(lx, Last(more), all, q.soFar))
  {
    hide Taken, Grouped, Last, ComesNext, TryFilters;
    var n := Length(lx.combinators, p.soFar);
    if n > 0 {
      TakeToken(lx, selector, items, p, Kind.Combinator);
      more := FiltersTaken(lx, selector, AddToken(p, n, Kind.Combinator), 0,
                           items + [Tok(Token(p.soFar[..n], Kind.Combinator))], false);
    } else {
      more := FiltersTaken(lx, selector, p, 0, items, true);
    }
  }

  lemma GroupTaken(lx: Lexers, selector: string, q: Progress, items: seq<Item>) returns (more: seq<Item>)
    requires Taken(lx, selector, items, q.soFar) && q.groups == Grouped(items) && q.soFar != ""
    requires InPass(lx, Last(items), |lx.filters| + 1, q.soFar)
    ensures var next := NextGroup(lx, q);
      && Taken(lx, selector, more, next.soFar) && next.groups == Grouped(more)
      && NewPass(lx, Last(more), 0, next.soFar)
  {
    hide Taken, Grouped, Last;
    more := items;
    var n := Length(lx.comma, q.soFar);
    if n > 0 {
      var n' := if n == |q.soFar| then 0 else n;
      more := items + [Comma(q.soFar[..n'])];
      assert q.soFar == q.soFar[..n'] + q.soFar[n'..];
      TakeMore(lx, selector, items, Comma(q.soFar[..n']), q.soFar, q.soFar[n'..]);
    }
  }

  lemma {:induction false} LexTaken(lx: Lexers, selector: string, p: Progress, items: seq<Item>)
      returns (more: seq<Item>)
    requires Taken(lx, selector, items, p.soFar) && p.groups == Grouped(items)
    requires NewPass(lx, Last(items), 0, p.soFar)
    ensures var q := Lex(lx, p);
      Taken(lx, selector, more, q.soFar) && q.groups == Grouped(more) && AtEnd(lx, more, q.soFar)
    decreases |p.soFar|
  {
    hide Taken, Grouped, Last, TryFilters, TryCombinator, NextGroup, NewPass, InPass, ComesNext;
    var q := TryFilters(lx, TryCombinator(lx, p), 0);
    more := PassTaken(lx, selector, p, items);
    if |q.soFar| != |p.soFar| && q.soFar != "" {
      more := GroupTaken(lx, selector, q, more);
      more := LexTaken(lx, selector, NextGroup(lx, q), more);
    }
  }

  /** tokenize takes what comes next, until the end. */
  lemma TokenizedTaken(lx: Lexers, selector: string)
    ensures TokenizesTo(lx, selector, Tokenized(lx, selector).groups, Tokenized(lx, selector).soFar)
  {
    if selector != "" {
      var items := LexTaken(lx, selector, Progress([[]], [], selector), []);
    }
  }

  // ---------- and there is only one way to do that ----------

  /** What comes next is determined. */
  lemma NextDetermined(lx: Lexers, last: int, item: Item, other: Item, text: string)
    requires last >= -1 && ComesNext(lx, last, item, text)
    ensures ComesNext(lx, last, other, text) ==> item == other
    ensures text != "" && !NewPass(lx, last, |lx.filters| + 1, text)
  {
  }

  /** The text of the items from k on is left when the others have been taken. */
  lemma {:induction false} TakenFirst(lx: Lexers, selector: string, items: seq<Item>, rest: string, k: nat)
      returns (text: string)
    requires Taken(lx, selector, items, rest) && k <= |items|
    ensures Taken(lx, selector, items[..k], text)
    ensures k == |items| ==> text == rest
    ensures k < |items| ==> ComesNext(lx, Last(items[..k]), items[k], text)
    ensures k + 1 == |items| ==> text == TextOf(items[k]) + rest
  {
    if k == |items| {
      assert items[..k] == items;
      text := rest;
    } else {
      var n := |items| - 1;
      text := TakenFirst(lx, selector, items[..n], TextOf(items[n]) + rest, k);
      assert items[..n][..k] == items[..k];
    }
  }

  lemma {:induction false} TakenSame(lx: Lexers, selector: string, items: seq<Item>, rest: string, other: string)
    requires Taken(lx, selector, items, rest) && Taken(lx, selector, items, other)
    ensures rest == other
  {
    if items != [] {
      var n := |items| - 1;
      TakenSame(lx, selector, items[..n], TextOf(items[n]) + rest, TextOf(items[n]) + other);
      assert rest == (TextOf(items[n]) + rest)[|TextOf(items[n])|..];
      assert other == (TextOf(items[n]) + other)[|TextOf(items[n])|..];
    }
  }

  lemma {:induction false} TakenTogether(lx: Lexers, selector: string, items: seq<Item>, rest: string,
                                         others: seq<Item>, left: string, k: nat)
    requires Taken(lx, selector, items, rest) && Taken(lx, selector, others, left)
    requires k <= |items| && k <= |others|
    ensures items[..k] == others[..k]
  {
    hide Taken, Last, ComesNext;
    if k > 0 {
      TakenTogether(lx, selector, items, rest, others, left, k - 1);
      var text := TakenFirst(lx, selector, items, rest, k - 1);
      var text' := TakenFirst(lx, selector, others, left, k - 1);
      TakenSame(lx, selector, items[..k - 1], text, text');
      NextDetermined(lx, Last(items[..k - 1]), items[k - 1], others[k - 1], text);
      assert items[..k] == items[..k - 1] + [items[k - 1]] && others[..k] == others[..k - 1] + [others[k - 1]];
    }
  }

  /** So the groups and what is left are determined. */
  lemma TokenizesOneWay(lx: Lexers, selector: string, groups: seq<seq<Token>>, rest: string,
                        others: seq<seq<Token>>, left: string)
    requires TokenizesTo(lx, selector, groups, rest) && TokenizesTo(lx, selector, others, left)
    ensures groups == others && rest == left
  {
    hide Taken, Grouped, AtEnd;
    if selector != "" {
      var xs :| Taken(lx, selector, xs, rest) && AtEnd(lx, xs, rest) && groups == Grouped(xs);
      var ys :| Taken(lx, selector, ys, left) && AtEnd(lx, ys, left) && others == Grouped(ys);
      EndsTogether(lx, selector, xs, rest, ys, left);
      EndsTogether(lx, selector, ys, left, xs, rest);
      assert xs[..|xs|] == xs && ys[..|ys|] == ys;
      TakenTogether(lx, selector, xs, rest, ys, left, |xs|);
      TakenSame(lx, selector, xs, rest, left);
    }
  }

  lemma EndsTogether(lx: Lexers, selector: string, xs: seq<Item>, rest: string, ys: seq<Item>, left: string)
    requires Taken(lx, selector, xs, rest) && AtEnd(lx, xs, rest) && Taken(lx, selector, ys, left)
    ensures |ys| <= |xs|
  {
    if |xs| < |ys| {
      TakenTogether(lx, selector, xs, rest, ys, left, |xs|);
      assert xs[..|xs|] == xs;
      var text := TakenFirst(lx, selector, ys, left, |xs|);
      TakenSame(lx, selector, xs, rest, text);
      NextDetermined(lx, Last(xs), ys[|xs|], ys[|xs|], text);
    }
  }

  /** What is left is an end of the selector from which no lexer takes anything, unless it is
      empty. */
  lemma LeftIsStuck(lx: Lexers, selector: string, groups: seq<seq<Token>>, rest: string)
    requires TokenizesTo(lx, selector, groups, rest)
    ensures |rest| <= |selector| && selector[|selector| - |rest|..] == rest
    ensures rest == "" || Stuck(lx, rest)
  {
    if selector != "" {
      var items :| Taken(lx, selector, items, rest) && AtEnd(lx, items, rest) && groups == Grouped(items);
      TakenEnd(lx, selector, items, rest);
    }
  }

  lemma {:induction false} TakenEnd(lx: Lexers, selector: string, items: seq<Item>, rest: string)
    requires Taken(lx, selector, items, rest)
    ensures |rest| <= |selector| && selector[|selector| - |rest|..] == rest
  {
    if items != [] {
      var text := TextOf(items[|items| - 1]);
      TakenEnd(lx, selector, items[..|items| - 1], text + rest);
      assert selector[|selector| - |rest|..] == selector[|selector| - |text + rest|..][|text|..];
    }
  }

  // ---------- the code ----------

  /** A JavaScript array of tokens, and one of such arrays. */
  class TokenArray {
    var items: seq<Token>

    constructor (items: seq<Token>)
      ensures this.items == items
    {
      this.items := items;
    }
  }

  class GroupArray {
    var items: seq<TokenArray>

    constructor (items: seq<TokenArray>)
      ensures this.items == items
    {
      this.items := items;
    }
  }

  ghost predicate Distinct(arrays: seq<TokenArray>) {
    forall i, j :: 0 <= i < j < |arrays| ==> arrays[i] != arrays[j]
  }

  /** The arrays hold the given groups. */
  ghost predicate Represents(arrays: seq<TokenArray>, groups: seq<seq<Token>>)
    reads arrays
  {
    |arrays| == |groups| && forall i :: 0 <= i < |arrays| ==> arrays[i].items == groups[i]
  }

  /** Going on from p completes the tokenization. */
  ghost predicate Leads(lx: Lexers, selector: string, p: Progress, matched: bool)
    requires p.groups != []
  {
    Tokenized(lx, selector) == if matched && p.soFar != "" then Lex(lx, NextGroup(lx, p)) else p
  }

  /** What tokenize returns: the length of the excess when only parsing, groups or an error. */
  datatype Result = Excess(length: nat) | Groups(groups: GroupArray) | SyntaxError

  class Sizzle {
    const lexers: Lexers
    const tokenCache: BoundedCache<GroupArray>

    /** The group arrays in the cache, and their token arrays. */
    ghost function CachedGroups(): set<GroupArray>
      reads this, tokenCache
    {
      tokenCache.entries.Values
    }

    ghost function CachedTokens(): set<TokenArray>
      reads this, tokenCache, CachedGroups()
    {
      set g, t | g in CachedGroups() && t in g.items :: t
    }

    /** Every live entry equals a fresh tokenization of its selector. */
    ghost predicate Valid()
      reads this, tokenCache, CachedGroups(), CachedTokens()
    {
      && tokenCache.Valid()
      && forall k :: k in tokenCache.entries ==>
           tokenCache.entries[k] in CachedGroups()
           && (forall t :: t in tokenCache.entries[k].items ==> t in CachedTokens())
           && UpToDate(k, tokenCache.entries[k])
    }

    ghost predicate UpToDate(key: string, groups: GroupArray)
      reads groups, groups.items
    {
      forall s: string :: s + " " == key ==>
        Accepted(lexers, s) && Represents(groups.items, Tokenized(lexers, s).groups)
    }

    constructor (lexers: Lexers, cacheLength: nat)
      ensures Valid() && this.lexers == lexers && fresh(tokenCache)
    {
      this.lexers := lexers;
      tokenCache := new BoundedCache(cacheLength);
    }

    /** tokenize */
    method Tokenize(selector: string, parseOnly: bool) returns (result: Result)
      requires Valid()
      modifies tokenCache
      ensures Valid()
      ensures if parseOnly then result == Excess(|Tokenized(lexers, selector).soFar|)
              else if Accepted(lexers, selector) then
                && result.Groups? && fresh(result.groups) && result.groups !in CachedGroups()
                && Represents(result.groups.items, Tokenized(lexers, selector).groups)
              else result == SyntaxError
      ensures var p := Tokenized(lexers, selector); TokenizesTo(lexers, selector, p.groups, p.soFar)
      ensures result.SyntaxError? ==> exists k :: 0 <= k < |selector| && Stuck(lexers, selector[k..])
      ensures result.Excess? && result.length > 0 ==>
        result.length <= |selector| && Stuck(lexers, selector[|selector| - result.length..])
    {
      hide Tokenized, Represents, Bounded, TokenizesTo, Stuck;
      TokenizedTaken(lexers, selector);
      LeftIsStuck(lexers, selector, Tokenized(lexers, selector).groups, Tokenized(lexers, selector).soFar);
      if selector + " " in tokenCache.entries {
        var cached := tokenCache.entries[selector + " "];
        if parseOnly {
          return Excess(0);
        }
        var copy := new GroupArray(cached.items);
        return Groups(copy);
      }
      var groups, rest := Scan(selector);
      if parseOnly {
        return Excess(|rest|);
      } else if rest != "" {
        return SyntaxError;
      }
      Remember(selector, groups);
      var copy := new GroupArray(groups);
      return Groups(copy);
    }

    /** Puts the groups of an accepted selector into the cache. */
    method Remember(selector: string, groups: seq<TokenArray>)
      requires Valid() && Accepted(lexers, selector) && Represents(groups, Tokenized(lexers, selector).groups)
      modifies tokenCache
      ensures Valid()
    {
      hide Accepted, Tokenized, Represents, Bounded;
      var stored := new GroupArray(groups);
      ghost var before := tokenCache.entries;
      forall s | s + " " == selector + " " ensures s == selector { SameKey(s, selector); }
      assert UpToDate(selector + " ", stored);
      label Stored:
      tokenCache.Put(selector, stored);
      forall k | k in tokenCache.entries
        ensures tokenCache.entries[k] in CachedGroups() && UpToDate(k, tokenCache.entries[k])
        ensures forall t :: t in tokenCache.entries[k].items ==> t in CachedTokens()
      {
        assert tokenCache.entries[k] in CachedGroups();
        if k != selector + " " {
          assert k in before && tokenCache.entries[k] == before[k];
        }
      }
    }

    /** The loop of tokenize. */
    method Scan(selector: string) returns (groups: seq<TokenArray>, rest: string)
      ensures Distinct(groups) && forall g :: 0 <= g < |groups| ==> fresh(groups[g])
      ensures Represents(groups, Tokenized(lexers, selector).groups) && rest == Tokenized(lexers, selector).soFar
    {
      groups, rest := [], selector;
      var matched, first := true, true;
      ghost var p := Progress([], [], selector);
      while rest != "" && matched
        invariant Distinct(groups) && forall g :: 0 <= g < |groups| ==> fresh(groups[g])
        invariant Represents(groups, p.groups) && p.soFar == rest
        invariant first ==> p == Progress([], [], selector) && matched
        invariant !first ==> p.groups != [] && Leads(lexers, selector, p, matched)
        decreases |rest|, matched
      {
        // Comma and first run
        var n := if first then 0 else Length(lexers.comma, rest);
        if first || n > 0 {
          rest := if n < |rest| then rest[n..] else rest;
          var tokens := new TokenArray([]);
          groups := groups + [tokens];
        }
        p := if first then Progress([[]], [], selector) else NextGroup(lexers, p);
        first := false;
        var before := |rest|;
        rest := Pass(groups, rest, p);
        p := TryFilters(lexers, TryCombinator(lexers, p), 0);
        matched := |rest| < before;
      }
    }

    /** The combinator and then each filter type are tried once on the text. */
    method Pass(groups: seq<TokenArray>, text: string, ghost p0: Progress) returns (rest: string)
      requires Distinct(groups) && groups != [] && Represents(groups, p0.groups) && p0.soFar == text
      modifies groups[|groups| - 1]
      ensures var q := TryFilters(lexers, TryCombinator(lexers, p0), 0); Represents(groups, q.groups) && rest == q.soFar
    {
      rest := text;
      ghost var p := p0;
      var n := Length(lexers.combinators, rest);
      if n > 0 {
        PushToken(groups, rest, n, Kind.Combinator, p);
        rest := rest[n..];
      }
      p := TryCombinator(lexers, p);
      ghost var q := TryFilters(lexers, p, 0);
      for t := 0 to |lexers.filters|
        invariant Represents(groups, p.groups) && p.soFar == rest && p.groups != []
        invariant TryFilters(lexers, p, t) == q
      {
        n := Length(lexers.filters[t], rest);
        if n > 0 {
          PushToken(groups, rest, n, Filter(t), p);
          p := AddToken(p, n, Filter(t));
          rest := rest[n..];
        }
      }
    }

    /** tokens.push of a match at the start of the text, on the last group. */
    method PushToken(groups: seq<TokenArray>, text: string, n: nat, kind: Kind, ghost p: Progress)
      requires Distinct(groups) && groups != [] && Represents(groups, p.groups) && p.soFar == text && n <= |text|
      modifies groups[|groups| - 1]
      ensures Represents(groups, AddToken(p, n, kind).groups)
    {
      var tokens := groups[|groups| - 1];
      tokens.items := tokens.items + [Token(text[..n], kind)];
    }

    /** The token handling of select. The host decides whether elements can be got by ID from
        the context (an HTML document), which texts need their context, and for which tokens
        Expr.find yields a seed. The tokens taken away come from copies: the cache keeps what
        tokenize found. */
    method Select(selector: string, getsById: bool, needsContext: string -> bool, finds: Token -> bool)
        returns (result: Result, text: string)
      requires Valid()
      modifies tokenCache
      ensures Valid()
      ensures result.Groups? <==> Accepted(lexers, selector)
      ensures result.Groups? ==>
        var groups := Tokenized(lexers, selector).groups;
        && fresh(result.groups) && |result.groups.items| == |groups|
        && if |groups| == 1 then
             && Reduced(lexers, groups[0], result.groups.items[0].items, getsById, needsContext, finds)
             && text == ToSelector(result.groups.items[0].items)
           else Represents(result.groups.items, groups) && text == selector
    {
      hide Accepted, Tokenized, UpToDate, Reduced, ToSelector, Bounded, TokenizesTo, Stuck;
      text := selector;
      result := Tokenize(selector, false);
      if !result.Groups? || |result.groups.items| != 1 {
        return;
      }
      // tokens = match[0] = match[0].slice( 0 )
      var tokens := new TokenArray(result.groups.items[0].items);
      result.groups.items := [tokens];
      OneGroup(lexers, selector);
      text := Reduce(lexers, tokens, selector, getsById, needsContext, finds);
    }

    static lemma OneGroup(lx: Lexers, selector: string)
      requires Accepted(lx, selector) && |Tokenized(lx, selector).groups| == 1
      ensures selector == ToSelector(Tokenized(lx, selector).groups[0])
    {
      TokensRebuildSelector(lx, selector);
    }

    /** select on a single group: shifts off a leading ID, then looks for a seed from the
        right. */
    static method Reduce(lx: Lexers, tokens: TokenArray, selector: string, getsById: bool,
                         needsContext: string -> bool, finds: Token -> bool) returns (text: string)
      requires selector == ToSelector(tokens.items)
      modifies tokens
      ensures Reduced(lx, old(tokens.items), tokens.items, getsById, needsContext, finds)
      ensures text == ToSelector(tokens.items)
    {
      text := selector;
      if |tokens.items| > 2 && lx.IsId(tokens.items[0]) && getsById && tokens.items[1].kind.Combinator? {
        ShiftText(tokens.items);
        text := text[|tokens.items[0].value|..];
        tokens.items := tokens.items[1..];
      }
      ghost var shifted := tokens.items;
      var i := if needsContext(text) then 0 else |tokens.items|;
      while i > 0
        invariant 0 <= i <= |shifted| && tokens.items == shifted
        invariant !needsContext(ToSelector(shifted)) ==>
          forall j :: i <= j < |shifted| ==> !shifted[j].kind.Combinator? && !finds(shifted[j])
      {
        i := i - 1;
        if tokens.items[i].kind.Combinator? {
          assert forall k :: IsSeed(shifted, k, finds) ==> k > i;
          return;
        }
        if finds(tokens.items[i]) {
          tokens.items := tokens.items[..i] + tokens.items[i + 1..];
          assert IsSeed(shifted, i, finds);
          return ToSelector(tokens.items);
        }
      }
      assert !needsContext(ToSelector(shifted)) ==> forall k :: !IsSeed(shifted, k, finds);
    }
  }

  /** Token i yields the seed: the last one of the last compound that can. */
  ghost predicate IsSeed(tokens: seq<Token>, i: int, finds: Token -> bool) {
    && 0 <= i < |tokens| && finds(tokens[i])
    && (forall j :: i <= j < |tokens| ==> !tokens[j].kind.Combinator?)
    && (forall j :: i < j < |tokens| ==> !finds(tokens[j]))
  }

  /** What select takes from a group: an ID before a combinator, and the token of the seed. */
  ghost predicate Reduced(lx: Lexers, before: seq<Token>, after: seq<Token>, getsById: bool,
                          needsContext: string -> bool, finds: Token -> bool) {
    var shortcut := |before| > 2 && lx.IsId(before[0]) && getsById && before[1].kind.Combinator?;
    var rest := if shortcut then before[1..] else before;
    if needsContext(ToSelector(rest)) then after == rest
    else
      || (exists i :: IsSeed(rest, i, finds) && after == rest[..i] + rest[i + 1..])
      || (after == rest && !exists i :: IsSeed(rest, i, finds))
  }

  lemma {:induction false} ShiftText(tokens: seq<Token>)
    requires tokens != []
    ensures |tokens[0].value| <= |ToSelector(tokens)|
    ensures ToSelector(tokens)[|tokens[0].value|..] == ToSelector(tokens[1..])
    ensures ToSelector(tokens) == tokens[0].value + ToSelector(tokens[1..])
  {
    var n := |tokens| - 1;
    if n == 0 {
      assert ToSelector(tokens[..0]) == "";
    } else {
      ShiftText(tokens[..n]);
      assert tokens[..n][1..] == tokens[1..][..n - 1];
      var first, middle, last := tokens[0].value, ToSelector(tokens[..n][1..]), tokens[n].value;
      assert ToSelector(tokens[1..]) == middle + last;
      hide ToSelector;
      assert (first + middle) + last == first + (middle + last);
    }
  }
}
