/** Positional selectors (:first, :eq, :even, ...) on a seed: condense, the positional
    pseudos and setMatcher, which move matches in place between the arrays seed and
    results. */
module Positional {
  import opened Dom
  import opened Wrappers

  type Test = int -> bool

  /** What setMatcher was given: Wrapped is a plain element matcher made into a set matcher,
      Positions has a pre-filter, the index list its pseudo computes from a length, and a
      post-filter. */
  datatype SetMatcher =
    | Wrapped(filter: Test)
    | Positioned(pre: Option<Test>, pick: nat -> seq<int>, post: Option<SetMatcher>)

  /** Element k of an array; NIL stands for every falsy slot, also beyond the end. */
  function At(slots: seq<int>, k: int): int {
    if 0 <= k < |slots| then slots[k] else NIL
  }

  // ---------- ranks ----------

  /** The indices of the set flags, ascending. */
  function Indices(flags: seq<bool>): (ks: seq<int>) {
    if flags == [] then []
    else
      var n := |flags| - 1;
      Indices(flags[..n]) + if flags[n] then [n] else []
  }

  ghost function Rank(flags: seq<bool>, k: nat): nat
    requires k <= |flags|
  {
    |Indices(flags[..k])|
  }

  function Gather(slots: seq<int>, ks: seq<int>): (r: seq<int>)
    ensures |r| == |ks| && forall i :: 0 <= i < |ks| ==> r[i] == At(slots, ks[i])
  {
    seq(|ks|, i requires 0 <= i < |ks| => At(slots, ks[i]))
  }

  /** The index list contains exactly the set flags, each at its rank. */
  lemma {:induction false} IndicesRanked(flags: seq<bool>)
    ensures forall i :: 0 <= i < |Indices(flags)| ==>
      var k := Indices(flags)[i]; 0 <= k < |flags| && flags[k] && Rank(flags, k) == i
    ensures forall k :: 0 <= k < |flags| && flags[k] ==>
      Rank(flags, k) < |Indices(flags)| && Indices(flags)[Rank(flags, k)] == k
  {
    if flags != [] {
      var n := |flags| - 1;
      IndicesRanked(flags[..n]);
      assert forall k :: 0 <= k <= n ==> flags[..n][..k] == flags[..k];
    }
  }

  /** Cleared flags at the end do not change the indices. */
  lemma {:induction false} TrailingFlags(flags: seq<bool>, m: nat)
    requires m <= |flags| && forall k :: m <= k < |flags| ==> !flags[k]
    ensures Indices(flags) == Indices(flags[..m])
    decreases |flags|
  {
    if m < |flags| {
      var n := |flags| - 1;
      TrailingFlags(flags[..n], m);
      assert flags[..n][..m] == flags[..m];
    } else {
      assert flags[..m] == flags;
    }
  }

  // ---------- what a set matcher selects ----------

  ghost function Passing(slots: seq<int>, filter: Test): (flags: seq<bool>)
    ensures |flags| == |slots|
  {
    seq(|slots|, i requires 0 <= i < |slots| => slots[i] != NIL && filter(slots[i]))
  }

  /** Already matched, or a candidate at a chosen position. */
  ghost predicate Candidate(pick: nat -> seq<int>, seed: seq<int>, results: seq<int>, k: int) {
    At(results, k) != NIL || (At(seed, k) != NIL && k in pick(|seed|))
  }

  ghost function Candidates(pick: nat -> seq<int>, seed: seq<int>, results: seq<int>): (flags: seq<bool>)
    ensures |flags| == |seed|
  {
    seq(|seed|, k => Candidate(pick, seed, results, k))
  }

  /** The element that index k stands for, wherever it is. */
  ghost function Original(seed: seq<int>, results: seq<int>, k: int): int {
    if At(results, k) != NIL then At(results, k) else At(seed, k)
  }

  ghost function Originals(seed: seq<int>, results: seq<int>): (r: seq<int>)
    ensures |r| == |seed|
  {
    seq(|seed|, k => Original(seed, results, k))
  }

  /** Whether results holds index k after the set matcher has run. */
  ghost predicate Wins(sm: SetMatcher, seed: seq<int>, results: seq<int>, k: int)
    requires 0 <= k < |seed|
    decreases sm, 1
  {
    match sm
    case Wrapped(filter) => At(results, k) != NIL || (seed[k] != NIL && filter(seed[k]))
    case Positioned(None, pick, post) => WinsPicked(sm, seed, results, k)
    case Positioned(Some(filter), pick, post) =>
      var flags := Passing(seed, filter);
      || At(results, k) != NIL
      || (flags[k]
          && Rank(flags, k) < |Indices(flags)|
          && WinsPicked(sm, Gather(seed, Indices(flags)), [], Rank(flags, k)))
  }

  /** The same, after the pre-filter: a candidate whose rank among the candidates
      survives the post-filter. */
  ghost predicate WinsPicked(sm: SetMatcher, seed: seq<int>, results: seq<int>, k: int)
    requires sm.Positioned? && 0 <= k < |seed|
    decreases sm, 0
  {
    var flags := Candidates(sm.pick, seed, results);
    && flags[k]
    && (sm.post.Some? ==>
          && Rank(flags, k) < |Indices(flags)|
          && Wins(sm.post.value, Gather(Originals(seed, results), Indices(flags)), [], Rank(flags, k)))
  }

  // ---------- the arrays ----------

  /** A JavaScript array of elements and falsy slots. */
  class Slots {
    var slots: seq<int>

    constructor (slots: seq<int>)
      ensures this.slots == slots
    {
      this.slots := slots;
    }

    /** a[k] = v, which lengthens the array if need be. */
    method Put(k: nat, v: int)
      modifies this
      ensures |slots| == if k < |old(slots)| then |old(slots)| else k + 1
      ensures forall j :: At(slots, j) == if j == k then v else At(old(slots), j)
    {
      if k < |slots| {
        slots := slots[k := v];
      } else {
        slots := slots + seq(k - |slots|, _ => NIL) + [v];
      }
    }
  }

  /** At each index, exactly one of the two arrays holds the original element; results
      holds it exactly where winners says so. */
  ghost predicate Split(seed: seq<int>, results: seq<int>, seed0: seq<int>, results0: seq<int>, k: int, wins: bool) {
    && At(results, k) == (if wins then Original(seed0, results0, k) else NIL)
    && At(seed, k) == (if wins then NIL else Original(seed0, results0, k))
  }

  /** No index is in both arrays, and results is no longer than seed. */
  ghost predicate Disjoint(seed: seq<int>, results: seq<int>) {
    |results| <= |seed| && forall k :: At(seed, k) == NIL || At(results, k) == NIL
  }

  /** condense: the elements passing the filter, and their indices. */
  method Condense(unmatched: Slots, filter: Test) returns (newUnmatched: Slots, indices: seq<int>)
    ensures fresh(newUnmatched)
    ensures indices == Indices(Passing(unmatched.slots, filter))
    ensures newUnmatched.slots == Gather(unmatched.slots, indices)
  {
    newUnmatched := new Slots([]);
    indices := [];
    ghost var flags := Passing(unmatched.slots, filter);
    for i := 0 to |unmatched.slots|
      invariant indices == Indices(flags[..i])
      invariant newUnmatched.slots == Gather(unmatched.slots, indices)
    {
      var elem := unmatched.slots[i];
      assert flags[..i + 1][..i] == flags[..i];
      if elem != NIL && filter(elem) {
        newUnmatched.slots := newUnmatched.slots + [elem];
        indices := indices + [i];
      }
    }
    assert flags[..|flags|] == flags;
  }

  /** createPositionalPseudo: moves the elements at the chosen indices. */
  method Pick(pick: nat -> seq<int>, seed: Slots, matches: Slots)
    requires seed != matches && Disjoint(seed.slots, matches.slots)
    modifies seed, matches
    ensures |seed.slots| == |old(seed.slots)| && |matches.slots| <= |seed.slots|
    ensures forall k :: 0 <= k < |seed.slots| ==>
      Split(seed.slots, matches.slots, old(seed.slots), old(matches.slots), k,
            Candidate(pick, old(seed.slots), old(matches.slots), k))
  {
    var matchIndexes := pick(|seed.slots|);
    var i := |matchIndexes|;
    while i > 0
      invariant 0 <= i <= |matchIndexes|
      invariant |seed.slots| == |old(seed.slots)| && |matches.slots| <= |seed.slots|
      invariant forall k :: 0 <= k < |seed.slots| ==>
        Split(seed.slots, matches.slots, old(seed.slots), old(matches.slots), k,
              At(old(matches.slots), k) != NIL || (At(old(seed.slots), k) != NIL && k in matchIndexes[i..]))
    {
      i := i - 1;
      var j := matchIndexes[i];
      assert matchIndexes[i..] == [j] + matchIndexes[i + 1..];
      if At(seed.slots, j) != NIL {
        matches.Put(j, seed.slots[j]);
        seed.Put(j, NIL);
      }
    }
  }

  /** Moves what the post-filter left in temp back from matcherOut to matcherIn. */
  method Unmatch(temp: Slots, postMap: seq<int>, matcherIn: Slots, matcherOut: Slots,
                 ghost flags: seq<bool>, ghost seed0: seq<int>, ghost results0: seq<int>)
    requires matcherIn != matcherOut && temp != matcherIn && temp != matcherOut
    requires |matcherOut.slots| <= |matcherIn.slots| == |flags| == |seed0|
    requires postMap == Indices(flags) && |temp.slots| == |postMap|
    requires forall i :: 0 <= i < |postMap| ==>
      temp.slots[i] == NIL || temp.slots[i] == Original(seed0, results0, postMap[i])
    requires forall k :: 0 <= k < |seed0| ==> Split(matcherIn.slots, matcherOut.slots, seed0, results0, k, flags[k])
    modifies matcherIn, matcherOut
    ensures |matcherOut.slots| <= |matcherIn.slots| == |seed0|
    ensures forall k :: 0 <= k < |seed0| ==>
      Split(matcherIn.slots, matcherOut.slots, seed0, results0, k,
            flags[k] && At(temp.slots, Rank(flags, k)) == NIL)
  {
    IndicesRanked(flags);
    var i := |temp.slots|;
    while i > 0
      invariant 0 <= i <= |temp.slots|
      invariant |matcherOut.slots| <= |matcherIn.slots| == |seed0|
      invariant forall k :: 0 <= k < |seed0| ==>
        Split(matcherIn.slots, matcherOut.slots, seed0, results0, k,
              flags[k] && (Rank(flags, k) < i || At(temp.slots, Rank(flags, k)) == NIL))
    {
      i := i - 1;
      var elem := temp.slots[i];
      if elem != NIL {
        matcherIn.Put(postMap[i], elem);
        matcherOut.Put(postMap[i], NIL);
      }
    }
  }

  /** Moves the matches found among the pre-filtered elements from seed to results. */
  method MoveMatches(matcherOut: Slots, preMap: seq<int>, seed: Slots, results: Slots, ghost flags: seq<bool>)
    requires seed != results && matcherOut != seed && matcherOut != results
    requires Disjoint(seed.slots, results.slots) && |flags| == |seed.slots|
    requires preMap == Indices(flags) && |matcherOut.slots| <= |preMap|
    requires forall i :: 0 <= i < |matcherOut.slots| ==>
      matcherOut.slots[i] == NIL || matcherOut.slots[i] == At(seed.slots, preMap[i])
    modifies seed, results
    ensures |results.slots| <= |seed.slots| == |old(seed.slots)|
    ensures forall k :: 0 <= k < |seed.slots| ==>
      Split(seed.slots, results.slots, old(seed.slots), old(results.slots), k,
            At(old(results.slots), k) != NIL || (flags[k] && At(matcherOut.slots, Rank(flags, k)) != NIL))
  {
    IndicesRanked(flags);
    ghost var seed0, results0 := seed.slots, results.slots;
    var i := |matcherOut.slots|;
    while i > 0
      invariant 0 <= i <= |matcherOut.slots|
      invariant |results.slots| <= |seed.slots| == |seed0|
      invariant forall k :: 0 <= k < |seed0| ==>
        Split(seed.slots, results.slots, seed0, results0, k,
              At(results0, k) != NIL
              || (flags[k] && Rank(flags, k) >= i && At(matcherOut.slots, Rank(flags, k)) != NIL))
    {
      i := i - 1;
      var elem := matcherOut.slots[i];
      if elem != NIL {
        results.Put(preMap[i], elem);
        seed.Put(preMap[i], NIL);
      }
    }
  }

  /** Post-filtering and un-matching: a candidate stays matched when its rank among the
      candidates wins in the post-filter. */
  lemma CondensedCandidates(pick: nat -> seq<int>, seed0: seq<int>, results0: seq<int>, matcherOut: seq<int>)
    requires |matcherOut| <= |seed0|
    requires forall k :: 0 <= k < |seed0| ==>
      At(matcherOut, k) == if Candidate(pick, seed0, results0, k) then Original(seed0, results0, k) else NIL
    ensures var flags := Candidates(pick, seed0, results0);
            && Indices(Passing(matcherOut, _ => true)) == Indices(flags)
            && Gather(matcherOut, Indices(flags)) == Gather(Originals(seed0, results0), Indices(flags))
  {
    var flags := Candidates(pick, seed0, results0);
    IndicesRanked(flags);
    assert forall k :: |matcherOut| <= k < |seed0| ==> At(matcherOut, k) == NIL;
    TrailingFlags(flags, |matcherOut|);
    assert Passing(matcherOut, _ => true) == flags[..|matcherOut|];
  }

  /** setMatcher after its pre-filter: the positional pseudo, then the post-filter. */
  method RunPicked(sm: SetMatcher, matcherIn: Slots, matcherOut: Slots)
    requires sm.Positioned? && matcherIn != matcherOut && Disjoint(matcherIn.slots, matcherOut.slots)
    modifies matcherIn, matcherOut
    ensures |matcherOut.slots| <= |matcherIn.slots| == |old(matcherIn.slots)|
    ensures forall k :: 0 <= k < |matcherIn.slots| ==>
      Split(matcherIn.slots, matcherOut.slots, old(matcherIn.slots), old(matcherOut.slots), k,
            WinsPicked(sm, old(matcherIn.slots), old(matcherOut.slots), k))
    decreases sm, 0
  {
    ghost var seed0, results0 := matcherIn.slots, matcherOut.slots;
    Pick(sm.pick, matcherIn, matcherOut);
    if sm.post.Some? {
      CondensedCandidates(sm.pick, seed0, results0, matcherOut.slots);
      ghost var flags := Candidates(sm.pick, seed0, results0);
      var temp, postMap := Condense(matcherOut, _ => true);
      IndicesRanked(flags);
      var discarded := new Slots([]);
      ghost var condensed := temp.slots;
      RunSplit(sm.post.value, temp, discarded);
      forall i | 0 <= i < |postMap|
        ensures temp.slots[i] ==
                if Wins(sm.post.value, condensed, [], i) then NIL else Original(seed0, results0, postMap[i])
      {
        assert Split(temp.slots, discarded.slots, condensed, [], i, Wins(sm.post.value, condensed, [], i));
      }
      Unmatch(temp, postMap, matcherIn, matcherOut, flags, seed0, results0);
    }
  }

  /** setMatcher with a seed and no post-finder. */
  method Run(sm: SetMatcher, seed: Slots, results: Slots)
    requires seed != results && Disjoint(seed.slots, results.slots)
    modifies seed, results
    ensures |results.slots| <= |seed.slots| == |old(seed.slots)|
    ensures forall k :: 0 <= k < |seed.slots| ==>
      Split(seed.slots, results.slots, old(seed.slots), old(results.slots), k,
            Wins(sm, old(seed.slots), old(results.slots), k))
    ensures AsMeant(sm, old(seed.slots), old(results.slots), results.slots)
    decreases sm, 1
  {
    ghost var seed0, results0 := seed.slots, results.slots;
    RunSplit(sm, seed, results);
    RunMeans(sm, seed0, results0, results.slots);
  }

  /** The body of setMatcher: each index ends in the array that Wins says. */
  method RunSplit(sm: SetMatcher, seed: Slots, results: Slots)
    requires seed != results && Disjoint(seed.slots, results.slots)
    modifies seed, results
    ensures |results.slots| <= |seed.slots| == |old(seed.slots)|
    ensures forall k :: 0 <= k < |seed.slots| ==>
      Split(seed.slots, results.slots, old(seed.slots), old(results.slots), k,
            Wins(sm, old(seed.slots), old(results.slots), k))
    decreases sm, 1
  {
    match sm
    case Wrapped(filter) =>
      ghost var flags := Passing(seed.slots, filter);
      IndicesRanked(flags);
      var matcherIn, preMap := Condense(seed, filter);
      MoveMatches(matcherIn, preMap, seed, results, flags);
    case Positioned(None, _, _) =>
      RunPicked(sm, seed, results);
    case Positioned(Some(filter), _, _) =>
      ghost var flags := Passing(seed.slots, filter);
      IndicesRanked(flags);
      var matcherIn, preMap := Condense(seed, filter);
      var matcherOut := new Slots([]);
      ghost var condensed := matcherIn.slots;
      RunPicked(sm, matcherIn, matcherOut);
      forall i | 0 <= i < |preMap|
        ensures At(matcherOut.slots, i) == if WinsPicked(sm, condensed, [], i) then At(seed.slots, preMap[i]) else NIL
      {
        assert Split(matcherIn.slots, matcherOut.slots, condensed, [], i, WinsPicked(sm, condensed, [], i));
      }
      MoveMatches(matcherOut, preMap, seed, results, flags);
  }

  // ---------- the meaning as a list ----------

  /** The elements that pass, in order. */
  ghost function Filtered(slots: seq<int>, filter: Test): (r: seq<int>) {
    if slots == [] then []
    else
      var n := |slots| - 1;
      Filtered(slots[..n], filter) + if slots[n] != NIL && filter(slots[n]) then [slots[n]] else []
  }

  ghost function Compact(slots: seq<int>): (r: seq<int>) {
    Filtered(slots, _ => true)
  }

  /** The elements at the wanted positions, and those held already, in order. */
  ghost function Picked(slots: seq<int>, held: seq<int>, wanted: seq<int>): (r: seq<int>) {
    if slots == [] then []
    else
      var n := |slots| - 1;
      Picked(slots[..n], held, wanted)
        + if At(held, n) != NIL then [At(held, n)]
          else if slots[n] != NIL && n in wanted then [slots[n]] else []
  }

  /** What a selector with positions means, read from left to right: filter the list, take
      the elements at the positions, and go on with the rest of the selector on those. */
  ghost function Meaning(sm: SetMatcher, slots: seq<int>): (r: seq<int>)
    decreases sm, 1
  {
    match sm
    case Wrapped(filter) => Filtered(slots, filter)
    case Positioned(pre, pick, post) =>
      var list := if pre.Some? then Filtered(slots, pre.value) else slots;
      Rest(post, Picked(list, [], pick(|list|)))
  }

  ghost function Rest(post: Option<SetMatcher>, list: seq<int>): (r: seq<int>)
    decreases post, 0
  {
    match post
    case None => list
    case Some(sm) => Meaning(sm, list)
  }

  /** An element that passes the pre-filter, at a chosen position among those that do. */
  ghost predicate Chosen(pre: Option<Test>, pick: nat -> seq<int>, slots: seq<int>, k: int)
    requires 0 <= k < |slots|
  {
    && slots[k] != NIL
    && match pre
       case None => k in pick(|slots|)
       case Some(filter) =>
         filter(slots[k]) && |Filtered(slots[..k], filter)| in pick(|Filtered(slots, filter)|)
  }

  /** What setMatcher puts into results at one index. */
  ghost predicate SlotAsMeant(sm: SetMatcher, seed: seq<int>, was: int, now: int, k: int)
    requires 0 <= k < |seed|
  {
    match sm
    case Wrapped(filter) =>
      now == if was != NIL then was else if seed[k] != NIL && filter(seed[k]) then seed[k] else NIL
    case Positioned(pre, pick, None) =>
      now == if was != NIL then was else if Chosen(pre, pick, seed, k) then seed[k] else NIL
    case Positioned(Some(filter), pick, Some(Wrapped(post))) =>
      now == if was != NIL then was
             else if Chosen(sm.pre, pick, seed, k) && post(seed[k]) then seed[k] else NIL
    case Positioned(None, pick, Some(Wrapped(post))) =>
      now == if was != NIL then (if post(was) then was else NIL)
             else if Chosen(sm.pre, pick, seed, k) && post(seed[k]) then seed[k] else NIL
    case Positioned(Some(_), _, _) =>
      was != NIL ==> now == was
    case _ => true
  }

  /** The slots of results filled by this run. */
  ghost function Added(results0: seq<int>, results: seq<int>): (r: seq<int>)
    ensures |r| == |results|
  {
    seq(|results|, k requires 0 <= k < |results| => if At(results0, k) != NIL then NIL else results[k])
  }

  /** What setMatcher does to results. Without a pre-filter the earlier matches go through
      the post-filter with the elements at the chosen positions; otherwise they stay. */
  ghost predicate AsMeant(sm: SetMatcher, seed: seq<int>, results0: seq<int>, results: seq<int>) {
    && (forall k :: 0 <= k < |seed| ==> SlotAsMeant(sm, seed, At(results0, k), At(results, k), k))
    && (if sm.Positioned? && sm.pre.None?
        then Compact(results) == Rest(sm.post, Picked(seed, results0, sm.pick(|seed|)))
        else Compact(Added(results0, results)) == Meaning(sm, seed))
  }

  ghost function Winners(sm: SetMatcher, seed: seq<int>): (flags: seq<bool>)
    ensures |flags| == |seed|
  {
    seq(|seed|, k requires 0 <= k < |seed| => Wins(sm, seed, [], k))
  }

  /** Flags on the elements that other flags select. */
  ghost function Within(flags: seq<bool>, inner: seq<bool>): (r: seq<bool>)
    requires |inner| == |Indices(flags)|
    ensures |r| == |flags|
  {
    IndicesRanked(flags);
    seq(|flags|, k requires 0 <= k < |flags| => flags[k] && inner[Rank(flags, k)])
  }

  lemma {:induction false} FilteredGathers(slots: seq<int>, filter: Test)
    ensures Filtered(slots, filter) == Gather(slots, Indices(Passing(slots, filter)))
  {
    if slots != [] {
      var n := |slots| - 1;
      FilteredGathers(slots[..n], filter);
      assert Passing(slots, filter)[..n] == Passing(slots[..n], filter);
      IndicesRanked(Passing(slots[..n], filter));
    }
  }

  lemma {:induction false} PickedGathers(pick: nat -> seq<int>, seed: seq<int>, held: seq<int>, n: nat)
    requires n <= |seed|
    ensures Picked(seed[..n], held, pick(|seed|))
         == Gather(Originals(seed, held), Indices(Candidates(pick, seed, held)[..n]))
  {
    if n > 0 {
      PickedGathers(pick, seed, held, n - 1);
      assert seed[..n][..n - 1] == seed[..n - 1];
      assert Candidates(pick, seed, held)[..n][..n - 1] == Candidates(pick, seed, held)[..n - 1];
      IndicesRanked(Candidates(pick, seed, held)[..n - 1]);
    }
  }

  ghost function Through(ks: seq<int>, inner: seq<bool>): (r: seq<int>)
    requires |inner| == |ks|
  {
    IndicesRanked(inner);
    seq(|Indices(inner)|, i requires 0 <= i < |Indices(inner)| => ks[Indices(inner)[i]])
  }

  /** Selecting among the selected indices. */
  lemma {:induction false} WithinIndices(flags: seq<bool>, inner: seq<bool>)
    requires |inner| == |Indices(flags)|
    ensures Indices(Within(flags, inner)) == Through(Indices(flags), inner)
    decreases |flags|
  {
    if flags != [] {
      var n := |flags| - 1;
      var ks := Indices(flags[..n]);
      var rest := inner[..|ks|];
      WithinIndices(flags[..n], rest);
      WithinFront(flags, inner);
      IndicesRanked(rest);
      if flags[n] {
        assert inner[..|inner| - 1] == rest;
      } else {
        assert rest == inner;
      }
    }
  }

  lemma WithinFront(flags: seq<bool>, inner: seq<bool>)
    requires flags != [] && |inner| == |Indices(flags)|
    ensures var n := |flags| - 1; var m := |Indices(flags[..n])|;
            && Within(flags, inner)[..n] == Within(flags[..n], inner[..m])
            && Within(flags, inner)[n] == (flags[n] && inner[m])
  {
    var n := |flags| - 1;
    var m := |Indices(flags[..n])|;
    var whole, front := Within(flags, inner), Within(flags[..n], inner[..m]);
    WithinAt(flags, inner, n);
    forall k | 0 <= k < n ensures whole[k] == front[k] {
      WithinAt(flags, inner, k);
      WithinAt(flags[..n], inner[..m], k);
      hide Within, Indices;
      assert flags[..n][..k] == flags[..k];
    }
    hide Within, Indices;
    assert whole[..n] == front;
  }

  lemma WithinAt(flags: seq<bool>, inner: seq<bool>, k: nat)
    requires k < |flags| && |inner| == |Indices(flags)|
    ensures flags[k] ==> Rank(flags, k) < |inner|
    ensures Within(flags, inner)[k] == (flags[k] && inner[Rank(flags, k)])
  {
    IndicesRanked(flags);
  }

  lemma WithinGathers(slots: seq<int>, flags: seq<bool>, inner: seq<bool>)
    requires |slots| == |flags| && |inner| == |Indices(flags)|
    ensures Gather(slots, Indices(Within(flags, inner))) == Gather(Gather(slots, Indices(flags)), Indices(inner))
  {
    WithinIndices(flags, inner);
    IndicesRanked(inner);
  }

  ghost function PickedWinners(sm: SetMatcher, seed: seq<int>, held: seq<int>): (flags: seq<bool>)
    requires sm.Positioned?
    ensures |flags| == |seed|
  {
    seq(|seed|, k requires 0 <= k < |seed| => WinsPicked(sm, seed, held, k))
  }

  /** The winners are what the selector means. */
  lemma {:induction false} WinnersMeant(sm: SetMatcher, seed: seq<int>)
    requires sm.Positioned? ==> sm.pre.Some?
    ensures Gather(seed, Indices(Winners(sm, seed))) == Meaning(sm, seed)
    decreases sm, 1
  {
    match sm
    case Wrapped(filter) =>
      FilteredGathers(seed, filter);
      assert Winners(sm, seed) == Passing(seed, filter);
    case Positioned(Some(filter), pick, post) =>
      var flags := Passing(seed, filter);
      var list := Gather(seed, Indices(flags));
      FilteredGathers(seed, filter);
      IndicesRanked(flags);
      PickedMeant(sm, list, []);
      WithinGathers(seed, flags, PickedWinners(sm, list, []));
      assert Originals(list, []) == list;
      assert Winners(sm, seed) == Within(flags, PickedWinners(sm, list, []));
  }

  lemma {:induction false} PickedMeant(sm: SetMatcher, seed: seq<int>, held: seq<int>)
    requires sm.Positioned?
    ensures Gather(Originals(seed, held), Indices(PickedWinners(sm, seed, held)))
         == Rest(sm.post, Picked(seed, held, sm.pick(|seed|)))
    decreases sm, 0
  {
    var flags := Candidates(sm.pick, seed, held);
    var list := Gather(Originals(seed, held), Indices(flags));
    assert seed[..|seed|] == seed && flags[..|seed|] == flags;
    PickedGathers(sm.pick, seed, held, |seed|);
    IndicesRanked(flags);
    match sm.post
    case None =>
      assert PickedWinners(sm, seed, held) == flags;
    case Some(post) =>
      WithinGathers(Originals(seed, held), flags, Winners(post, list));
      assert PickedWinners(sm, seed, held) == Within(flags, Winners(post, list));
      hide Candidates, Gather, Originals, Within, Indices, Wins;
      if post.Positioned? && post.pre.None? {
        PickedMeant(post, list, []);
        assert Originals(list, []) == list;
        assert Winners(post, list) == PickedWinners(post, list, []);
      } else {
        WinnersMeant(post, list);
      }
  }

  /** An array that holds the flagged elements, compacted. */
  lemma CompactGathers(slots: seq<int>, from: seq<int>, flags: seq<bool>)
    requires |slots| <= |from| == |flags|
    requires forall k :: 0 <= k < |from| ==> At(slots, k) == if flags[k] then from[k] else NIL
    requires forall k :: 0 <= k < |from| && flags[k] ==> from[k] != NIL
    ensures Compact(slots) == Gather(from, Indices(flags))
  {
    FilteredGathers(slots, _ => true);
    assert forall k :: |slots| <= k < |from| ==> At(slots, k) == NIL;
    TrailingFlags(flags, |slots|);
    IndicesRanked(flags);
    assert Passing(slots, _ => true) == flags[..|slots|];
  }

  /** Rank counts the elements that pass before an index. */
  lemma RankCounts(slots: seq<int>, filter: Test, k: nat)
    requires k <= |slots|
    ensures Rank(Passing(slots, filter), k) == |Filtered(slots[..k], filter)|
  {
    FilteredGathers(slots[..k], filter);
    assert Passing(slots, filter)[..k] == Passing(slots[..k], filter);
  }

  lemma SlotMeans(sm: SetMatcher, seed: seq<int>, results0: seq<int>, k: int)
    requires 0 <= k < |seed| && Disjoint(seed, results0)
    ensures SlotAsMeant(sm, seed, At(results0, k),
                        if Wins(sm, seed, results0, k) then Original(seed, results0, k) else NIL, k)
  {
    match sm
    case Wrapped(_) =>
    case Positioned(None, pick, post) =>
      assert Wins(sm, seed, results0, k) == WinsPicked(sm, seed, results0, k);
      PostMeans(sm, seed, results0, k);
    case Positioned(Some(filter), pick, post) =>
      var flags := Passing(seed, filter);
      IndicesRanked(flags);
      if flags[k] {
        var list := Gather(seed, Indices(flags));
        assert list[Rank(flags, k)] == seed[k];
        PostMeans(sm, list, [], Rank(flags, k));
        RankCounts(seed, filter, k);
        RankCounts(seed, filter, |seed|);
        assert seed[..|seed|] == seed && flags[..|seed|] == flags;
        assert Chosen(sm.pre, pick, seed, k) <==> Rank(flags, k) in pick(|list|);
      }
  }

  /** After the pre-filter, for a selector with no post-filter or a plain one. */
  lemma PostMeans(sm: SetMatcher, seed: seq<int>, held: seq<int>, k: int)
    requires sm.Positioned? && 0 <= k < |seed|
    ensures sm.post.None? ==> (WinsPicked(sm, seed, held, k) <==> Candidate(sm.pick, seed, held, k))
    ensures sm.post.Some? && sm.post.value.Wrapped? ==>
      (WinsPicked(sm, seed, held, k) <==>
        Candidate(sm.pick, seed, held, k) && sm.post.value.filter(Original(seed, held, k)))
  {
    var flags := Candidates(sm.pick, seed, held);
    IndicesRanked(flags);
    if flags[k] && sm.post.Some? {
      var list := Gather(Originals(seed, held), Indices(flags));
      assert list[Rank(flags, k)] == Original(seed, held, k);
    }
  }

  /** Where the arrays end as Wins says, results is as meant. */
  lemma RunMeans(sm: SetMatcher, seed: seq<int>, results0: seq<int>, results: seq<int>)
    requires Disjoint(seed, results0) && |results| <= |seed|
    requires forall k :: 0 <= k < |seed| ==>
      At(results, k) == if Wins(sm, seed, results0, k) then Original(seed, results0, k) else NIL
    ensures AsMeant(sm, seed, results0, results)
  {
    forall k | 0 <= k < |seed| ensures SlotAsMeant(sm, seed, At(results0, k), At(results, k), k) {
      SlotMeans(sm, seed, results0, k);
    }
    if sm.Positioned? && sm.pre.None? {
      PickedMeant(sm, seed, results0);
      CompactGathers(results, Originals(seed, results0), PickedWinners(sm, seed, results0));
    } else {
      WinnersMeant(sm, seed);
      forall k | 0 <= k < |seed|
        ensures At(Added(results0, results), k) == if Winners(sm, seed)[k] then seed[k] else NIL
        ensures Winners(sm, seed)[k] ==> seed[k] != NIL
      {
        AddedWins(sm, seed, results0, k);
      }
      CompactGathers(Added(results0, results), seed, Winners(sm, seed));
    }
  }

  /** With a pre-filter, or a plain filter, earlier matches do not matter. */
  lemma AddedWins(sm: SetMatcher, seed: seq<int>, results0: seq<int>, k: int)
    requires 0 <= k < |seed| && Disjoint(seed, results0)
    requires sm.Positioned? ==> sm.pre.Some?
    ensures Wins(sm, seed, results0, k) <==> At(results0, k) != NIL || Wins(sm, seed, [], k)
    ensures Wins(sm, seed, [], k) ==> seed[k] != NIL && At(results0, k) == NIL
  {
    assert At(seed, k) == seed[k];
  }

  // ---------- consequences ----------

  /** With no earlier results: an element ends in results exactly when it passes the
      pre-filter, its rank among those that pass is a chosen position, and it passes the
      post-filter. */
  lemma PositionalMeaning(pre: Test, pick: nat -> seq<int>, post: Test, seed: seq<int>, k: int)
    requires 0 <= k < |seed|
    ensures var flags := Passing(seed, pre);
            Wins(Positioned(Some(pre), pick, Some(Wrapped(post))), seed, [], k) <==>
            && seed[k] != NIL && pre(seed[k])
            && Rank(flags, k) in pick(|Indices(flags)|)
            && post(seed[k])
  {
    var flags := Passing(seed, pre);
    IndicesRanked(flags);
    if flags[k] {
      var sm := Positioned(Some(pre), pick, Some(Wrapped(post)));
      var survivors, rank := Gather(seed, Indices(flags)), Rank(flags, k);
      var chosen := Candidates(pick, survivors, []);
      IndicesRanked(chosen);
      assert survivors[rank] == seed[k];
      assert Candidate(pick, survivors, [], rank) <==> rank in pick(|survivors|);
      assert Wins(sm, seed, [], k) <==> WinsPicked(sm, survivors, [], rank);
      if chosen[rank] {
        var condensed := Gather(Originals(survivors, []), Indices(chosen));
        assert condensed[Rank(chosen, rank)] == Original(survivors, [], rank) == seed[k];
        assert Wins(Wrapped(post), condensed, [], Rank(chosen, rank)) <==> post(seed[k]);
      }
    }
  }

  /** A set matcher run on arrays that hold earlier matches keeps such a match, exactly if it
      has a pre-filter, or no post-filter, or the match wins in the post-filter; for a plain
      filter, if it passes. */
  lemma EarlierMatchKept(pre: Option<Test>, pick: nat -> seq<int>, post: Option<SetMatcher>,
                         seed: seq<int>, results: seq<int>, k: int)
    requires 0 <= k < |seed| && At(results, k) != NIL
    ensures var flags := Candidates(pick, seed, results);
      && Rank(flags, k) < |Indices(flags)|
      && (Wins(Positioned(pre, pick, post), seed, results, k) <==>
            || pre.Some? || post.None?
            || Wins(post.value, Gather(Originals(seed, results), Indices(flags)), [], Rank(flags, k)))
      && (pre.None? && post.Some? && post.value.Wrapped? ==>
            (Wins(Positioned(pre, pick, post), seed, results, k) <==> post.value.filter(At(results, k))))
  {
    var flags := Candidates(pick, seed, results);
    IndicesRanked(flags);
    assert flags[k];
    var condensed := Gather(Originals(seed, results), Indices(flags));
    assert condensed[Rank(flags, k)] == Original(seed, results, k);
    if pre.None? && post.Some? {
      assert Wins(Positioned(None, pick, post), seed, results, k) <==>
             WinsPicked(Positioned(None, pick, post), seed, results, k);
    }
  }

  /** So of ":eq(1).y, :eq(0).x" run on a seed, the first group, whose set matcher runs
      second, can lose the match of the other. */
  lemma EarlierMatchLost()
    ensures exists pick: nat -> seq<int>, post: Test ::
      !Wins(Positioned(None, pick, Some(Wrapped(post))), [NIL, 1], [0], 0)
  {
    var pick: nat -> seq<int> := n => [1];
    var post: Test := e => e == 1;
    EarlierMatchKept(None, pick, Some(Wrapped(post)), [NIL, 1], [0], 0);
    assert !Wins(Positioned(None, pick, Some(Wrapped(post))), [NIL, 1], [0], 0);
  }
}
