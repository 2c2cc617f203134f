/** createCache: a memo cache that forgets its oldest entries. */
module BoundedCaches {

  /** keys in the order of storing, possibly repeated, and the live entries. */
  datatype State<V> = State(keys: seq<string>, entries: map<string, V>)

  /** cache( key, value ), with Expr.cacheLength = limit. */
  function Store<V>(c: State<V>, limit: nat, key: string, value: V): State<V> {
    var keys := c.keys + [key + " "];
    if |keys| > limit then State(keys[1..], (c.entries - {keys[0]})[key + " " := value])
    else State(keys, c.entries[key + " " := value])
  }

  ghost predicate Bounded<V>(c: State<V>, limit: nat) {
    |c.keys| <= limit && forall k :: k in c.entries ==> k in c.keys
  }

  /** Storing keeps every live entry among the remembered keys, even when keys repeat,
      exactly if the limit is positive. */
  lemma StoreBounded<V>(c: State<V>, limit: nat, key: string, value: V)
    requires Bounded(c, limit)
    ensures Bounded(Store(c, limit, key, value), limit) <==> limit > 0
  {
    var d := Store(c, limit, key, value);
    var keys := c.keys + [key + " "];
    assert keys[|c.keys|] == key + " ";
    if limit == 0 {
      assert key + " " in d.entries && d.keys == [];
    } else if |keys| > limit {
      forall k | k in d.entries ensures k in d.keys {
        if k == key + " " {
          assert d.keys[|c.keys| - 1] == k;
        } else {
          var i :| 0 <= i < |c.keys| && c.keys[i] == k;
          assert i > 0 && d.keys[i - 1] == k;
        }
      }
    } else {
      assert forall k :: k in c.keys ==> k in d.keys;
    }
  }

  lemma {:induction false} KeysCount(keys: seq<string>, live: set<string>)
    requires forall k :: k in live ==> k in keys
    ensures |live| <= |keys|
  {
    if keys == [] {
      assert live == {};
    } else {
      var n := |keys| - 1;
      forall k | k in live - {keys[n]} ensures k in keys[..n] {
        var i :| 0 <= i < |keys| && keys[i] == k;
      }
      KeysCount(keys[..n], live - {keys[n]});
      assert live <= (live - {keys[n]}) + {keys[n]};
      if keys[n] in live {
        assert |live| == |live - {keys[n]}| + 1;
      } else {
        assert live - {keys[n]} == live;
      }
    }
  }

  /** A cache that only ever stored has at most limit live entries. */
  lemma LiveEntriesBounded<V>(c: State<V>, limit: nat)
    requires Bounded(c, limit)
    ensures |c.entries| <= limit
  {
    KeysCount(c.keys, c.entries.Keys);
    assert |c.entries.Keys| == |c.entries|;
  }

  /** With limit 0 every stored entry stays: the bound needs a positive cacheLength. */
  lemma NoLimitUnbounded<V>(c: State<V>, key: string, value: V)
    requires c.keys == [] && key + " " !in c.entries
    ensures var d := Store(c, 0, key, value); d.keys == [] && |d.entries| == |c.entries| + 1
  {
    var d := Store(c, 0, key, value);
    assert c.entries - {key + " "} == c.entries;
    assert d.entries.Keys == c.entries.Keys + {key + " "};
  }

  // ---------- which entries are live ----------

  /** The cache after the given calls. */
  ghost function AfterStores<V>(stores: seq<(string, V)>, limit: nat): State<V> {
    if stores == [] then State([], map[])
    else
      var n := |stores| - 1;
      Store(AfterStores(stores[..n], limit), limit, stores[n].0, stores[n].1)
  }

  /** The last call with the key. */
  ghost predicate LastCall<V>(stores: seq<(string, V)>, key: string, j: int) {
    && 0 <= j < |stores| && stores[j].0 == key
    && forall i :: j < i < |stores| ==> stores[i].0 != key
  }

  /** The i-th call has been made to forget since the j-th: so many calls after it, its key
      was the oldest. */
  predicate ForgottenAfter(i: int, j: int, limit: nat, calls: nat) {
    j < i + limit < calls
  }

  ghost predicate Lives<V>(stores: seq<(string, V)>, limit: nat, key: string, j: int) {
    && LastCall(stores, key, j)
    && forall i :: 0 <= i <= j && stores[i].0 == key ==> !ForgottenAfter(i, j, limit, |stores|)
  }

  lemma SameKey(s: string, t: string)
    requires s + " " == t + " "
    ensures s == t
  {
    assert s == (s + " ")[..|s + " "| - 1] && t == (t + " ")[..|t + " "| - 1];
  }

  /** The keys are those of the last calls, at most limit of them. */
  lemma {:induction false} KeysOfLast<V>(stores: seq<(string, V)>, limit: nat)
    ensures var keys, n := AfterStores(stores, limit).keys, |stores|;
      && |keys| == (if n < limit then n else limit)
      && forall i :: 0 <= i < |keys| ==> keys[i] == stores[n - |keys| + i].0 + " "
  {
    if stores != [] {
      KeysOfLast(stores[..|stores| - 1], limit);
    }
  }

  /** Exactly these entries are live, whatever keys repeat: of each key that of its last call,
      until the key of one of its calls, this or an earlier one, is the oldest remembered and
      is forgotten. */
  lemma {:induction false} LiveExactly<V>(stores: seq<(string, V)>, limit: nat, key: string)
    ensures var entries := AfterStores(stores, limit).entries;
      && (key + " " in entries <==> exists j :: Lives(stores, limit, key, j))
      && (forall j :: Lives(stores, limit, key, j) ==> key + " " in entries && entries[key + " "] == stores[j].1)
    decreases |stores|
  {
    if stores != [] {
      var n := |stores| - 1;
      var before := AfterStores(stores[..n], limit);
      assert AfterStores(stores, limit) == Store(before, limit, stores[n].0, stores[n].1);
      StoreEntries(before, limit, stores[n].0, stores[n].1, key);
      LiveExactly(stores[..n], limit, key);
      OldestKey(stores, limit, key);
      hide Store, Lives, AfterStores, Drops;
      if stores[n].0 == key {
        LivesAtOnce(stores, limit, key);
        assert Lives(stores, limit, key, n);
      } else {
        forall j ensures Lives(stores, limit, key, j) <==>
          Lives(stores[..n], limit, key, j) && !Drops(stores, limit, key)
        {
          LivesOn(stores, limit, key, j);
        }
        forall j | Lives(stores[..n], limit, key, j) ensures 0 <= j < n && stores[..n][j] == stores[j] {
          LivesWithin(stores[..n], limit, key, j);
        }
      }
    }
  }

  lemma LivesWithin<V>(stores: seq<(string, V)>, limit: nat, key: string, j: int)
    ensures Lives(stores, limit, key, j) ==> 0 <= j < |stores|
  {
  }

  lemma LivesAtOnce<V>(stores: seq<(string, V)>, limit: nat, key: string)
    requires stores != [] && stores[|stores| - 1].0 == key
    ensures forall j :: Lives(stores, limit, key, j) <==> j == |stores| - 1
  {
  }

  /** The last call makes the cache forget the key. */
  ghost predicate Drops<V>(stores: seq<(string, V)>, limit: nat, key: string)
    requires stores != []
  {
    var n := |stores| - 1;
    limit <= n && stores[n - limit].0 == key
  }

  lemma OldestKey<V>(stores: seq<(string, V)>, limit: nat, key: string)
    requires stores != []
    ensures var n := |stores| - 1; var keys := AfterStores(stores[..n], limit).keys;
      Drops(stores, limit, key) <==> |keys| >= limit && (keys + [stores[n].0 + " "])[0] == key + " "
  {
    var n := |stores| - 1;
    KeysOfLast(stores[..n], limit);
    hide AfterStores;
    var oldest := (AfterStores(stores[..n], limit).keys + [stores[n].0 + " "])[0];
    if limit <= n {
      assert oldest == stores[n - limit].0 + " ";
      if oldest == key + " " {
        SameKey(stores[n - limit].0, key);
      }
    }
  }

  /** What one call does to the entry of a key. */
  lemma StoreEntries<V>(c: State<V>, limit: nat, stored: string, value: V, key: string)
    ensures var d := Store(c, limit, stored, value);
      if key == stored then key + " " in d.entries && d.entries[key + " "] == value
      else
        && (key + " " in d.entries <==>
              key + " " in c.entries && !(|c.keys| >= limit && (c.keys + [stored + " "])[0] == key + " "))
        && (key + " " in d.entries ==> d.entries[key + " "] == c.entries[key + " "])
  {
    if key + " " == stored + " " {
      SameKey(key, stored);
    }
  }

  lemma LivesOn<V>(stores: seq<(string, V)>, limit: nat, key: string, j: int)
    requires stores != [] && stores[|stores| - 1].0 != key
    ensures Lives(stores, limit, key, j) <==>
      Lives(stores[..|stores| - 1], limit, key, j) && !Drops(stores, limit, key)
  {
    var n := |stores| - 1;
    assert forall i :: 0 <= i < n ==> stores[..n][i] == stores[i];
    assert LastCall(stores, key, j) <==> LastCall(stores[..n], key, j);
    if LastCall(stores, key, j) && limit <= n && stores[n - limit].0 == key {
      assert n - limit <= j && ForgottenAfter(n - limit, j, limit, n + 1);
    }
  }

  class BoundedCache<V> {
    const limit: nat
    var keys: seq<string>
    var entries: map<string, V>

    ghost function Contents(): State<V>
      reads this
    {
      State(keys, entries)
    }

    ghost predicate Valid()
      reads this
    {
      limit > 0 ==> Bounded(Contents(), limit)
    }

    constructor (limit: nat)
      ensures Valid() && Contents() == State([], map[]) && this.limit == limit
    {
      this.limit, keys, entries := limit, [], map[];
    }

    method Put(key: string, value: V)
      requires Valid()
      modifies this
      ensures Valid() && Contents() == Store(old(Contents()), limit, key, value)
    {
      if limit > 0 {
        StoreBounded(Contents(), limit, key, value);
      }
      keys := keys + [key + " "];
      if |keys| > limit {
        var oldest := keys[0];
        keys := keys[1..];
        entries := entries - {oldest};
      }
      entries := entries[key + " " := value];
    }
  }
}
