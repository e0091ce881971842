/** Python dictionaries with text keys: entries in the order in which their keys were first set. */
module Dict {
  import opened Wrappers

  datatype Entry<+V> = Entry(key: string, value: V)

  type Dictionary<+V> = seq<Entry<V>>

  function Get<V>(d: Dictionary<V>, key: string): Option<V> {
    if d == [] then None else if d[0].key == key then Some(d[0].value) else Get(d[1..], key)
  }

  function Put<V>(d: Dictionary<V>, key: string, value: V): Dictionary<V> {
    if d == [] then [Entry(key, value)]
    else if d[0].key == key then [Entry(key, value)] + d[1..]
    else [d[0]] + Put(d[1..], key, value)
  }

  predicate UniqueKeys<V>(d: Dictionary<V>) {
    forall i, j :: 0 <= i < j < |d| ==> d[i].key != d[j].key
  }

  lemma {:induction false} PutGet<V>(d: Dictionary<V>, key: string, value: V)
    ensures forall k :: Get(Put(d, key, value), k) == if k == key then Some(value) else Get(d, k)
  {
    if d != [] && d[0].key != key {
      PutGet(d[1..], key, value);
    }
  }

  lemma {:induction false} PutKeys<V>(d: Dictionary<V>, key: string, value: V, e: Entry<V>)
    requires e in Put(d, key, value)
    ensures e.key == key || e in d
  {
    if d != [] && d[0].key != key && e != d[0] {
      PutKeys(d[1..], key, value, e);
    }
  }

  lemma {:induction false} PutUnique<V>(d: Dictionary<V>, key: string, value: V)
    requires UniqueKeys(d)
    ensures UniqueKeys(Put(d, key, value))
  {
    if d != [] && d[0].key != key {
      var rest := Put(d[1..], key, value);
      PutUnique(d[1..], key, value);
      forall j | 0 <= j < |rest|
        ensures rest[j].key != d[0].key
      {
        PutKeys(d[1..], key, value, rest[j]);
      }
    }
  }

  /** With unique keys, an entry is what looking up its key finds. */
  lemma {:induction false} EntriesAreGets<V>(d: Dictionary<V>)
    requires UniqueKeys(d)
    ensures forall e :: e in d ==> Get(d, e.key) == Some(e.value)
    ensures forall k :: Get(d, k).Some? ==> Entry(k, Get(d, k).value) in d
  {
    if d != [] {
      EntriesAreGets(d[1..]);
      assert d == [d[0]] + d[1..];
    }
  }

  function Keys<V>(d: Dictionary<V>): seq<string> {
    if d == [] then [] else [d[0].key] + Keys(d[1..])
  }

  /** Setting a key leaves every key in its place; a new one comes last. */
  lemma {:induction false} PutKeepsOrder<V>(d: Dictionary<V>, key: string, value: V)
    ensures Keys(Put(d, key, value)) == if key in Keys(d) then Keys(d) else Keys(d) + [key]
  {
    if d == [] {
      assert Put(d, key, value)[1..] == [];
    } else if d[0].key == key {
      assert Put(d, key, value)[1..] == d[1..];
    } else {
      assert Put(d, key, value)[1..] == Put(d[1..], key, value);
      PutKeepsOrder(d[1..], key, value);
    }
  }

  // ---- counters -----------------------------------------------------------

  type Counter = Dictionary<nat>

  function Count(d: Counter, key: string): nat {
    match Get(d, key)
    case None => 0
    case Some(n) => n
  }

  /** `_bump`. */
  function Bump(d: Counter, key: string): Counter {
    Put<nat>(d, key, Count(d, key) + 1)
  }

  /** `sum(d.values())`. */
  function Sum(d: Counter): nat {
    if d == [] then 0 else d[0].value + Sum(d[1..])
  }

  /** Bumping adds one to its own key, and one to the sum. */
  lemma {:induction false} BumpCounts(d: Counter, key: string)
    ensures forall k :: Count(Bump(d, key), k) == Count(d, k) + if k == key then 1 else 0
    ensures Sum(Bump(d, key)) == Sum(d) + 1
  {
    PutGet<nat>(d, key, Count(d, key) + 1);
    PutSum(d, key, Count(d, key) + 1);
  }

  lemma {:induction false} PutSum(d: Counter, key: string, n: nat)
    ensures Sum(Put<nat>(d, key, n)) + Count(d, key) == Sum(d) + n
  {
    if d != [] && d[0].key != key {
      PutSum(d[1..], key, n);
      assert Put<nat>(d, key, n)[1..] == Put<nat>(d[1..], key, n);
    } else if d != [] {
      assert Put<nat>(d, key, n)[1..] == d[1..];
    }
  }
}
