/** AsyncStorage, the persistent string-keyed store the offline store writes to. Each backend call
    is numbered from 0; the calls whose numbers are in `faulty` throw, which stands for a storage
    fault of the device (the fault pattern is chosen when the store is created). */
module KeyValue {
  import opened Outcomes

  function Get(items: map<string, string>, key: string): Option<string>
  {
    if key in items then Some(items[key]) else None
  }

  /** No backend call numbered in `[from, to)` throws. */
  predicate Faultless(faulty: set<nat>, from: nat, to: nat)
  {
    forall c :: from <= c < to ==> c !in faulty
  }

  /** No key occurs twice: the first is not among the rest, and the rest are distinct. */
  predicate Distinct(keys: seq<string>)
  {
    keys == [] || (keys[0] !in keys[1..] && Distinct(keys[1..]))
  }

  // ---------------------------------------------------------------- size of the stored values

  /** The sum of the lengths of all stored values, taken in no particular order. */
  ghost function TotalSize(items: map<string, string>): nat
    decreases |items|
  {
    if items == map[] then 0
    else
      var k :| k in items;
      assert |items - {k}| < |items| by {
        assert (items - {k}).Keys == items.Keys - {k};
      }
      |items[k]| + TotalSize(items - {k})
  }

  /** Any stored value can be taken first: the total does not depend on the order. */
  lemma {:induction false} TotalSizeRemove(items: map<string, string>, k: string)
    requires k in items
    ensures TotalSize(items) == |items[k]| + TotalSize(items - {k})
    decreases |items|
  {
    var j :| j in items && TotalSize(items) == |items[j]| + TotalSize(items - {j});
    if j != k {
      assert (items - {j}).Keys == items.Keys - {j};
      assert (items - {k}).Keys == items.Keys - {k};
      TotalSizeRemove(items - {j}, k);
      TotalSizeRemove(items - {k}, j);
      assert items - {j} - {k} == items - {k} - {j};
    }
  }

  /** The sum of the lengths of the values stored under `keys`, in that order. */
  function SizeOf(items: map<string, string>, keys: seq<string>): nat
  {
    if keys == [] then 0
    else (if keys[0] in items then |items[keys[0]]| else 0) + SizeOf(items, keys[1..])
  }

  /** The size of a suffix of a key list is the size under its first key plus the rest. */
  lemma SizeOfStep(items: map<string, string>, keys: seq<string>, i: nat)
    requires i < |keys|
    ensures SizeOf(items, keys[i..]) == (if keys[i] in items then |items[keys[i]]| else 0) + SizeOf(items, keys[i + 1..])
  {
    assert keys[i..][1..] == keys[i + 1..];
  }

  lemma {:induction false} SizeOfIgnores(items: map<string, string>, keys: seq<string>, k: string)
    requires forall i :: 0 <= i < |keys| ==> keys[i] != k
    ensures SizeOf(items - {k}, keys) == SizeOf(items, keys)
  {
    if keys != [] {
      SizeOfIgnores(items, keys[1..], k);
    }
  }

  /** Summing over any listing of the keys, each once, gives the total size. */
  lemma {:induction false} SizeOfEnumeration(items: map<string, string>, keys: seq<string>)
    requires Distinct(keys)
    requires forall k :: k in items <==> k in keys
    ensures SizeOf(items, keys) == TotalSize(items)
    decreases |keys|
  {
    if keys == [] {
      assert items == map[];
    } else {
      var k := keys[0];
      var rest := items - {k};
      TotalSizeRemove(items, k);
      SizeOfIgnores(items, keys[1..], k);
      assert forall x :: x in rest <==> x in keys[1..] by {
        forall x ensures x in rest <==> x in keys[1..] {
          if x in keys[1..] {
            var i :| 0 <= i < |keys[1..]| && keys[1..][i] == x;
            assert keys[i + 1] == x;
          }
        }
      }
      SizeOfEnumeration(rest, keys[1..]);
    }
  }

  /** A listing of the keys, each once, has as many entries as the store has keys. */
  lemma {:induction false} DistinctKeysCount(items: map<string, string>, keys: seq<string>)
    requires Distinct(keys)
    requires forall k :: k in items <==> k in keys
    ensures |keys| == |items|
    decreases |keys|
  {
    if keys == [] {
      assert items == map[];
    } else {
      var rest := items - {keys[0]};
      assert rest.Keys == items.Keys - {keys[0]};
      forall x ensures x in rest <==> x in keys[1..] {
        if x in keys[1..] {
          var i :| 0 <= i < |keys[1..]| && keys[1..][i] == x;
          assert keys[i + 1] == x;
        }
      }
      DistinctKeysCount(rest, keys[1..]);
    }
  }

  // ---------------------------------------------------------------- the store

  class AsyncStorage {
    /** The stored values by key. */
    var items: map<string, string>
    /** How many backend calls have been made so far. */
    var calls: nat
    /** The numbers of the backend calls that throw. */
    const faulty: set<nat>

    constructor (initial: map<string, string>, faulty: set<nat>)
      ensures items == initial && calls == 0 && this.faulty == faulty
    {
      items := initial;
      calls := 0;
      this.faulty := faulty;
    }

    /** `AsyncStorage.getItem`: the stored value, or `None` when the key is absent. */
    method GetItem(key: string) returns (r: Outcome<Option<string>>)
      modifies this
      ensures items == old(items) && calls == old(calls) + 1
      ensures r == if old(calls) in faulty then Fail(StorageFault(old(calls))) else Ok(Get(items, key))
    {
      var c := calls;
      calls := calls + 1;
      if c in faulty {
        return Fail(StorageFault(c));
      }
      r := Ok(Get(items, key));
    }

    /** `AsyncStorage.setItem`: stores `value` under `key`, replacing what was there. */
    method SetItem(key: string, value: string) returns (r: Outcome<()>)
      modifies this
      ensures calls == old(calls) + 1
      ensures r == if old(calls) in faulty then Fail(StorageFault(old(calls))) else Ok(())
      ensures items == if old(calls) in faulty then old(items) else old(items)[key := value]
    {
      var c := calls;
      calls := calls + 1;
      if c in faulty {
        return Fail(StorageFault(c));
      }
      items := items[key := value];
      r := Ok(());
    }

    /** `AsyncStorage.multiRemove`: removes every listed key in one call. */
    method MultiRemove(keys: seq<string>) returns (r: Outcome<()>)
      modifies this
      ensures calls == old(calls) + 1
      ensures r == if old(calls) in faulty then Fail(StorageFault(old(calls))) else Ok(())
      ensures items == if old(calls) in faulty then old(items) else old(items) - set k | k in keys
    {
      var c := calls;
      calls := calls + 1;
      if c in faulty {
        return Fail(StorageFault(c));
      }
      items := items - set k | k in keys;
      r := Ok(());
    }

    /** `AsyncStorage.getAllKeys`: every stored key once, in an order the store chooses. */
    method GetAllKeys() returns (r: Outcome<seq<string>>)
      modifies this
      ensures items == old(items) && calls == old(calls) + 1
      ensures r.Fail? <==> old(calls) in faulty
      ensures r.Fail? ==> r.error == StorageFault(old(calls))
      ensures r.Ok? ==> Distinct(r.value) && forall k :: k in items <==> k in r.value
    {
      var c := calls;
      calls := calls + 1;
      if c in faulty {
        return Fail(StorageFault(c));
      }
      var keys: seq<string> := [];
      var left := items.Keys;
      while left != {}
        invariant left <= items.Keys
        invariant Distinct(keys)
        invariant forall i :: 0 <= i < |keys| ==> keys[i] in items && keys[i] !in left
        invariant forall k :: k in items ==> k in left || k in keys
        decreases left
      {
        var k :| k in left;
        assert ([k] + keys)[1..] == keys;
        keys := [k] + keys;
        left := left - {k};
      }
      r := Ok(keys);
    }
  }
}
