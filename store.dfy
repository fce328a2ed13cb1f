/**
 * The `useIndexedDB` hook over one object store whose key path is `id` and
 * whose keys come from an auto-increment generator. The browser's connection
 * object, transactions and request callbacks are abstracted away: each
 * operation runs to completion, in order, and settles its promise once.
 */
module Store {
  import opened Wrappers
  import opened Records

  /** Why a promise of the hook rejects. */
  datatype StoreError =
    | NotReady          // the readiness guard: "База данных не готова"
    | NotFound(id: int) // updateData found no record: "Данные с ID ${id} не найдены"
    | NoConnection      // getDataById dereferenced a `db` that is still null
    | KeyExists(key: int) // store.add onto a key already present (ConstraintError)
    | InvalidKey        // the record's `id` is not a number this model keys by (DataError)

  /** The key a put or add writes under: the record's integer `id`, if it has one. */
  function KeyOf(r: Record): Option<int>
  {
    if IdField in r && r[IdField].Num? then Some(r[IdField].n) else None
  }

  /** The key of a record that has one. */
  function Key(r: Record): int
    requires KeyOf(r).Some?
  {
    r[IdField].n
  }

  /**
   * The object store's contents: records that carry an integer key, held in
   * strictly ascending key order, which is the order `getAll` returns them in.
   */
  ghost predicate Ordered(s: seq<Record>)
  {
    && (forall i :: 0 <= i < |s| ==> KeyOf(s[i]).Some?)
    && (forall i, j :: 0 <= i < j < |s| ==> Key(s[i]) < Key(s[j]))
  }

  /** `store.get(k)`: the record stored under key `k`, or `undefined`. */
  function Lookup(s: seq<Record>, k: int): (r: Option<Record>)
    requires forall i :: 0 <= i < |s| ==> KeyOf(s[i]).Some?
    ensures r.Some? ==> r.value in s && Key(r.value) == k
    ensures r.None? ==> forall i :: 0 <= i < |s| ==> Key(s[i]) != k
  {
    if s == [] then None
    else if Key(s[0]) == k then Some(s[0])
    else Lookup(s[1..], k)
  }

  /** `store.put(r)`: store `r` under its key, replacing what was there. */
  function Put(s: seq<Record>, r: Record): (s': seq<Record>)
    requires Ordered(s) && KeyOf(r).Some?
    ensures Ordered(s')
    ensures forall k :: Lookup(s', k) == if k == Key(r) then Some(r) else Lookup(s, k)
    ensures |s'| == if Lookup(s, Key(r)).Some? then |s| else |s| + 1
  {
    if s == [] then [r]
    else if Key(s[0]) == Key(r) then
      OrderedTail(s);
      OrderedCons(r, s[1..]);
      [r] + s[1..]
    else if Key(r) < Key(s[0]) then
      OrderedCons(r, s);
      [r] + s
    else
      OrderedTail(s);
      var rest := Put(s[1..], r);
      LookupsAbove(Key(s[0]), rest, s[1..], Some(r));
      OrderedCons(s[0], rest);
      assert Lookup(s, Key(r)) == Lookup(s[1..], Key(r));
      [s[0]] + rest
  }

  /** `store.delete(k)`: drop the record under key `k`, if any. */
  function Remove(s: seq<Record>, k: int): (s': seq<Record>)
    requires Ordered(s)
    ensures Ordered(s')
    ensures forall j :: Lookup(s', j) == if j == k then None else Lookup(s, j)
    ensures |s'| == if Lookup(s, k).Some? then |s| - 1 else |s|
  {
    if s == [] then []
    else if Key(s[0]) == k then
      OrderedTail(s);
      s[1..]
    else
      OrderedTail(s);
      var rest := Remove(s[1..], k);
      LookupsAbove(Key(s[0]), rest, s[1..], None);
      OrderedCons(s[0], rest);
      assert Lookup(s, k) == Lookup(s[1..], k);
      [s[0]] + rest
  }

  /**
   * A store whose every record is one of `s` or else `extra` is keyed above
   * `lo` when `s` and `extra` are.
   */
  lemma LookupsAbove(lo: int, rest: seq<Record>, s: seq<Record>, extra: Option<Record>)
    requires Ordered(rest) && Ordered(s)
    requires forall i :: 0 <= i < |s| ==> lo < Key(s[i])
    requires extra.Some? ==> KeyOf(extra.value).Some? && lo < Key(extra.value)
    requires forall k :: Lookup(rest, k).Some? ==> Lookup(rest, k) == Lookup(s, k) || Lookup(rest, k) == extra
    ensures forall i :: 0 <= i < |rest| ==> lo < Key(rest[i])
  {
    forall i | 0 <= i < |rest| ensures lo < Key(rest[i]) {
      var k := Key(rest[i]);
      LookupAt(rest, i);
      if Lookup(rest, k) != extra {
        var m := Lookup(s, k).value;
        assert m in s;
      }
    }
  }

  /** The rest of an ordered store is ordered, and keyed above its first record. */
  lemma OrderedTail(s: seq<Record>)
    requires Ordered(s) && s != []
    ensures Ordered(s[1..])
    ensures forall i :: 0 <= i < |s| - 1 ==> Key(s[0]) < Key(s[1..][i])
  {
    forall i | 0 <= i < |s| - 1 ensures Key(s[0]) < Key(s[1..][i]) {
      assert s[1..][i] == s[i + 1];
    }
  }

  /** A record keyed below everything in an ordered store can go in front of it. */
  lemma OrderedCons(x: Record, rest: seq<Record>)
    requires Ordered(rest) && KeyOf(x).Some?
    requires forall i :: 0 <= i < |rest| ==> Key(x) < Key(rest[i])
    ensures Ordered([x] + rest)
    ensures forall k :: Lookup([x] + rest, k) == if k == Key(x) then Some(x) else Lookup(rest, k)
  {
    assert ([x] + rest)[1..] == rest;
  }

  /** What `updateData(id, patch)` settles with on a ready store holding `s`. */
  function UpdateResult(s: seq<Record>, id: int, patch: Record): (r: Result<Record, StoreError>)
    requires forall i :: 0 <= i < |s| ==> KeyOf(s[i]).Some?
    ensures Lookup(s, id).None? ==> r == Err(NotFound(id))
    ensures r.Ok? ==> Lookup(s, id).Some? && r.value == Merge(Lookup(s, id).value, patch)
    ensures Lookup(s, id).Some? && (IdField !in patch || patch[IdField] == Num(id)) ==> r.Ok? && Key(r.value) == id
  {
    match Lookup(s, id)
    case None => Err(NotFound(id))
    case Some(found) =>
      var merged := Merge(found, patch);
      if KeyOf(merged).None? then Err(InvalidKey) else Ok(merged)
  }

  /**
   * Updating one non-key field of a present record and reading it back
   * gives the old record with just that field changed; the other keys keep
   * their records.
   */
  lemma UpdateReadBack(s: seq<Record>, id: int, field: string, v: Value)
    requires Ordered(s) && Lookup(s, id).Some? && field != IdField
    ensures UpdateResult(s, id, map[field := v]) == Ok(With(Lookup(s, id).value, field, v))
    ensures Lookup(Put(s, With(Lookup(s, id).value, field, v)), id) == Some(With(Lookup(s, id).value, field, v))
    ensures forall k :: k != id ==> Lookup(Put(s, With(Lookup(s, id).value, field, v)), k) == Lookup(s, k)
  {
    var updated := With(Lookup(s, id).value, field, v);
    assert KeyOf(updated) == Some(id);
  }

  /** A put only writes keys from a set that holds the store's keys and the record's. */
  lemma PutKeysWithin(s: seq<Record>, r: Record, ks: set<int>)
    requires Ordered(s) && KeyOf(r).Some? && Key(r) in ks
    requires forall i :: 0 <= i < |s| ==> Key(s[i]) in ks
    ensures forall i :: 0 <= i < |Put(s, r)| ==> Key(Put(s, r)[i]) in ks
  {
    var s' := Put(s, r);
    forall i | 0 <= i < |s'| ensures Key(s'[i]) in ks {
      var k := Key(s'[i]);
      LookupAt(s', i);
      if k != Key(r) {
        var m := Lookup(s, k).value;
        assert m in s;
      }
    }
  }

  /**
   * The store is in key order, every stored key has been used, and the key
   * generator stands above every used key.
   */
  ghost predicate KeysValid(records: seq<Record>, usedKeys: set<int>, nextKey: int)
  {
    && Ordered(records)
    && (forall i :: 0 <= i < |records| ==> Key(records[i]) in usedKeys)
    && (forall k :: k in usedKeys ==> k < nextKey)
  }

  /** Putting a record and advancing the generator past its key keeps the keys valid. */
  lemma StoreKeepsKeysValid(records: seq<Record>, r: Record, usedKeys: set<int>, nextKey: int)
    requires KeysValid(records, usedKeys, nextKey) && KeyOf(r).Some?
    ensures KeysValid(Put(records, r), usedKeys + {Key(r)}, if Key(r) >= nextKey then Key(r) + 1 else nextKey)
  {
    PutKeysWithin(records, r, usedKeys + {Key(r)});
  }

  /** Removing a key keeps the keys valid. */
  lemma RemoveKeepsKeysValid(records: seq<Record>, k: int, usedKeys: set<int>, nextKey: int)
    requires KeysValid(records, usedKeys, nextKey)
    ensures KeysValid(Remove(records, k), usedKeys, nextKey)
  {
    var s' := Remove(records, k);
    forall i | 0 <= i < |s'| ensures Key(s'[i]) in usedKeys {
      LookupAt(s', i);
      var m := Lookup(records, Key(s'[i])).value;
      assert m in records;
    }
  }

  /** `after` holds `r` under key `k` and agrees with `before` on every other key. */
  ghost predicate ChangedOnlyAt(before: seq<Record>, after: seq<Record>, k: int, r: Record)
    requires Ordered(before) && Ordered(after)
  {
    forall j :: Lookup(after, j) == if j == k then Some(r) else Lookup(before, j)
  }

  class RecordStore {
    /** `db !== null`: the open request has delivered a connection. */
    var connected: bool
    /** `dbReady`. */
    var ready: bool
    /** The store's records, in ascending key order. */
    var records: seq<Record>
    /** The key generator's current number: the next key an add without `id` receives. */
    var nextKey: int
    /** Every key that has ever held a record. */
    ghost var usedKeys: set<int>

    ghost predicate Valid()
      reads this
    {
      && (ready ==> connected)
      && KeysValid(records, usedKeys, nextKey)
    }

    /**
     * A mounted hook whose open request has not completed, over the object
     * store as earlier sessions left it: `stored` in key order, the key
     * generator at `generator`, `used` every key ever handed out. A database
     * created for the first time has no records and its generator at 1.
     */
    constructor (stored: seq<Record>, generator: int, ghost used: set<int>)
      requires KeysValid(stored, used, generator)
      ensures Valid()
      ensures !connected && !ready
      ensures records == stored && nextKey == generator && usedKeys == used
    {
      connected, ready := false, false;
      records, nextKey := stored, generator;
      usedKeys := used;
    }

    /**
     * The open request settles: `onsuccess` stores the connection and sets
     * `dbReady`; `onerror` clears `dbReady` and leaves `db` as it was.
     */
    method Open(succeeded: bool)
      requires Valid()
      modifies this`connected, this`ready
      ensures Valid()
      ensures ready == succeeded
      ensures connected == (succeeded || old(connected))
    {
      if succeeded {
        connected := true;
        ready := true;
      } else {
        ready := false;
      }
    }

    /** Writes `r` under its key and advances the key generator past it. */
    method Store(r: Record)
      requires Valid() && KeyOf(r).Some?
      modifies this`records, this`nextKey, this`usedKeys
      ensures Valid()
      ensures records == Put(old(records), r)
      ensures nextKey == if Key(r) >= old(nextKey) then Key(r) + 1 else old(nextKey)
      ensures usedKeys == old(usedKeys) + {Key(r)}
    {
      StoreKeepsKeysValid(records, r, usedKeys, nextKey);
      records := Put(records, r);
      if Key(r) >= nextKey {
        nextKey := Key(r) + 1;
      }
      usedKeys := usedKeys + {Key(r)};
    }

    /** `addData(data)`: resolves with the key the record was stored under. */
    method AddData(data: Record) returns (r: Result<int, StoreError>)
      requires Valid()
      modifies this`records, this`nextKey, this`usedKeys
      ensures Valid()
      ensures !ready ==> r == Err(NotReady)
      ensures r.Err? ==> unchanged(this)
      ensures r.Ok? ==> Lookup(old(records), r.value).None? && |records| == |old(records)| + 1
      ensures r.Ok? ==>
        && usedKeys == old(usedKeys) + {r.value}
        && nextKey == if r.value >= old(nextKey) then r.value + 1 else old(nextKey)
      ensures old(usedKeys) <= usedKeys && old(nextKey) <= nextKey
      ensures r.Ok? ==>
        ChangedOnlyAt(old(records), records, r.value, if IdField in data then data else data[IdField := Num(r.value)])
      ensures ready && IdField !in data ==> r == Ok(old(nextKey)) && r.value !in old(usedKeys)
      ensures ready && IdField in data ==> r == match KeyOf(data)
        case None => Err(InvalidKey)
        case Some(k) => if Lookup(old(records), k).Some? then Err(KeyExists(k)) else Ok(k)
    {
      if !ready {
        return Err(NotReady);
      }
      if IdField in data {
        match KeyOf(data)
        case None =>
          r := Err(InvalidKey);
        case Some(k) =>
          if Lookup(records, k).Some? {
            r := Err(KeyExists(k));
          } else {
            Store(data);
            r := Ok(k);
          }
      } else {
        var k := nextKey;
        Store(data[IdField := Num(k)]);
        r := Ok(k);
      }
    }

    /** `getAllData()`: every record, in ascending key order. */
    method GetAllData() returns (r: Result<seq<Record>, StoreError>)
      requires Valid()
      ensures !ready ==> r == Err(NotReady)
      ensures ready ==> r == Ok(records) && Ordered(r.value)
      ensures ready ==> forall i :: 0 <= i < |r.value| ==> Lookup(records, Key(r.value[i])) == Some(r.value[i])
      ensures ready ==> forall k :: Lookup(records, k).Some? ==> Lookup(records, k).value in r.value
      ensures ready ==> forall i, j :: 0 <= i < j < |r.value| ==> Key(r.value[i]) < Key(r.value[j])
    {
      if !ready {
        return Err(NotReady);
      }
      forall i | 0 <= i < |records| ensures Lookup(records, Key(records[i])) == Some(records[i]) {
        LookupAt(records, i);
      }
      r := Ok(records);
    }

    /** `getDataById(id)`: no readiness guard; a record, or `undefined` when the key is absent. */
    method GetDataById(id: int) returns (r: Result<Option<Record>, StoreError>)
      requires Valid()
      ensures !connected ==> r == Err(NoConnection)
      ensures connected ==> r == Ok(Lookup(records, id))
    {
      if !connected {
        return Err(NoConnection);
      }
      r := Ok(Lookup(records, id));
    }

    /**
     * `updateData(id, updatedData)`: fetch, shallow-merge, put. The put
     * writes under the merged record's own `id`, which is `id` unless the
     * patch names another one.
     */
    method UpdateData(id: int, patch: Record) returns (r: Result<Record, StoreError>)
      requires Valid()
      modifies this`records, this`nextKey, this`usedKeys
      ensures Valid()
      ensures !ready ==> r == Err(NotReady)
      ensures ready ==> r == UpdateResult(old(records), id, patch)
      ensures r.Err? ==> unchanged(this)
      ensures r.Ok? ==> records == Put(old(records), r.value)
      ensures r.Ok? ==>
        && usedKeys == old(usedKeys) + {Key(r.value)}
        && nextKey == if Key(r.value) >= old(nextKey) then Key(r.value) + 1 else old(nextKey)
      ensures old(usedKeys) <= usedKeys && old(nextKey) <= nextKey
      ensures ready && Lookup(old(records), id).Some? && (IdField !in patch || patch[IdField] == Num(id)) ==>
        && r.Ok? && Key(r.value) == id && |records| == |old(records)|
        && ChangedOnlyAt(old(records), records, id, r.value)
    {
      if !ready {
        return Err(NotReady);
      }
      var found := Lookup(records, id);
      if found.None? {
        return Err(NotFound(id));
      }
      var merged := Merge(found.value, patch);
      if KeyOf(merged).None? {
        return Err(InvalidKey);
      }
      Store(merged);
      r := Ok(merged);
    }

    /** `deleteData(id)`: resolves whether or not the key was present. */
    method DeleteData(id: int) returns (r: Result<(), StoreError>)
      requires Valid()
      modifies this`records
      ensures Valid()
      ensures !ready ==> r == Err(NotReady) && records == old(records)
      ensures ready ==> r == Ok(()) && records == Remove(old(records), id)
    {
      if !ready {
        return Err(NotReady);
      }
      RemoveKeepsKeysValid(records, id, usedKeys, nextKey);
      records := Remove(records, id);
      r := Ok(());
    }
  }

  /**
   * An `id` is never reassigned: add a record without `id`, update any
   * record, delete the added one, add any record, then add one without `id`
   * again. The last key differs from every key handed out before it, the
   * deleted one included.
   */
  method KeysAreNeverReused(s: RecordStore, a: Record, other: int, patch: Record, c: Record, b: Record)
    returns (first: Result<int, StoreError>, middle: Result<int, StoreError>, last: Result<int, StoreError>)
    requires s.Valid() && s.ready
    requires IdField !in a && IdField !in b
    modifies s
    ensures first.Ok? && last.Ok? && first.value != last.value
    ensures middle.Ok? ==> middle.value != last.value
  {
    first := s.AddData(a);
    var _ := s.UpdateData(other, patch);
    var _ := s.DeleteData(first.value);
    middle := s.AddData(c);
    last := s.AddData(b);
  }

  /** In an ordered store, looking up a record's own key finds that record. */
  lemma {:induction false} LookupAt(s: seq<Record>, i: int)
    requires Ordered(s) && 0 <= i < |s|
    ensures Lookup(s, Key(s[i])) == Some(s[i])
  {
    if i > 0 {
      assert Key(s[0]) < Key(s[i]);
      LookupAt(s[1..], i - 1);
    }
  }
}
