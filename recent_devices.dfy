/**
 * The recent-peer directory kept by GattClientManager in its preferences:
 * an insertion-ordered map from a peer's installation id to the MAC address
 * it was last connected at, cut to its last five entries after every save.
 *
 * The map is stored as JSON; Android's org.json keeps object keys in
 * insertion order, so the stored order is the order of the entry sequence
 * below. Keys and addresses are strings in the manager; the directory logic
 * does not depend on that, so it is stated for any key and value type.
 */
module RecentDevices {
  import opened Ble

  /** At most this many peers are remembered. */
  const CAPACITY: nat := 5

  datatype Entry<K, V> = Entry(id: K, address: V)

  /** The map, oldest entry first. */
  type Directory<K, V> = seq<Entry<K, V>>

  /** `getRecentDevices`: the ids, oldest first, most recent last. */
  function Keys<K(!new), V>(d: Directory<K, V>): (ks: seq<K>)
    ensures |ks| == |d|
  {
    if d == [] then [] else [d[0].id] + Keys(d[1..])
  }

  /** A map holds each key once. */
  ghost predicate Valid<K(!new), V>(d: Directory<K, V>) {
    forall i, j :: 0 <= i < j < |d| ==> d[i].id != d[j].id
  }

  lemma {:induction false} KeysAt<K(!new), V>(d: Directory<K, V>, i: nat)
    requires i < |d|
    ensures Keys(d)[i] == d[i].id
  {
    if i > 0 {
      KeysAt(d[1..], i - 1);
    }
  }

  /** The ids in the order of their entries. */
  lemma {:induction false} KeysInOrder<K(!new), V>(d: Directory<K, V>)
    ensures forall i :: 0 <= i < |d| ==> Keys(d)[i] == d[i].id
  {
    forall i | 0 <= i < |d| {
      KeysAt(d, i);
    }
  }

  /** Each key once is the same as pairwise different ids. */
  lemma {:induction false} ValidKeys<K(!new), V>(d: Directory<K, V>)
    ensures Valid(d) <==> Distinct(Keys(d))
  {
    forall i | 0 <= i < |d| {
      KeysAt(d, i);
    }
  }

  /** The ids of two maps laid end to end. */
  lemma {:induction false} KeysAppend<K(!new), V>(a: Directory<K, V>, b: Directory<K, V>)
    ensures Keys(a + b) == Keys(a) + Keys(b)
  {
    if a == [] {
      assert a + b == b;
    } else {
      assert (a + b)[0] == a[0] && (a + b)[1..] == a[1..] + b;
      KeysAppend(a[1..], b);
      assert Keys(a + b) == [a[0].id] + Keys(a[1..] + b);
      assert Keys(a) == [a[0].id] + Keys(a[1..]);
      assert [a[0].id] + (Keys(a[1..]) + Keys(b)) == ([a[0].id] + Keys(a[1..])) + Keys(b);
    }
  }

  /** The ids of a suffix are the suffix of the ids. */
  lemma {:induction false} KeysSuffix<K(!new), V>(d: Directory<K, V>, k: nat)
    requires k <= |d|
    ensures Keys(d[k..]) == Keys(d)[k..]
  {
    assert d == d[..k] + d[k..];
    KeysAppend(d[..k], d[k..]);
  }

  /** `getMacForUniqueId`: the address stored for `id`, if any. */
  function Lookup<K(==,!new), V>(d: Directory<K, V>, id: K): (r: Option<V>)
    ensures r.Some? <==> id in Keys(d)
    ensures r.Some? ==> Entry(id, r.value) in d
  {
    if d == [] then None
    else if d[0].id == id then Some(d[0].address)
    else Lookup(d[1..], id)
  }

  /**
   * `map[uniqueId] = address` on a LinkedHashMap: an existing key keeps its
   * position and takes the new address; a new key goes last.
   */
  function Put<K(==,!new), V>(d: Directory<K, V>, id: K, address: V): (r: Directory<K, V>)
    ensures id in Keys(d) ==> Keys(r) == Keys(d)
    ensures id !in Keys(d) ==> Keys(r) == Keys(d) + [id]
    ensures forall k :: Lookup(r, k) == if k == id then Some(address) else Lookup(d, k)
  {
    if d == [] then [Entry(id, address)]
    else if d[0].id == id then [Entry(id, address)] + d[1..]
    else
      var tail := Put(d[1..], id, address);
      assert ([d[0]] + tail)[1..] == tail;
      [d[0]] + tail
  }

  /** `entries.toList().takeLast(n)`: the newest `n` entries, in order. */
  function TakeLast<T>(s: seq<T>, n: nat): (r: seq<T>)
    ensures |r| == if |s| <= n then |s| else n
    ensures r == s[|s| - |r|..]
  {
    if |s| <= n then s else s[|s| - n..]
  }

  /**
   * `saveRecentDevice`: upsert, then keep the newest CAPACITY entries. Saved
   * into a stored map, the result is a stored map and the saved id maps to
   * the saved address.
   */
  function Save<K(==,!new), V>(d: Directory<K, V>, id: K, address: V): (r: Directory<K, V>)
    ensures |r| <= CAPACITY
    ensures Stored(d) ==> Stored(r) && Lookup(r, id) == Some(address)
  {
    TrimKeepsSaved(d, id, address);
    TakeLast(Put(d, id, address), CAPACITY)
  }

  /** A map as saveRecentDevice leaves it: each key once, at most CAPACITY entries. */
  ghost predicate Stored<K(!new), V>(d: Directory<K, V>) {
    Valid(d) && |d| <= CAPACITY
  }

  /** A suffix of a map holds each key once too. */
  lemma {:induction false} SuffixValid<K(!new), V>(d: Directory<K, V>, k: nat)
    requires Valid(d) && k <= |d|
    ensures Valid(d[k..])
  {
    var t := d[k..];
    forall i, j | 0 <= i < j < |t|
      ensures t[i].id != t[j].id
    {
      assert t[i] == d[k + i] && t[j] == d[k + j];
    }
  }

  /** A suffix of a map answers lookups for its keys as the map did. */
  lemma {:induction false} SuffixLookup<K(!new), V>(d: Directory<K, V>, k: nat, id: K)
    requires Valid(d) && k <= |d|
    requires id in Keys(d[k..])
    ensures Lookup(d[k..], id) == Lookup(d, id)
    decreases k
  {
    if k > 0 {
      var j :| 0 <= j < |Keys(d[k..])| && Keys(d[k..])[j] == id;
      KeysAt(d[k..], j);
      assert d[k + j].id == id;
      assert d[0].id != id;
      SuffixValid(d, 1);
      assert d[1..][k - 1..] == d[k..];
      SuffixLookup(d[1..], k - 1, id);
    }
  }

  /** A new id is appended: the upserted sequence is the old one plus the new entry. */
  lemma {:induction false} PutNew<K(!new), V>(d: Directory<K, V>, id: K, address: V)
    requires id !in Keys(d)
    ensures Put(d, id, address) == d + [Entry(id, address)]
  {
    if d != [] {
      PutNew(d[1..], id, address);
      assert d == [d[0]] + d[1..];
    }
  }

  /** The tail of a distinct sequence is distinct and lacks the head. */
  lemma {:induction false} DistinctCons<T>(x: T, s: seq<T>)
    requires Distinct([x] + s)
    ensures Distinct(s) && x !in s
  {
    var t := [x] + s;
    forall i, j | 0 <= i < j < |s| ensures s[i] != s[j] {
      assert s[i] == t[i + 1] && s[j] == t[j + 1];
    }
    forall j | 0 <= j < |s| ensures s[j] != x {
      assert s[j] == t[j + 1] && x == t[0];
    }
  }

  /** Distinctness survives appending a new element. */
  lemma {:induction false} DistinctSnoc<T>(s: seq<T>, x: T)
    requires Distinct(s) && x !in s
    ensures Distinct(s + [x])
  {
  }

  /** The upsert keeps each key once. */
  lemma {:induction false} PutValid<K(!new), V>(d: Directory<K, V>, id: K, address: V)
    requires Valid(d)
    ensures Valid(Put(d, id, address))
  {
    ValidKeys(d);
    ValidKeys(Put(d, id, address));
    if id !in Keys(d) {
      DistinctSnoc(Keys(d), id);
    }
  }

  /**
   * What a save promises on a stored map: the result is again a stored map,
   * the saved id maps to the saved address, the kept ids are the newest of
   * the upserted sequence in their original order, and every other kept id
   * keeps the address it had.
   */
  lemma {:induction false} SaveProperties<K(!new), V>(d: Directory<K, V>, id: K, address: V)
    requires Stored(d)
    ensures var r := Save(d, id, address);
      && Stored(r)
      && Lookup(r, id) == Some(address)
      && (var all := if id in Keys(d) then Keys(d) else Keys(d) + [id];
          Keys(r) == all[|all| - |r|..])
      && (forall k :: k in Keys(r) && k != id ==> Lookup(r, k) == Lookup(d, k))
  {
    SaveKeys(d, id, address);
    SaveKeepsOthers(d, id, address);
  }

  /** The kept ids are the newest of the upserted ids, in order. */
  lemma {:induction false} SaveKeys<K(!new), V>(d: Directory<K, V>, id: K, address: V)
    ensures var all := if id in Keys(d) then Keys(d) else Keys(d) + [id];
      var r := Save(d, id, address);
      Keys(r) == all[|all| - |r|..]
  {
    var p := Put(d, id, address);
    KeysSuffix(p, |p| - |Save(d, id, address)|);
  }

  /** Upsert then trim keeps a stored map stored; the saved id survives the trim and maps to the saved address. */
  lemma {:induction false} TrimKeepsSaved<K(!new), V>(d: Directory<K, V>, id: K, address: V)
    ensures var r := TakeLast(Put(d, id, address), CAPACITY);
      Stored(d) ==> Stored(r) && Lookup(r, id) == Some(address)
  {
    if Stored(d) {
      var p := Put(d, id, address);
      var r := TakeLast(p, CAPACITY);
      var cut := |p| - |r|;
      PutValid(d, id, address);
      SuffixValid(p, cut);
      KeysSuffix(p, cut);
      if id !in Keys(d) {
        assert Keys(r)[|r| - 1] == id;
      } else {
        assert cut == 0;
      }
      SuffixLookup(p, cut, id);
    }
  }

  /** Every other id the trim keeps maps to the address it had. */
  lemma {:induction false} SaveKeepsOthers<K(!new), V>(d: Directory<K, V>, id: K, address: V)
    requires Stored(d)
    ensures var r := Save(d, id, address);
      forall k :: k in Keys(r) && k != id ==> Lookup(r, k) == Lookup(d, k)
  {
    var p := Put(d, id, address);
    var r := Save(d, id, address);
    var cut := |p| - |r|;
    assert r == p[cut..];
    assert Valid(p) by {
      PutValid(d, id, address);
    }
    forall k | k in Keys(r) && k != id
      ensures Lookup(r, k) == Lookup(d, k)
    {
      SuffixLookup(p, cut, k);
    }
  }

  /** Updating a remembered peer moves nothing: the order of ids is unchanged. */
  lemma {:induction false} SaveExistingKeepsOrder<K(!new), V>(d: Directory<K, V>, id: K, address: V)
    requires Stored(d) && id in Keys(d)
    ensures Keys(Save(d, id, address)) == Keys(d)
  {
  }

  /** A new peer saved into a full map evicts exactly the oldest id and goes last. */
  lemma {:induction false} SaveNewIntoFull<K(!new), V>(d: Directory<K, V>, id: K, address: V)
    requires Stored(d) && |d| == CAPACITY && id !in Keys(d)
    ensures Keys(Save(d, id, address)) == Keys(d)[1..] + [id]
  {
    PutNew(d, id, address);
    KeysSuffix(Put(d, id, address), 1);
  }

  /** A new peer saved into a map with room is appended and nothing is evicted. */
  lemma {:induction false} SaveNewWithRoom<K(!new), V>(d: Directory<K, V>, id: K, address: V)
    requires Stored(d) && |d| < CAPACITY && id !in Keys(d)
    ensures Keys(Save(d, id, address)) == Keys(d) + [id]
  {
  }

  /**
   * Successive saves, one per successful connection, oldest first: a stored
   * map stays stored, and the last save's id maps to its address.
   */
  function SaveAll<K(==,!new), V>(d: Directory<K, V>, saves: seq<Entry<K, V>>): (r: Directory<K, V>)
    ensures Stored(d) ==> Stored(r)
    ensures Stored(d) && saves != [] ==> Lookup(r, saves[|saves| - 1].id) == Some(saves[|saves| - 1].address)
    decreases |saves|
  {
    if saves == [] then d
    else
      var rest := saves[1..];
      assert rest != [] ==> rest[|rest| - 1] == saves[|saves| - 1];
      SaveAll(Save(d, saves[0].id, saves[0].address), rest)
  }

  /** Appending one element to a sequence shifts its newest-n window by one. */
  lemma {:induction false} TakeLastSnoc<T>(s: seq<T>, x: T, n: nat)
    requires n > 0
    ensures var w := TakeLast(s, n);
      TakeLast(s + [x], n) == (if |w| < n then w else w[1..]) + [x]
  {
  }

  /** One save of a new id moves the remembered window one step along the saved ids. */
  lemma {:induction false} SaveStep<K(!new), V>(prev: Directory<K, V>, ids: seq<K>, e: Entry<K, V>)
    requires Stored(prev) && Keys(prev) == TakeLast(ids, CAPACITY) && e.id !in ids
    ensures Stored(Save(prev, e.id, e.address))
    ensures Keys(Save(prev, e.id, e.address)) == TakeLast(ids + [e.id], CAPACITY)
  {
    assert e.id !in Keys(prev);
    SaveProperties(prev, e.id, e.address);
    TakeLastSnoc(ids, e.id, CAPACITY);
    if |prev| < CAPACITY {
      SaveNewWithRoom(prev, e.id, e.address);
    } else {
      SaveNewIntoFull(prev, e.id, e.address);
    }
  }

  /** Splitting off the first of a run of saves with distinct ids, all new to `before`. */
  lemma {:induction false} SplitSaves<K(!new), V>(before: seq<K>, saves: seq<Entry<K, V>>)
    requires Valid(saves) && saves != []
    requires forall k :: k in Keys(saves) ==> k !in before
    ensures saves[0].id !in before && Valid(saves[1..])
    ensures forall k :: k in Keys(saves[1..]) ==> k !in before + [saves[0].id]
    ensures before + Keys(saves) == (before + [saves[0].id]) + Keys(saves[1..])
  {
    var e := saves[0];
    var rest := saves[1..];
    KeysAt(saves, 0);
    ValidKeys(saves);
    ValidKeys(rest);
    var ks := Keys(rest);
    assert Keys(saves) == [e.id] + ks;
    DistinctCons(e.id, ks);
    forall k | k in ks
      ensures k !in before + [e.id]
    {
      assert k in Keys(saves);
    }
    assert before + ([e.id] + ks) == (before + [e.id]) + ks;
  }

  /**
   * Saving peers whose ids are pairwise distinct and new to the map moves
   * the remembered window along the saved ids: the map remembers the newest
   * CAPACITY ids of everything saved so far, in the order saved.
   */
  lemma {:induction false} SaveAllNew<K(!new), V>(d: Directory<K, V>, before: seq<K>, saves: seq<Entry<K, V>>)
    requires Stored(d) && Keys(d) == TakeLast(before, CAPACITY)
    requires Valid(saves)
    requires forall k :: k in Keys(saves) ==> k !in before
    ensures Stored(SaveAll(d, saves))
    ensures Keys(SaveAll(d, saves)) == TakeLast(before + Keys(saves), CAPACITY)
    decreases |saves|
  {
    if saves != [] {
      var e := saves[0];
      SplitSaves(before, saves);
      SaveStep(d, before, e);
      SaveAllNew(Save(d, e.id, e.address), before + [e.id], saves[1..]);
    }
  }

  /**
   * Saving peers with pairwise distinct ids, starting from an empty map,
   * remembers exactly the last CAPACITY of them, in the order saved: after
   * six saves the first id is gone.
   */
  lemma {:induction false} SaveDistinctFromEmpty<K(!new), V>(saves: seq<Entry<K, V>>)
    requires Valid(saves)
    ensures Stored(SaveAll([], saves))
    ensures Keys(SaveAll([], saves)) == TakeLast(Keys(saves), CAPACITY)
  {
    SaveAllNew([], [], saves);
    assert [] + Keys(saves) == Keys(saves);
  }

  /**
   * Trimming is by insertion order, not by use: a peer that was just
   * reconnected (its address updated) is still the first one evicted when a
   * new peer arrives, if it was the oldest entry.
   */
  lemma {:induction false} UpdatedPeerStillEvicted<K(!new), V>(d: Directory<K, V>, address: V, id: K, newAddress: V)
    requires Stored(d) && |d| == CAPACITY && id !in Keys(d)
    ensures var refreshed := Save(d, d[0].id, address);
      d[0].id !in Keys(Save(refreshed, id, newAddress))
  {
    var oldest := d[0].id;
    KeysAt(d, 0);
    var refreshed := Save(d, oldest, address);
    SaveProperties(d, oldest, address);
    SaveExistingKeepsOrder(d, oldest, address);
    SaveNewIntoFull(refreshed, id, newAddress);
    ValidKeys(d);
    assert Keys(d) == [oldest] + Keys(d)[1..];
    DistinctCons(oldest, Keys(d)[1..]);
  }
}
