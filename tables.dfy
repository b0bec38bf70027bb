/** One MemStorage table: a JavaScript `Map<number, T>` (its entries and
    its key iteration order, which is insertion order) together with the id
    counter that `create*` post-increments. */
module Tables {
  import opened Collections

  datatype Table<T> = Table(rows: map<int, T>, order: seq<int>, nextId: int)

  /** The keys are exactly the iteration order, listed once each, and every
      key was handed out by the counter, which starts at 1. */
  ghost predicate Valid<T>(t: Table<T>)
  {
    && t.nextId >= 1
    && (forall k :: k in t.rows ==> k in t.order)
    && (forall i :: 0 <= i < |t.order| ==> t.order[i] in t.rows)
    && Distinct(t.order)
    && (forall k :: k in t.rows ==> 1 <= k < t.nextId)
  }

  /** `new Map()` with the counter at 1. */
  function Empty<T>(): (t: Table<T>)
    ensures Valid(t) && |t.order| == 0 && t.nextId == 1
  {
    Table(map[], [], 1)
  }

  /** `Array.from(map.values())`: the records in key iteration order. */
  function Values<T>(t: Table<T>): (r: seq<T>)
    requires Valid(t)
    ensures |r| == |t.order|
    ensures forall i :: 0 <= i < |t.order| ==> t.order[i] in t.rows && r[i] == t.rows[t.order[i]]
  {
    seq(|t.order|, i requires 0 <= i < |t.order| => t.rows[t.order[i]])
  }

  /** Every stored record is among the values. */
  lemma ValuesHoldEveryRecord<T>(t: Table<T>)
    requires Valid(t)
    ensures forall k :: k in t.rows ==> t.rows[k] in Values(t)
  {
    forall k | k in t.rows ensures t.rows[k] in Values(t) {
      var i :| 0 <= i < |t.order| && t.order[i] == k;
      assert Values(t)[i] == t.rows[k];
    }
  }

  /** `map.get(id)`. */
  function Get<T>(t: Table<T>, id: int): (r: Option<T>)
    ensures r.Some? <==> id in t.rows
    ensures r.Some? ==> r.value == t.rows[id]
  {
    if id in t.rows then Some(t.rows[id]) else None
  }

  /** `map.set(this.nextId++, rec)`: the new key is fresh, goes last in the
      iteration order, and the counter moves past it. */
  function Insert<T>(t: Table<T>, rec: T): (r: Table<T>)
    requires Valid(t)
    ensures Valid(r)
    ensures t.nextId !in t.rows && forall k :: k in t.rows ==> k < t.nextId
    ensures r.rows == t.rows[t.nextId := rec] && r.nextId == t.nextId + 1
    ensures Values(r) == Values(t) + [rec]
  {
    var r := Table(t.rows[t.nextId := rec], t.order + [t.nextId], t.nextId + 1);
    assert forall k :: k in r.order <==> k in t.order || k == t.nextId;
    assert Distinct(r.order) by {
      forall a, b | 0 <= a < b < |r.order| ensures r.order[a] != r.order[b] {
        if b == |t.order| { assert r.order[a] == t.order[a] && t.order[a] in t.order; }
      }
    }
    assert Valid(r);
    assert Values(r) == Values(t) + [rec];
    r
  }

  /** `map.set(id, rec)` for a key already present: the key keeps its place
      in the iteration order. */
  function Put<T>(t: Table<T>, id: int, rec: T): (r: Table<T>)
    requires Valid(t) && id in t.rows
    ensures Valid(r)
    ensures r.rows == t.rows[id := rec] && r.order == t.order && r.nextId == t.nextId
    ensures forall i :: 0 <= i < |t.order| ==> Values(r)[i] == if t.order[i] == id then rec else Values(t)[i]
  {
    Table(t.rows[id := rec], t.order, t.nextId)
  }

  lemma PutPut<T>(t: Table<T>, id: int, a: T, b: T)
    requires Valid(t) && id in t.rows
    ensures Put(Put(t, id, a), id, b) == Put(t, id, b)
  {
    assert t.rows[id := a][id := b] == t.rows[id := b];
  }

  /** Reading back after a write: a create is found under the id it was
      given, an overwrite under its key, a delete nowhere; every other key
      reads as before. */
  lemma GetAfterInsert<T>(t: Table<T>, rec: T, k: int)
    requires Valid(t)
    ensures Get(Insert(t, rec), k) == if k == t.nextId then Some(rec) else Get(t, k)
  {
  }

  lemma GetAfterPut<T>(t: Table<T>, id: int, rec: T, k: int)
    requires Valid(t) && id in t.rows
    ensures Get(Put(t, id, rec), k) == if k == id then Some(rec) else Get(t, k)
  {
  }

  lemma GetAfterDelete<T>(t: Table<T>, id: int, k: int)
    requires Valid(t)
    ensures Get(Delete(t, id), k) == if k == id then None else Get(t, k)
  {
  }

  /** Removing the element at `i` from a sequence without duplicates
      removes exactly that value and keeps the others distinct. */
  lemma RemoveAt(s: seq<int>, i: nat)
    requires Distinct(s) && i < |s|
    ensures Distinct(s[..i] + s[i + 1..])
    ensures forall k :: k in s[..i] + s[i + 1..] <==> k in s && k != s[i]
  {
    var o := s[..i] + s[i + 1..];
    forall a, b | 0 <= a < b < |o| ensures o[a] != o[b] {
      var a' := if a < i then a else a + 1;
      var b' := if b < i then b else b + 1;
      assert o[a] == s[a'] && o[b] == s[b'];
    }
    forall k ensures k in o <==> k in s && k != s[i] {
      if k in s && k != s[i] {
        var j :| 0 <= j < |s| && s[j] == k;
        if j < i { assert o[j] == k; } else { assert o[j - 1] == k; }
      }
    }
  }

  /** `map.delete(id)`: the record and its key disappear and the remaining
      keys keep their order; the counter is not touched, so a deleted id is
      never handed out again. */
  function Delete<T>(t: Table<T>, id: int): (r: Table<T>)
    requires Valid(t)
    ensures Valid(r)
    ensures r.rows == t.rows - {id} && r.nextId == t.nextId
    ensures id !in t.rows ==> r == t
    ensures id in t.rows ==> exists i :: 0 <= i < |t.order| && t.order[i] == id && Values(r) == Values(t)[..i] + Values(t)[i + 1..]
  {
    match FindIndex(t.order, k => k == id)
    case None => t
    case Some(i) =>
      var r := Table(t.rows - {id}, t.order[..i] + t.order[i + 1..], t.nextId);
      RemoveAt(t.order, i);
      assert Valid(r);
      assert Values(r) == Values(t)[..i] + Values(t)[i + 1..];
      r
  }
}
