/**
 The dedup store: lowdb's `postedClipIds` array of `{id, date}` records,
 `checkDbForClip` (find the first record with that id) and
 `insertClipIdToDb` (append a record stamped with the current time).

 The key type is generic because the source stores whatever `getUrlSlug`
 returned, `undefined` included.
 */
module Dedup {
  import opened JsValues

  datatype ClipRecord<K> = ClipRecord(id: K, date: int)

  type Store<K> = seq<ClipRecord<K>>

  /** `db.defaults({ postedClipIds: [] })` on a fresh file. */
  function Empty<K>(): Store<K> { [] }

  /** `checkDbForClip(id)`: the first record with this id, if any. */
  function Find<K(==)>(store: Store<K>, id: K): (r: Option<ClipRecord<K>>)
    ensures r.None? <==> forall i :: 0 <= i < |store| ==> store[i].id != id
    ensures r.Some? ==> exists i :: FirstWithId(store, id, i) && r.value == store[i]
  {
    if |store| == 0 then None
    else if store[0].id == id then
      assert FirstWithId(store, id, 0);
      Some(store[0])
    else
      var r := Find(store[1..], id);
      if r.Some? then
        var i :| FirstWithId(store[1..], id, i) && r.value == store[1..][i];
        assert FirstWithId(store, id, i + 1);
        r
      else r
  }

  /** `store[i]` is the first record with this id. */
  predicate FirstWithId<K(==)>(store: Store<K>, id: K, i: int)
  {
    0 <= i < |store| && store[i].id == id && forall j :: 0 <= j < i ==> store[j].id != id
  }

  /** `insertClipIdToDb(id)` at time `now`: exactly one record is appended at
      the end, and no check for an earlier record with the same id is made. */
  function Insert<K>(store: Store<K>, id: K, now: int): (r: Store<K>)
    ensures |r| == |store| + 1
    ensures r[..|store|] == store
    ensures r[|store|] == ClipRecord(id, now)
  {
    store + [ClipRecord(id, now)]
  }

  /** At most one record per id: the invariant the pipeline is meant to keep. */
  ghost predicate UniqueIds<K>(store: Store<K>)
  {
    forall i, j :: 0 <= i < j < |store| ==> store[i].id != store[j].id
  }

  /** After an insert, the id is found. If it was already present, the
      earlier record is still the one found; otherwise the new one is. */
  lemma {:induction false} InsertThenFind<K>(store: Store<K>, id: K, now: int)
    ensures Find(Insert(store, id, now), id).Some?
    ensures Find(store, id).Some? ==> Find(Insert(store, id, now), id) == Find(store, id)
    ensures Find(store, id).None? ==> Find(Insert(store, id, now), id) == Some(ClipRecord(id, now))
    decreases |store|
  {
    if |store| > 0 {
      assert Insert(store, id, now)[1..] == Insert(store[1..], id, now);
      InsertThenFind(store[1..], id, now);
    }
  }

  /** Inserting one id leaves every other id's lookup as it was. */
  lemma {:induction false} InsertKeepsOthers<K>(store: Store<K>, id: K, other: K, now: int)
    requires other != id
    ensures Find(Insert(store, id, now), other) == Find(store, other)
    decreases |store|
  {
    if |store| > 0 {
      assert Insert(store, id, now)[1..] == Insert(store[1..], id, now);
      InsertKeepsOthers(store[1..], id, other, now);
    }
  }

  /** Inserting an id that is not yet present keeps ids unique. */
  lemma InsertAbsentKeepsUnique<K>(store: Store<K>, id: K, now: int)
    requires UniqueIds(store)
    requires Find(store, id).None?
    ensures UniqueIds(Insert(store, id, now))
  {
  }

  /** Insert itself does not deduplicate: inserting a present id breaks
      uniqueness. */
  lemma InsertPresentDuplicates<K>(store: Store<K>, id: K, now: int)
    requires Find(store, id).Some?
    ensures !UniqueIds(Insert(store, id, now))
  {
    var r := Insert(store, id, now);
    var i :| FirstWithId(store, id, i) && Find(store, id).value == store[i];
    assert r[i].id == r[|store|].id;
  }
}
