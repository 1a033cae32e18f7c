/**
 * The Redis cache wrapper (src/cache/redisClient.js): one client, a readiness
 * flag flipped by connection events, and the ratings hashes and negative
 * markers kept in the store. The store is a map from key to entry; whether a
 * command reaches the server is an input (`fails`), and expiry is recorded as
 * the TTL the entry was written with.
 */
module RedisClient {
  import opened Wrappers
  import opened Records

  /** What a key holds: a hash of fields, a string, or a value of another Redis type. */
  datatype Entry =
    | Hash(fields: map<string, string>, ttl: nat)
    | Str(text: string, ttl: nat)
    | OtherType

  /** The reply of `getRatingsHashOrMarker`: `null`, the hash as records, or the stored marker. */
  datatype Reply = NoReply | Records(records: seq<Record>) | Marker(marker: string)

  /** The `{source, value}` object made from one hash field. */
  function FieldRecord(source: string, value: string): Record
  {
    Record(source, value, None, None, None)
  }

  /**
   * `rs` lists the fields of a hash: each record is one field, no field twice,
   * every field once. The order is the store's and is not specified.
   */
  predicate ListsFields(rs: seq<Record>, fields: map<string, string>)
  {
    && (forall i :: 0 <= i < |rs| ==> rs[i].source in fields && rs[i] == FieldRecord(rs[i].source, fields[rs[i].source]))
    && (forall i, j :: 0 <= i < j < |rs| ==> rs[i].source != rs[j].source)
    && (forall s :: s in fields ==> exists i :: 0 <= i < |rs| && rs[i].source == s)
  }

  /** `rs` lists the fields of a hash outside `rest`, each once, and none in `rest`. */
  predicate ListedExcept(rs: seq<Record>, fields: map<string, string>, rest: set<string>)
  {
    && (forall i :: 0 <= i < |rs| ==>
          rs[i].source in fields && rs[i].source !in rest && rs[i] == FieldRecord(rs[i].source, fields[rs[i].source]))
    && (forall i, j :: 0 <= i < j < |rs| ==> rs[i].source != rs[j].source)
    && (forall s :: s in fields && s !in rest ==> exists i :: 0 <= i < |rs| && rs[i].source == s)
  }

  /** Listing one more field of `rest` keeps the listing exact. */
  lemma ListedStep(rs: seq<Record>, fields: map<string, string>, rest: set<string>, s: string)
    requires ListedExcept(rs, fields, rest) && s in rest && rest <= fields.Keys
    ensures ListedExcept(rs + [FieldRecord(s, fields[s])], fields, rest - {s})
  {
    var after := rs + [FieldRecord(s, fields[s])];
    forall t | t in fields && t !in rest - {s}
      ensures exists i :: 0 <= i < |after| && after[i].source == t
    {
      if t == s {
        assert after[|after| - 1].source == t;
      } else {
        var i :| 0 <= i < |rs| && rs[i].source == t;
        assert after[i] == rs[i];
      }
    }
  }

  /** The sources of a list of records. */
  function Sources(rs: seq<Record>): set<string>
  {
    set i | 0 <= i < |rs| :: rs[i].source
  }

  /**
   * The hash fields `setRatingsHash` builds: one field per source, each
   * holding the value of the last record with that source.
   */
  function Fold(rs: seq<Record>): (m: map<string, string>)
    ensures m.Keys == Sources(rs)
  {
    if rs == [] then map[]
    else
      var init := rs[..|rs| - 1];
      var last := rs[|rs| - 1];
      assert Sources(rs) == Sources(init) + {last.source} by {
        assert forall i :: 0 <= i < |init| ==> init[i] == rs[i];
      }
      Fold(init)[last.source := last.value]
  }

  /** The last record with a given source decides the value of its field. */
  lemma {:induction false} FoldLastWins(rs: seq<Record>, i: nat)
    requires i < |rs|
    requires forall j :: i < j < |rs| ==> rs[j].source != rs[i].source
    ensures rs[i].source in Fold(rs) && Fold(rs)[rs[i].source] == rs[i].value
  {
    if i < |rs| - 1 {
      var init := rs[..|rs| - 1];
      assert init[i] == rs[i];
      FoldLastWins(init, i);
    }
  }

  /** Every field of the fold is the value of some record with that source. */
  lemma {:induction false} FoldValues(rs: seq<Record>, s: string)
    requires s in Fold(rs)
    ensures exists i :: 0 <= i < |rs| && rs[i].source == s && rs[i].value == Fold(rs)[s]
  {
    var last := rs[|rs| - 1];
    if last.source != s {
      var init := rs[..|rs| - 1];
      FoldValues(init, s);
      var i :| 0 <= i < |init| && init[i].source == s && init[i].value == Fold(init)[s];
      assert rs[i] == init[i];
    }
  }

  /** No key of the store holds a hash without fields. */
  predicate NoEmptyHash(store: map<string, Entry>)
  {
    forall k :: k in store && store[k].Hash? ==> store[k].fields != map[]
  }

  class RedisCache {
    /** Whether the single client has been created. */
    var hasClient: bool
    /**
     * Set by the `ready` event of any client this module created, cleared by
     * `error` and `end`; a client dropped by `disconnect` can still set it.
     */
    var ready: bool
    var store: map<string, Entry>

    /** Redis keeps no empty hash: a hash key disappears with its last field. */
    predicate Valid()
      reads this
    {
      NoEmptyHash(store)
    }

    /** A fresh module: no client, not ready; the store is whatever the server holds. */
    constructor (contents: map<string, Entry>)
      requires NoEmptyHash(contents)
      ensures Valid() && !hasClient && !ready && store == contents
    {
      hasClient := false;
      ready := false;
      store := contents;
    }

    /** `initClient`: create the client once; connecting goes on in the background. */
    method InitClient()
      requires Valid()
      modifies this
      ensures Valid() && hasClient && ready == old(ready) && store == old(store)
    {
      if !hasClient {
        hasClient := true;
      }
    }

    /**
     * A client's `ready` event. The flag is the module's, so the event of a
     * client that `disconnect` dropped while it was connecting sets it too.
     */
    method OnReady()
      requires Valid()
      modifies this
      ensures Valid() && ready && hasClient == old(hasClient) && store == old(store)
    {
      ready := true;
    }

    /** The client's `error` or `end` event. */
    method OnErrorOrEnd()
      requires Valid()
      modifies this
      ensures Valid() && !ready && hasClient == old(hasClient) && store == old(store)
    {
      ready := false;
    }

    /** `isReady`. */
    method IsReady() returns (r: bool)
      ensures r == ready
    {
      r := ready;
    }

    /** `Object.entries(hash).map(…)`: the fields of a hash as records. */
    static method HashRecords(fields: map<string, string>) returns (rs: seq<Record>)
      ensures ListsFields(rs, fields)
      ensures |rs| == |fields|
    {
      rs := [];
      var rest := fields.Keys;
      while rest != {}
        invariant rest <= fields.Keys
        invariant ListedExcept(rs, fields, rest)
        invariant |rs| + |rest| == |fields|
        decreases |rest|
      {
        var s :| s in rest;
        ListedStep(rs, fields, rest, s);
        rs := rs + [FieldRecord(s, fields[s])];
        rest := rest - {s};
      }
    }

    /**
     * `getRatingsHash`: `None` when the store is not ready, the command fails,
     * or the key holds no hash or an empty one; otherwise its fields.
     */
    method GetRatingsHash(key: string, fails: bool) returns (r: Option<seq<Record>>)
      requires Valid()
      modifies this
      ensures Valid() && hasClient && ready == old(ready) && store == old(store)
      ensures !ready || fails ==> r.None?
      ensures r.None? <==> !ready || fails || key !in store || !store[key].Hash? || store[key].fields == map[]
      ensures r.Some? ==> ListsFields(r.value, store[key].fields)
    {
      InitClient();
      if !ready {
        return None;
      }
      if fails {
        return None;
      }
      if key !in store || !store[key].Hash? || store[key].fields == map[] {
        return None;
      }
      var rs := HashRecords(store[key].fields);
      return Some(rs);
    }

    /**
     * `setRatingsHash`: nothing is written when the store is not ready or the
     * list is missing or empty. Otherwise the folded fields are merged into
     * the key's hash and its TTL is set, both in one transaction that either
     * applies or changes nothing. `EXPIRE` with a TTL that is not positive
     * deletes the key, so then the transaction leaves no key at all.
     */
    method SetRatingsHash(key: string, ratings: Option<seq<Record>>, ttlSeconds: int, fails: bool) returns (ok: bool)
      requires Valid()
      modifies this
      ensures Valid() && hasClient && ready == old(ready)
      ensures !ready || ratings.None? || ratings.value == [] ==> !ok
      ensures !ok ==> store == old(store)
      ensures ok <==> (ready && ratings.Some? && ratings.value != [] && !fails &&
                       (key !in old(store) || old(store)[key].Hash?))
      ensures ok && ttlSeconds > 0 ==> var before := if key in old(store) then old(store)[key].fields else map[];
        store == old(store)[key := Hash(before + Fold(ratings.value), ttlSeconds)]
      ensures ok && ttlSeconds <= 0 ==> store == old(store) - {key}
    {
      InitClient();
      if !ready || ratings.None? || |ratings.value| == 0 {
        return false;
      }
      var rs := ratings.value;
      var hashData: map<string, string> := map[];
      var i := 0;
      while i < |rs|
        invariant 0 <= i <= |rs|
        invariant hashData == Fold(rs[..i])
      {
        hashData := hashData[rs[i].source := rs[i].value];
        assert rs[..i + 1][..i] == rs[..i];
        i := i + 1;
      }
      assert rs[..|rs|] == rs;
      if fails {
        return false;
      }
      if key in store && !store[key].Hash? {
        // the hash command is refused on a key of another type
        return false;
      }
      if ttlSeconds <= 0 {
        store := store - {key};
        return true;
      }
      var before := if key in store then store[key].fields else map[];
      assert rs[0].source in hashData;
      store := store[key := Hash(before + hashData, ttlSeconds)];
      return true;
    }

    /**
     * `getRatingsHashOrMarker`: `null` when the store is not ready or the
     * command fails; a non-empty hash as records, a string as the marker,
     * anything else as `null`.
     */
    method GetRatingsHashOrMarker(key: string, fails: bool) returns (r: Reply)
      requires Valid()
      modifies this
      ensures Valid() && hasClient && ready == old(ready) && store == old(store)
      ensures !ready || fails || key !in store ==> r == NoReply
      ensures r.Records? <==> ready && !fails && key in store && store[key].Hash? && store[key].fields != map[]
      ensures r.Records? ==> ListsFields(r.records, store[key].fields)
      ensures r.Marker? <==> ready && !fails && key in store && store[key].Str?
      ensures r.Marker? ==> r.marker == store[key].text
    {
      InitClient();
      if !ready || fails || key !in store {
        return NoReply;
      }
      match store[key] {
        case Hash(fields, _) =>
          if fields == map[] {
            return NoReply;
          }
          var rs := HashRecords(fields);
          return Records(rs);
        case Str(text, _) =>
          return Marker(text);
        case OtherType =>
          return NoReply;
      }
    }

    /**
     * `setNegativeMarker`: when ready and the command goes through, the key
     * holds the marker with its TTL, whatever it held before, and the reply
     * is `OK`. Redis refuses `SET … EX` with a TTL that is not positive.
     */
    method SetNegativeMarker(key: string, marker: string, ttlSeconds: int, fails: bool) returns (ok: bool)
      requires Valid()
      modifies this
      ensures Valid() && hasClient && ready == old(ready)
      ensures ok <==> ready && !fails && ttlSeconds > 0
      ensures ok ==> store == old(store)[key := Str(marker, ttlSeconds)]
      ensures !ok ==> store == old(store)
    {
      InitClient();
      if !ready || fails || ttlSeconds <= 0 {
        return false;
      }
      store := store[key := Str(marker, ttlSeconds)];
      return true;
    }

    /**
     * `disconnect`: both branches drop the client and clear the flag; a
     * ready client is first asked to `quit`, whose failure is only logged.
     */
    method Disconnect()
      requires Valid()
      modifies this
      ensures Valid() && !hasClient && !ready && store == old(store)
    {
      hasClient := false;
      ready := false;
    }
  }

  /**
   * A hash written from a list of ratings on an absent key lists, for every
   * rated source, the value of the last rating with that source, and nothing
   * else.
   */
  lemma ReadBackLastWins(ratings: seq<Record>, rs: seq<Record>, i: nat)
    requires ListsFields(rs, Fold(ratings))
    requires i < |ratings|
    requires forall j :: i < j < |ratings| ==> ratings[j].source != ratings[i].source
    ensures exists k :: 0 <= k < |rs| && rs[k] == FieldRecord(ratings[i].source, ratings[i].value)
  {
    FoldLastWins(ratings, i);
    var k :| 0 <= k < |rs| && rs[k].source == ratings[i].source;
  }

  /** Every record read back from such a hash comes from the ratings written. */
  lemma ReadBackFromRatings(ratings: seq<Record>, rs: seq<Record>, k: nat)
    requires ListsFields(rs, Fold(ratings))
    requires k < |rs|
    ensures exists i :: 0 <= i < |ratings| && rs[k].source == ratings[i].source && rs[k].value == ratings[i].value
  {
    FoldValues(ratings, rs[k].source);
  }

  /**
   * Round trip: on a ready store, ratings written to an absent key with a
   * positive TTL read back as one record per rated source, holding the value
   * of the last rating with that source; with any other TTL the write
   * succeeds but leaves nothing to read.
   */
  method WriteThenRead(cache: RedisCache, key: string, ratings: seq<Record>, ttlSeconds: int)
    returns (ok: bool, back: Option<seq<Record>>)
    requires cache.Valid() && cache.ready && key !in cache.store && ratings != []
    modifies cache
    ensures ok
    ensures ttlSeconds > 0 ==> back.Some? && ListsFields(back.value, Fold(ratings))
    ensures ttlSeconds > 0 ==> Sources(back.value) == Sources(ratings)
    ensures ttlSeconds > 0 ==> cache.store == old(cache.store)[key := Hash(Fold(ratings), ttlSeconds)]
    ensures ttlSeconds <= 0 ==> back.None? && cache.store == old(cache.store)
  {
    ok := cache.SetRatingsHash(key, Some(ratings), ttlSeconds, false);
    if ttlSeconds > 0 {
      assert map[] + Fold(ratings) == Fold(ratings);
      assert ratings[0].source in Fold(ratings);
    } else {
      assert cache.store == old(cache.store);
    }
    back := cache.GetRatingsHash(key, false);
    if ttlSeconds > 0 {
      ListedSources(back.value, Fold(ratings));
    }
  }

  /** Records that list the fields of a hash have exactly its fields as sources. */
  lemma ListedSources(rs: seq<Record>, fields: map<string, string>)
    requires ListsFields(rs, fields)
    ensures Sources(rs) == fields.Keys
  {
    forall s | s in fields.Keys
      ensures s in Sources(rs)
    {
      var i :| 0 <= i < |rs| && rs[i].source == s;
    }
  }
}
