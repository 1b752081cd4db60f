/**
 * AResource: resource data identified by a uid, and the per-type cache through which
 * resources share one data object per uid. The cache holds weak references; whether a
 * cached data object is still owned by some resource is the set `live`, which shrinks
 * when the last owner lets go (`Expire`).
 */
module Resource {
  class ResourceData {
    const uid: string
    var loaded: bool

    /** New data is not loaded. */
    constructor (uid: string)
      ensures this.uid == uid && !loaded
    {
      this.uid := uid;
      loaded := false;
    }

    /** load() marks the data loaded and reports success. */
    method Load() returns (ok: bool)
      modifies this
      ensures loaded && ok
    {
      loaded := true;
      ok := true;
    }

    method Unload()
      modifies this
      ensures !loaded
    {
      loaded := false;
    }

    /** Data objects are equal when their uids are. */
    predicate Equals(other: ResourceData)
    {
      uid == other.uid
    }
  }

  /** The static uid-to-data hash of one resource type. */
  class ResourceCache {
    var entries: map<string, ResourceData>
    var live: set<ResourceData>

    /** Every entry is stored under its own uid. */
    ghost predicate Valid()
      reads this, entries.Values
    {
      forall k :: k in entries ==> entries[k].uid == k
    }

    constructor ()
      ensures Valid() && entries == map[] && live == {}
    {
      entries := map[];
      live := {};
    }

    /** The last owner of `d` released it: its weak references become null. */
    method Expire(d: ResourceData)
      requires Valid()
      modifies this`live
      ensures Valid() && live == old(live) - {d}
    {
      live := live - {d};
    }
  }

  class Resource {
    var data: ResourceData?

    constructor ()
      ensures data == null
    {
      data := null;
    }

    /**
     * cache(data): adopts the cached data of the same uid when it is still alive, without
     * loading it; otherwise stores the given data under its uid, adopts it and loads it. The
     * result of load is not looked at.
     */
    method Cache(cache: ResourceCache, d: ResourceData)
      requires cache.Valid()
      modifies this, cache, d
      ensures cache.Valid()
      ensures data != null && d.uid in cache.entries && cache.entries[d.uid] == data
      ensures data.Equals(d)
      ensures old(d.uid in cache.entries && cache.entries[d.uid] in cache.live) ==>
        (data == old(cache.entries[d.uid]) && cache.entries == old(cache.entries) && cache.live == old(cache.live)
         && d.loaded == old(d.loaded))
      ensures !old(d.uid in cache.entries && cache.entries[d.uid] in cache.live) ==>
        (data == d && d.loaded && cache.entries == old(cache.entries)[d.uid := d] && cache.live == old(cache.live) + {d})
    {
      if d.uid in cache.entries && cache.entries[d.uid] in cache.live {
        data := cache.entries[d.uid];
      } else {
        cache.entries := cache.entries[d.uid := d];
        cache.live := cache.live + {d};
        data := d;
        var _ := d.Load();
      }
    }
  }

  /**
   * Two resources caching data of the same uid, with no expiry in between, end up sharing
   * one data object, and only the first one loaded it.
   */
  method SharedData(cache: ResourceCache, uid: string) returns (a: Resource, b: Resource)
    requires cache.Valid() && uid !in cache.entries
    modifies cache
    ensures a.data == b.data && a.data != null && a.data.loaded
  {
    var first := new ResourceData(uid);
    a := new Resource();
    a.Cache(cache, first);
    var second := new ResourceData(uid);
    b := new Resource();
    b.Cache(cache, second);
    assert !second.loaded;
  }
}
