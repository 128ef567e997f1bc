/** The gateway's cache from node UUID to Bluetooth MAC. */
module MacCache {
  import opened Machine
  import opened SlotTable

  const MAX_MAC_CACHE := 16

  datatype Entry = Entry(used: bool, uuid: Bytes, mac: Bytes)

  /** One advertisement of an unprovisioned device. */
  datatype Sighting = Sighting(uuid: Bytes, mac: Bytes)

  function Ids(cache: seq<Entry>): Column<Bytes> {
    seq(|cache|, i requires 0 <= i < |cache| => if cache[i].used then Some(cache[i].uuid) else None)
  }

  function Stored(cache: seq<Entry>, s: Sighting): (r: seq<Entry>)
    ensures |r| == |cache|
  {
    var i, j := IndexOf(Ids(cache), Some(s.uuid)), IndexOf(Ids(cache), None);
    if i >= 0 then cache[i := cache[i].(mac := s.mac)]
    else if j >= 0 then cache[j := Entry(true, s.uuid, s.mac)]
    else cache
  }

  function Lookup(cache: seq<Entry>, uuid: Bytes): Option<Bytes> {
    var i := IndexOf(Ids(cache), Some(uuid));
    if i >= 0 then Some(cache[i].mac) else None
  }

  class Cache {
    const cache: array<Entry>

    ghost predicate Valid() { cache.Length == MAX_MAC_CACHE }

    constructor ()
      ensures Valid() && fresh(cache) && cache[..] == Empty()
    {
      cache := new Entry[MAX_MAC_CACHE](_ => Entry(false, [], []));
    }

    method Store(s: Sighting)
      requires Valid()
      modifies cache
      ensures cache[..] == Stored(old(cache[..]), s)
    {
      ghost var ids := Ids(cache[..]);
      for i := 0 to MAX_MAC_CACHE
        invariant forall j :: 0 <= j < i ==> ids[j] != Some(s.uuid)
        invariant cache[..] == old(cache[..])
      {
        IndexOfIs(ids, Some(s.uuid), i);
        if cache[i].used && cache[i].uuid == s.uuid {
          cache[i] := cache[i].(mac := s.mac);
          return;
        }
      }
      IndexOfIs(ids, Some(s.uuid), MAX_MAC_CACHE);
      for i := 0 to MAX_MAC_CACHE
        invariant forall j :: 0 <= j < i ==> ids[j] != None
        invariant cache[..] == old(cache[..])
      {
        IndexOfIs(ids, None, i);
        if !cache[i].used {
          cache[i] := cache[i].(used := true);
          cache[i] := cache[i].(uuid := s.uuid, mac := s.mac);
          return;
        }
      }
      IndexOfIs(ids, None, MAX_MAC_CACHE);
    }

    method Get(uuid: Bytes) returns (mac: Option<Bytes>)
      requires Valid()
      ensures mac == Lookup(cache[..], uuid)
    {
      ghost var ids := Ids(cache[..]);
      for i := 0 to MAX_MAC_CACHE
        invariant forall j :: 0 <= j < i ==> ids[j] != Some(uuid)
      {
        IndexOfIs(ids, Some(uuid), i);
        if cache[i].used && cache[i].uuid == uuid {
          return Some(cache[i].mac);
        }
      }
      IndexOfIs(ids, Some(uuid), MAX_MAC_CACHE);
      mac := None;
    }
  }

  // ----- whole histories -----

  function Empty(): seq<Entry> { seq(MAX_MAC_CACHE, _ => Entry(false, [], [])) }

  function Run(h: seq<Sighting>): (c: seq<Entry>)
    ensures |c| == MAX_MAC_CACHE
  {
    if h == [] then Empty() else Stored(Run(h[..|h| - 1]), h[|h| - 1])
  }

  function Uuids(h: seq<Sighting>): (us: seq<Bytes>)
    ensures |us| == |h|
  {
    if h == [] then [] else Uuids(h[..|h| - 1]) + [h[|h| - 1].uuid]
  }

  /** The MAC of the last sighting of a UUID. */
  function Latest(h: seq<Sighting>, uuid: Bytes): Option<Bytes> {
    if h == [] then None
    else if h[|h| - 1].uuid == uuid then Some(h[|h| - 1].mac)
    else Latest(h[..|h| - 1], uuid)
  }

  lemma {:induction false} SlotsAreClaimed(h: seq<Sighting>)
    ensures Ids(Run(h)) == ClaimAll(MAX_MAC_CACHE, Uuids(h))
  {
    if h != [] {
      SlotsAreClaimed(h[..|h| - 1]);
      assert Uuids(h)[..|h| - 1] == Uuids(h[..|h| - 1]);
    }
  }

  /** After any history the cache holds the latest MAC of each of the first 16 distinct
      UUIDs, and nothing else. */
  lemma {:induction false} CacheHoldsLatest(h: seq<Sighting>, uuid: Bytes)
    ensures Lookup(Run(h), uuid)
         == if uuid in FirstDistinct(MAX_MAC_CACHE, Uuids(h)) then Latest(h, uuid) else None
    ensures uuid in FirstDistinct(MAX_MAC_CACHE, Uuids(h)) ==> Latest(h, uuid).Some?
  {
    ClaimAllUnique(MAX_MAC_CACHE, Uuids(h));
    SlotsAreClaimed(h);
    if h != [] {
      var init, s := h[..|h| - 1], h[|h| - 1];
      CacheHoldsLatest(init, uuid);
      SlotsAreClaimed(init);
      ClaimAllUnique(MAX_MAC_CACHE, Uuids(init));
      assert Uuids(h)[..|h| - 1] == Uuids(init);
      StoreThenLookup(Run(init), s, uuid);
    }
  }

  lemma StoreThenLookup(c: seq<Entry>, s: Sighting, uuid: Bytes)
    requires Unique(Ids(c))
    ensures Lookup(Stored(c, s), uuid)
         == if uuid != s.uuid then Lookup(c, uuid)
            else if Lookup(c, uuid).Some? || IndexOf(Ids(c), None) >= 0 then Some(s.mac) else None
  {
    var ids, c' := Ids(c), Stored(c, s);
    var i, j := IndexOf(ids, Some(s.uuid)), IndexOf(ids, None);
    assert Ids(c') == Claim(ids, s.uuid);
    if i < 0 && j >= 0 {
      PutNew(ids, j, s.uuid);
      IndexOfUnique(Ids(c'), j);
    }
    var l := IndexOf(ids, Some(uuid));
    if uuid != s.uuid {
      if l >= 0 { IndexOfUnique(Ids(c'), l); }
      assert Some(uuid) in Ids(c') ==> Some(uuid) in ids;
    }
  }
}
