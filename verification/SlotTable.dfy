/** The search pattern shared by every fixed-size table of the firmware: a linear
    search for a key among the used slots, then the first free slot.

    A table is seen through its key column, a `seq<Option<K>>` that holds
    `Some(key)` for a used slot and `None` for a free one. */
module SlotTable {
  import opened Machine

  type Column<K> = seq<Option<K>>

  ghost predicate Unique<K>(ids: Column<K>) {
    forall i, j :: 0 <= i < j < |ids| && ids[i].Some? ==> ids[i] != ids[j]
  }

  ghost function Keys<K(!new)>(ids: Column<K>): (s: set<K>)
    ensures forall k :: k in s <==> Some(k) in ids
  {
    set i | 0 <= i < |ids| && ids[i].Some? :: ids[i].value
  }

  /** Index of the first occurrence of `e`, or -1. */
  function IndexOf<T(==)>(s: seq<T>, e: T): (r: int)
    ensures -1 <= r < |s|
    ensures r == -1 <==> e !in s
    ensures r >= 0 ==> s[r] == e && forall j :: 0 <= j < r ==> s[j] != e
  {
    if |s| == 0 then -1
    else if s[0] == e then 0
    else
      var r := IndexOf(s[1..], e);
      if r < 0 then -1 else assert forall j :: 1 <= j < r + 1 ==> s[j] == s[1..][j - 1]; r + 1
  }

  /** A search that has passed `i` slots without a hit returns slot `i` if it holds
      `e`, and -1 if the table is exhausted. */
  lemma IndexOfIs<T>(s: seq<T>, e: T, i: nat)
    requires i <= |s| && forall j :: 0 <= j < i ==> s[j] != e
    ensures i < |s| && s[i] == e ==> IndexOf(s, e) == i
    ensures i == |s| ==> IndexOf(s, e) == -1
  {
  }

  /** In a table without duplicates there is only one place a key can be. */
  lemma IndexOfUnique<K>(ids: Column<K>, i: nat)
    requires Unique(ids) && i < |ids| && ids[i].Some?
    ensures IndexOf(ids, ids[i]) == i
  {
    IndexOfIs(ids, ids[i], i);
  }

  /** Distinct keys occupy distinct slots, so the table is full exactly when it holds
      as many keys as it has slots. */
  lemma {:induction false} FullIffAllUsed<K(!new)>(ids: Column<K>)
    requires Unique(ids)
    ensures |Keys(ids)| <= |ids|
    ensures |Keys(ids)| == |ids| <==> IndexOf(ids, None) == -1
  {
    if |ids| == 0 {
      assert Keys(ids) == {};
    } else {
      var n := |ids| - 1;
      var init := ids[..n];
      FullIffAllUsed(init);
      assert ids == init + [ids[n]];
      if ids[n].Some? {
        assert Keys(ids) == Keys(init) + {ids[n].value};
        assert Some(ids[n].value) !in init;
        assert None in ids <==> None in init;
      } else {
        assert Keys(ids) == Keys(init);
      }
    }
  }

  /** Writing a new key into a free slot keeps the keys distinct and adds just that key. */
  lemma PutNew<K(!new)>(ids: Column<K>, i: nat, k: K)
    requires Unique(ids) && i < |ids| && ids[i].None? && Some(k) !in ids
    ensures Unique(ids[i := Some(k)])
    ensures Keys(ids[i := Some(k)]) == Keys(ids) + {k}
  {
    var ids' := ids[i := Some(k)];
    forall x ensures x in Keys(ids') <==> x in Keys(ids) + {k} {
      if x in Keys(ids) {
        var j :| 0 <= j < |ids| && ids[j] == Some(x);
        assert ids'[j] == Some(x);
      }
      assert ids'[i] == Some(k);
    }
  }

  /** Freeing slots keeps the keys distinct. */
  lemma SubColumn<K>(ids: Column<K>, ids': Column<K>)
    requires Unique(ids) && |ids| == |ids'|
    requires forall i :: 0 <= i < |ids| ==> ids'[i] == None || ids'[i] == ids[i]
    ensures Unique(ids')
  {
  }

  // ----- tables that never free a slot -----

  function Fresh<K>(n: nat): Column<K> { seq(n, _ => None) }

  /** Keep the slot of a known key, else take the first free slot, else drop the key. */
  function Claim<K(==)>(ids: Column<K>, k: K): (ids': Column<K>)
    ensures |ids'| == |ids|
  {
    if IndexOf(ids, Some(k)) >= 0 then ids
    else
      var f := IndexOf(ids, None);
      if f >= 0 then ids[f := Some(k)] else ids
  }

  /** Where keys are found after a claim: the claiming key in its old slot or the first free
      one, every other key where it was. */
  lemma ClaimPlaces<K>(ids: Column<K>, k: K, other: K)
    ensures var i, j := IndexOf(ids, Some(k)), IndexOf(ids, None);
            IndexOf(Claim(ids, k), Some(k)) == if i >= 0 then i else j
    ensures other != k ==> IndexOf(Claim(ids, k), Some(other)) == IndexOf(ids, Some(other))
  {
    var i, j, l := IndexOf(ids, Some(k)), IndexOf(ids, None), IndexOf(ids, Some(other));
    if i < 0 && j >= 0 {
      IndexOfIs(Claim(ids, k), Some(k), j);
      if other != k {
        IndexOfIs(Claim(ids, k), Some(other), if l >= 0 then l else |ids|);
      }
    }
  }

  function ClaimAll<K(==)>(n: nat, ks: seq<K>): (ids: Column<K>)
    ensures |ids| == n
  {
    if ks == [] then Fresh(n) else Claim(ClaimAll(n, ks[..|ks| - 1]), ks[|ks| - 1])
  }

  /** A key that was seen has a slot, or none was left. */
  lemma {:induction false} SeenHasSlotOrFull<K>(n: nat, ks: seq<K>, k: K)
    requires k in ks
    ensures Some(k) in ClaimAll(n, ks) || None !in ClaimAll(n, ks)
  {
    var hist, last := ks[..|ks| - 1], ks[|ks| - 1];
    assert ks == hist + [last];
    ClaimPlaces(ClaimAll(n, hist), last, k);
    if k in hist { SeenHasSlotOrFull(n, hist, k); }
  }

  /** The distinct keys of a history in the order in which they first occur. */
  function Distinct<K(==,!new)>(ks: seq<K>): (d: seq<K>)
    ensures forall k :: k in d <==> k in ks
    ensures forall i, j :: 0 <= i < j < |d| ==> d[i] != d[j]
  {
    if ks == [] then []
    else
      var d := Distinct(ks[..|ks| - 1]);
      assert ks == ks[..|ks| - 1] + [ks[|ks| - 1]];
      if ks[|ks| - 1] in d then d else d + [ks[|ks| - 1]]
  }

  /** The keys that get a slot: the first `n` distinct ones. */
  function FirstDistinct<K(==,!new)>(n: nat, ks: seq<K>): seq<K> {
    var d := Distinct(ks);
    if |d| <= n then d else d[..n]
  }

  /** After any history the slots hold, in order, the first `n` distinct keys. */
  lemma {:induction false} ClaimAllIsFirstDistinct<K(!new)>(n: nat, ks: seq<K>)
    ensures var ids, d := ClaimAll(n, ks), FirstDistinct(n, ks);
            forall i :: 0 <= i < n ==> ids[i] == if i < |d| then Some(d[i]) else None
  {
    if ks != [] {
      var hist, k := ks[..|ks| - 1], ks[|ks| - 1];
      ClaimAllIsFirstDistinct(n, hist);
      var ids, d := ClaimAll(n, hist), FirstDistinct(n, hist);
      if k in d {
        var i := IndexOf(d, k);
        assert ids[i] == Some(k);
        assert k in Distinct(hist);
      } else {
        assert Some(k) !in ids;
        if |d| < n {
          IndexOfIs(ids, None, |d|);
        } else {
          assert None !in ids;
        }
      }
    }
  }

  lemma ClaimAllUnique<K(!new)>(n: nat, ks: seq<K>)
    ensures Unique(ClaimAll(n, ks))
    ensures forall k :: Some(k) in ClaimAll(n, ks) <==> k in FirstDistinct(n, ks)
  {
    ClaimAllIsFirstDistinct(n, ks);
    var ids, d := ClaimAll(n, ks), FirstDistinct(n, ks);
    forall k ensures Some(k) in ids <==> k in d {
      if k in d { assert ids[IndexOf(d, k)] == Some(k); }
    }
  }
}
