/**
 * The run's review collection: an insertion-ordered map from review id to
 * record, filled in place by each extraction pass. `order` is the map's key
 * order, `entries` its contents.
 */
module Collection {
  import opened Records
  import opened Dedup

  /** The records stored under `keys`, in that order. */
  function Lookup(keys: seq<string>, m: map<string, Review>): (rs: seq<Review>)
    requires forall k :: k in keys ==> k in m
    ensures |rs| == |keys|
    ensures forall i :: 0 <= i < |keys| ==> rs[i] == m[keys[i]]
  {
    if keys == [] then [] else Lookup(keys[..|keys| - 1], m) + [m[keys[|keys| - 1]]]
  }

  /** Storing a record under a new key appends it to the values and moves nothing else. */
  lemma LookupAdd(keys: seq<string>, m: map<string, Review>, r: Review)
    requires forall k :: k in keys ==> k in m
    requires r.id !in keys
    ensures Lookup(keys + [r.id], m[r.id := r]) == Lookup(keys, m) + [r]
  {
    var keys' := keys + [r.id];
    assert keys'[..|keys'| - 1] == keys;
    var a := Lookup(keys, m[r.id := r]);
    var b := Lookup(keys, m);
    assert a == b;
  }

  class ReviewCollection {
    var order: seq<string>
    var entries: map<string, Review>

    /** Keys are distinct, are exactly the map's keys, and each record is stored under its own id. */
    ghost predicate Valid()
      reads this
    {
      && (forall i, j :: 0 <= i < j < |order| ==> order[i] != order[j])
      && (forall k :: k in entries <==> k in order)
      && (forall k :: k in entries ==> entries[k].id == k)
    }

    constructor ()
      ensures Valid() && Reviews() == []
    {
      order := [];
      entries := map[];
    }

    /** `Array.from(allReviews.values())`. */
    function Reviews(): (rs: seq<Review>)
      reads this
      requires Valid()
      ensures |rs| == |order| && forall i :: 0 <= i < |order| ==> rs[i] == entries[order[i]]
      ensures Ids(rs) == entries.Keys
      ensures DistinctIds(rs)
    {
      var rs := Lookup(order, entries);
      assert Ids(rs) == entries.Keys by {
        forall k | k in entries.Keys ensures k in Ids(rs) {
          var i :| 0 <= i < |order| && order[i] == k;
          assert rs[i].id == k;
        }
      }
      rs
    }

    /** `if (!allReviews.has(id)) allReviews.set(id, record)`: first seen wins. */
    method Add(r: Review)
      requires Valid()
      modifies this
      ensures Valid()
      ensures Reviews() == Insert(old(Reviews()), r)
      ensures r.id in old(entries) ==> entries == old(entries) && order == old(order)
      ensures r.id !in old(entries) ==> entries == old(entries)[r.id := r] && order == old(order) + [r.id]
    {
      if r.id !in entries {
        LookupAdd(order, entries, r);
        entries := entries[r.id := r];
        order := order + [r.id];
      }
    }

    /**
     * `extractReviewsFromPage`: every element of the page is mapped to a
     * record and stored under its id unless that id is already a key.
     */
    method ExtractReviewsFromPage(els: seq<ListingElement>)
      requires Valid()
      modifies this
      ensures Valid()
      ensures Reviews() == Merge(old(Reviews()), ExtractAll(els))
    {
      ghost var page := ExtractAll(els);
      var i := 0;
      while i < |els|
        invariant 0 <= i <= |els|
        invariant Valid()
        invariant Merge(Reviews(), page[i..]) == Merge(old(Reviews()), page)
      {
        var r := ExtractListing(els[i]);
        assert page[i..][0] == r && page[i..][1..] == page[i + 1..];
        Add(r);
        i := i + 1;
      }
      assert page[i..] == [];
    }
  }
}
