/**
 * First-seen-wins accumulation, on values. The listing scrape keeps its
 * records in an insertion-ordered map keyed by review id and inserts a record
 * only when its id is not yet a key; `Merge` is that, pass by pass, on the
 * sequence of stored records (the map's values in insertion order).
 *
 * `IsFirstSeen(out, seen)` is the independent description: `out` holds one
 * record per distinct id of `seen`, the record being the first one in `seen`
 * with that id, in order of first sighting.
 */
module Dedup {
  import opened Records

  function Ids(xs: seq<Review>): set<string>
  {
    set i | 0 <= i < |xs| :: xs[i].id
  }

  predicate DistinctIds(xs: seq<Review>)
  {
    forall i, j :: 0 <= i < j < |xs| ==> xs[i].id != xs[j].id
  }

  /** One `if (!allReviews.has(id)) allReviews.set(id, record)`. */
  function Insert(acc: seq<Review>, r: Review): seq<Review>
  {
    if r.id in Ids(acc) then acc else acc + [r]
  }

  /** One extraction pass: the page's records inserted in document order. */
  function Merge(acc: seq<Review>, page: seq<Review>): seq<Review>
    decreases |page|
  {
    if page == [] then acc else Merge(Insert(acc, page[0]), page[1..])
  }

  /** The position of the first record in `xs` that has the id. */
  function FirstIndex(xs: seq<Review>, id: string): (k: nat)
    requires id in Ids(xs)
    ensures k < |xs| && xs[k].id == id
    ensures forall j :: 0 <= j < k ==> xs[j].id != id
  {
    if xs[0].id == id then 0
    else
      assert id in Ids(xs[1..]) by {
        var i :| 0 <= i < |xs| && xs[i].id == id;
        assert xs[1..][i - 1] == xs[i];
      }
      1 + FirstIndex(xs[1..], id)
  }

  /** `out` is the first-seen-wins deduplication of everything in `seen`. */
  ghost predicate IsFirstSeen(out: seq<Review>, seen: seq<Review>)
  {
    && DistinctIds(out)
    && Ids(out) == Ids(seen)
    && (forall k :: 0 <= k < |out| ==> out[k].id in Ids(seen) && out[k] == seen[FirstIndex(seen, out[k].id)])
    && (forall k, l :: 0 <= k < l < |out| ==> FirstIndex(seen, out[k].id) < FirstIndex(seen, out[l].id))
  }

  lemma IdsSnoc(xs: seq<Review>, r: Review)
    ensures Ids(xs + [r]) == Ids(xs) + {r.id}
  {
    var ys := xs + [r];
    forall id | id in Ids(ys) ensures id in Ids(xs) + {r.id} {
      var i :| 0 <= i < |ys| && ys[i].id == id;
      if i < |xs| { assert ys[i] == xs[i]; }
    }
    forall id | id in Ids(xs) ensures id in Ids(ys) {
      var i :| 0 <= i < |xs| && xs[i].id == id;
      assert ys[i] == xs[i];
    }
    assert ys[|xs|] == r;
  }

  lemma IdsAppend(xs: seq<Review>, ys: seq<Review>)
    ensures Ids(xs + ys) == Ids(xs) + Ids(ys)
  {
    var zs := xs + ys;
    forall id | id in Ids(zs) ensures id in Ids(xs) + Ids(ys) {
      var i :| 0 <= i < |zs| && zs[i].id == id;
      if i < |xs| { assert zs[i] == xs[i]; } else { assert zs[i] == ys[i - |xs|]; }
    }
    forall id | id in Ids(xs) + Ids(ys) ensures id in Ids(zs) {
      if id in Ids(xs) {
        var i :| 0 <= i < |xs| && xs[i].id == id;
        assert zs[i] == xs[i];
      } else {
        var i :| 0 <= i < |ys| && ys[i].id == id;
        assert zs[|xs| + i] == ys[i];
      }
    }
  }

  /** FirstIndex is the only position with the id and no earlier one. */
  lemma FirstIndexUnique(xs: seq<Review>, id: string, k: nat)
    requires k < |xs| && xs[k].id == id
    requires forall j :: 0 <= j < k ==> xs[j].id != id
    ensures id in Ids(xs) && FirstIndex(xs, id) == k
  {
    assert xs[k].id in Ids(xs);
  }

  /** Appending a record does not move the first sighting of an id already seen. */
  lemma FirstIndexSnoc(xs: seq<Review>, r: Review, id: string)
    requires id in Ids(xs)
    ensures id in Ids(xs + [r]) && FirstIndex(xs + [r], id) == FirstIndex(xs, id)
  {
    var ys := xs + [r];
    var k := FirstIndex(xs, id);
    assert forall j :: 0 <= j <= k ==> ys[j] == xs[j];
    FirstIndexUnique(ys, id, k);
  }

  /** The first sighting of a new id is the record just appended. */
  lemma FirstIndexNew(xs: seq<Review>, r: Review)
    requires r.id !in Ids(xs)
    ensures r.id in Ids(xs + [r]) && FirstIndex(xs + [r], r.id) == |xs|
  {
    var ys := xs + [r];
    assert forall j :: 0 <= j < |xs| ==> ys[j] == xs[j] && xs[j].id in Ids(xs);
    assert ys[|xs|] == r;
    FirstIndexUnique(ys, r.id, |xs|);
  }

  /** A record seen after the ones in `seen` leaves every earlier first sighting where it was. */
  lemma SnocKeepsSightings(out: seq<Review>, seen: seq<Review>, r: Review)
    requires forall k :: 0 <= k < |out| ==> out[k].id in Ids(seen)
    ensures forall k :: 0 <= k < |out| ==>
      out[k].id in Ids(seen + [r]) && FirstIndex(seen + [r], out[k].id) == FirstIndex(seen, out[k].id)
      && (seen + [r])[FirstIndex(seen, out[k].id)] == seen[FirstIndex(seen, out[k].id)]
  {
    forall k | 0 <= k < |out|
      ensures out[k].id in Ids(seen + [r]) && FirstIndex(seen + [r], out[k].id) == FirstIndex(seen, out[k].id)
    {
      FirstIndexSnoc(seen, r, out[k].id);
    }
  }

  /** A record whose id is stored already is dropped, and the description still holds. */
  lemma InsertFirstSeenOld(acc: seq<Review>, seen: seq<Review>, r: Review)
    requires IsFirstSeen(acc, seen)
    requires r.id in Ids(acc)
    ensures IsFirstSeen(acc, seen + [r])
  {
    IdsSnoc(seen, r);
    SnocKeepsSightings(acc, seen, r);
  }

  /** A record with a new id is appended, and is the first sighting of that id. */
  lemma InsertFirstSeenNew(acc: seq<Review>, seen: seq<Review>, r: Review)
    requires IsFirstSeen(acc, seen)
    requires r.id !in Ids(acc)
    ensures IsFirstSeen(acc + [r], seen + [r])
  {
    var seen' := seen + [r];
    var out := acc + [r];
    IdsSnoc(seen, r);
    IdsSnoc(acc, r);
    SnocKeepsSightings(acc, seen, r);
    FirstIndexNew(seen, r);
    assert seen'[|seen|] == r;
    assert forall k :: 0 <= k < |acc| ==> out[k] == acc[k];
    assert out[|acc|] == r;
  }

  /** A single insertion keeps the first-seen description, with one more record seen. */
  lemma InsertFirstSeen(acc: seq<Review>, seen: seq<Review>, r: Review)
    requires IsFirstSeen(acc, seen)
    ensures IsFirstSeen(Insert(acc, r), seen + [r])
  {
    if r.id in Ids(acc) {
      InsertFirstSeenOld(acc, seen, r);
    } else {
      InsertFirstSeenNew(acc, seen, r);
    }
  }

  /** Merging a page keeps the first-seen description, with the page now seen too. */
  lemma {:induction false} MergeFirstSeen(acc: seq<Review>, seen: seq<Review>, page: seq<Review>)
    requires IsFirstSeen(acc, seen)
    ensures IsFirstSeen(Merge(acc, page), seen + page)
    decreases |page|
  {
    if page == [] {
      assert seen + page == seen;
    } else {
      var seen' := seen + [page[0]];
      assert seen' + page[1..] == seen + page;
      InsertFirstSeen(acc, seen, page[0]);
      MergeFirstSeen(Insert(acc, page[0]), seen', page[1..]);
    }
  }

  /**
   * What a whole run stores: starting from the empty collection, the records
   * of every extraction pass, one per distinct id, each the first one seen
   * with that id, in order of first sighting.
   */
  lemma RunFirstSeen(seen: seq<Review>)
    ensures IsFirstSeen(Merge([], seen), seen)
  {
    MergeFirstSeen([], [], seen);
    assert [] + seen == seen;
  }

  /** The number of records kept is the number of distinct ids seen. */
  lemma {:induction false} DistinctCount(xs: seq<Review>)
    requires DistinctIds(xs)
    ensures |xs| == |Ids(xs)|
    decreases |xs|
  {
    if xs != [] {
      var init := xs[..|xs| - 1];
      var last := xs[|xs| - 1];
      assert xs == init + [last];
      DistinctCount(init);
      IdsSnoc(init, last);
      assert last.id !in Ids(init);
    }
  }

  lemma RunCount(seen: seq<Review>)
    ensures |Merge([], seen)| == |Ids(seen)|
  {
    RunFirstSeen(seen);
    DistinctCount(Merge([], seen));
  }

  /** A merge never overwrites: what was stored stays, in its place, ahead of anything new. */
  lemma {:induction false} MergeKeepsPrefix(acc: seq<Review>, page: seq<Review>)
    ensures |Merge(acc, page)| >= |acc| && Merge(acc, page)[..|acc|] == acc
    decreases |page|
  {
    if page != [] {
      var acc' := Insert(acc, page[0]);
      MergeKeepsPrefix(acc', page[1..]);
      assert acc'[..|acc|] == acc;
    }
  }

  /** A later record with an id already stored changes nothing. */
  lemma {:induction false} MergeSeen(acc: seq<Review>, page: seq<Review>)
    requires forall i :: 0 <= i < |page| ==> page[i].id in Ids(acc)
    ensures Merge(acc, page) == acc
    decreases |page|
  {
    if page != [] {
      MergeSeen(acc, page[1..]);
    }
  }

  lemma {:induction false} MergeIds(acc: seq<Review>, page: seq<Review>)
    ensures Ids(Merge(acc, page)) == Ids(acc) + Ids(page)
    decreases |page|
  {
    if page != [] {
      var acc' := Insert(acc, page[0]);
      MergeIds(acc', page[1..]);
      IdsSnoc(acc, page[0]);
      IdsAppend([page[0]], page[1..]);
      assert [page[0]] + page[1..] == page;
      assert Ids([page[0]]) == {page[0].id} by { assert [page[0]][0] == page[0]; }
    }
  }

  /** Extraction is idempotent: re-reading the same page leaves the collection as it was. */
  lemma Idempotent(acc: seq<Review>, page: seq<Review>)
    ensures Merge(Merge(acc, page), page) == Merge(acc, page)
  {
    MergeIds(acc, page);
    forall i | 0 <= i < |page| ensures page[i].id in Ids(Merge(acc, page)) {
      assert page[i].id in Ids(page);
    }
    MergeSeen(Merge(acc, page), page);
  }

  /** Two passes in a row are one pass over both pages. */
  lemma {:induction false} MergeAppend(acc: seq<Review>, a: seq<Review>, b: seq<Review>)
    ensures Merge(Merge(acc, a), b) == Merge(acc, a + b)
    decreases |a|
  {
    if a == [] {
      assert a + b == b;
    } else {
      MergeAppend(Insert(acc, a[0]), a[1..], b);
      assert (a + b)[0] == a[0] && (a + b)[1..] == a[1..] + b;
    }
  }

  /** Records whose ids are all new and all different are kept as they come. */
  lemma {:induction false} MergeFresh(acc: seq<Review>, page: seq<Review>)
    requires DistinctIds(page)
    requires forall i :: 0 <= i < |page| ==> page[i].id !in Ids(acc)
    ensures Merge(acc, page) == acc + page
    decreases |page|
  {
    if page != [] {
      var acc' := acc + [page[0]];
      IdsSnoc(acc, page[0]);
      forall i | 0 <= i < |page[1..]| ensures page[1..][i].id !in Ids(acc') {
        assert page[1..][i] == page[i + 1];
      }
      MergeFresh(acc', page[1..]);
      assert acc' + page[1..] == acc + page;
    }
  }
}
