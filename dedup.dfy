/**
 * The de-duplication pass of a region's run (src/main.py, `job`): every
 * filtered listing whose (address, area) pair is not yet stored is inserted;
 * a listing whose insert fails is rolled back and skipped. The pass is
 * specified by `Dedup`, a left fold of `Step` over the listings.
 */
module DedupPass {
  import opened Ads
  import opened Store

  /** The table after a prefix of the listings, and the listings added so far. */
  datatype Batch = Batch(rows: seq<Row>, added: seq<Listing>)

  /** One listing: skipped when its (address, area) pair is stored; otherwise
      inserted and reported, unless the insert fails (a stored url). */
  function Step(b: Batch, l: Listing, now: string): (r: Batch)
    ensures |b.rows| <= |r.rows| && r.rows[..|b.rows|] == b.rows
    ensures |b.added| <= |r.added| && r.added[..|b.added|] == b.added
    ensures |r.rows| - |b.rows| == |r.added| - |b.added| <= 1
  {
    if KeyTaken(b.rows, l.address, l.area) then b
    else match TryInsert(b.rows, l, now)
      case Inserted(row) => Batch(b.rows + [row], b.added + [l])
      case Rejected(_, _) => b
  }

  /** The pass over `ads`, starting from the stored `rows`, at clock reading `now`.
      Rows are only ever appended, one per added listing. */
  function Dedup(rows: seq<Row>, ads: seq<Listing>, now: string): (b: Batch)
    ensures |b.rows| == |rows| + |b.added|
    ensures b.rows[..|rows|] == rows
    ensures |b.added| <= |ads|
    decreases |ads|
  {
    if |ads| == 0 then Batch(rows, [])
    else Step(Dedup(rows, ads[..|ads| - 1], now), ads[|ads| - 1], now)
  }

  lemma DedupSnoc(rows: seq<Row>, ads: seq<Listing>, i: nat, now: string)
    requires i < |ads|
    ensures Dedup(rows, ads[..i + 1], now) == Step(Dedup(rows, ads[..i], now), ads[i], now)
  {
    assert ads[..i + 1][..i] == ads[..i];
  }

  /** What the last listing does to the batch: nothing, because the table
      knows it, or one row appended and the listing reported. */
  lemma DedupLast(rows: seq<Row>, ads: seq<Listing>, now: string)
    requires |ads| > 0
    ensures var prev, b, l := Dedup(rows, ads[..|ads| - 1], now), Dedup(rows, ads, now), ads[|ads| - 1];
      || (b == prev && Known(prev.rows, l))
      || (&& !KeyTaken(prev.rows, l.address, l.area) && !UrlTaken(prev.rows, l.url)
          && b.added == prev.added + [l]
          && b.rows == prev.rows + [RowOf(l, |prev.rows| + 1, now)])
  {
  }

  /** The rows appended are exactly the added listings' rows, in order, with
      consecutive keys and the batch's clock reading. */
  lemma {:induction false} DedupNewRows(rows: seq<Row>, ads: seq<Listing>, now: string)
    ensures var b := Dedup(rows, ads, now);
      forall k | 0 <= k < |b.added| :: b.rows[|rows| + k] == RowOf(b.added[k], |rows| + k + 1, now)
    decreases |ads|
  {
    if |ads| > 0 {
      var prev := Dedup(rows, ads[..|ads| - 1], now);
      DedupNewRows(rows, ads[..|ads| - 1], now);
      DedupLast(rows, ads, now);
      var b := Dedup(rows, ads, now);
      if b != prev {
        forall k | 0 <= k < |b.added|
          ensures b.rows[|rows| + k] == RowOf(b.added[k], |rows| + k + 1, now)
        {
          if k < |prev.added| {
            assert b.rows[|rows| + k] == prev.rows[|rows| + k];
            assert b.added[k] == prev.added[k];
          } else {
            assert b.rows[|rows| + k] == b.rows[|prev.rows|];
          }
        }
      }
    }
  }

  /** The pass keeps the table's invariants. */
  lemma {:induction false} DedupKeepsWellFormed(rows: seq<Row>, ads: seq<Listing>, now: string)
    requires WellFormed(rows)
    ensures WellFormed(Dedup(rows, ads, now).rows)
    decreases |ads|
  {
    if |ads| > 0 {
      var prev := Dedup(rows, ads[..|ads| - 1], now);
      DedupKeepsWellFormed(rows, ads[..|ads| - 1], now);
      var l := ads[|ads| - 1];
      if !KeyTaken(prev.rows, l.address, l.area) && TryInsert(prev.rows, l, now).Inserted? {
        InsertKeepsWellFormed(prev.rows, l, now);
      }
    }
  }

  /** `added` picks listings out of `ads` at strictly increasing positions. */
  predicate Picks(picked: seq<nat>, added: seq<Listing>, ads: seq<Listing>) {
    && |picked| == |added|
    && (forall k | 0 <= k < |picked| :: picked[k] < |ads| && ads[picked[k]] == added[k])
    && (forall k, k' | 0 <= k < k' < |picked| :: picked[k] < picked[k'])
  }

  /** The added listings are a subsequence of the filtered listings: each
      listing is reported at most once and in its original order. */
  lemma {:induction false} DedupAddedSubsequence(rows: seq<Row>, ads: seq<Listing>, now: string)
    ensures exists picked :: Picks(picked, Dedup(rows, ads, now).added, ads)
    decreases |ads|
  {
    if |ads| == 0 {
      var none: seq<nat> := [];
      assert Picks(none, Dedup(rows, ads, now).added, ads);
    } else {
      var n := |ads| - 1;
      var prev := Dedup(rows, ads[..n], now);
      DedupAddedSubsequence(rows, ads[..n], now);
      var picked :| Picks(picked, prev.added, ads[..n]);
      var b := Dedup(rows, ads, now);
      if |b.added| == |prev.added| {
        assert b.added == prev.added;
        assert Picks(picked, b.added, ads);
      } else {
        assert b.added == prev.added + [ads[n]];
        assert Picks(picked + [n], b.added, ads);
      }
    }
  }

  /** Every added listing's (address, area) pair and url were stored neither
      before the pass nor by an earlier listing of the same pass. */
  lemma {:induction false} DedupAddedFresh(rows: seq<Row>, ads: seq<Listing>, now: string)
    ensures var b := Dedup(rows, ads, now);
      && (forall k | 0 <= k < |b.added| ::
            !KeyTaken(rows, b.added[k].address, b.added[k].area) && !UrlTaken(rows, b.added[k].url))
      && (forall k, k' | 0 <= k < k' < |b.added| ::
            b.added[k].url != b.added[k'].url
            && (b.added[k].address != b.added[k'].address || b.added[k].area != b.added[k'].area))
    decreases |ads|
  {
    if |ads| > 0 {
      var n := |ads| - 1;
      var prev := Dedup(rows, ads[..n], now);
      DedupAddedFresh(rows, ads[..n], now);
      DedupNewRows(rows, ads[..n], now);
      DedupLast(rows, ads, now);
      var b := Dedup(rows, ads, now);
      if b != prev {
        var l := ads[n];
        forall i | 0 <= i < |rows|
          ensures rows[i].url != l.url && (rows[i].address != l.address || rows[i].area != l.area)
        {
          assert prev.rows[i] == rows[i];
        }
        forall k | 0 <= k < |prev.added|
          ensures prev.added[k].url != l.url
          ensures prev.added[k].address != l.address || prev.added[k].area != l.area
        {
          var row := prev.rows[|rows| + k];
          assert row == RowOf(prev.added[k], |rows| + k + 1, now);
          assert row.url != l.url;
        }
        forall k | 0 <= k < |b.added|
          ensures !KeyTaken(rows, b.added[k].address, b.added[k].area) && !UrlTaken(rows, b.added[k].url)
        {
          if k < |prev.added| {
            assert b.added[k] == prev.added[k];
          }
        }
        forall k, k' | 0 <= k < k' < |b.added|
          ensures b.added[k].url != b.added[k'].url
          ensures b.added[k].address != b.added[k'].address || b.added[k].area != b.added[k'].area
        {
          assert b.added[k] == prev.added[k];
          if k' < |prev.added| {
            assert b.added[k'] == prev.added[k'];
          }
        }
      }
    }
  }

  lemma KeyTakenGrows(rows: seq<Row>, more: seq<Row>, address: string, area: real)
    requires KeyTaken(rows, address, area)
    ensures KeyTaken(rows + more, address, area)
  {
    var i :| 0 <= i < |rows| && rows[i].address == address && rows[i].area == area;
    assert (rows + more)[i] == rows[i];
  }

  lemma UrlTakenGrows(rows: seq<Row>, more: seq<Row>, url: string)
    requires UrlTaken(rows, url)
    ensures UrlTaken(rows + more, url)
  {
    var i :| 0 <= i < |rows| && rows[i].url == url;
    assert (rows + more)[i] == rows[i];
  }

  /** A listing is known to the table when its (address, area) pair or its url is stored. */
  predicate Known(rows: seq<Row>, l: Listing) {
    KeyTaken(rows, l.address, l.area) || UrlTaken(rows, l.url)
  }

  lemma KnownGrows(rows: seq<Row>, more: seq<Row>, l: Listing)
    requires Known(rows, l)
    ensures Known(rows + more, l)
  {
    if KeyTaken(rows, l.address, l.area) {
      KeyTakenGrows(rows, more, l.address, l.area);
    } else {
      UrlTakenGrows(rows, more, l.url);
    }
  }

  /** After the pass every filtered listing is known to the table, whether it
      was added, found by its (address, area) pair, or refused for its url. */
  lemma {:induction false} DedupCovers(rows: seq<Row>, ads: seq<Listing>, now: string)
    ensures forall i | 0 <= i < |ads| :: Known(Dedup(rows, ads, now).rows, ads[i])
    decreases |ads|
  {
    if |ads| > 0 {
      var n := |ads| - 1;
      var prev := Dedup(rows, ads[..n], now);
      DedupCovers(rows, ads[..n], now);
      var b := Dedup(rows, ads, now);
      var more := b.rows[|prev.rows|..];
      assert b.rows == prev.rows + more by {
        assert b.rows == prev.rows || b.rows == prev.rows + [TryInsert(prev.rows, ads[n], now).row];
      }
      forall i | 0 <= i < n
        ensures Known(b.rows, ads[i])
      {
        assert ads[..n][i] == ads[i];
        KnownGrows(prev.rows, more, ads[i]);
      }
      var l := ads[n];
      if b.rows == prev.rows {
        assert Known(b.rows, l);
      } else {
        var row := TryInsert(prev.rows, l, now).row;
        assert b.rows == prev.rows + [row];
        assert b.rows[|prev.rows|] == row;
        assert KeyTaken(b.rows, l.address, l.area);
      }
    }
  }

  /** A pass over listings the table already knows changes nothing. */
  lemma {:induction false} DedupOfKnown(rows: seq<Row>, ads: seq<Listing>, now: string)
    requires forall i | 0 <= i < |ads| :: Known(rows, ads[i])
    ensures Dedup(rows, ads, now) == Batch(rows, [])
    decreases |ads|
  {
    if |ads| > 0 {
      var n := |ads| - 1;
      forall i | 0 <= i < n
        ensures Known(rows, ads[..n][i])
      {
        assert ads[..n][i] == ads[i];
      }
      DedupOfKnown(rows, ads[..n], now);
      assert Known(rows, ads[n]);
    }
  }

  /** Running the pass a second time over the same listings, at any later
      clock reading, adds nothing and leaves the table as it was. */
  lemma SecondRunAddsNothing(rows: seq<Row>, ads: seq<Listing>, now: string, later: string)
    ensures var first := Dedup(rows, ads, now);
      Dedup(first.rows, ads, later) == Batch(first.rows, [])
  {
    DedupCovers(rows, ads, now);
    DedupOfKnown(Dedup(rows, ads, now).rows, ads, later);
  }

  /** The loop of `job` over one region's filtered listings, against a live
      session: check, insert, and roll back a failed insert. */
  method RecordNewListings(store: ListingStore, ads: seq<Listing>, now: string) returns (added: seq<Listing>)
    requires store.Valid() && !store.mustRollback
    modifies store
    ensures store.Valid() && !store.mustRollback
    ensures Batch(store.rows, added) == Dedup(old(store.rows), ads, now)
  {
    added := [];
    var i := 0;
    while i < |ads|
      invariant 0 <= i <= |ads|
      invariant store.Valid() && !store.mustRollback
      invariant Batch(store.rows, added) == Dedup(old(store.rows), ads[..i], now)
    {
      var ad := ads[i];
      DedupSnoc(old(store.rows), ads, i, now);
      if store.IsListingNew(ad.address, ad.area) {
        var outcome := store.AddListing(ad, now);
        if outcome.Inserted? {
          added := added + [ad];
        } else {
          store.Rollback();
        }
      }
      i := i + 1;
    }
    assert ads[..|ads|] == ads;
  }
}
