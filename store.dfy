/**
 * The `listings` table and its two functions (src/database.py): rows with an
 * integer primary key, a unique url and a unique (address, area) pair;
 * `is_listing_new` and `add_listing` over an in-memory table; a session that
 * must be rolled back after a failed commit.
 */
module Store {
  import opened Ads

  /** One stored row: only these columns are persisted. */
  datatype Row = Row(
    id: int,
    address: string,
    area: real,
    price: real,
    url: string,
    description: string,
    firstSeenDate: string)

  /** Some row has exactly this address and exactly this area. */
  predicate KeyTaken(rows: seq<Row>, address: string, area: real) {
    exists i | 0 <= i < |rows| :: rows[i].address == address && rows[i].area == area
  }

  /** Some row has this url. */
  predicate UrlTaken(rows: seq<Row>, url: string) {
    exists i | 0 <= i < |rows| :: rows[i].url == url
  }

  /** The table's invariants: keys 1, 2, 3, ... in insertion order (rows are
      never deleted, so the next key is one past the largest), unique urls and
      unique (address, area) pairs. */
  predicate WellFormed(rows: seq<Row>) {
    && (forall i | 0 <= i < |rows| :: rows[i].id == i + 1)
    && (forall i, j | 0 <= i < j < |rows| :: rows[i].url != rows[j].url)
    && (forall i, j | 0 <= i < j < |rows| :: rows[i].address != rows[j].address || rows[i].area != rows[j].area)
  }

  /** The row `add_listing` builds from a listing: address, area, price, url and
      description; every other field of the listing is dropped. */
  function RowOf(l: Listing, id: int, now: string): (r: Row)
    ensures r.address == l.address && r.area == l.area && r.url == l.url
  {
    Row(id, l.address, l.area, l.price, l.url, l.description, now)
  }

  /** How the commit ends: the stored row, or an integrity error naming the
      unique constraints the row would break. */
  datatype InsertOutcome = Inserted(row: Row) | Rejected(urlTaken: bool, keyTaken: bool)

  /** Inserting a listing at clock reading `now`. */
  function TryInsert(rows: seq<Row>, l: Listing, now: string): (o: InsertOutcome)
    ensures o.Inserted? <==> !UrlTaken(rows, l.url) && !KeyTaken(rows, l.address, l.area)
    ensures o.Rejected? ==> o.urlTaken == UrlTaken(rows, l.url) && o.keyTaken == KeyTaken(rows, l.address, l.area)
    ensures o.Rejected? ==> o.urlTaken || o.keyTaken
    ensures o.Inserted? ==> o.row == RowOf(l, |rows| + 1, now) && o.row.firstSeenDate == now
  {
    var urlTaken, keyTaken := UrlTaken(rows, l.url), KeyTaken(rows, l.address, l.area);
    if urlTaken || keyTaken then Rejected(urlTaken, keyTaken) else Inserted(RowOf(l, |rows| + 1, now))
  }

  /** A successful insert keeps the invariants, gives the row a key no other row
      has, and afterwards both the (address, area) pair and the url are taken. */
  lemma InsertKeepsWellFormed(rows: seq<Row>, l: Listing, now: string)
    requires WellFormed(rows)
    requires TryInsert(rows, l, now).Inserted?
    ensures var row := TryInsert(rows, l, now).row;
      && WellFormed(rows + [row])
      && (forall i | 0 <= i < |rows| :: rows[i].id != row.id)
      && KeyTaken(rows + [row], l.address, l.area)
      && UrlTaken(rows + [row], l.url)
  {
    var row := TryInsert(rows, l, now).row;
    var rows' := rows + [row];
    assert rows'[|rows|] == row;
    forall i, j | 0 <= i < j < |rows'|
      ensures rows'[i].url != rows'[j].url
      ensures rows'[i].address != rows'[j].address || rows'[i].area != rows'[j].area
    {
      if j == |rows| {
        assert rows'[i] == rows[i];
      }
    }
  }

  /** Whatever the pre-check said, an insert whose url or (address, area) pair
      is already stored fails, and the failure names the constraint. */
  lemma DuplicateInsertFails(rows: seq<Row>, l: Listing, now: string, i: nat)
    requires i < |rows|
    requires rows[i].url == l.url || (rows[i].address == l.address && rows[i].area == l.area)
    ensures TryInsert(rows, l, now).Rejected?
    ensures rows[i].url == l.url ==> TryInsert(rows, l, now).urlTaken
    ensures rows[i].address == l.address && rows[i].area == l.area ==> TryInsert(rows, l, now).keyTaken
  {
  }

  /** The table behind one database session. */
  class ListingStore {
    var rows: seq<Row>
    /** A commit failed and the session refuses further work until rolled back. */
    var mustRollback: bool

    ghost predicate Valid()
      reads this
    {
      WellFormed(rows)
    }

    constructor ()
      ensures Valid() && rows == [] && !mustRollback
    {
      rows := [];
      mustRollback := false;
    }

    /** `is_listing_new`: no stored row has exactly this address and this area. */
    predicate IsListingNew(address: string, area: real)
      reads this
      requires !mustRollback
      ensures IsListingNew(address, area) <==> !KeyTaken(rows, address, area)
    {
      forall i | 0 <= i < |rows| :: rows[i].address != address || rows[i].area != area
    }

    /** `add_listing`: add the row and commit. On an integrity error the table is
        unchanged and the session must be rolled back. */
    method AddListing(l: Listing, now: string) returns (outcome: InsertOutcome)
      requires Valid() && !mustRollback
      modifies this
      ensures Valid()
      ensures outcome == TryInsert(old(rows), l, now)
      ensures outcome.Inserted? ==> rows == old(rows) + [outcome.row] && !mustRollback
      ensures outcome.Rejected? ==> rows == old(rows) && mustRollback
    {
      var urlTaken := exists i | 0 <= i < |rows| :: rows[i].url == l.url;
      var keyTaken := exists i | 0 <= i < |rows| :: rows[i].address == l.address && rows[i].area == l.area;
      if urlTaken || keyTaken {
        mustRollback := true;
        return Rejected(urlTaken, keyTaken);
      }
      var row := Row(|rows| + 1, l.address, l.area, l.price, l.url, l.description, now);
      InsertKeepsWellFormed(rows, l, now);
      rows := rows + [row];
      outcome := Inserted(row);
    }

    /** `rollback()`: the failed insert is discarded and the session is usable again. */
    method Rollback()
      requires Valid()
      modifies this
      ensures Valid() && rows == old(rows) && !mustRollback
    {
      mustRollback := false;
    }
  }
}
