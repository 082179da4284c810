/** The four persisted entities of the directory (the ORM models of app.py) and
    the table enumeration that `Model.query.all()` performs.

    Every column is a string except the integer ids; the `seeking_*` flags are
    `String(6)` columns and are kept as the submitted text. The `shows_booked`
    relationships are not stored in the records: they are the rows of the Show
    table whose `artistId` or `venueId` names the record. */
module Records {

  datatype Option<T> = None | Some(value: T)

  /** A row of the Venue table. `genres` is the free-text column of that table. */
  datatype Venue = Venue(
    id: int,
    name: string,
    genres: string,
    address: string,
    city: string,
    state: string,
    phone: string,
    websiteLink: string,
    facebookLink: string,
    seekingArtists: string,
    seekingDescription: string,
    imageLink: string)

  /** A row of the Artist table; its genres live in the artist_genre join table. */
  datatype Artist = Artist(
    id: int,
    name: string,
    city: string,
    state: string,
    phone: string,
    websiteLink: string,
    seekingVenue: string,
    seekingDescription: string,
    imageLink: string,
    facebookLink: string)

  /** A row of the Genre table: a label with no uniqueness constraint. */
  datatype Genre = Genre(id: int, genre: string)

  /** A row of the Show table. The time is kept as the submitted, non-empty text. */
  datatype Show = Show(id: int, artistId: int, venueId: int, showTime: string)

  /** The rows of `table` whose ids lie in [lo, hi), in ascending id order:
      the model's reading of the storage order that an unordered
      `query.all()` returns. */
  function Rows<V(==)>(table: map<int, V>, lo: int, hi: int): (r: seq<V>)
    decreases hi - lo
    ensures |r| <= if lo < hi then hi - lo else 0
    ensures forall v :: v in r ==> exists k :: lo <= k < hi && k in table && table[k] == v
    ensures forall k :: lo <= k < hi && k in table ==> table[k] in r
  {
    if hi <= lo then []
    else (if lo in table then [table[lo]] else []) + Rows(table, lo + 1, hi)
  }

  /** When every row is stored under its own key, the enumeration lists the
      rows in strictly ascending key order, so no row is listed twice. */
  lemma {:induction false} RowsAscending<V>(table: map<int, V>, lo: int, hi: int, key: V -> int)
    requires forall k :: k in table ==> key(table[k]) == k
    ensures forall i :: 0 <= i < |Rows(table, lo, hi)| ==> lo <= key(Rows(table, lo, hi)[i]) < hi
    ensures forall i, j :: 0 <= i < j < |Rows(table, lo, hi)| ==>
              key(Rows(table, lo, hi)[i]) < key(Rows(table, lo, hi)[j])
    decreases hi - lo
  {
    if lo < hi {
      RowsAscending(table, lo + 1, hi, key);
      var rest := Rows(table, lo + 1, hi);
      if lo in table {
        var r := [table[lo]] + rest;
        assert Rows(table, lo, hi) == r;
        forall i | 0 < i < |r| ensures r[i] == rest[i - 1] { }
      }
    }
  }

  /** A list whose keys strictly ascend holds each value at most once. */
  lemma {:induction false} AscendingOnce<V>(s: seq<V>, key: V -> int)
    requires forall i, j :: 0 <= i < j < |s| ==> key(s[i]) < key(s[j])
    ensures forall x :: multiset(s)[x] <= 1
  {
    if s != [] {
      AscendingOnce(s[1..], key);
      assert s == [s[0]] + s[1..];
      forall j | 0 <= j < |s[1..]| ensures s[1..][j] != s[0] {
        assert key(s[0]) < key(s[j + 1]);
      }
    }
  }
}
