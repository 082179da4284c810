/** The venues page: every venue, plus the same venues ordered by their
    `state` column (`Venue.query.order_by(Venue.state)`).

    Text order is taken to be lexicographic by character code. The contract
    leaves the order among rows of equal state open, as SQL does. */
module Listing {
  import opened Records

  /** Lexicographic order on strings by character code. */
  predicate TextLe(a: string, b: string)
  {
    a == [] || (b != [] && (a[0] < b[0] || (a[0] == b[0] && TextLe(a[1..], b[1..]))))
  }

  lemma {:induction false} TextLeTotal(a: string, b: string)
    ensures TextLe(a, b) || TextLe(b, a)
  {
    if a != [] && b != [] && a[0] == b[0] {
      TextLeTotal(a[1..], b[1..]);
    }
  }

  lemma {:induction false} TextLeTransitive(a: string, b: string, c: string)
    requires TextLe(a, b) && TextLe(b, c)
    ensures TextLe(a, c)
  {
    if a != [] && b != [] && c != [] && a[0] == b[0] == c[0] {
      TextLeTransitive(a[1..], b[1..], c[1..]);
    }
  }

  predicate SortedByState(s: seq<Venue>)
  {
    forall i, j :: 0 <= i < j < |s| ==> TextLe(s[i].state, s[j].state)
  }

  /** Insert `v` before the first row whose state is not below its own. */
  function InsertByState(v: Venue, sorted: seq<Venue>): (r: seq<Venue>)
    requires SortedByState(sorted)
    ensures SortedByState(r)
    ensures multiset(r) == multiset(sorted) + multiset{v}
  {
    if sorted == [] then [v]
    else if TextLe(v.state, sorted[0].state) then
      forall j | 0 <= j < |sorted| ensures TextLe(v.state, sorted[j].state) {
        if j > 0 { TextLeTransitive(v.state, sorted[0].state, sorted[j].state); }
      }
      assert sorted == [sorted[0]] + sorted[1..];
      [v] + sorted
    else
      var rest := InsertByState(v, sorted[1..]);
      assert sorted == [sorted[0]] + sorted[1..];
      TextLeTotal(v.state, sorted[0].state);
      forall x | x in rest ensures TextLe(sorted[0].state, x.state) {
        assert x in multiset(rest);
        if x != v {
          assert x in multiset(sorted[1..]);
        }
      }
      [sorted[0]] + rest
  }

  /** `order_by(Venue.state)`: the rows sorted by state, as a permutation of the input. */
  function SortByState(rows: seq<Venue>): (r: seq<Venue>)
    ensures SortedByState(r)
    ensures multiset(r) == multiset(rows)
  {
    if rows == [] then []
    else
      assert rows == [rows[0]] + rows[1..];
      InsertByState(rows[0], SortByState(rows[1..]))
  }

  /** What the venues page receives. */
  datatype VenuesPage = VenuesPage(venues: seq<Venue>, areas: seq<Venue>)

  /** The venues handler over the Venue table's rows: `areas` holds the same
      rows as `venues`, each as often, ordered by state. */
  function Venues(rows: seq<Venue>): (r: VenuesPage)
    ensures r.venues == rows
    ensures SortedByState(r.areas) && multiset(r.areas) == multiset(r.venues)
  {
    VenuesPage(rows, SortByState(rows))
  }
}
