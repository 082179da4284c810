/** The database as the request handlers see it, and the handlers themselves.

    Each table is a map from primary key to row; `artistGenres` holds, per
    artist, the list that the request's `artist.genres` relationship builds
    (the artist_genre join table stores only the set of its ids). Every write handler runs one transaction: it either
    commits its whole change or, after any failure, rolls back and leaves every
    table as it was. `commitOk` is the engine's verdict on the commit for the
    reasons the handlers cannot see (column lengths, duplicate join rows,
    rows that still reference a deleted one, the connection); the failures the
    code itself provokes are modelled: a `get` that finds nothing, an id that
    names no row, a missing start time. */
module Store {
  import opened Records
  import opened Forms
  import GenreMatching
  import Search
  import Listing

  datatype Status = Success | Failure

  /** Where the handler sends the browser: a redirect, or the rendered home page. */
  datatype Target = Index | ShowVenuePage(venueId: int) | ShowArtistPage(artistId: int) | HomePage

  /** What a write handler reports: which of its two flash messages is shown,
      and the next page. */
  datatype Outcome = Outcome(status: Status, target: Target)

  predicate IsDigit(c: char)
  {
    '0' <= c <= '9'
  }

  function DigitsValue(s: string): (n: nat)
    requires forall i :: 0 <= i < |s| ==> IsDigit(s[i])
  {
    if s == [] then 0
    else
      assert IsDigit(s[|s| - 1]);
      DigitsValue(s[..|s| - 1]) * 10 + (s[|s| - 1] as int - '0' as int)
  }

  /** The integer a submitted id text stands for, when it is a decimal numeral. */
  function ParseId(s: string): (r: Option<int>)
    ensures r.Some? <==> s != [] && forall i :: 0 <= i < |s| ==> IsDigit(s[i])
    ensures r.Some? ==> r.value == DigitsValue(s)
  {
    if s != [] && forall i :: 0 <= i < |s| ==> IsDigit(s[i]) then Some(DigitsValue(s)) else None
  }

  function Digit(d: nat): (c: char)
    requires d < 10
    ensures IsDigit(c) && c as int - '0' as int == d
  {
    ('0' as int + d) as char
  }

  /** The decimal numeral of `n`, without leading zeros: the text an id is
      written as in a form. */
  function NatToDecimal(n: nat): (r: string)
    ensures r != [] && forall i :: 0 <= i < |r| ==> IsDigit(r[i])
  {
    if n < 10 then [Digit(n)] else NatToDecimal(n / 10) + [Digit(n % 10)]
  }

  /** Every id written as a decimal numeral is read back as the same id. */
  lemma {:induction false} ParseIdRoundTrip(n: nat)
    ensures ParseId(NatToDecimal(n)) == Some(n)
  {
    var s := NatToDecimal(n);
    if n < 10 {
      assert s == [Digit(n)] && s[..|s| - 1] == [];
      assert DigitsValue(s) == DigitsValue([]) * 10 + n;
    } else {
      ParseIdRoundTrip(n / 10);
      assert s[..|s| - 1] == NatToDecimal(n / 10);
      assert DigitsValue(s) == (n / 10) * 10 + n % 10;
    }
  }

  /** Leading zeros do not change the id: "07" names the same row as "7". */
  lemma {:induction false} LeadingZeroIgnored(s: string)
    requires s != [] && forall i :: 0 <= i < |s| ==> IsDigit(s[i])
    ensures ParseId("0" + s) == ParseId(s)
  {
    var t := "0" + s;
    assert t[..|t| - 1] == "0" + s[..|s| - 1];
    if |s| == 1 {
      assert DigitsValue(t[..|t| - 1]) == 0 by {
        assert DigitsValue("0") == DigitsValue([]) * 10 + 0 by { assert "0"[..0] == []; }
      }
      assert s[..|s| - 1] == [];
    } else {
      LeadingZeroIgnored(s[..|s| - 1]);
    }
  }

  /** The venue columns that both the create and the edit handler take from the
      form, each defaulting to the empty string: all but `id` and `address`. */
  predicate VenueFieldsFrom(v: Venue, form: Form)
  {
    && v.name == Get(form, "name", "")
    && v.city == Get(form, "city", "")
    && v.state == Get(form, "state", "")
    && v.phone == Get(form, "phone", "")
    && v.genres == Get(form, "genres", "")
    && v.facebookLink == Get(form, "facebook_link", "")
    && v.websiteLink == Get(form, "website_link", "")
    && v.seekingArtists == Get(form, "seeking_artists", "")
    && v.seekingDescription == Get(form, "seeking_description", "")
    && v.imageLink == Get(form, "image_link", "")
  }

  /** The nine artist columns taken from the form: all but `id`. */
  predicate ArtistFieldsFrom(a: Artist, form: Form)
  {
    && a.name == Get(form, "name", "")
    && a.city == Get(form, "city", "")
    && a.state == Get(form, "state", "")
    && a.phone == Get(form, "phone", "")
    && a.facebookLink == Get(form, "facebook_link", "")
    && a.websiteLink == Get(form, "website_link", "")
    && a.seekingVenue == Get(form, "seeking_venue", "")
    && a.seekingDescription == Get(form, "seeking_description", "")
    && a.imageLink == Get(form, "image_link", "")
  }

  class Database {
    var venues: map<int, Venue>
    var artists: map<int, Artist>
    var genres: map<int, Genre>
    var shows: map<int, Show>
    var artistGenres: map<int, seq<int>>
    /** The next key each table's id sequence hands out. */
    var nextVenueId: int
    var nextArtistId: int
    var nextGenreId: int
    var nextShowId: int

    /** Every row sits under its own id, ids come from the tables' sequences,
        every artist has a genre list, and every listed genre exists. */
    ghost predicate Valid()
      reads this
    {
      && 1 <= nextVenueId && 1 <= nextArtistId && 1 <= nextGenreId && 1 <= nextShowId
      && (forall k :: k in venues ==> venues[k].id == k && 1 <= k < nextVenueId)
      && (forall k :: k in artists ==> artists[k].id == k && 1 <= k < nextArtistId)
      && (forall k :: k in genres ==> genres[k].id == k && 1 <= k < nextGenreId)
      && (forall k :: k in shows ==> shows[k].id == k && 1 <= k < nextShowId)
      && artistGenres.Keys == artists.Keys
      && (forall a, g :: a in artistGenres && g in artistGenres[a] ==> g in genres)
    }

    /** An empty directory whose Genre table holds the given labels (the
        handlers never create Genre rows themselves). */
    constructor (seed: seq<string>)
      ensures Valid()
      ensures venues == map[] && artists == map[] && shows == map[] && artistGenres == map[]
      ensures forall k :: k in genres <==> 1 <= k <= |seed|
      ensures forall k :: 1 <= k <= |seed| ==> genres[k] == Genre(k, seed[k - 1])
      ensures nextVenueId == nextArtistId == nextShowId == 1 && nextGenreId == |seed| + 1
    {
      var table: map<int, Genre> := map[];
      var i := 0;
      while i < |seed|
        invariant 0 <= i <= |seed|
        invariant forall k :: k in table <==> 1 <= k <= i
        invariant forall k :: 1 <= k <= i ==> table[k] == Genre(k, seed[k - 1])
      {
        table := table[i + 1 := Genre(i + 1, seed[i])];
        i := i + 1;
      }
      venues, artists, genres, shows, artistGenres := map[], map[], table, map[], map[];
      nextVenueId, nextArtistId, nextGenreId, nextShowId := 1, 1, |seed| + 1, 1;
    }

    /** `Venue.query.all()` */
    function VenueRows(): (r: seq<Venue>)
      reads this
    {
      Rows(venues, 1, nextVenueId)
    }

    /** `Artist.query.all()` */
    function ArtistRows(): (r: seq<Artist>)
      reads this
    {
      Rows(artists, 1, nextArtistId)
    }

    /** `Genre.query.all()`: the choices the genre matching scans. */
    function GenreRows(): (r: seq<Genre>)
      reads this
    {
      Rows(genres, 1, nextGenreId)
    }

    /** The enumerations hold exactly the rows of their tables. */
    lemma RowsAreTables()
      requires Valid()
      ensures forall v :: v in VenueRows() <==> v.id in venues && venues[v.id] == v
      ensures forall a :: a in ArtistRows() <==> a.id in artists && artists[a.id] == a
      ensures forall g :: g in GenreRows() <==> g.id in genres && genres[g.id] == g
    {
      forall v: Venue | v.id in venues && venues[v.id] == v ensures v in VenueRows() {
        assert 1 <= v.id < nextVenueId;
      }
      forall a: Artist | a.id in artists && artists[a.id] == a ensures a in ArtistRows() {
        assert 1 <= a.id < nextArtistId;
      }
      forall g: Genre | g.id in genres && genres[g.id] == g ensures g in GenreRows() {
        assert 1 <= g.id < nextGenreId;
      }
    }

    /** `query.all()` lists every table in strictly ascending id order, so no
        row is listed twice. */
    lemma RowsAscend()
      requires Valid()
      ensures forall i, j :: 0 <= i < j < |VenueRows()| ==> VenueRows()[i].id < VenueRows()[j].id
      ensures forall i, j :: 0 <= i < j < |ArtistRows()| ==> ArtistRows()[i].id < ArtistRows()[j].id
      ensures forall i, j :: 0 <= i < j < |GenreRows()| ==> GenreRows()[i].id < GenreRows()[j].id
    {
      RowsAscending(venues, 1, nextVenueId, (v: Venue) => v.id);
      RowsAscending(artists, 1, nextArtistId, (a: Artist) => a.id);
      RowsAscending(genres, 1, nextGenreId, (g: Genre) => g.id);
    }

    /** The venues page: `venues` lists the Venue table and `areas` lists
        the same rows ordered by state. */
    function ListVenues(): (r: Listing.VenuesPage)
      reads this
      requires Valid()
      ensures forall v :: v in r.venues <==> v.id in venues && venues[v.id] == v
      ensures forall v :: v in r.areas <==> v.id in venues && venues[v.id] == v
      ensures Listing.SortedByState(r.areas)
      ensures multiset(r.areas) == multiset(r.venues)
      ensures forall v :: multiset(r.venues)[v] <= 1
    {
      RowsAreTables();
      RowsAscend();
      AscendingOnce(VenueRows(), (v: Venue) => v.id);
      var page := Listing.Venues(VenueRows());
      assert forall v :: v in page.areas <==> v in page.venues by {
        assert forall v :: v in page.areas <==> v in multiset(page.areas);
        assert forall v :: v in page.venues <==> v in multiset(page.venues);
      }
      page
    }

    /** search_venues over the Venue table: for a wildcard-free keyword, the
        venues whose name contains it case-insensitively. */
    function FindVenues(form: Form): (r: Search.SearchResult<Venue>)
      reads this
      requires Valid()
      ensures r.count == |r.results|
      ensures forall v :: multiset(r.results)[v] <= 1
      ensures forall v :: v in r.results <==>
                v.id in venues && venues[v.id] == v &&
                Search.ILike(v.name, Search.Pattern(Search.Keyword(form)))
      ensures Search.Plain(Search.Keyword(form)) ==>
                forall v :: v in r.results <==>
                  v.id in venues && venues[v.id] == v &&
                  Search.Contains(Search.FoldCase(v.name), Search.FoldCase(Search.Keyword(form)))
    {
      RowsAreTables();
      RowsAscend();
      AscendingOnce(VenueRows(), (v: Venue) => v.id);
      Search.SearchVenuesCounts(VenueRows(), form);
      if Search.Plain(Search.Keyword(form)) then
        Search.SearchVenuesExact(VenueRows(), form);
        Search.SearchVenues(VenueRows(), form)
      else
        Search.SearchVenues(VenueRows(), form)
    }

    /** search_artists over the Artist table: for a wildcard-free keyword, the
        artists whose name contains it case-insensitively. */
    function FindArtists(form: Form): (r: Search.SearchResult<Artist>)
      reads this
      requires Valid()
      ensures r.count == |r.results|
      ensures forall a :: multiset(r.results)[a] <= 1
      ensures forall a :: a in r.results <==>
                a.id in artists && artists[a.id] == a &&
                Search.ILike(a.name, Search.Pattern(Search.Keyword(form)))
      ensures Search.Plain(Search.Keyword(form)) ==>
                forall a :: a in r.results <==>
                  a.id in artists && artists[a.id] == a &&
                  Search.Contains(Search.FoldCase(a.name), Search.FoldCase(Search.Keyword(form)))
    {
      RowsAreTables();
      RowsAscend();
      AscendingOnce(ArtistRows(), (a: Artist) => a.id);
      Search.SearchArtistsCounts(ArtistRows(), form);
      if Search.Plain(Search.Keyword(form)) then
        Search.SearchArtistsExact(ArtistRows(), form);
        Search.SearchArtists(ArtistRows(), form)
      else
        Search.SearchArtists(ArtistRows(), form)
    }

    /** Every id the matching attaches names a Genre row whose label is one of
        the submitted labels. */
    lemma MatchedGenresExist(labels: seq<string>)
      requires Valid()
      ensures forall g :: g in GenreMatching.Matched(labels, GenreRows()) ==>
                g in genres && genres[g].genre in labels
    {
      RowsAreTables();
      GenreMatching.MatchedSound(labels, GenreRows());
    }

    /** create_venue_submission. The success message reads `request.form['name']`
        after the commit, so a form without a name stores the venue and still
        reports failure. */
    method CreateVenueSubmission(form: Form, commitOk: bool) returns (outcome: Outcome)
      requires Valid()
      modifies this`venues, this`nextVenueId
      ensures Valid()
      ensures outcome.target == Index
      ensures outcome.status == Success <==> commitOk && HasKey(form, "name")
      ensures commitOk ==>
                var id := old(nextVenueId);
                && id !in old(venues)
                && venues.Keys == old(venues).Keys + {id}
                && (forall k :: k in old(venues) ==> venues[k] == old(venues)[k])
                && venues[id].id == id
                && VenueFieldsFrom(venues[id], form)
                && venues[id].address == Get(form, "address", "")
                && nextVenueId == id + 1
      ensures !commitOk ==> venues == old(venues) && nextVenueId == old(nextVenueId)
    {
      var name := Get(form, "name", "");
      var city := Get(form, "city", "");
      var state := Get(form, "state", "");
      var address := Get(form, "address", "");
      var phone := Get(form, "phone", "");
      var genreText := Get(form, "genres", "");
      var facebookLink := Get(form, "facebook_link", "");
      var websiteLink := Get(form, "website_link", "");
      var seekingArtists := Get(form, "seeking_artists", "");
      var seekingDescription := Get(form, "seeking_description", "");
      var imageLink := Get(form, "image_link", "");

      var venue := Venue(nextVenueId, name, genreText, address, city, state, phone,
                         websiteLink, facebookLink, seekingArtists, seekingDescription, imageLink);
      if commitOk {
        venues := venues[venue.id := venue];
        nextVenueId := nextVenueId + 1;
        if HasKey(form, "name") {
          return Outcome(Success, Index);
        }
      }
      outcome := Outcome(Failure, Index);
    }

    /** delete_venue: `get` finding nothing makes the delete fail. */
    method DeleteVenue(venueId: int, commitOk: bool) returns (outcome: Outcome)
      requires Valid()
      modifies this`venues
      ensures Valid()
      ensures outcome.target == Index
      ensures outcome.status == Success <==> venueId in old(venues) && commitOk
      ensures venues == if outcome.status == Success then old(venues) - {venueId} else old(venues)
    {
      if venueId !in venues || !commitOk {
        return Outcome(Failure, Index);
      }
      venues := venues - {venueId};
      outcome := Outcome(Success, Index);
    }

    /** delete_artist: removes the artist and its artist_genre rows. */
    method DeleteArtist(artistId: int, commitOk: bool) returns (outcome: Outcome)
      requires Valid()
      modifies this`artists, this`artistGenres
      ensures Valid()
      ensures outcome.target == Index
      ensures outcome.status == Success <==> artistId in old(artists) && commitOk
      ensures outcome.status == Success ==>
                artists == old(artists) - {artistId} && artistGenres == old(artistGenres) - {artistId}
      ensures outcome.status == Failure ==>
                artists == old(artists) && artistGenres == old(artistGenres)
    {
      if artistId !in artists || !commitOk {
        return Outcome(Failure, Index);
      }
      artists := artists - {artistId};
      artistGenres := artistGenres - {artistId};
      outcome := Outcome(Success, Index);
    }

    /** create_artist_submission: the new artist gets the genres that the
        submitted labels match, in label order. */
    method CreateArtistSubmission(form: Form, commitOk: bool) returns (outcome: Outcome)
      requires Valid()
      modifies this`artists, this`artistGenres, this`nextArtistId
      ensures Valid()
      ensures outcome == Outcome(if commitOk then Success else Failure, Index)
      ensures commitOk ==>
                var id := old(nextArtistId);
                && id !in old(artists)
                && id in artists && artists == old(artists)[id := artists[id]]
                && artists[id].id == id
                && ArtistFieldsFrom(artists[id], form)
                && artistGenres == old(artistGenres)[id := artistGenres[id]]
                && artistGenres[id] == GenreMatching.Matched(GetList(form, "genres"), GenreRows())
                && (forall g :: g in artistGenres[id] ==>
                      g in genres && genres[g].genre in GetList(form, "genres"))
                && nextArtistId == id + 1
      ensures !commitOk ==>
                artists == old(artists) && artistGenres == old(artistGenres) &&
                nextArtistId == old(nextArtistId)
    {
      var name := Get(form, "name", "");
      var city := Get(form, "city", "");
      var state := Get(form, "state", "");
      var phone := Get(form, "phone", "");
      var labels := GetList(form, "genres");
      var facebookLink := Get(form, "facebook_link", "");
      var websiteLink := Get(form, "website_link", "");
      var seekingVenue := Get(form, "seeking_venue", "");
      var seekingDescription := Get(form, "seeking_description", "");
      var imageLink := Get(form, "image_link", "");

      var artist := Artist(nextArtistId, name, city, state, phone, websiteLink, seekingVenue,
                           seekingDescription, imageLink, facebookLink);
      var choices := GenreRows();
      var attached := GenreMatching.AppendMatches([], labels, choices);
      MatchedGenresExist(labels);
      if !commitOk {
        return Outcome(Failure, Index);
      }
      artists := artists[artist.id := artist];
      artistGenres := artistGenres[artist.id := attached];
      nextArtistId := nextArtistId + 1;
      outcome := Outcome(Success, Index);
    }

    /** edit_artist_submission: overwrites the nine columns with the form's
        values (missing ones become empty) and appends the matched genres to
        the artist's list, never removing one and never checking for one
        already there. An unknown id makes the edit fail. */
    method EditArtistSubmission(artistId: int, form: Form, commitOk: bool) returns (outcome: Outcome)
      requires Valid()
      modifies this`artists, this`artistGenres
      ensures Valid()
      ensures outcome == Outcome(if artistId in old(artists) && commitOk then Success else Failure,
                                 ShowArtistPage(artistId))
      ensures outcome.status == Success ==>
                && artistId in artists && artists == old(artists)[artistId := artists[artistId]]
                && artists[artistId].id == artistId
                && ArtistFieldsFrom(artists[artistId], form)
                && artistGenres == old(artistGenres)[artistId := artistGenres[artistId]]
                && artistGenres[artistId] ==
                   old(artistGenres)[artistId] + GenreMatching.Matched(GetList(form, "genres"), GenreRows())
      ensures outcome.status == Failure ==>
                artists == old(artists) && artistGenres == old(artistGenres)
    {
      var name := Get(form, "name", "");
      var city := Get(form, "city", "");
      var state := Get(form, "state", "");
      var phone := Get(form, "phone", "");
      var labels := GetList(form, "genres");
      var facebookLink := Get(form, "facebook_link", "");
      var websiteLink := Get(form, "website_link", "");
      var seekingVenue := Get(form, "seeking_venue", "");
      var seekingDescription := Get(form, "seeking_description", "");
      var imageLink := Get(form, "image_link", "");

      // a transient row: its id is assigned only when inserted, which it never is
      var newArtist := Artist(0, name, city, state, phone, websiteLink, seekingVenue,
                              seekingDescription, imageLink, facebookLink);
      var choices := GenreRows();

      if artistId !in artists {
        return Outcome(Failure, ShowArtistPage(artistId));
      }
      var artist := artists[artistId];
      var attached := GenreMatching.AppendMatches(artistGenres[artistId], labels, choices);
      MatchedGenresExist(labels);

      artist := artist.(name := newArtist.name);
      artist := artist.(city := newArtist.city);
      artist := artist.(state := newArtist.state);
      artist := artist.(phone := newArtist.phone);
      artist := artist.(facebookLink := newArtist.facebookLink);
      artist := artist.(websiteLink := newArtist.websiteLink);
      artist := artist.(seekingVenue := newArtist.seekingVenue);
      artist := artist.(seekingDescription := newArtist.seekingDescription);
      artist := artist.(imageLink := newArtist.imageLink);
      if !commitOk {
        return Outcome(Failure, ShowArtistPage(artistId));
      }
      artists := artists[artistId := artist];
      artistGenres := artistGenres[artistId := attached];
      outcome := Outcome(Success, ShowArtistPage(artistId));
    }

    /** edit_venue_submission: overwrites ten columns with the form's values
        (missing ones become empty). `address` is read from the form but never
        copied, so the stored address stays. An unknown id makes the edit fail. */
    method EditVenueSubmission(venueId: int, form: Form, commitOk: bool) returns (outcome: Outcome)
      requires Valid()
      modifies this`venues
      ensures Valid()
      ensures outcome == Outcome(if venueId in old(venues) && commitOk then Success else Failure,
                                 ShowVenuePage(venueId))
      ensures outcome.status == Success ==>
                && venueId in venues && venues == old(venues)[venueId := venues[venueId]]
                && venues[venueId].id == venueId
                && VenueFieldsFrom(venues[venueId], form)
                && venues[venueId].address == old(venues)[venueId].address
      ensures outcome.status == Failure ==> venues == old(venues)
    {
      var name := Get(form, "name", "");
      var city := Get(form, "city", "");
      var state := Get(form, "state", "");
      var address := Get(form, "address", "");
      var phone := Get(form, "phone", "");
      var genreText := Get(form, "genres", "");
      var facebookLink := Get(form, "facebook_link", "");
      var websiteLink := Get(form, "website_link", "");
      var seekingArtists := Get(form, "seeking_artists", "");
      var seekingDescription := Get(form, "seeking_description", "");
      var imageLink := Get(form, "image_link", "");

      // the transient venue is built without the address that was just read
      var newVenue := Venue(0, name, genreText, "", city, state, phone, websiteLink,
                            facebookLink, seekingArtists, seekingDescription, imageLink);

      if venueId !in venues {
        return Outcome(Failure, ShowVenuePage(venueId));
      }
      var venue := venues[venueId];
      venue := venue.(name := newVenue.name);
      venue := venue.(city := newVenue.city);
      venue := venue.(state := newVenue.state);
      venue := venue.(phone := newVenue.phone);
      venue := venue.(genres := newVenue.genres);
      venue := venue.(facebookLink := newVenue.facebookLink);
      venue := venue.(websiteLink := newVenue.websiteLink);
      venue := venue.(seekingArtists := newVenue.seekingArtists);
      venue := venue.(seekingDescription := newVenue.seekingDescription);
      venue := venue.(imageLink := newVenue.imageLink);
      if !commitOk {
        return Outcome(Failure, ShowVenuePage(venueId));
      }
      venues := venues[venueId := venue];
      outcome := Outcome(Success, ShowVenuePage(venueId));
    }

    /** Whether a show form names an existing artist and venue by decimal id
        and carries a non-empty start time: the foreign-key constraints, and
        the empty-text check standing in for the DateTime column's conversion
        (other unparsable times are left to `commitOk`). */
    predicate ShowAcceptable(form: Form)
      reads this
    {
      var artistId := ParseId(Get(form, "artist_id", ""));
      var venueId := ParseId(Get(form, "venue_id", ""));
      && artistId.Some? && artistId.value in artists
      && venueId.Some? && venueId.value in venues
      && Get(form, "start_time", "") != ""
    }

    /** create_show_submission: adds one show, or nothing when a constraint
        is violated; it renders the home page either way. */
    method CreateShowSubmission(form: Form, commitOk: bool) returns (outcome: Outcome)
      requires Valid()
      modifies this`shows, this`nextShowId
      ensures Valid()
      ensures outcome == Outcome(if commitOk && old(ShowAcceptable(form)) then Success else Failure,
                                 HomePage)
      ensures outcome.status == Success ==>
                var id := old(nextShowId);
                && id !in old(shows)
                && id in shows && shows == old(shows)[id := shows[id]]
                && shows[id].id == id
                && shows[id].artistId in artists && shows[id].venueId in venues
                && Some(shows[id].artistId) == ParseId(Get(form, "artist_id", ""))
                && Some(shows[id].venueId) == ParseId(Get(form, "venue_id", ""))
                && shows[id].showTime == Get(form, "start_time", "")
                && nextShowId == id + 1
      ensures outcome.status == Failure ==> shows == old(shows) && nextShowId == old(nextShowId)
    {
      var artistText := Get(form, "artist_id", "");
      var venueText := Get(form, "venue_id", "");
      var startTime := Get(form, "start_time", "");

      var artistId := ParseId(artistText);
      var venueId := ParseId(venueText);
      if !commitOk || artistId.None? || artistId.value !in artists ||
         venueId.None? || venueId.value !in venues || startTime == "" {
        return Outcome(Failure, HomePage);
      }
      var show := Show(nextShowId, artistId.value, venueId.value, startTime);
      shows := shows[show.id := show];
      nextShowId := nextShowId + 1;
      outcome := Outcome(Success, HomePage);
    }
  }
}
