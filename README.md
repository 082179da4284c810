# Fyyur booking directory: a Dafny model of its request handlers

Fyyur is a Flask directory of venues, artists and the shows that book an
artist at a venue, with genres attached to artists through a join table. This
project models what the database holds after each request handler in
`app.py`, together with the read-only listing and search handlers.

- `records.dfy` (module `Records`): the Venue, Artist, Genre and Show rows,
  and `Rows`, the table enumeration of `query.all()` (ascending id order).
- `forms.dfy` (module `Forms`): the submitted form as a multi-valued
  dictionary; `Get` is `request.form.get(key, default)` (the first value),
  `GetList` is `request.form.getlist(key)`.
- `genre_matching.dfy` (module `GenreMatching`): the nested label/choice
  loop with `break` as the method `AppendMatches`, proved against the
  specification function `Matched`, and the lemmas about `Matched`.
- `search.dfy` (module `Search`): `ILIKE '%keyword%'` as a LIKE matcher over
  lower-cased text with the `%` and `_` wildcards; for a keyword without
  wildcards it is proved to be a case-insensitive substring test.
- `listing.dfy` (module `Listing`): the venues page and `order_by(state)`,
  proved sorted and a permutation of the table.
- `store.dfy` (module `Store`): the class `Database`, whose fields are the
  four tables (maps from id to row), per artist the `artist.genres` list of
  attached genre ids that a request builds (the artist_genre table stores
  the set of its pairs) and the tables' id sequences. Each write
  handler is a method that commits its whole change or leaves every table as
  it was, as the handlers' try/commit/except/rollback blocks do.
- `scenarios.dfy` (module `Scenarios`): four example requests, followed
  through using only the handlers' contracts.

Each write handler takes a `commitOk` flag. It stands for the database
engine's verdict on the commit for reasons the code does not show: column
length limits, a duplicate artist_genre pair, rows that still reference a
deleted one, a start time the DateTime column cannot parse, a lost
connection. The failures the code itself provokes are
modelled directly:
- `get` returning nothing for delete and edit;
- an `artist_id` or `venue_id` that is not a decimal numeral or names no row;
- an empty `start_time`, standing in for the DateTime column's conversion.

Behaviour kept as the code has it, where one might expect otherwise:
- Edits overwrite every copied column, with `''` for a field missing from
  the form. A missing field does not keep its old value.
- The venue edit never copies `address`.
- A delete of an absent id does not crash. It fails with the warning outcome
  and redirects to the index.
- The venue create reads `request.form['name']` after the commit. A form
  without `name` therefore stores the venue and still reports failure.
- The `seeking_*` columns hold the submitted text. When the field is missing
  this is `''`, not the column default `False`.

## Model

| member | source | states |
|---|---|---|
| Records.Rows | app.py:123 | every enumerated row is a row of the table and every row of the table in the id range is enumerated |
| Records.RowsAscending | app.py:123 | when each row sits under its own key, the enumeration lists keys in strictly ascending order within the range |
| Records.AscendingOnce | app.py:123 | a listing whose keys strictly ascend holds each row at most once |
| Forms.LookupFindsFirst | app.py:155-165 | a form value is found exactly when its key was submitted, and it is the value of the key's first occurrence |
| Forms.GetList | app.py:371 | `getlist` returns exactly the values submitted under the key |
| Forms.GetListCounts | app.py:371 | each value occurs in `getlist` as often as it was submitted under the key |
| Forms.GetListConcat | app.py:371 | `getlist` keeps submission order: over a form split in two it is the first part's values followed by the second's |
| Forms.GetListSnoc | app.py:371 | one more pair appends its value exactly when it carries the key |
| Forms.GetIsHeadOfList | app.py:367-376 | `get` returns the first value of `getlist`, and the default exactly when the list is empty |
| GenreMatching.FirstIndex | app.py:283-286 | the inner loop stops at the first choice whose label equals the submitted one, or finds none when no choice carries it |
| GenreMatching.AppendMatches | app.py:281-286 | the nested loops with `break` append exactly `Matched(labels, choices)` to the existing list |
| GenreMatching.MatchedConcat | app.py:385-390 | attachments follow the order of the submitted labels (matching distributes over concatenation) |
| GenreMatching.MatchedSound | app.py:382-390 | every attached id is an existing choice whose label exactly equals a submitted label |
| GenreMatching.MatchedComplete | app.py:385-390 | every submitted label carried by some choice attaches the first such choice |
| GenreMatching.MatchedLength | app.py:385-390 | at most one attachment per label, and one for each label exactly when every label matches |
| GenreMatching.UnmatchedDropped | app.py:385-390 | a label no choice carries is dropped silently wherever it was submitted |
| GenreMatching.AttachesAgain | app.py:281-286 | a label whose match is already attached attaches it again; nothing checks for duplicates |
| Search.SameUpToCase | app.py:133 | the folding ILIKE applies identifies exactly the texts that differ only in ASCII letter case, and no pattern tells two such names apart |
| Search.PercentMatchesAll | app.py:132 | a lone `%` matches every name |
| Search.PlainPrefix | app.py:132-133 | a wildcard-free keyword followed by `%` matches exactly the names it begins |
| Search.LeadingPercent | app.py:132-133 | a leading `%` lets the rest of the pattern match any suffix |
| Search.SearchIsSubstring | app.py:132-133 | for a wildcard-free keyword, `name ILIKE '%kw%'` holds exactly when the keyword occurs in the name, ignoring letter case |
| Search.UnderscoreIsWildcard | app.py:132 | the keyword is not escaped: searching for `_` finds every non-empty name |
| Search.FilterByName | app.py:133 | the filter keeps exactly the rows whose name matches the pattern, each as often as it occurs in the input |
| Search.SearchVenues | app.py:130-135 | results are exactly the venues matching `'%kw%'`, `count` is their number, and the displayed term is `get('search_term', '')` |
| Search.SearchVenuesCounts | app.py:133-134 | each matching row is returned as often as it occurs in the rows and no other row is returned, so `count` is the number of matching rows |
| Search.SearchArtists | app.py:214-219 | results are exactly the artists matching `'%kw%'`, `count` is their number, and the displayed term is `get('search_term', '')` |
| Search.SearchArtistsCounts | app.py:217-218 | each matching row is returned as often as it occurs in the rows and no other row is returned, so `count` is the number of matching rows |
| Search.SearchVenuesExact | app.py:131-134 | with a wildcard-free keyword, venue results are exactly the rows whose name contains it case-insensitively |
| Search.SearchArtistsExact | app.py:215-218 | with a wildcard-free keyword, artist results are exactly the rows whose name contains it case-insensitively |
| Search.MissingTermSearchesNone | app.py:131-135 | a request without a term searches names for "none" and displays an empty term |
| Listing.TextLeTotal | app.py:124 | the text order used for `order_by` is total |
| Listing.TextLeTransitive | app.py:124 | the text order used for `order_by` is transitive |
| Listing.InsertByState | app.py:124 | inserting a venue into a state-sorted list keeps it sorted and adds exactly that venue |
| Listing.SortByState | app.py:124 | `order_by(Venue.state)` is sorted by state and a permutation of the rows |
| Listing.Venues | app.py:122-125 | `venues` is the table's rows and `areas` holds the same rows, each as often, sorted by state |
| Store.ParseId | app.py:426-430 | an id text is accepted exactly when it is a non-empty decimal numeral |
| Store.ParseIdRoundTrip | app.py:426-430 | every id written as a decimal numeral is read back as that id |
| Store.LeadingZeroIgnored | app.py:426-430 | a leading zero does not change the id a text stands for |
| Store.Database.constructor | app.py:77-81 | an empty directory whose Genre table holds the given labels under ids 1..n |
| Store.Database.RowsAreTables | app.py:123 | `query.all()` over each table yields exactly that table's rows |
| Store.Database.RowsAscend | app.py:123 | `query.all()` lists each table in strictly ascending id order, so no row twice |
| Store.Database.ListVenues | app.py:121-125 | both `venues` and `areas` are the full venue table, each venue listed once, and `areas` is the same rows ordered by state |
| Store.Database.FindVenues | app.py:129-135 | results are exactly the table's venues whose name ILIKEs `'%kw%'`, none twice, and `count` is their number; with a wildcard-free keyword, results are the table's venues whose name contains it case-insensitively |
| Store.Database.FindArtists | app.py:213-219 | results are exactly the table's artists whose name ILIKEs `'%kw%'`, none twice, and `count` is their number; with a wildcard-free keyword, results are the table's artists whose name contains it case-insensitively |
| Store.Database.MatchedGenresExist | app.py:382-390 | every matched id names an existing Genre row with a submitted label |
| Store.Database.CreateVenueSubmission | app.py:153-182 | on commit exactly one row is added under a fresh id with every column equal to the submitted text; otherwise nothing changes; success is reported only if `name` was submitted; target is the index |
| Store.Database.DeleteVenue | app.py:187-200 | an existing id is removed and nothing else; an absent id or failed commit changes nothing and reports failure; target is the index |
| Store.Database.DeleteArtist | app.py:232-245 | an existing artist and its genre list are removed and nothing else; otherwise nothing changes; target is the index |
| Store.Database.CreateArtistSubmission | app.py:365-401 | on commit one artist is added with the nine submitted columns and exactly the matched genres, all existing rows with submitted labels; otherwise nothing changes |
| Store.Database.EditArtistSubmission | app.py:258-304 | for an existing id the nine columns become the submitted values, `id` stays, and the matched genres are appended to the old list; otherwise nothing changes; target is the artist page |
| Store.Database.EditVenueSubmission | app.py:316-354 | for an existing id ten columns become the submitted values while `id` and `address` stay; otherwise nothing changes; target is the venue page |
| Store.Database.CreateShowSubmission | app.py:424-440 | a show is added exactly when its artist and venue ids name existing rows, its start time is non-empty and the commit succeeds; otherwise nothing changes; the home page is rendered |

## Left out

- Presentation: templates, flash message texts and `redirect` are reduced to
  an `Outcome` of a status (which of the handler's two flash messages is
  shown) and a target page.
- `format_datetime` (app.py:98-104) wraps foreign date libraries; a show time
  is kept as opaque non-empty text.
- The read-only `index`, `show_venue`, `show_artist`, `artists`, `shows`,
  GET form and error handlers only render a query result. Their queries are
  `Rows` and map lookup, and they are not modelled as separate members.
- Flask, Moment, Migrate and logging setup (app.py:21-25, app.py:453-462),
  and the `forms` module, which is not part of this model.
- migrations/versions/09ea21f519d6_.py: a generated schema change with no
  hand-written logic. The model keeps the Venue `genres` column that
  app.py:38 declares.
- Concurrency: each request runs to completion against one `Database`.
- Engine behaviour the code does not show is folded into `commitOk`:
  - `String(n)` length limits;
  - rejection of a duplicate artist_genre pair;
  - what happens to the shows of a deleted venue or artist. `Valid` therefore
    does not require show references to exist.
- The id sequence is not advanced by a failed insert (a real sequence may be).
- Search.ILike: lower-cases ASCII letters only and treats `\` as an ordinary
  character; a locale's full case folding and an engine's escape character
  are not modelled.
- Listing.TextLe: compares by character code; a database collation may order
  text differently.
- Records.Rows: lists rows in ascending id order (Records.RowsAscending);
  `query.all()` promises no order, so an engine may list the same rows
  differently.
- Search.FilterByName: states which rows are kept, not that table order is
  preserved.
- Listing.SortByState: leaves the order among venues of equal state open, as
  the SQL query does.
- Store.Database.artistGenres: the request's `artist.genres` list; the
  artist_genre table stores only the set of its ids, so order and repeats are
  not persisted, and whether a repeated pair fails the commit is folded into
  `commitOk`.
- Store.ParseId: accepts unsigned decimal numerals only; an engine's wider
  integer syntax (a sign, surrounding spaces) is not modelled.
