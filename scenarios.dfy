/** Example requests, followed through using only the handlers' contracts. */
module Scenarios {
  import opened Records
  import opened Forms
  import opened Store
  import GenreMatching

  /** A new venue is listed under the first id and the browser goes to the index. */
  method ListTheFillmore()
  {
    var db := new Database([]);
    var fillmore: Form := [("name", "The Fillmore"), ("city", "San Francisco"), ("state", "CA"),
                           ("address", "1805 Geary St"), ("phone", "415-346-3000")];
    assert HasKey(fillmore, "name") by { assert fillmore[0].0 == "name"; }
    var outcome := db.CreateVenueSubmission(fillmore, true);
    assert outcome == Outcome(Success, Index);
    assert db.venues.Keys == {1} && db.venues[1].name == Get(fillmore, "name", "");
  }

  /** "Nonexistent" names no Genre row and is dropped; "Jazz" is attached. */
  method DropUnknownGenre()
  {
    var db := new Database(["Jazz"]);
    var form: Form := [("name", "Miles"), ("genres", "Jazz"), ("genres", "Nonexistent")];
    assert GetList(form, "genres") == ["Jazz", "Nonexistent"] by {
      assert form[1..][1..] == [("genres", "Nonexistent")];
    }
    assert db.GenreRows() == [Genre(1, "Jazz")] by {
      assert Rows(db.genres, 2, 2) == [];
    }
    assert "Nonexistent" != "Jazz" by { assert "Nonexistent"[0] != "Jazz"[0]; }
    assert GenreMatching.Matched(["Jazz", "Nonexistent"], [Genre(1, "Jazz")]) == [1] by {
      assert ["Jazz", "Nonexistent"][1..] == ["Nonexistent"];
      assert ["Nonexistent"][1..] == [];
    }
    var outcome := db.CreateArtistSubmission(form, true);
    assert db.artistGenres[1] == [1];
  }

  /** Genre labels are compared exactly: "jazz" does not match the "Jazz" row. */
  method LowerCaseGenreNotMatched()
  {
    var db := new Database(["Jazz"]);
    var form: Form := [("name", "Nina"), ("genres", "jazz")];
    assert GetList(form, "genres") == ["jazz"] by {
      assert form[1..][1..] == [];
    }
    assert db.GenreRows() == [Genre(1, "Jazz")] by {
      assert Rows(db.genres, 2, 2) == [];
    }
    assert "jazz" != "Jazz" by { assert "jazz"[0] != "Jazz"[0]; }
    assert GenreMatching.Matched(["jazz"], [Genre(1, "Jazz")]) == [] by {
      assert ["jazz"][1..] == [];
    }
    var outcome := db.CreateArtistSubmission(form, true);
    assert db.artistGenres[1] == [];
  }

  /** A show naming no existing artist is not listed, and no row is added. */
  method RejectShowOfUnknownArtist()
  {
    var db := new Database([]);
    var show: Form := [("artist_id", "7"), ("venue_id", "1"), ("start_time", "2026-10-14 20:00")];
    assert ParseId("7") == Some(7);
    assert Get(show, "artist_id", "") == "7";
    var outcome := db.CreateShowSubmission(show, true);
    assert outcome == Outcome(Failure, HomePage) && db.shows == map[];
  }
}
