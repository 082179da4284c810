/** Genre label matching, as performed by the artist create and edit handlers:
    for every submitted label, in order, the choices (all Genre rows) are
    scanned and the FIRST row whose label is exactly equal is attached; the
    scan then stops. A label that equals no row attaches nothing, and no Genre
    row is ever created for it. */
module GenreMatching {
  import opened Records

  /** The position of the first choice labelled `wanted`, if any. */
  function FirstIndex(wanted: string, choices: seq<Genre>): (r: Option<nat>)
    ensures r.None? <==> forall i :: 0 <= i < |choices| ==> choices[i].genre != wanted
    ensures r.Some? ==> r.value < |choices| && choices[r.value].genre == wanted &&
                        forall j :: 0 <= j < r.value ==> choices[j].genre != wanted
  {
    if choices == [] then None
    else if choices[0].genre == wanted then Some(0)
    else
      match FirstIndex(wanted, choices[1..])
      case None => None
      case Some(i) => Some(i + 1)
  }

  /** The ids that one label attaches: that of its first matching choice, or none. */
  function Attach(wanted: string, choices: seq<Genre>): (r: seq<int>)
  {
    match FirstIndex(wanted, choices)
    case None => []
    case Some(i) => [choices[i].id]
  }

  /** The ids attached for a whole list of submitted labels, in label order. */
  function Matched(labels: seq<string>, choices: seq<Genre>): (r: seq<int>)
  {
    if labels == [] then [] else Attach(labels[0], choices) + Matched(labels[1..], choices)
  }

  /** Matching distributes over concatenation of the submitted labels, so the
      attachments follow the order in which the labels were submitted. */
  lemma {:induction false} MatchedConcat(a: seq<string>, b: seq<string>, choices: seq<Genre>)
    ensures Matched(a + b, choices) == Matched(a, choices) + Matched(b, choices)
  {
    if a == [] {
      assert a + b == b;
    } else {
      assert (a + b)[0] == a[0];
      assert (a + b)[1..] == a[1..] + b;
      MatchedConcat(a[1..], b, choices);
    }
  }

  /** Every attached id is that of an existing choice whose label exactly
      equals one of the submitted labels. */
  lemma {:induction false} MatchedSound(labels: seq<string>, choices: seq<Genre>)
    ensures forall g :: g in Matched(labels, choices) ==>
              exists i :: 0 <= i < |choices| && choices[i].id == g && choices[i].genre in labels
  {
    if labels != [] {
      MatchedSound(labels[1..], choices);
      forall g | g in Matched(labels, choices)
        ensures exists i :: 0 <= i < |choices| && choices[i].id == g && choices[i].genre in labels
      {
        if g in Attach(labels[0], choices) {
          var i := FirstIndex(labels[0], choices).value;
          assert choices[i].id == g && choices[i].genre == labels[0];
        } else {
          assert g in Matched(labels[1..], choices);
          var i :| 0 <= i < |choices| && choices[i].id == g && choices[i].genre in labels[1..];
          assert choices[i].genre in labels;
        }
      }
    }
  }

  /** Every submitted label that some choice carries attaches the first such
      choice: a matchable label is never lost. */
  lemma {:induction false} MatchedComplete(labels: seq<string>, choices: seq<Genre>, k: nat, i: nat)
    requires k < |labels| && i < |choices| && choices[i].genre == labels[k]
    requires forall j :: 0 <= j < i ==> choices[j].genre != labels[k]
    ensures choices[i].id in Matched(labels, choices)
  {
    if k == 0 {
      assert FirstIndex(labels[0], choices) == Some(i);
    } else {
      MatchedComplete(labels[1..], choices, k - 1, i);
    }
  }

  /** There is at most one attachment per submitted label, and exactly one
      per label precisely when every submitted label equals some choice's label. */
  lemma {:induction false} MatchedLength(labels: seq<string>, choices: seq<Genre>)
    ensures |Matched(labels, choices)| <= |labels|
    ensures |Matched(labels, choices)| == |labels| <==>
            forall k :: 0 <= k < |labels| ==> FirstIndex(labels[k], choices).Some?
  {
    if labels != [] {
      MatchedLength(labels[1..], choices);
      assert forall k :: 1 <= k < |labels| ==> labels[k] == labels[1..][k - 1];
    }
  }

  /** A label that no choice carries is dropped wherever it was submitted:
      the attachments are those of the other labels. */
  lemma {:induction false} UnmatchedDropped(a: seq<string>, wanted: string, b: seq<string>, choices: seq<Genre>)
    requires forall i :: 0 <= i < |choices| ==> choices[i].genre != wanted
    ensures Matched(a + [wanted] + b, choices) == Matched(a + b, choices)
  {
    assert Matched([wanted], choices) == [] by {
      assert FirstIndex(wanted, choices).None?;
      assert [wanted][1..] == [];
    }
    MatchedConcat(a + [wanted], b, choices);
    MatchedConcat(a, [wanted], choices);
    MatchedConcat(a, b, choices);
  }

  /** Appending does not look at what is already attached: a label whose
      first match is already in the list attaches it a second time. */
  lemma AttachesAgain(attached: seq<int>, wanted: string, choices: seq<Genre>, i: nat)
    requires FirstIndex(wanted, choices) == Some(i)
    requires choices[i].id in attached
    ensures multiset(attached + Matched([wanted], choices))[choices[i].id] ==
            multiset(attached)[choices[i].id] + 1
  {
    assert Matched([wanted], choices) == [choices[i].id] by {
      assert [wanted][1..] == [];
    }
  }

  /** The nested label/choice loops with `break`, appending to `attached`
      (the artist's current genre list) every first match in label order. */
  method AppendMatches(attached: seq<int>, labels: seq<string>, choices: seq<Genre>)
    returns (result: seq<int>)
    ensures result == attached + Matched(labels, choices)
  {
    result := attached;
    var i := 0;
    while i < |labels|
      invariant 0 <= i <= |labels|
      invariant result == attached + Matched(labels[..i], choices)
    {
      var wanted := labels[i];
      ghost var before := result;
      var j := 0;
      while j < |choices|
        invariant 0 <= j <= |choices|
        invariant forall k :: 0 <= k < j ==> choices[k].genre != wanted
        invariant result == before
      {
        if wanted == choices[j].genre {
          result := result + [choices[j].id];
          assert FirstIndex(wanted, choices) == Some(j);
          break;
        }
        j := j + 1;
      }
      assert result == before + Attach(wanted, choices);
      assert labels[..i + 1] == labels[..i] + [wanted];
      MatchedConcat(labels[..i], [wanted], choices);
      i := i + 1;
    }
    assert labels[..i] == labels;
  }
}
