/** A submitted HTML form as the request handlers see it: a multi-valued
    dictionary in which a key may occur several times (for instance one
    `genres` entry per selected option). */
module Forms {
  import opened Records

  /** The (key, value) pairs of the form, in submission order. */
  type Form = seq<(string, string)>

  predicate HasKey(form: Form, key: string)
  {
    exists i :: 0 <= i < |form| && form[i].0 == key
  }

  /** The first value submitted under `key`, if any. */
  function Lookup(form: Form, key: string): (r: Option<string>)
  {
    if form == [] then None
    else if form[0].0 == key then Some(form[0].1)
    else Lookup(form[1..], key)
  }

  /** Lookup finds a value exactly when the key was submitted, and then it is
      the value of the key's first occurrence. */
  lemma {:induction false} LookupFindsFirst(form: Form, key: string)
    ensures Lookup(form, key).None? <==> !HasKey(form, key)
    ensures Lookup(form, key).Some? ==>
              exists i :: 0 <= i < |form| && form[i] == (key, Lookup(form, key).value) &&
                          forall j :: 0 <= j < i ==> form[j].0 != key
  {
    if form != [] && form[0].0 != key {
      LookupFindsFirst(form[1..], key);
      var r := Lookup(form[1..], key);
      if r.Some? {
        var i :| 0 <= i < |form[1..]| && form[1..][i] == (key, r.value) &&
                 forall j :: 0 <= j < i ==> form[1..][j].0 != key;
        assert form[i + 1] == (key, r.value);
        forall j | 0 <= j < i + 1 ensures form[j].0 != key {
          if j > 0 { assert form[j] == form[1..][j - 1]; }
        }
      }
      if HasKey(form, key) {
        var i :| 0 <= i < |form| && form[i].0 == key;
        assert i > 0 && form[1..][i - 1].0 == key;
      }
    } else if form != [] {
      assert form[0] == (key, form[0].1);
    }
  }

  /** `request.form.get(key, default)`: the first value under `key`, or `default`. */
  function Get(form: Form, key: string, default: string): (r: string)
  {
    match Lookup(form, key)
    case Some(v) => v
    case None => default
  }

  /** `request.form.getlist(key)`: every value under `key`, in submission order. */
  function GetList(form: Form, key: string): (r: seq<string>)
    ensures |r| <= |form|
    ensures forall v :: v in r <==> (key, v) in form
  {
    if form == [] then []
    else
      var rest := GetList(form[1..], key);
      assert form == [form[0]] + form[1..];
      assert forall v :: (key, v) in form <==> (form[0] == (key, v) || (key, v) in form[1..]);
      (if form[0].0 == key then [form[0].1] else []) + rest
  }

  /** `getlist` keeps repeats: a value occurs in the list as often as it was
      submitted under the key. */
  lemma {:induction false} GetListCounts(form: Form, key: string)
    ensures forall v :: multiset(GetList(form, key))[v] == multiset(form)[(key, v)]
  {
    if form != [] {
      GetListCounts(form[1..], key);
      assert form == [form[0]] + form[1..];
    }
  }

  /** `getlist` keeps submission order: the values of a form split in two are
      the values of the first part followed by those of the second. */
  lemma {:induction false} GetListConcat(a: Form, b: Form, key: string)
    ensures GetList(a + b, key) == GetList(a, key) + GetList(b, key)
  {
    if a != [] {
      GetListConcat(a[1..], b, key);
      assert (a + b)[1..] == a[1..] + b;
    } else {
      assert a + b == b;
    }
  }

  /** One more pair adds its value at the end of the list exactly when it
      carries the key. */
  lemma {:induction false} GetListSnoc(form: Form, k: string, v: string, key: string)
    ensures GetList(form + [(k, v)], key) == GetList(form, key) + (if k == key then [v] else [])
  {
    GetListConcat(form, [(k, v)], key);
    assert [(k, v)][1..] == [];
  }

  /** `get` and `getlist` agree: the value `get` returns is the first of the
      list, and the list is empty exactly when `get` falls back to its default. */
  lemma {:induction false} GetIsHeadOfList(form: Form, key: string, default: string)
    ensures GetList(form, key) == [] <==> !HasKey(form, key)
    ensures HasKey(form, key) ==> Get(form, key, default) == GetList(form, key)[0]
    ensures !HasKey(form, key) ==> Get(form, key, default) == default
  {
    LookupFindsFirst(form, key);
    if form != [] && form[0].0 != key {
      GetIsHeadOfList(form[1..], key, default);
      assert HasKey(form, key) <==> HasKey(form[1..], key) by {
        if HasKey(form, key) {
          var i :| 0 <= i < |form| && form[i].0 == key;
          assert form[1..][i - 1].0 == key;
        }
        if HasKey(form[1..], key) {
          var i :| 0 <= i < |form[1..]| && form[1..][i].0 == key;
          assert form[i + 1].0 == key;
        }
      }
    }
  }
}
