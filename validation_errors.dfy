/**
 * The ValidationErrors collection: an ordered mapping from attribute name to
 * the ordered list of error descriptors recorded against it. Its own source
 * is not part of this model; it is modelled as the collection the entity
 * layer uses: created empty, extended one error at a time, asked whether it
 * holds any error.
 */
module Errors {
  import opened JsValue

  /** One attribute's entry: its name and its errors, oldest first. */
  type Entry = (string, seq<Value>)

  /** The errors recorded against `name`: those of the first entry with that name. */
  function ErrorsIn(entries: seq<Entry>, name: string): seq<Value>
    decreases |entries|
  {
    if entries == [] then []
    else if entries[0].0 == name then entries[0].1
    else ErrorsIn(entries[1..], name)
  }

  /** No attribute name has two entries. */
  predicate DistinctEntries(entries: seq<Entry>) {
    forall i, j :: 0 <= i < j < |entries| ==> entries[i].0 != entries[j].0
  }

  /** With distinct names, an entry's errors are what a lookup of its name finds. */
  lemma {:induction false} ErrorsInAt(entries: seq<Entry>, i: nat)
    requires DistinctEntries(entries) && i < |entries|
    ensures ErrorsIn(entries, entries[i].0) == entries[i].1
    decreases |entries|
  {
    if i > 0 {
      ErrorsInAt(entries[1..], i - 1);
    }
  }

  /** A lookup that finds errors found them in an entry of that name. */
  lemma {:induction false} ErrorsInFound(entries: seq<Entry>, name: string)
    ensures ErrorsIn(entries, name) != [] ==>
      exists i :: 0 <= i < |entries| && entries[i].0 == name && entries[i].1 != []
    decreases |entries|
  {
    if entries != [] && entries[0].0 != name && ErrorsIn(entries, name) != [] {
      ErrorsInFound(entries[1..], name);
      var i :| 0 <= i < |entries[1..]| && entries[1..][i].0 == name && entries[1..][i].1 != [];
      assert entries[i + 1].0 == name && entries[i + 1].1 != [];
    }
  }

  /** Adding under a name that has an entry keeps every entry's name in place. */
  lemma {:induction false} AddEntryPresent(entries: seq<Entry>, name: string, err: Value, i: nat)
    requires i < |entries| && entries[i].0 == name
    ensures |AddEntry(entries, name, err)| == |entries|
    ensures forall k :: 0 <= k < |entries| ==> AddEntry(entries, name, err)[k].0 == entries[k].0
    decreases |entries|
  {
    if entries[0].0 != name {
      AddEntryPresent(entries[1..], name, err, i - 1);
    }
  }

  /** Adding under a name without an entry appends one for it. */
  lemma {:induction false} AddEntryAbsent(entries: seq<Entry>, name: string, err: Value)
    requires forall i :: 0 <= i < |entries| ==> entries[i].0 != name
    ensures AddEntry(entries, name, err) == entries + [(name, [err])]
    decreases |entries|
  {
    if entries != [] {
      assert forall i :: 0 <= i < |entries[1..]| ==> entries[1..][i] == entries[i + 1];
      AddEntryAbsent(entries[1..], name, err);
      ConsSnoc(entries, (name, [err]));
    }
  }

  /** Splitting off the head before appending changes nothing. */
  lemma ConsSnoc<T>(a: seq<T>, x: T)
    requires a != []
    ensures [a[0]] + (a[1..] + [x]) == a + [x]
  {
    assert [a[0]] + a[1..] == a;
  }

  /** Appends `err` to the entry for `name`, or adds an entry for it at the end. */
  function AddEntry(entries: seq<Entry>, name: string, err: Value): (r: seq<Entry>)
    ensures ErrorsIn(r, name) == ErrorsIn(entries, name) + [err]
    ensures forall other :: other != name ==> ErrorsIn(r, other) == ErrorsIn(entries, other)
    ensures exists i :: 0 <= i < |r| && r[i].0 == name && r[i].1 != []
    decreases |entries|
  {
    if entries == [] then [(name, [err])]
    else if entries[0].0 == name then [(name, entries[0].1 + [err])] + entries[1..]
    else [entries[0]] + AddEntry(entries[1..], name, err)
  }

  datatype ValidationErrors = ValidationErrors(entries: seq<Entry>) {

    /** The errors recorded against attribute `name`, in the order they were added. */
    function For(name: string): (r: seq<Value>)
      ensures r != [] ==> HasErrors()
    {
      ErrorsInFound(entries, name);
      ErrorsIn(entries, name)
    }

    /** `addError(name, err)`: the error joins the end of that attribute's list; no other list changes. */
    function Add(name: string, err: Value): (r: ValidationErrors)
      ensures r.For(name) == For(name) + [err]
      ensures forall other :: other != name ==> r.For(other) == For(other)
      ensures r.HasErrors()
    {
      ValidationErrors(AddEntry(entries, name, err))
    }

    /** `hasErrors()`: some entry's list is non-empty. */
    predicate HasErrors() {
      exists i :: 0 <= i < |entries| && entries[i].1 != []
    }

    /** Every collection built from an empty one by `Add` has one entry per attribute. */
    predicate WellFormed() {
      DistinctEntries(entries)
    }
  }

  /** `new ValidationErrors()`: a collection with no errors for any attribute. */
  function Empty(): (r: ValidationErrors)
    ensures !r.HasErrors() && r.WellFormed()
    ensures forall name :: r.For(name) == []
  {
    ValidationErrors([])
  }

  /** `addError` keeps one entry per attribute. */
  lemma AddKeepsWellFormed(e: ValidationErrors, name: string, err: Value)
    requires e.WellFormed()
    ensures e.Add(name, err).WellFormed()
  {
    var r := AddEntry(e.entries, name, err);
    if i :| 0 <= i < |e.entries| && e.entries[i].0 == name {
      AddEntryPresent(e.entries, name, err, i);
      forall j, k | 0 <= j < k < |r| ensures r[j].0 != r[k].0 {
        assert r[j].0 == e.entries[j].0 && r[k].0 == e.entries[k].0;
      }
    } else {
      AddEntryAbsent(e.entries, name, err);
      forall j, k | 0 <= j < k < |r| ensures r[j].0 != r[k].0 {
        assert r[j] == e.entries[j];
        if k < |e.entries| {
          assert r[k] == e.entries[k];
        } else {
          assert r[k].0 == name;
        }
      }
    }
    assert DistinctEntries(r);
  }

  /** In a well-formed collection, `hasErrors()` holds exactly when some attribute has a non-empty list. */
  lemma HasErrorsMeaning(e: ValidationErrors)
    requires e.WellFormed()
    ensures e.HasErrors() <==> exists name :: e.For(name) != []
  {
    if e.HasErrors() {
      var i :| 0 <= i < |e.entries| && e.entries[i].1 != [];
      ErrorsInAt(e.entries, i);
      assert e.For(e.entries[i].0) != [];
    }
    if exists name :: e.For(name) != [] {
      var name :| e.For(name) != [];
      ErrorsInFound(e.entries, name);
    }
  }
}
