/**
 * The validation pipeline both entity variants share: every validator
 * declared for every attribute runs on the attribute's current value, and
 * each error it reports joins that attribute's list. Nothing stops early.
 */
module Validation {
  import opened JsValue
  import opened Attributes
  import opened Errors

  /**
   * A validator: maps an attribute value to an error descriptor. The
   * entity layer records a result only when it is truthy, so undefined,
   * null, false, 0 and "" all mean "no error".
   */
  type Validator = Value -> Value

  /** Declared rules: attribute names with their validators, both in declaration order. */
  type Rules = seq<(string, seq<Validator>)>

  /** The rules come from an object literal, so no attribute name appears twice. */
  predicate DistinctNames(rules: Rules) {
    forall i, j :: 0 <= i < j < |rules| ==> rules[i].0 != rules[j].0
  }

  /** The errors `vs` report on `x`: each truthy result, in declaration order. */
  function Failures(vs: seq<Validator>, x: Value): (r: seq<Value>)
    ensures |r| <= |vs|
    ensures forall e :: e in r ==> Truthy(e)
    decreases |vs|
  {
    if vs == [] then []
    else
      var last := vs[|vs| - 1](x);
      Failures(vs[..|vs| - 1], x) + (if Truthy(last) then [last] else [])
  }

  /** Records each of `errs`, in order, against `name`. */
  function AddAll(e: ValidationErrors, name: string, errs: seq<Value>): ValidationErrors
    decreases |errs|
  {
    if errs == [] then e
    else AddAll(e, name, errs[..|errs| - 1]).Add(name, errs[|errs| - 1])
  }

  /** Recording errors keeps one entry per attribute. */
  lemma {:induction false} AddAllWellFormed(e: ValidationErrors, name: string, errs: seq<Value>)
    requires e.WellFormed()
    ensures AddAll(e, name, errs).WellFormed()
    decreases |errs|
  {
    if errs != [] {
      AddAllWellFormed(e, name, errs[..|errs| - 1]);
      AddKeepsWellFormed(AddAll(e, name, errs[..|errs| - 1]), name, errs[|errs| - 1]);
    }
  }

  /** Recording errors against `name` extends that attribute's list by them, in order, and no other list. */
  lemma {:induction false} AddAllFor(e: ValidationErrors, name: string, errs: seq<Value>, other: string)
    ensures AddAll(e, name, errs).For(other) == e.For(other) + (if other == name then errs else [])
    decreases |errs|
  {
    if errs == [] {
      assert e.For(other) + [] == e.For(other);
    } else {
      var init, last := errs[..|errs| - 1], errs[|errs| - 1];
      AddAllFor(e, name, init, other);
      AddAllStep(e, name, errs);
      var before := AddAll(e, name, init);
      if other == name {
        assert AddAll(e, name, errs).For(name) == before.For(name) + [last];
        assert before.For(name) == e.For(name) + init;
        SnocAppend(e.For(name), errs);
      } else {
        assert AddAll(e, name, errs).For(other) == before.For(other);
        assert before.For(other) == e.For(other) + [];
      }
    }
  }

  /** Appending all but the last element and then the last is appending the whole. */
  lemma SnocAppend<T>(a: seq<T>, b: seq<T>)
    requires b != []
    ensures a + b[..|b| - 1] + [b[|b| - 1]] == a + b
  {
    assert b[..|b| - 1] + [b[|b| - 1]] == b;
  }

  /** Recording one more error adds it after the earlier ones. */
  lemma AddAllStep(e: ValidationErrors, name: string, errs: seq<Value>)
    requires errs != []
    ensures AddAll(e, name, errs) == AddAll(e, name, errs[..|errs| - 1]).Add(name, errs[|errs| - 1])
  {
  }

  /** Recording errors leaves the collection holding an error exactly when it already did or some were recorded. */
  lemma AddAllHasErrors(e: ValidationErrors, name: string, errs: seq<Value>)
    ensures AddAll(e, name, errs).HasErrors() <==> e.HasErrors() || errs != []
  {
  }

  /**
   * The collection `validate()` leaves: it starts from an empty one, then
   * takes the declared attributes in order and records every failure of
   * that attribute's validators on its current value.
   */
  function Run(rules: Rules, data: Data): (r: ValidationErrors)
    ensures r.WellFormed()
    decreases |rules|
  {
    if rules == [] then Empty()
    else
      var (name, vs) := rules[|rules| - 1];
      AddAllWellFormed(Run(rules[..|rules| - 1], data), name, Failures(vs, Get(data, name)));
      AddAll(Run(rules[..|rules| - 1], data), name, Failures(vs, Get(data, name)))
  }

  /** One more validator: its result joins the failures when truthy. */
  lemma FailuresStep(vs: seq<Validator>, x: Value, j: nat)
    requires j < |vs|
    ensures Failures(vs[..j + 1], x) ==
      Failures(vs[..j], x) + (if Truthy(vs[j](x)) then [vs[j](x)] else [])
  {
    assert vs[..j + 1][..j] == vs[..j];
  }

  /** One more validator run: its result is recorded after the earlier ones exactly when it is truthy. */
  lemma RecordStep(e: ValidationErrors, name: string, vs: seq<Validator>, x: Value, j: nat)
    requires j < |vs|
    ensures AddAll(e, name, Failures(vs[..j + 1], x)) ==
      if Truthy(vs[j](x)) then AddAll(e, name, Failures(vs[..j], x)).Add(name, vs[j](x))
      else AddAll(e, name, Failures(vs[..j], x))
  {
    FailuresStep(vs, x, j);
    var before := Failures(vs[..j], x);
    if Truthy(vs[j](x)) {
      assert (before + [vs[j](x)])[..|before|] == before;
    } else {
      assert before + [] == before;
    }
  }

  /** One more declared attribute: its failures are recorded after those of the attributes before it. */
  lemma RunStep(rules: Rules, data: Data, i: nat)
    requires i < |rules|
    ensures Run(rules[..i + 1], data) ==
      AddAll(Run(rules[..i], data), rules[i].0, Failures(rules[i].1, Get(data, rules[i].0)))
  {
    assert rules[..i + 1][..i] == rules[..i];
  }

  /** No early exit: the failures of a list are the failures of its two halves, joined. */
  lemma {:induction false} FailuresSplit(a: seq<Validator>, b: seq<Validator>, x: Value)
    ensures Failures(a + b, x) == Failures(a, x) + Failures(b, x)
    decreases |b|
  {
    if b == [] {
      assert a + b == a;
    } else {
      var b', last := b[..|b| - 1], b[|b| - 1];
      assert (a + b)[..|a + b| - 1] == a + b';
      assert (a + b)[|a + b| - 1] == last;
      FailuresSplit(a, b', x);
      var tail := if Truthy(last(x)) then [last(x)] else [];
      assert Failures(a + b, x) == Failures(a + b', x) + tail;
      assert Failures(b, x) == Failures(b', x) + tail;
    }
  }

  /** When every validator fails, every one of their errors is recorded, in order. */
  lemma {:induction false} AllFailuresRecorded(vs: seq<Validator>, x: Value)
    requires forall j :: 0 <= j < |vs| ==> Truthy(vs[j](x))
    ensures Failures(vs, x) == seq(|vs|, j requires 0 <= j < |vs| => vs[j](x))
    decreases |vs|
  {
    if vs != [] {
      AllFailuresRecorded(vs[..|vs| - 1], x);
    }
  }

  /** Validators report nothing exactly when none of them returns a truthy result. */
  lemma {:induction false} NoFailuresIff(vs: seq<Validator>, x: Value)
    ensures Failures(vs, x) == [] <==> forall j :: 0 <= j < |vs| ==> !Truthy(vs[j](x))
    decreases |vs|
  {
    if vs != [] {
      NoFailuresIff(vs[..|vs| - 1], x);
    }
  }

  /** An attribute with no rule gets no error. */
  lemma {:induction false} UndeclaredHasNoErrors(rules: Rules, data: Data, name: string)
    requires forall i :: 0 <= i < |rules| ==> rules[i].0 != name
    ensures Run(rules, data).For(name) == []
    decreases |rules|
  {
    if rules != [] {
      var prefix := rules[..|rules| - 1];
      var (last, vs) := rules[|rules| - 1];
      UndeclaredHasNoErrors(prefix, data, name);
      AddAllFor(Run(prefix, data), last, Failures(vs, Get(data, last)), name);
    }
  }

  /** Dropping the last rule keeps the names distinct; the last name is not among the others. */
  lemma DistinctPrefix(rules: Rules, i: nat)
    requires DistinctNames(rules) && i < |rules|
    ensures DistinctNames(rules[..|rules| - 1])
    ensures i < |rules| - 1 ==> rules[..|rules| - 1][i] == rules[i] && rules[i].0 != rules[|rules| - 1].0
    ensures i == |rules| - 1 ==> forall k :: 0 <= k < |rules| - 1 ==> rules[k].0 != rules[i].0
  {
  }

  /** A declared attribute's errors are exactly the failures of its own validators on its current value. */
  lemma {:induction false} DeclaredErrors(rules: Rules, data: Data, i: nat)
    requires DistinctNames(rules)
    requires i < |rules|
    ensures Run(rules, data).For(rules[i].0) == Failures(rules[i].1, Get(data, rules[i].0))
    decreases |rules|
  {
    var prefix := rules[..|rules| - 1];
    var last, vs := rules[|rules| - 1].0, rules[|rules| - 1].1;
    var name := rules[i].0;
    var before := Run(prefix, data);
    var fs := Failures(vs, Get(data, last));
    assert Run(rules, data) == AddAll(before, last, fs);
    AddAllFor(before, last, fs, name);
    assert Run(rules, data).For(name) == before.For(name) + (if name == last then fs else []);
    DistinctPrefix(rules, i);
    if i < |rules| - 1 {
      DeclaredErrors(prefix, data, i);
      assert before.For(name) == Failures(rules[i].1, Get(data, name));
    } else {
      assert forall k :: 0 <= k < |prefix| ==> prefix[k].0 != name by {
        forall k | 0 <= k < |prefix| ensures prefix[k].0 != name {
          assert prefix[k] == rules[k];
        }
      }
      UndeclaredHasNoErrors(prefix, data, name);
      assert before.For(name) == [];
    }
  }

  /** The collection holds an error exactly when some declared validator returns a truthy result. */
  lemma {:induction false} RunHasErrorsIff(rules: Rules, data: Data)
    ensures !Run(rules, data).HasErrors() <==>
      forall i, j :: 0 <= i < |rules| && 0 <= j < |rules[i].1| ==>
        !Truthy(rules[i].1[j](Get(data, rules[i].0)))
    decreases |rules|
  {
    if rules != [] {
      var prefix := rules[..|rules| - 1];
      var (name, vs) := rules[|rules| - 1];
      RunHasErrorsIff(prefix, data);
      NoFailuresIff(vs, Get(data, name));
      AddAllHasErrors(Run(prefix, data), name, Failures(vs, Get(data, name)));
    }
  }

  /** Validation only reads the attributes the rules name. */
  lemma {:induction false} RunReadsDeclaredOnly(rules: Rules, d1: Data, d2: Data)
    requires forall i :: 0 <= i < |rules| ==> Get(d1, rules[i].0) == Get(d2, rules[i].0)
    ensures Run(rules, d1) == Run(rules, d2)
    decreases |rules|
  {
    if rules != [] {
      RunReadsDeclaredOnly(rules[..|rules| - 1], d1, d2);
    }
  }
}
