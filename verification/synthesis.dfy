/** The loop over the book winning overrides, independent of what one book
    contributes: each step yields a recipe, nothing, or a fatal error, and
    the loop appends recipes in book order until the first fatal error. */
module Synthesis {
  import opened Wrappers
  import opened Records

  /** What one book contributes: a recipe, nothing, or a fatal error. */
  type Outcome = Result<Option<Recipe>, Error>

  /** The recipes of one book outcome, as appended to the patch. */
  function Made(made: Option<Recipe>): (r: seq<Recipe>)
    ensures |r| <= 1
  {
    match made
    case Some(recipe) => [recipe]
    case None => []
  }

  /** The loop's effect on the patch, book by book: recipes in book order,
      aborted by the first fatal outcome. */
  function Collect(outcomes: seq<Outcome>): (r: Result<seq<Recipe>, Error>)
    ensures r.Success? ==> |r.value| <= |outcomes|
  {
    if outcomes == [] then Success([])
    else if outcomes[0].Failure? then Failure(outcomes[0].error)
    else
      var rest := Collect(outcomes[1..]);
      if rest.Failure? then rest else Success(Made(outcomes[0].value) + rest.value)
  }

  /** The outcome of every book, in book order. */
  function OutcomesOf(books: seq<Book>, step: Book -> Outcome): (o: seq<Outcome>)
    ensures |o| == |books|
    ensures forall j :: 0 <= j < |books| ==> o[j] == step(books[j])
  {
    seq(|books|, j requires 0 <= j < |books| => step(books[j]))
  }

  /** The loop completes exactly when no book's outcome is fatal. */
  lemma {:induction false} CollectSucceedsIff(outcomes: seq<Outcome>)
    ensures Collect(outcomes).Success? <==> forall j :: 0 <= j < |outcomes| ==> outcomes[j].Success?
  {
    if outcomes != [] {
      CollectSucceedsIff(outcomes[1..]);
      assert forall j :: 1 <= j < |outcomes| ==> outcomes[j] == outcomes[1..][j - 1];
    }
  }

  lemma CollectSingleton(o: Outcome)
    ensures Collect([o]) == if o.Failure? then Failure(o.error) else Success(Made(o.value))
  {
    assert [o][1..] == [];
    assert Collect([]) == Success([]);
    if o.Success? {
      assert Made(o.value) + [] == Made(o.value);
    }
  }

  /** One outcome in front of a run: a fatal one decides the collection;
      otherwise its recipe, if any, precedes those of the run. */
  lemma CollectCons(o: Outcome, rest: seq<Outcome>)
    ensures Collect([o] + rest) ==
      if o.Failure? then Failure(o.error)
      else if Collect(rest).Failure? then Collect(rest)
      else Success(Made(o.value) + Collect(rest).value)
  {
    var all := [o] + rest;
    assert all[0] == o;
    assert all[1..] == rest;
  }

  /** A fatal outcome in the first run of outcomes ends the collection there. */
  lemma {:induction false} CollectAppendFailure(a: seq<Outcome>, b: seq<Outcome>)
    requires Collect(a).Failure?
    ensures Collect(a + b) == Collect(a)
  {
    if a[0].Success? {
      assert (a + b)[0] == a[0];
      assert (a + b)[1..] == a[1..] + b;
      CollectAppendFailure(a[1..], b);
    }
  }

  /** Collecting two runs of outcomes one after the other is collecting their
      concatenation: recipes keep their order and the first error wins. */
  lemma {:induction false} CollectAppend(a: seq<Outcome>, b: seq<Outcome>)
    requires Collect(a).Success?
    ensures Collect(b).Failure? ==> Collect(a + b) == Collect(b)
    ensures Collect(b).Success? ==> Collect(a + b) == Success(Collect(a).value + Collect(b).value)
  {
    if a == [] {
      assert a + b == b;
      assert Collect(a) == Success([]);
      if Collect(b).Success? {
        assert [] + Collect(b).value == Collect(b).value;
      }
    } else {
      var first, rest := a[0], a[1..];
      assert a == [first] + rest;
      assert a + b == [first] + (rest + b);
      CollectCons(first, rest);
      CollectCons(first, rest + b);
      CollectAppend(rest, b);
      if Collect(b).Success? {
        var here := Made(first.value);
        var ra := Collect(rest).value;
        var rb := Collect(b).value;
        assert here + (ra + rb) == (here + ra) + rb;
      }
    }
  }

  /** Every collected recipe is the recipe of some outcome. */
  lemma {:induction false} CollectedFromOutcomes(outcomes: seq<Outcome>)
    requires Collect(outcomes).Success?
    ensures forall i :: 0 <= i < |Collect(outcomes).value| ==>
      Success(Some(Collect(outcomes).value[i])) in outcomes
  {
    if outcomes != [] {
      CollectedFromOutcomes(outcomes[1..]);
      var here := outcomes[0].value;
      assert Collect(outcomes).value == Made(here) + Collect(outcomes[1..]).value;
    }
  }

  /** A failed collection carries the error of the first fatal outcome. */
  lemma {:induction false} CollectErrorIsFirst(outcomes: seq<Outcome>)
    requires Collect(outcomes).Failure?
    ensures exists j :: (0 <= j < |outcomes| &&
      outcomes[j] == Failure(Collect(outcomes).error) &&
      forall k :: 0 <= k < j ==> outcomes[k].Success?)
  {
    if outcomes[0].Success? {
      CollectErrorIsFirst(outcomes[1..]);
      var j :| 0 <= j < |outcomes[1..]|
        && outcomes[1..][j] == Failure(Collect(outcomes[1..]).error)
        && forall k :: 0 <= k < j ==> outcomes[1..][k].Success?;
      assert outcomes[j + 1] == outcomes[1..][j];
      assert forall k :: 1 <= k < j + 1 ==> outcomes[k] == outcomes[1..][k - 1];
    }
  }

  /** One more outcome: a fatal one decides the whole collection; otherwise
      its recipe, if any, follows those of the outcomes before it. */
  lemma StepOutcome(outcomes: seq<Outcome>, i: nat)
    requires i < |outcomes|
    requires Collect(outcomes[..i]).Success?
    ensures outcomes[i].Failure? ==> Collect(outcomes) == Failure(outcomes[i].error)
    ensures outcomes[i].Success? ==>
      Collect(outcomes[..i + 1]) == Success(Collect(outcomes[..i]).value + Made(outcomes[i].value))
  {
    var here := outcomes[i];
    assert outcomes[..i + 1] == outcomes[..i] + [here];
    CollectSingleton(here);
    CollectAppend(outcomes[..i], [here]);
    if here.Failure? {
      assert outcomes[..i + 1] + outcomes[i + 1..] == outcomes;
      CollectAppendFailure(outcomes[..i + 1], outcomes[i + 1..]);
    }
  }

  /** Recipes appear in book order: the recipes of a run of books followed by
      another are those of the first run, then those of the second. */
  lemma SynthesisInBookOrder(a: seq<Book>, b: seq<Book>, step: Book -> Outcome)
    requires Collect(OutcomesOf(a, step)).Success?
    requires Collect(OutcomesOf(b, step)).Success?
    ensures Collect(OutcomesOf(a + b, step))
      == Success(Collect(OutcomesOf(a, step)).value + Collect(OutcomesOf(b, step)).value)
  {
    var oa := OutcomesOf(a, step);
    var ob := OutcomesOf(b, step);
    var oab := OutcomesOf(a + b, step);
    forall j | 0 <= j < |oab| ensures oab[j] == (oa + ob)[j] {
      if j < |a| {
        assert (a + b)[j] == a[j];
      } else {
        assert (a + b)[j] == b[j - |a|];
      }
    }
    assert oab == oa + ob;
    CollectAppend(oa, ob);
  }

  /** The outcomes of two runs of books, one after the other, are those of
      the first run followed by those of the second. */
  lemma OutcomesOfAppend(a: seq<Book>, b: seq<Book>, step: Book -> Outcome)
    ensures OutcomesOf(a + b, step) == OutcomesOf(a, step) + OutcomesOf(b, step)
  {
    var o, oa, ob := OutcomesOf(a + b, step), OutcomesOf(a, step), OutcomesOf(b, step);
    forall j | 0 <= j < |o| ensures o[j] == (oa + ob)[j] {
      if j < |a| {
        assert (a + b)[j] == a[j];
      } else {
        assert (a + b)[j] == b[j - |a|];
      }
    }
  }

  /** In a completed run, the recipe of book `j`, if any, sits between the
      recipes of the books before it and those of the books after it. */
  lemma CollectAround(books: seq<Book>, step: Book -> Outcome, j: nat)
    requires Collect(OutcomesOf(books, step)).Success?
    requires j < |books|
    ensures var before := Collect(OutcomesOf(books[..j], step));
            var after := Collect(OutcomesOf(books[j + 1..], step));
            && before.Success? && step(books[j]).Success? && after.Success?
            && Collect(OutcomesOf(books, step)).value == before.value + Made(step(books[j]).value) + after.value
  {
    var a, m, c := books[..j], [books[j]], books[j + 1..];
    assert books == (a + m) + c;
    var oa, om, oc := OutcomesOf(a, step), OutcomesOf(m, step), OutcomesOf(c, step);
    OutcomesOfAppend(a, m, step);
    OutcomesOfAppend(a + m, c, step);
    var all := OutcomesOf(books, step);
    assert all == (oa + om) + oc;
    assert om == [step(books[j])];
    CollectSucceedsIff(all);
    CollectSucceedsIff(oa);
    CollectSucceedsIff(om);
    CollectSucceedsIff(oc);
    CollectSucceedsIff(oa + om);
    CollectSingleton(step(books[j]));
    CollectAppend(oa, om);
    CollectAppend(oa + om, oc);
  }

  /** The same placement after the recipes that existed before the run: the
      recipe of book `j`, if any, is at the position just after the existing
      recipes and those of the books before `j`. */
  lemma PlacedAfterExisting(books: seq<Book>, step: Book -> Outcome, j: nat, existing: seq<Recipe>)
    requires Collect(OutcomesOf(books, step)).Success?
    requires j < |books|
    ensures var before := Collect(OutcomesOf(books[..j], step));
            var after := Collect(OutcomesOf(books[j + 1..], step));
            var here := step(books[j]);
            var out := existing + Collect(OutcomesOf(books, step)).value;
            && before.Success? && here.Success? && after.Success?
            && out == existing + before.value + Made(here.value) + after.value
            && (here.value.Some? ==> out[|existing| + |before.value|] == here.value.value)
  {
    CollectAround(books, step, j);
    var before := Collect(OutcomesOf(books[..j], step)).value;
    var here := step(books[j]);
    var after := Collect(OutcomesOf(books[j + 1..], step)).value;
    var out := existing + Collect(OutcomesOf(books, step)).value;
    assert out == (existing + before) + Made(here.value) + after;
    if here.value.Some? {
      assert out[|existing| + |before|] == Made(here.value)[0];
    }
  }
}
