/** Generic sequence helpers: first match, substring containment, gathering step results. */
module Seqs {
  import opened Wrappers

  /** Index of the first element of `s` satisfying `p`. */
  function IndexOf<T>(s: seq<T>, p: T -> bool): (r: Option<nat>)
    ensures r.Some? ==> r.value < |s| && p(s[r.value])
    ensures r.Some? ==> forall j :: 0 <= j < r.value ==> !p(s[j])
    ensures r.None? <==> forall j :: 0 <= j < |s| ==> !p(s[j])
  {
    if s == [] then None
    else if p(s[0]) then Some(0)
    else match IndexOf(s[1..], p)
      case None => None
      case Some(i) => Some(i + 1)
  }

  /** The first element of `s` satisfying `p` (the way `find` returns the first hit in document order). */
  function First<T>(s: seq<T>, p: T -> bool): (r: Option<T>)
    ensures r.None? <==> forall j :: 0 <= j < |s| ==> !p(s[j])
    ensures r.Some? ==> exists i :: 0 <= i < |s| && s[i] == r.value && p(s[i]) && forall j :: 0 <= j < i ==> !p(s[j])
  {
    match IndexOf(s, p)
    case None => None
    case Some(i) => Some(s[i])
  }

  /** `sub` occurs in `s` starting at position `i`. */
  predicate OccursAt<T(==)>(s: seq<T>, sub: seq<T>, i: int) {
    0 <= i && i + |sub| <= |s| && s[i..i + |sub|] == sub
  }

  /** `sub in s` for Python strings: `sub` occurs contiguously in `s`. */
  predicate Contains<T(==)>(s: seq<T>, sub: seq<T>) {
    exists i | 0 <= i <= |s| :: OccursAt(s, sub, i)
  }

  /** "Append what each step yields, stop at the first exception": the values of the `Some`
      results in order, or the first error. */
  function Gather<T, E>(results: seq<Result<Option<T>, E>>): Result<seq<T>, E>
    decreases |results|
  {
    if results == [] then Ok([])
    else
      match Gather(results[..|results| - 1])
      case Err(e) => Err(e)
      case Ok(xs) =>
        var last := results[|results| - 1];
        if last.Err? then Err(last.error)
        else if last.value.None? then Ok(xs)
        else Ok(xs + [last.value.value])
  }

  /** One step of the gathering loop. */
  lemma GatherStep<T, E>(results: seq<Result<Option<T>, E>>, i: nat, xs: seq<T>)
    requires i < |results| && Gather(results[..i]) == Ok(xs)
    ensures results[i].Err? ==> Gather(results) == Err(results[i].error)
    ensures results[i] == Ok(None) ==> Gather(results[..i + 1]) == Ok(xs)
    ensures results[i].Ok? && results[i].value.Some? ==>
      Gather(results[..i + 1]) == Ok(xs + [results[i].value.value])
  {
    var init := results[..i + 1];
    assert init[..|init| - 1] == results[..i];
    assert init[|init| - 1] == results[i];
    if results[i].Err? {
      GatherPrefixError(results, i + 1);
    }
  }

  /** Once a prefix fails, everything fails with the same error. */
  lemma {:induction false} GatherPrefixError<T, E>(results: seq<Result<Option<T>, E>>, n: nat)
    requires n <= |results| && Gather(results[..n]).Err?
    ensures Gather(results) == Gather(results[..n])
    decreases |results| - n
  {
    if n < |results| {
      assert results[..n + 1][..n] == results[..n];
      GatherPrefixError(results, n + 1);
    } else {
      assert results[..n] == results;
    }
  }

  /** Gathering succeeds exactly when no step fails. */
  lemma {:induction false} GatherOkIff<T, E>(results: seq<Result<Option<T>, E>>)
    ensures Gather(results).Ok? <==> forall i :: 0 <= i < |results| ==> results[i].Ok?
    decreases |results|
  {
    if results != [] {
      var init := results[..|results| - 1];
      GatherOkIff(init);
      assert forall i :: 0 <= i < |init| ==> init[i] == results[i];
    }
  }

  /** The error of a gathering is that of the first step that fails. */
  lemma {:induction false} GatherFirstError<T, E>(results: seq<Result<Option<T>, E>>, i: nat)
    requires i < |results| && results[i].Err?
    requires forall j :: 0 <= j < i ==> results[j].Ok?
    ensures Gather(results) == Err(results[i].error)
  {
    var init := results[..i];
    assert forall j :: 0 <= j < |init| ==> init[j] == results[j];
    GatherOkIff(init);
    GatherStep(results, i, Gather(init).value);
  }

  /** A step that yields a value contributes it between the values of the steps before it and
      those of the steps after it. */
  lemma {:induction false} GatherSplit<T, E>(results: seq<Result<Option<T>, E>>, i: nat)
    requires Gather(results).Ok? && i < |results| && results[i].Ok? && results[i].value.Some?
    ensures Gather(results[..i]).Ok? && Gather(results[i + 1..]).Ok?
    ensures Gather(results).value == Gather(results[..i]).value + [results[i].value.value] + Gather(results[i + 1..]).value
  {
    var before, after := results[..i], results[i + 1..];
    assert before + [results[i]] + after == results by {
      assert results[i..] == [results[i]] + after;
      assert results == before + results[i..];
    }
    GatherOkSlice(results, 0, i);
    GatherOkSlice(results, i + 1, |results|);
    assert results[0..i] == before && results[i + 1..|results|] == after;
    GatherAround(before, results[i].value.value, after);
  }

  lemma {:induction false} GatherAround<T, E>(before: seq<Result<Option<T>, E>>, x: T, after: seq<Result<Option<T>, E>>)
    requires Gather(before).Ok? && Gather(after).Ok?
    ensures Gather(before + [Ok(Some(x))] + after) == Ok(Gather(before).value + [x] + Gather(after).value)
  {
    var one: seq<Result<Option<T>, E>> := [Ok(Some(x))];
    GatherOne(one[0]);
    GatherAppend(before, one);
    GatherAppend(before + one, after);
  }

  /** A gathering that succeeds succeeds on every run of its steps. */
  lemma {:induction false} GatherOkSlice<T, E>(results: seq<Result<Option<T>, E>>, lo: nat, hi: nat)
    requires lo <= hi <= |results| && Gather(results).Ok?
    ensures Gather(results[lo..hi]).Ok?
  {
    var part := results[lo..hi];
    GatherOkIff(results);
    GatherOkIff(part);
    assert forall j :: 0 <= j < |part| ==> part[j] == results[lo + j];
  }

  lemma GatherOne<T, E>(x: Result<Option<T>, E>)
    ensures Gather([x]) == if x.Err? then Err(x.error) else if x.value.None? then Ok([]) else Ok([x.value.value])
  {
    assert [x][..0] == [];
    assert [x][|[x]| - 1] == x;
    if x.Ok? && x.value.Some? {
      assert [] + [x.value.value] == [x.value.value];
    }
  }

  /** At most one value per step, each produced by some step. */
  lemma {:induction false} GatherFrom<T, E>(results: seq<Result<Option<T>, E>>)
    requires Gather(results).Ok?
    ensures |Gather(results).value| <= |results|
    ensures forall x :: x in Gather(results).value ==> exists i :: 0 <= i < |results| && results[i] == Ok(Some(x))
    decreases |results|
  {
    if results != [] {
      var init := results[..|results| - 1];
      GatherFrom(init);
      assert forall i :: 0 <= i < |init| ==> init[i] == results[i];
    }
  }

  /** Gathering keeps the order of the steps. */
  lemma {:induction false} GatherAppend<T, E>(a: seq<Result<Option<T>, E>>, b: seq<Result<Option<T>, E>>)
    requires Gather(a).Ok? && Gather(b).Ok?
    ensures Gather(a + b) == Ok(Gather(a).value + Gather(b).value)
    decreases |b|
  {
    if b == [] {
      assert a + b == a;
      assert Gather(a).value + Gather(b).value == Gather(a).value;
    } else {
      var init := b[..|b| - 1];
      assert (a + b)[..|a + b| - 1] == a + init;
      assert (a + b)[|a + b| - 1] == b[|b| - 1];
      assert Gather(init).Ok?;
      GatherAppend(a, init);
      assert Gather(a + init) == Ok(Gather(a).value + Gather(init).value);
      var last := b[|b| - 1];
      if last.Ok? && last.value.Some? {
        assert Gather(a).value + Gather(init).value + [last.value.value]
            == Gather(a).value + (Gather(init).value + [last.value.value]);
      }
    }
  }
}
