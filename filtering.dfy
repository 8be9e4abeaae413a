/** Filtering a sequence with a test that may raise, as a Python loop
    `for x in xs: if test(x): kept.append(x)` does: the kept elements in
    order, or the first error the test raises. */
module Filtering {
  import opened Values

  function Filter<T>(xs: seq<T>, keep: T -> Result<bool, string>): Result<seq<T>, string>
  {
    if xs == [] then Ok([])
    else
      match Filter(xs[..|xs| - 1], keep)
      case Err(e) => Err(e)
      case Ok(kept) =>
        match keep(xs[|xs| - 1])
        case Err(e) => Err(e)
        case Ok(hit) => Ok(if hit then kept + [xs[|xs| - 1]] else kept)
  }

  /** One step of the loop: the last element is tested once everything
      before it passed. */
  lemma FilterLast<T>(xs: seq<T>, keep: T -> Result<bool, string>)
    requires xs != []
    ensures var r := Filter(xs, keep);
      var init := Filter(xs[..|xs| - 1], keep);
      var last := keep(xs[|xs| - 1]);
      && (r.Err? <==> init.Err? || last.Err?)
      && (r.Ok? ==> r.value == if last.value then init.value + [xs[|xs| - 1]] else init.value)
  {
  }

  /** The filter fails exactly when the test fails on some element. */
  lemma {:induction false} FilterFails<T>(xs: seq<T>, keep: T -> Result<bool, string>)
    ensures Filter(xs, keep).Err? <==> exists i :: 0 <= i < |xs| && keep(xs[i]).Err?
  {
    if xs != [] {
      var init := xs[..|xs| - 1];
      FilterFails(init, keep);
      FilterLast(xs, keep);
      assert forall i :: 0 <= i < |init| ==> init[i] == xs[i];
      if exists i :: 0 <= i < |xs| && keep(xs[i]).Err? {
        var i :| 0 <= i < |xs| && keep(xs[i]).Err?;
        if i < |init| { assert keep(init[i]).Err?; }
      }
    }
  }

  /** What the filter keeps: exactly the elements the test accepts. */
  lemma {:induction false} FilterMembers<T>(xs: seq<T>, keep: T -> Result<bool, string>, x: T)
    requires Filter(xs, keep).Ok?
    ensures x in Filter(xs, keep).value <==> x in xs && keep(x) == Ok(true)
  {
    if xs != [] {
      var init := xs[..|xs| - 1];
      FilterLast(xs, keep);
      FilterMembers(init, keep, x);
      assert xs == init + [xs[|xs| - 1]];
    }
  }

  /** The filter keeps the input order: filtering a concatenation is
      filtering each part and concatenating. */
  lemma {:induction false} FilterAppend<T>(xs: seq<T>, ys: seq<T>, keep: T -> Result<bool, string>)
    requires Filter(xs + ys, keep).Ok?
    ensures Filter(xs, keep).Ok? && Filter(ys, keep).Ok?
    ensures Filter(xs + ys, keep).value == Filter(xs, keep).value + Filter(ys, keep).value
    decreases |ys|
  {
    if ys == [] {
      assert xs + ys == xs;
    } else {
      var yinit := ys[..|ys| - 1];
      assert (xs + ys)[..|xs + ys| - 1] == xs + yinit;
      assert (xs + ys)[|xs + ys| - 1] == ys[|ys| - 1];
      FilterLast(xs + ys, keep);
      FilterLast(ys, keep);
      FilterAppend(xs, yinit, keep);
    }
  }

  /** Once the filter fails on a prefix, it fails the same way on the
      whole sequence. */
  lemma FilterPrefixFails<T>(xs: seq<T>, n: nat, keep: T -> Result<bool, string>)
    requires n <= |xs| && Filter(xs[..n], keep).Err?
    ensures Filter(xs, keep) == Filter(xs[..n], keep)
  {
    assert xs == xs[..n] + xs[n..];
    FilterAppendFails(xs[..n], xs[n..], keep);
  }

  lemma {:induction false} FilterAppendFails<T>(xs: seq<T>, ys: seq<T>, keep: T -> Result<bool, string>)
    requires Filter(xs, keep).Err?
    ensures Filter(xs + ys, keep) == Filter(xs, keep)
    decreases |ys|
  {
    if ys == [] {
      assert xs + ys == xs;
    } else {
      assert (xs + ys)[..|xs + ys| - 1] == xs + ys[..|ys| - 1];
      FilterLast(xs + ys, keep);
      FilterAppendFails(xs, ys[..|ys| - 1], keep);
    }
  }

  /** The filter keeps nothing, without failing, exactly when every element
      was tested and rejected; so whether it does is independent of the
      order the elements come in. */
  lemma FilterNothing<T>(xs: seq<T>, keep: T -> Result<bool, string>)
    ensures Filter(xs, keep) == Ok([]) <==> forall i :: 0 <= i < |xs| ==> keep(xs[i]) == Ok(false)
  {
    FilterFails(xs, keep);
    var r := Filter(xs, keep);
    if r.Ok? {
      forall i | 0 <= i < |xs|
        ensures r.value == [] ==> keep(xs[i]) == Ok(false)
      {
        FilterMembers(xs, keep, xs[i]);
      }
      if r.value != [] {
        FilterMembers(xs, keep, r.value[0]);
      }
    }
  }

  /** Filtering depends only on what the test answers for the elements at
      hand: two tests that agree on them give the same result. */
  lemma {:induction false} FilterSameTest<T>(xs: seq<T>, keep: T -> Result<bool, string>, other: T -> Result<bool, string>)
    requires forall i :: 0 <= i < |xs| ==> keep(xs[i]) == other(xs[i])
    ensures Filter(xs, keep) == Filter(xs, other)
  {
    if xs != [] {
      var init := xs[..|xs| - 1];
      assert forall i :: 0 <= i < |init| ==> init[i] == xs[i];
      FilterSameTest(init, keep, other);
    }
  }

  /** The loop itself: each element is tested once, in order; accepted
      ones are appended, and the first error the test raises is returned
      at once. */
  method FilterLoop<T>(xs: seq<T>, keep: T -> Result<bool, string>) returns (r: Result<seq<T>, string>)
    ensures r == Filter(xs, keep)
  {
    var kept: seq<T> := [];
    var i := 0;
    while i < |xs|
      invariant 0 <= i <= |xs|
      invariant Filter(xs[..i], keep) == Ok(kept)
    {
      var hit := keep(xs[i]);
      assert xs[..i + 1][..i] == xs[..i];
      FilterLast(xs[..i + 1], keep);
      if hit.Err? {
        FilterPrefixFails(xs, i + 1, keep);
        return Err(hit.error);
      }
      if hit.value {
        kept := kept + [xs[i]];
      }
      i := i + 1;
    }
    assert xs[..|xs|] == xs;
    r := Ok(kept);
  }
}
