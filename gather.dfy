/**
  * The "collect until the first failure" loop both FCA parsers are built
  * from: each item yields nothing, a value, or an error; the values are kept
  * in order and the first error ends the walk.
  */
module Gathering {
  import opened Wrappers
  import opened Seqs

  /** An item whose step raised. */
  predicate Fails<T, E>(o: Option<Result<T, E>>) {
    o.Some? && o.value.Err?
  }

  /** The values of the steps over `xs`, in order, or the first error. */
  function Gather<S, T, E>(xs: seq<S>, step: S -> Option<Result<T, E>>): Result<seq<T>, E> {
    if xs == [] then Ok([])
    else
      match Gather(xs[..|xs| - 1], step)
      case Err(e) => Err(e)
      case Ok(vals) =>
        match step(xs[|xs| - 1])
        case None => Ok(vals)
        case Some(Err(e)) => Err(e)
        case Some(Ok(v)) => Ok(vals + [v])
  }

  /** The items whose step yields something, in order. */
  function Kept<S, T, E>(xs: seq<S>, step: S -> Option<Result<T, E>>): seq<S> {
    if xs == [] then []
    else Kept(xs[..|xs| - 1], step) + (if step(xs[|xs| - 1]).Some? then [xs[|xs| - 1]] else [])
  }

  /** Once a prefix has failed, the rest of the items are never looked at. */
  lemma {:induction false} GatherErrPersists<S, T, E>(xs: seq<S>, n: nat, step: S -> Option<Result<T, E>>)
    requires n <= |xs| && Gather(xs[..n], step).Err?
    ensures Gather(xs, step) == Gather(xs[..n], step)
    decreases |xs| - n
  {
    if n == |xs| {
      assert xs[..n] == xs;
    } else {
      assert xs[..n + 1][..n] == xs[..n];
      GatherErrPersists(xs, n + 1, step);
    }
  }

  /** The walk succeeds exactly when no item's step fails. */
  lemma {:induction false} GatherOk<S, T, E>(xs: seq<S>, step: S -> Option<Result<T, E>>)
    ensures Gather(xs, step).Ok? <==> forall k :: 0 <= k < |xs| ==> !Fails(step(xs[k]))
  {
    if xs != [] {
      var init := xs[..|xs| - 1];
      GatherOk(init, step);
      assert forall k :: 0 <= k < |init| ==> init[k] == xs[k];
    }
  }

  /** When the walk fails, its error is that of the first failing item. */
  lemma {:induction false} GatherFirstError<S, T, E>(xs: seq<S>, step: S -> Option<Result<T, E>>)
    requires Gather(xs, step).Err?
    ensures exists k ::
              0 <= k < |xs| && step(xs[k]) == Some(Err(Gather(xs, step).error))
              && forall j :: 0 <= j < k ==> !Fails(step(xs[j]))
  {
    var init := xs[..|xs| - 1];
    GatherOk(init, step);
    assert forall j :: 0 <= j < |init| ==> init[j] == xs[j];
    if Gather(init, step).Err? {
      GatherFirstError(init, step);
      var k :| 0 <= k < |init| && step(init[k]) == Some(Err(Gather(init, step).error))
        && forall j :: 0 <= j < k ==> !Fails(step(init[j]));
      assert xs[k] == init[k];
    } else {
      assert step(xs[|xs| - 1]) == Some(Err(Gather(xs, step).error));
    }
  }

  /** A successful walk holds one value per kept item, in the items' order. */
  lemma {:induction false} GatherOrder<S, T, E>(xs: seq<S>, step: S -> Option<Result<T, E>>)
    requires Gather(xs, step).Ok?
    ensures |Gather(xs, step).value| == |Kept(xs, step)|
    ensures forall k :: 0 <= k < |Kept(xs, step)| ==> step(Kept(xs, step)[k]) == Some(Ok(Gather(xs, step).value[k]))
  {
    if xs != [] {
      GatherOrder(xs[..|xs| - 1], step);
    }
  }

  /** A second step that agrees with the first wherever the first does not fail gives the same successful walk. */
  lemma {:induction false} GatherAgree<S, T, E>(xs: seq<S>, step: S -> Option<Result<T, E>>, other: S -> Option<Result<T, E>>)
    requires forall x :: !Fails(step(x)) ==> other(x) == step(x)
    requires Gather(xs, step).Ok?
    ensures Gather(xs, other) == Gather(xs, step)
  {
    if xs != [] {
      GatherAgree(xs[..|xs| - 1], step, other);
    }
  }

  /** When every item yields something, every item is kept. */
  lemma {:induction false} KeptAll<S, T, E>(xs: seq<S>, step: S -> Option<Result<T, E>>)
    requires forall k :: 0 <= k < |xs| ==> step(xs[k]).Some?
    ensures Kept(xs, step) == xs
  {
    if xs != [] {
      var init := xs[..|xs| - 1];
      assert forall k :: 0 <= k < |init| ==> init[k] == xs[k];
      KeptAll(init, step);
    }
  }

  /**
    * What the walk leaves behind when each successful step has a side effect
    * `eff`: the effects of the steps, in order, up to the first error; the
    * failing step and everything after it leave nothing.
    */
  function Effects<S, T, E, W>(xs: seq<S>, step: S -> Option<Result<T, E>>, eff: (S, T) -> seq<W>): seq<W> {
    if xs == [] then []
    else
      var init := xs[..|xs| - 1];
      var x := xs[|xs| - 1];
      if Gather(init, step).Err? then Effects(init, step, eff)
      else
        match step(x)
        case Some(Ok(v)) => Effects(init, step, eff) + eff(x, v)
        case _ => Effects(init, step, eff)
  }

  /** After a failing prefix nothing more is done. */
  lemma {:induction false} EffectsErrPersists<S, T, E, W>(xs: seq<S>, n: nat, step: S -> Option<Result<T, E>>, eff: (S, T) -> seq<W>)
    requires n <= |xs| && Gather(xs[..n], step).Err?
    ensures Effects(xs, step, eff) == Effects(xs[..n], step, eff)
    decreases |xs| - n
  {
    if n == |xs| {
      assert xs[..n] == xs;
    } else {
      assert xs[..n + 1][..n] == xs[..n];
      EffectsErrPersists(xs, n + 1, step, eff);
    }
  }

  /** The effects of the items `ks` with values `vs`, item by item. */
  function EffectsOf<S, T, W>(ks: seq<S>, vs: seq<T>, eff: (S, T) -> seq<W>): seq<W>
    requires |ks| == |vs|
  {
    if ks == [] then []
    else EffectsOf(ks[..|ks| - 1], vs[..|vs| - 1], eff) + eff(ks[|ks| - 1], vs[|vs| - 1])
  }

  /** A successful walk leaves the effects of every kept item with its value, in order. */
  lemma {:induction false} EffectsOk<S, T, E, W>(xs: seq<S>, step: S -> Option<Result<T, E>>, eff: (S, T) -> seq<W>)
    requires Gather(xs, step).Ok?
    ensures |Gather(xs, step).value| == |Kept(xs, step)|
    ensures Effects(xs, step, eff) == EffectsOf(Kept(xs, step), Gather(xs, step).value, eff)
  {
    GatherOrder(xs, step);
    if xs != [] {
      var init := xs[..|xs| - 1];
      var x := xs[|xs| - 1];
      EffectsOk(init, step, eff);
      var ks, vs := Kept(init, step), Gather(init, step).value;
      if step(x).Some? {
        assert step(x).value.Ok?;
        var v := step(x).value.value;
        assert Kept(xs, step)[..|ks|] == ks;
        assert Gather(xs, step).value[..|vs|] == vs;
      } else {
        assert Kept(xs, step) == ks;
        assert Gather(xs, step).value == vs;
        assert Effects(xs, step, eff) == Effects(init, step, eff);
      }
    }
  }

  /** A failed walk leaves exactly the effects of the items before the first failing one, all of which succeeded. */
  lemma {:induction false} EffectsErr<S, T, E, W>(xs: seq<S>, step: S -> Option<Result<T, E>>, eff: (S, T) -> seq<W>)
    requires Gather(xs, step).Err?
    ensures exists k ::
              0 <= k < |xs| && step(xs[k]) == Some(Err(Gather(xs, step).error))
              && Gather(xs[..k], step).Ok?
              && Effects(xs, step, eff) == Effects(xs[..k], step, eff)
  {
    var init := xs[..|xs| - 1];
    if Gather(init, step).Err? {
      EffectsErr(init, step, eff);
      var k :| 0 <= k < |init| && step(init[k]) == Some(Err(Gather(init, step).error))
        && Gather(init[..k], step).Ok?
        && Effects(init, step, eff) == Effects(init[..k], step, eff);
      assert init[..k] == xs[..k];
    } else {
      assert xs[..|init|] == init;
    }
  }

  /** One more item after a successful walk that it does not end: its value, if any, and its effects are added. */
  lemma GatherSnocOk<S, T, E, W>(xs: seq<S>, x: S, step: S -> Option<Result<T, E>>, eff: (S, T) -> seq<W>)
    requires Gather(xs, step).Ok? && !Fails(step(x))
    ensures Gather(xs + [x], step).Ok?
    ensures Gather(xs + [x], step).value
         == Gather(xs, step).value + (if step(x).Some? then [step(x).value.value] else [])
    ensures Effects(xs + [x], step, eff)
         == Effects(xs, step, eff) + (if step(x).Some? then eff(x, step(x).value.value) else [])
  {
    assert (xs + [x])[..|xs|] == xs;
  }

  /** One more item after a successful walk that fails: its error ends the walk and it has no effect. */
  lemma GatherSnocErr<S, T, E, W>(xs: seq<S>, x: S, step: S -> Option<Result<T, E>>, eff: (S, T) -> seq<W>)
    requires Gather(xs, step).Ok? && Fails(step(x))
    ensures Gather(xs + [x], step).Err? && Gather(xs + [x], step).error == step(x).value.error
    ensures Effects(xs + [x], step, eff) == Effects(xs, step, eff)
  {
    assert (xs + [x])[..|xs|] == xs;
  }

  /** A failing prefix decides the whole walk and everything it does. */
  lemma PrefixErr<S, T, E, W>(pre: seq<S>, xs: seq<S>, step: S -> Option<Result<T, E>>, eff: (S, T) -> seq<W>)
    requires pre <= xs && Gather(pre, step).Err?
    ensures Gather(xs, step) == Gather(pre, step)
    ensures Effects(xs, step, eff) == Effects(pre, step, eff)
  {
    assert xs[..|pre|] == pre;
    GatherErrPersists(xs, |pre|, step);
    EffectsErrPersists(xs, |pre|, step, eff);
  }

  /** When every item yields something, a successful walk holds one value per item and leaves every item's effects. */
  lemma AllYieldOk<S, T, E, W>(xs: seq<S>, step: S -> Option<Result<T, E>>, eff: (S, T) -> seq<W>)
    requires forall k :: 0 <= k < |xs| ==> step(xs[k]).Some?
    requires Gather(xs, step).Ok?
    ensures |Gather(xs, step).value| == |xs|
    ensures forall k :: 0 <= k < |xs| ==> step(xs[k]) == Some(Ok(Gather(xs, step).value[k]))
    ensures Effects(xs, step, eff) == EffectsOf(xs, Gather(xs, step).value, eff)
  {
    KeptAll(xs, step);
    GatherOrder(xs, step);
    EffectsOk(xs, step, eff);
  }

  /**
    * When every item yields something, a failed walk fails with the first
    * failing item's error, after every earlier item succeeded, and leaves
    * the effects of exactly those earlier items.
    */
  lemma AllYieldErr<S, T, E, W>(xs: seq<S>, step: S -> Option<Result<T, E>>, eff: (S, T) -> seq<W>)
    requires forall k :: 0 <= k < |xs| ==> step(xs[k]).Some?
    requires Gather(xs, step).Err?
    ensures exists k, done: seq<T> ::
              && 0 <= k < |xs| && |done| == k
              && step(xs[k]) == Some(Err(Gather(xs, step).error))
              && (forall j :: 0 <= j < k ==> step(xs[j]) == Some(Ok(done[j])))
              && Effects(xs, step, eff) == EffectsOf(xs[..k], done, eff)
  {
    EffectsErr(xs, step, eff);
    var k :| 0 <= k < |xs| && step(xs[k]) == Some(Err(Gather(xs, step).error))
      && Gather(xs[..k], step).Ok?
      && Effects(xs, step, eff) == Effects(xs[..k], step, eff);
    var before := xs[..k];
    assert forall j :: 0 <= j < k ==> step(before[j]).Some? by {
      forall j | 0 <= j < k ensures step(before[j]).Some? {
        assert before[j] == xs[j];
      }
    }
    AllYieldOk(before, step, eff);
    var done := Gather(before, step).value;
    assert forall j :: 0 <= j < k ==> step(xs[j]) == Some(Ok(done[j])) by {
      forall j | 0 <= j < k ensures step(xs[j]) == Some(Ok(done[j])) {
        assert before[j] == xs[j];
      }
    }
    assert Effects(xs, step, eff) == EffectsOf(before, done, eff);
  }
}
