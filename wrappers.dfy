/** Option and Result, the two failure-carrying datatypes the model uses in place of
    Rust's `Option` and `anyhow::Result`. An error is carried as its message text. */
module Wrappers {

  datatype Option<+T> = None | Some(value: T) {
    predicate IsFailure() {
      None?
    }

    function PropagateFailure<U>(): Option<U>
      requires None?
    {
      None
    }

    function Extract(): T
      requires Some?
    {
      value
    }

    function GetOr(default: T): T {
      match this
      case Some(v) => v
      case None => default
    }
  }

  datatype Result<+T> = Ok(value: T) | Err(msg: string) {
    predicate IsFailure() {
      Err?
    }

    function PropagateFailure<U>(): Result<U>
      requires Err?
    {
      Err(msg)
    }

    function Extract(): T
      requires Ok?
    {
      value
    }
  }

  /** The `.context(...)` of anyhow: keeps a success, prefixes an error's message. */
  function WithContext<T>(r: Result<T>, context: string): Result<T> {
    match r
    case Ok(v) => Ok(v)
    case Err(m) => Err(context + ": " + m)
  }

  /** `collect::<Result<Vec<_>>>()` over `f` applied to each element: the results in
      order, or the error of the first element that fails. */
  function CollectAll<A, B>(f: A -> Result<B>, xs: seq<A>): Result<seq<B>> {
    if |xs| == 0 then Ok([])
    else
      var prev :- CollectAll(f, xs[..|xs| - 1]);
      var y :- f(xs[|xs| - 1]);
      Ok(prev + [y])
  }

  /** Collecting one more element that succeeds appends its result. */
  lemma CollectAllSnoc<A, B>(f: A -> Result<B>, xs: seq<A>, x: A)
    requires CollectAll(f, xs).Ok? && f(x).Ok?
    ensures CollectAll(f, xs + [x]) == Ok(CollectAll(f, xs).value + [f(x).value])
  {
    assert (xs + [x])[..|xs|] == xs;
  }

  /** A collected sequence has one result per element, each `f` of the element at its place. */
  lemma {:induction false} CollectAllElements<A, B>(f: A -> Result<B>, xs: seq<A>)
    requires CollectAll(f, xs).Ok?
    ensures |CollectAll(f, xs).value| == |xs|
    ensures forall k :: 0 <= k < |xs| ==> f(xs[k]) == Ok(CollectAll(f, xs).value[k])
  {
    if |xs| > 0 {
      CollectAllElements(f, xs[..|xs| - 1]);
    }
  }

  /** Collecting succeeds exactly when every element succeeds. */
  lemma {:induction false} CollectAllOk<A, B>(f: A -> Result<B>, xs: seq<A>)
    ensures CollectAll(f, xs).Ok? <==> forall k :: 0 <= k < |xs| ==> f(xs[k]).Ok?
  {
    if |xs| > 0 {
      var init := xs[..|xs| - 1];
      CollectAllOk(f, init);
      assert forall k :: 0 <= k < |init| ==> init[k] == xs[k];
    }
  }

  /** The error of a failed collection is the error of the first element that fails. */
  lemma {:induction false} CollectAllFirstError<A, B>(f: A -> Result<B>, xs: seq<A>, i: nat)
    requires i < |xs| && f(xs[i]).Err?
    requires forall k :: 0 <= k < i ==> f(xs[k]).Ok?
    ensures CollectAll(f, xs) == Err(f(xs[i]).msg)
  {
    var pre := xs[..i];
    assert forall k :: 0 <= k < |pre| ==> pre[k] == xs[k];
    CollectAllOk(f, pre);
    assert xs[..i + 1][..i] == pre;
    CollectAllStops(f, xs, i + 1);
  }

  /** Once a prefix fails to collect, the whole sequence fails with the same error. */
  lemma {:induction false} CollectAllStops<A, B>(f: A -> Result<B>, xs: seq<A>, i: nat)
    requires i <= |xs| && CollectAll(f, xs[..i]).Err?
    ensures CollectAll(f, xs) == CollectAll(f, xs[..i])
  {
    if i == |xs| {
      assert xs[..i] == xs;
    } else {
      var init := xs[..|xs| - 1];
      assert init[..i] == xs[..i];
      CollectAllStops(f, init, i);
    }
  }
}
