/** Small sequence utilities shared by the player and game models. */
module Collections {

  datatype Option<+T> = None | Some(value: T) {

    /** The wrapped value, or `default` when there is none. */
    function GetOr(default: T): T {
      match this
      case Some(v) => v
      case None => default
    }
  }

  /** The set of elements of a sequence. */
  function Elems<T>(xs: seq<T>): set<T> {
    set x | x in xs
  }

  /** No element occurs twice. */
  predicate Distinct<T(==)>(xs: seq<T>) {
    forall i, j :: 0 <= i < j < |xs| ==> xs[i] != xs[j]
  }

  /**
   * The element a `for x in xs: if ok(x): sel = x` loop leaves in `sel`:
   * the last element of `xs` that satisfies `ok`, or None when none does.
   */
  function LastMatch<T>(xs: seq<T>, ok: T -> bool): (r: Option<T>)
    ensures r.Some? ==> r.value in xs && ok(r.value)
    ensures r.None? <==> forall k :: 0 <= k < |xs| ==> !ok(xs[k])
  {
    if xs == [] then None
    else if ok(xs[|xs| - 1]) then Some(xs[|xs| - 1])
    else LastMatch(xs[..|xs| - 1], ok)
  }

  /** The element found is the last one `ok` accepts: an accepted position holds it and none after it is accepted. */
  lemma {:induction false} LastMatchIsLast<T>(xs: seq<T>, ok: T -> bool)
    requires LastMatch(xs, ok).Some?
    ensures exists k :: 0 <= k < |xs| && xs[k] == LastMatch(xs, ok).value && ok(xs[k])
                        && forall j :: k < j < |xs| ==> !ok(xs[j])
  {
    var n := |xs| - 1;
    if ok(xs[n]) {
      assert xs[n] == LastMatch(xs, ok).value;
    } else {
      var front := xs[..n];
      LastMatchIsLast(front, ok);
      var k :| 0 <= k < |front| && front[k] == LastMatch(front, ok).value && ok(front[k])
               && forall j :: k < j < |front| ==> !ok(front[j]);
      assert xs[k] == front[k];
      assert forall j :: k < j < n ==> xs[j] == front[j];
    }
  }

  /** Extending the scanned prefix by one element: the step of the selection loops. */
  lemma LastMatchStep<T>(xs: seq<T>, j: nat, ok: T -> bool)
    requires j < |xs|
    ensures LastMatch(xs[..j + 1], ok) ==
            if ok(xs[j]) then Some(xs[j]) else LastMatch(xs[..j], ok)
  {
    assert xs[..j + 1][..j] == xs[..j];
  }

  /**
   * `list(set(xs))`: the distinct elements of `xs`, in an order the
   * model leaves unspecified (each step picks any remaining element).
   */
  method Dedupe<T(==)>(xs: seq<T>) returns (ys: seq<T>)
    ensures Distinct(ys)
    ensures forall x :: x in ys <==> x in xs
  {
    var rest := set x | x in xs;
    ys := [];
    while rest != {}
      invariant Distinct(ys)
      invariant forall x :: x in ys ==> x !in rest
      invariant forall x :: x in xs <==> x in ys || x in rest
      decreases rest
    {
      var x :| x in rest;
      ys := ys + [x];
      rest := rest - {x};
    }
  }
}
