/** Shared result type.  A solver step that panics in the program (an
    `unwrap` or `expect` on bad input, an index past the end of a vector)
    yields `None` here; a step that succeeds yields `Some`. */
module Wrappers {

  datatype Option<+T> = None | Some(value: T) {

    /** The value, or `default` when there is none (Rust's `unwrap_or`). */
    function GetOr(default: T): T {
      match this
      case Some(v) => v
      case None => default
    }
  }

  /** Every element mapped by `f`, as collecting an iterator of `unwrap`ed
      or `expect`ed results does: one failure makes the whole collect fail,
      and otherwise there is one result per element, in order. */
  function All<T, U>(f: T -> Option<U>, xs: seq<T>): (r: Option<seq<U>>)
    ensures r.Some? <==> forall k :: 0 <= k < |xs| ==> f(xs[k]).Some?
    ensures r.Some? ==> |r.value| == |xs|
    ensures r.Some? ==> forall k :: 0 <= k < |xs| ==> f(xs[k]) == Some(r.value[k])
  {
    if xs == [] then Some([])
    else match (f(xs[0]), All(f, xs[1..]))
      case (Some(y), Some(rest)) => Some([y] + rest)
      case _ => None
  }

  /** `All` on a two-element sequence whose elements both map to values. */
  lemma AllOfPair<T, U>(f: T -> Option<U>, x: T, y: T, u: U, v: U)
    requires f(x) == Some(u) && f(y) == Some(v)
    ensures All(f, [x, y]) == Some([u, v])
  {
    assert [x, y][1..] == [y];
    assert f([y][0]) == Some(v);
    assert All(f, [y][1..]) == Some([]);
    assert [v] + [] == [v];
    assert All(f, [y]) == Some([v]);
    assert [u] + [v] == [u, v];
  }
}
