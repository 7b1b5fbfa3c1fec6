/** Small value types shared by every other module: the optional value that
    the source's partial translation functions return (`X | None`), and the
    two-variant tagged union that routes commands and events to one half of a
    composed decider (`Left`/`Right`). */
module Types {

  datatype Option<+T> = None | Some(value: T) {
    function GetOr(default: T): (r: T)
      ensures Some? ==> r == value
      ensures None? ==> r == default
    {
      match this
      case Some(v) => v
      case None => default
    }
  }

  /** Exactly one of `Left(value)` and `Right(value)` holds. */
  datatype Either<+A, +B> = Left(left: A) | Right(right: B)

  /** `map(f, xs)` of the source, materialised as a sequence. */
  function MapSeq<A, B>(f: A -> B, xs: seq<A>): (r: seq<B>)
    ensures |r| == |xs|
    ensures forall i :: 0 <= i < |xs| ==> r[i] == f(xs[i])
  {
    seq(|xs|, i requires 0 <= i < |xs| => f(xs[i]))
  }

  lemma {:induction false} MapSeqAppend<A, B>(f: A -> B, xs: seq<A>, ys: seq<A>)
    ensures MapSeq(f, xs + ys) == MapSeq(f, xs) + MapSeq(f, ys)
  {
    assert forall i :: 0 <= i < |xs + ys| ==> MapSeq(f, xs + ys)[i] == (MapSeq(f, xs) + MapSeq(f, ys))[i];
  }
}
