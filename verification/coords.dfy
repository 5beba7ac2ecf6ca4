/**
 * Provider-independent pieces: the `Coord` value, the detection result object
 * every result factory fills in, the errors the pipeline raises, and the
 * flattening of per-item coordinate lists that every normaliser shares.
 */
module Coords {
  import opened Wrappers

  /** A point in pixel coordinates; negative offsets are passed through. */
  datatype Coord = Coord(x: int, y: int) {
    /** `Coord.__eq__`: component-wise equality. */
    predicate Equals(other: Coord)
      ensures Equals(other) <==> this == other
    {
      x == other.x && y == other.y
    }
  }

  /** What the pipeline raises instead of returning. */
  datatype Error =
    | EmptyCoords              // `min()` of an empty coordinate list (ValueError)
    | MissingKey(key: string)  // a required key absent from a response (KeyError)

  type CoordsResult = Result<seq<Coord>, Error>

  /** Appending a second list of coordinates; the first failure wins. */
  function Then(a: CoordsResult, b: CoordsResult): CoordsResult
  {
    if a.Err? then a else if b.Err? then b else Ok(a.value + b.value)
  }

  /**
   * The coordinates `f` yields for each item of `xs`, in order, as one list;
   * the failure of the first item that fails, if any (a generator stops at
   * the first exception and the list comprehension drains it).
   */
  function Gather<T>(xs: seq<T>, f: T -> CoordsResult): CoordsResult
  {
    if |xs| == 0 then Ok([])
    else Then(Gather(xs[..|xs| - 1], f), f(xs[|xs| - 1]))
  }

  /** One more item extends the gathered list by that item's coordinates. */
  lemma GatherSnoc<T>(xs: seq<T>, x: T, f: T -> CoordsResult)
    ensures Gather(xs + [x], f) == Then(Gather(xs, f), f(x))
  {
    assert (xs + [x])[..|xs|] == xs;
  }

  lemma ThenAssoc(a: CoordsResult, b: CoordsResult, c: CoordsResult)
    ensures Then(Then(a, b), c) == Then(a, Then(b, c))
  {
    if a.Ok? && b.Ok? && c.Ok? {
      assert (a.value + b.value) + c.value == a.value + (b.value + c.value);
    }
  }

  /** Gathering two lists in a row is gathering their concatenation. */
  lemma {:induction false} GatherAppend<T>(xs: seq<T>, ys: seq<T>, f: T -> CoordsResult)
    ensures Gather(xs + ys, f) == Then(Gather(xs, f), Gather(ys, f))
    decreases |ys|
  {
    if |ys| == 0 {
      assert xs + ys == xs;
      var g := Gather(xs, f);
      if g.Ok? { assert g.value + [] == g.value; }
    } else {
      var ys' := ys[..|ys| - 1];
      var y := ys[|ys| - 1];
      assert xs + ys == (xs + ys') + [y];
      assert ys == ys' + [y];
      GatherSnoc(xs + ys', y, f);
      GatherAppend(xs, ys', f);
      GatherSnoc(ys', y, f);
      ThenAssoc(Gather(xs, f), Gather(ys', f), f(y));
    }
  }

  /** Gathering succeeds exactly when no item fails. */
  lemma {:induction false} GatherOk<T>(xs: seq<T>, f: T -> CoordsResult)
    ensures Gather(xs, f).Ok? <==> forall i :: 0 <= i < |xs| ==> f(xs[i]).Ok?
  {
    if |xs| > 0 {
      var xs' := xs[..|xs| - 1];
      GatherOk(xs', f);
      assert forall i :: 0 <= i < |xs'| ==> xs'[i] == xs[i];
    }
  }

  /** When gathering a prefix fails, gathering the whole list fails the same way. */
  lemma {:induction false} GatherErrPrefix<T>(xs: seq<T>, k: nat, f: T -> CoordsResult)
    requires k <= |xs| && Gather(xs[..k], f).Err?
    ensures Gather(xs, f) == Gather(xs[..k], f)
    decreases |xs|
  {
    if k < |xs| {
      var xs' := xs[..|xs| - 1];
      assert xs'[..k] == xs[..k];
      GatherErrPrefix(xs', k, f);
    } else {
      assert xs[..k] == xs;
    }
  }

  /** The first item that fails, after a prefix that succeeds, decides the whole list. */
  lemma GatherStop<T>(xs: seq<T>, j: nat, f: T -> CoordsResult)
    requires j < |xs| && Gather(xs[..j], f).Ok? && f(xs[j]).Err?
    ensures Gather(xs, f) == f(xs[j])
  {
    assert xs[..j + 1] == xs[..j] + [xs[j]];
    GatherSnoc(xs[..j], xs[j], f);
    GatherErrPrefix(xs, j + 1, f);
  }

  /** Sum of `g` over the items. */
  function SumOf<T>(xs: seq<T>, g: T -> nat): nat
  {
    if |xs| == 0 then 0 else SumOf(xs[..|xs| - 1], g) + g(xs[|xs| - 1])
  }

  /** When each item yields `g(item)` coordinates, a successful gather yields their sum. */
  lemma {:induction false} GatherLength<T>(xs: seq<T>, f: T -> CoordsResult, g: T -> nat)
    requires forall x :: f(x).Ok? ==> |f(x).value| == g(x)
    ensures Gather(xs, f).Ok? ==> |Gather(xs, f).value| == SumOf(xs, g)
  {
    if |xs| > 0 {
      GatherLength(xs[..|xs| - 1], f, g);
    }
  }

  /**
   * A detection result: the image locator, the provider's raw response and
   * the coordinates normalised from it.  The three result classes of the
   * source are identical and share this one class.
   */
  class DetectionResult<D> {
    var uri: string
    var data: D
    var coords: seq<Coord>

    constructor (uri: string, data: D, coords: seq<Coord>)
      ensures this.uri == uri && this.data == data && this.coords == coords
    {
      this.uri := uri;
      this.data := data;
      this.coords := coords;
    }
  }
}
