/** Small shared vocabulary: an optional value (JavaScript's `T | null` or a
    `find` that may come back `undefined`), a result that is a value or a
    thrown error, `find` itself as a first-match search, and a maximum on
    integers. */
module Common {

  /** `None` stands for `null` / `undefined`. */
  datatype Option<+T> = None | Some(value: T)

  /** An outcome that is either a value or a thrown JavaScript error. */
  datatype Result<+R> = Success(value: R) | Failure(error: string)

  /** `xs.find(p)`: the first element satisfying `p`, or `None`. */
  function FindFirst<T>(xs: seq<T>, p: T -> bool): (r: Option<T>)
    ensures r.None? <==> forall i :: 0 <= i < |xs| ==> !p(xs[i])
    ensures r.Some? ==> p(r.value)
    ensures r.Some? ==> exists k :: 0 <= k < |xs| && xs[k] == r.value && forall j :: 0 <= j < k ==> !p(xs[j])
  {
    if |xs| == 0 then None
    else if p(xs[0]) then Some(xs[0])
    else
      var rest := FindFirst(xs[1..], p);
      assert forall i :: 1 <= i < |xs| ==> xs[i] == xs[1..][i - 1];
      rest
  }

  function Max(a: int, b: int): int {
    if a >= b then a else b
  }
}
