/** Small result types and integer helpers shared by every module. */
module Common {
  datatype Option<+T> = None | Some(value: T)

  datatype Result<+T, +E> = Ok(value: T) | Err(error: E)

  // Durations and instants are integers counted in nanoseconds, as Go's time.Duration is.
  const SECOND := 1_000_000_000

  function Min(a: int, b: int): int {
    if a < b then a else b
  }

  function Max(a: int, b: int): int {
    if a < b then b else a
  }

  function Sum(counts: seq<int>): int {
    if counts == [] then 0 else Sum(counts[..|counts| - 1]) + counts[|counts| - 1]
  }

  lemma {:induction false} SumUpdate(counts: seq<int>, k: nat, d: int)
    requires k < |counts|
    ensures Sum(counts[k := counts[k] + d]) == Sum(counts) + d
  {
    var n := |counts| - 1;
    if k < n {
      SumUpdate(counts[..n], k, d);
      assert counts[k := counts[k] + d][..n] == counts[..n][k := counts[k] + d];
    } else {
      assert counts[k := counts[k] + d][..n] == counts[..n];
    }
  }

  lemma QuotientBound(k: nat, unit: int, total: int)
    requires unit > 0 && k * unit <= total
    ensures k <= total / unit
  {
    var q := total / unit;
    assert total < (q + 1) * unit;
    if k >= q + 1 {
      MulMono(q + 1, k, unit);
    }
  }

  lemma MulMono(a: int, b: int, unit: int)
    requires a <= b && unit > 0
    ensures a * unit <= b * unit
  { }
}
