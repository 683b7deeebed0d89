/** Optional values (nullable columns, absent values) and the rounding done when a time is stored. */
module Options {
  datatype Option<+T> = None | Some(value: T)

  function Min(a: int, b: int): int { if a <= b then a else b }

  function Max(a: int, b: int): int { if a >= b then a else b }

  ghost predicate Distinct<T>(s: seq<T>) {
    forall i, j :: 0 <= i < j < |s| ==> s[i] != s[j]
  }

  /** The largest multiple of `g` not above `t`: what is left of a time stored with granularity `g`. */
  function Trunc(g: int, t: int): (r: int)
    requires 0 < g
    ensures t - g < r <= t
  {
    t / g * g
  }

  /** Storing a stored time again loses nothing more. */
  lemma TruncIdempotent(g: int, t: int)
    requires 0 < g
    ensures Trunc(g, Trunc(g, t)) == Trunc(g, t)
  {
    var r := Trunc(g, t);
    var d := r / g - t / g;
    assert r / g * g == r - r % g;
    assert d * g == -(r % g);
    NoMultipleBetween(d, g);
  }

  lemma NoMultipleBetween(d: int, g: int)
    requires 0 < g
    requires -g < d * g <= 0
    ensures d == 0
  {
  }
}
