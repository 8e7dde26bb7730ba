/** The three functions of Python's `random` module the labyrinths use. Only
    what each promises about its result is modelled: which value comes out is
    left open, and no distribution is assumed. */
module Randomness {
  import opened Wrappers

  /** `randrange(n)`: some integer in `[0, n)`. Python raises `ValueError`
      for an empty range, so callers must give a positive bound. */
  method RandRange(n: int) returns (r: int)
    requires n > 0
    ensures 0 <= r < n
  {
    r :| 0 <= r < n;
  }

  /** `choice(xs)`: some element of `xs`; `None` stands for the `IndexError`
      Python raises on an empty list. */
  method Choice<T>(xs: seq<T>) returns (r: Option<T>)
    ensures r.None? <==> xs == []
    ensures r.Some? ==> r.value in xs
  {
    if xs == [] {
      r := None;
    } else {
      var i := RandRange(|xs|);
      r := Some(xs[i]);
    }
  }

  /** `shuffle(a)`: the Fisher-Yates shuffle Python performs in place, walking
      from the last index down and swapping each entry with a random one at or
      before it. */
  method Shuffle<T>(a: array<T>)
    modifies a
    ensures multiset(a[..]) == multiset(old(a[..]))
  {
    var i := a.Length - 1;
    while i >= 1
      invariant -1 <= i < a.Length || a.Length == 0
      invariant multiset(a[..]) == multiset(old(a[..]))
      decreases i
    {
      var j := RandRange(i + 1);
      a[i], a[j] := a[j], a[i];
      i := i - 1;
    }
  }
}
