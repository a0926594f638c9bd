/** The sequence builders of the numerical library that the wrapper calls (arange, range,
    repeat, tile), each with the element-wise description that the reshaping relies on,
    and the facts about integer division those descriptions need. */
module NumSeq {

  /** Quotient and remainder by a positive divisor are unique. */
  lemma DivModUnique(r: int, d: int, q: int, t: int)
    requires d > 0 && 0 <= t < d && r == q * d + t
    ensures r / d == q && r % d == t
  {
    var q', t' := r / d, r % d;
    assert r == q' * d + t';
    MulSub(q', q, d);
    if q' > q {
      MulMono(1, q' - q, d);
    } else if q' < q {
      MulMono(1, q - q', d);
    }
  }

  /** Taking one divisor away lowers the quotient by one and keeps the remainder. */
  lemma DivShift(k: int, d: int)
    requires d > 0 && k >= d
    ensures (k - d) / d + 1 == k / d && (k - d) % d == k % d
  {
    var q, t := (k - d) / d, (k - d) % d;
    assert k == (q + 1) * d + t;
    DivModUnique(k, d, q + 1, t);
  }

  /** Multiplication distributes over subtraction. */
  lemma MulSub(a: int, b: int, d: int)
    ensures (a - b) * d == a * d - b * d
  {
  }

  /** Multiplication is associative. */
  lemma MulAssoc(a: int, b: int, c: int)
    ensures a * b * c == a * (b * c)
  {
  }

  /** Multiplication by a non-negative factor is monotonic. */
  lemma MulMono(a: int, b: int, d: int)
    requires a <= b && d >= 0
    ensures a * d <= b * d
  {
    assert b * d - a * d == (b - a) * d;
  }

  /** A position below a*b has quotient by b below a. */
  lemma QuotientBound(r: nat, a: nat, b: nat)
    requires b > 0 && r < a * b
    ensures r / b < a
  {
    if r / b >= a {
      MulMono(a, r / b, b);
    }
  }

  /** numpy.arange(start, stop, step) for a positive step: start, start + step, ...,
      every value below stop. */
  function Arange(start: int, stop: int, step: int): seq<int>
    requires step > 0
    decreases stop - start
  {
    if start >= stop then [] else [start] + Arange(start + step, stop, step)
  }

  /** The k-th value of arange is start + k * step, every value is below stop, and the
      sequence stops at the first value that would reach stop. */
  lemma {:induction false} ArangeAt(start: int, stop: int, step: int)
    requires step > 0
    ensures forall k :: 0 <= k < |Arange(start, stop, step)| ==>
      Arange(start, stop, step)[k] == start + k * step < stop
    ensures start + |Arange(start, stop, step)| * step >= stop
    decreases stop - start
  {
    if start < stop {
      var r, r' := Arange(start, stop, step), Arange(start + step, stop, step);
      ArangeAt(start + step, stop, step);
      assert r == [start] + r';
      forall k | 0 < k < |r|
        ensures r[k] == start + k * step < stop
      {
        assert r[k] == r'[k - 1];
        MulSub(k, 1, step);
      }
      MulSub(|r|, 1, step);
    }
  }

  /** arange yields exactly n values when the n-th would be the first to reach stop. */
  lemma ArangeLength(start: int, stop: int, step: int, n: nat)
    requires step > 0
    requires start + n * step >= stop
    requires n > 0 ==> start + (n - 1) * step < stop
    ensures |Arange(start, stop, step)| == n
  {
    var r := Arange(start, stop, step);
    ArangeAt(start, stop, step);
    if |r| < n {
      MulMono(|r|, n - 1, step);
    }
  }

  /** Python's range(n). */
  function Range(n: nat): (r: seq<int>)
    ensures |r| == n && forall k :: 0 <= k < n ==> r[k] == k
  {
    ArangeAt(0, n, 1);
    ArangeLength(0, n, 1, n);
    Arange(0, n, 1)
  }

  /** numpy.repeat(s, m): each element of s, m times in a row (tiled m times). */
  function Repeat<T>(s: seq<T>, m: nat): seq<T>
  {
    if s == [] then [] else Tile([s[0]], m) + Repeat(s[1..], m)
  }

  /** repeat(s, m) has m entries per element of s. */
  lemma {:induction false} RepeatLength<T>(s: seq<T>, m: nat)
    ensures |Repeat(s, m)| == |s| * m
  {
    if s != [] {
      RepeatLength(s[1..], m);
      TileLength([s[0]], m);
      MulSub(|s|, 1, m);
    }
  }

  /** The first m positions of repeat(s, m) hold the first element of s. */
  lemma RepeatHead<T>(s: seq<T>, m: nat, k: nat)
    requires s != [] && k < m
    ensures k < |Repeat(s, m)| && Repeat(s, m)[k] == s[0] && k / m == 0
  {
    TileLength([s[0]], m);
    TileIndex([s[0]], m, k);
    DivModUnique(k, m, 0, k);
  }

  /** Past the first m positions, repeat(s, m) continues as repeat of the rest of s. */
  lemma RepeatStep<T>(s: seq<T>, m: nat, k: nat)
    requires s != [] && m <= k < m + |Repeat(s[1..], m)|
    ensures k < |Repeat(s, m)| && Repeat(s, m)[k] == Repeat(s[1..], m)[k - m]
  {
    TileLength([s[0]], m);
    assert |Tile([s[0]], m)| == m;
  }

  /** Position k of repeat(s, m) holds element k div m of s. */
  lemma {:induction false} RepeatIndex<T>(s: seq<T>, m: nat, k: nat)
    requires k < |s| * m
    ensures |Repeat(s, m)| == |s| * m && k / m < |s| && Repeat(s, m)[k] == s[k / m]
  {
    RepeatLength(s, m);
    QuotientBound(k, |s|, m);
    if s != [] && m > 0 {
      if k < m {
        RepeatHead(s, m, k);
      } else {
        RepeatLength(s[1..], m);
        MulSub(|s|, 1, m);
        DivShift(k, m);
        RepeatStep(s, m, k);
        RepeatIndex(s[1..], m, k - m);
      }
    }
  }

  /** Every position of repeat(s, m): position k holds element k div m of s. */
  lemma RepeatAt<T>(s: seq<T>, m: nat)
    ensures |Repeat(s, m)| == |s| * m
    ensures forall k :: 0 <= k < |s| * m ==> k / m < |s| && Repeat(s, m)[k] == s[k / m]
  {
    RepeatLength(s, m);
    forall k | 0 <= k < |s| * m {
      RepeatIndex(s, m, k);
    }
  }

  /** Position k of repeat(range(n), m) holds k div m, a value below n. */
  lemma RepeatRangeAt(n: nat, m: nat, k: nat)
    requires k < n * m
    ensures k < |Repeat(Range(n), m)| && Repeat(Range(n), m)[k] == k / m < n
  {
    RepeatIndex(Range(n), m, k);
  }

  /** numpy.tile(s, n) for a one-dimensional s: n copies of s one after another. */
  function Tile<T>(s: seq<T>, n: nat): seq<T>
  {
    if n == 0 then [] else s + Tile(s, n - 1)
  }

  /** tile(s, n) has n copies of every element of s. */
  lemma {:induction false} TileLength<T>(s: seq<T>, n: nat)
    ensures |Tile(s, n)| == |s| * n
  {
    if n > 0 {
      TileLength(s, n - 1);
      MulSub(n, 1, |s|);
    }
  }

  /** tile(repeat(s, m), n) has n * |s| * m entries. */
  lemma TileRepeatLength<T>(s: seq<T>, m: nat, n: nat)
    ensures |Tile(Repeat(s, m), n)| == n * |s| * m
  {
    RepeatLength(s, m);
    TileLength(Repeat(s, m), n);
    MulAssoc(n, |s|, m);
  }

  /** Position k of tile(s, n) holds element k mod |s| of s. */
  lemma {:induction false} TileIndex<T>(s: seq<T>, n: nat, k: nat)
    requires k < |s| * n
    ensures |Tile(s, n)| == |s| * n && Tile(s, n)[k] == s[k % |s|]
  {
    TileLength(s, n);
    if n > 0 {
      var rest := Tile(s, n - 1);
      assert Tile(s, n) == s + rest;
      if k < |s| {
        DivModUnique(k, |s|, 0, k);
      } else {
        MulSub(n, 1, |s|);
        TileIndex(s, n - 1, k - |s|);
        DivShift(k, |s|);
      }
    }
  }

  /** Every position of tile(s, n): position k holds element k mod |s| of s. */
  lemma TileAt<T>(s: seq<T>, n: nat)
    ensures |Tile(s, n)| == |s| * n
    ensures forall k :: 0 <= k < |s| * n ==> Tile(s, n)[k] == s[k % |s|]
  {
    TileLength(s, n);
    forall k | 0 <= k < |s| * n
      ensures Tile(s, n)[k] == s[k % |s|]
    {
      TileIndex(s, n, k);
    }
  }
}
