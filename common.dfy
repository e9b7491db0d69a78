/** Vector helpers shared by the bookkeeping layer: Eigen vectors are
    modelled as `seq<real>`, and the reductions the solver applies to them
    (`sum()`, the L-infinity norm) as recursive functions. */
module Common {

  datatype Option<+T> = None | Some(value: T)

  /** The error result that replaces the `std::exit` paths of the setters. */
  datatype Outcome<+E> = Pass | Fail(error: E)

  /** `v.sum()`, folded from the back so that a loop adding `v[i]` in
      order keeps `acc == Sum(v[..i])`. */
  function Sum(v: seq<real>): real
  {
    if |v| == 0 then 0.0 else Sum(v[..|v| - 1]) + v[|v| - 1]
  }

  lemma SumPrefixStep(v: seq<real>, i: nat)
    requires i < |v|
    ensures Sum(v[..i + 1]) == Sum(v[..i]) + v[i]
  {
    assert v[..i + 1][..i] == v[..i];
  }

  lemma {:induction false} SumAppend(a: seq<real>, b: seq<real>)
    ensures Sum(a + b) == Sum(a) + Sum(b)
  {
    if |b| == 0 {
      assert a + b == a;
    } else {
      assert (a + b)[..|a + b| - 1] == a + b[..|b| - 1];
      SumAppend(a, b[..|b| - 1]);
    }
  }

  lemma {:induction false} SumNonNegative(v: seq<real>)
    requires forall i | 0 <= i < |v| :: v[i] >= 0.0
    ensures Sum(v) >= 0.0
  {
    if |v| > 0 {
      SumNonNegative(v[..|v| - 1]);
    }
  }

  lemma {:induction false} SumZero(v: seq<real>)
    requires forall i | 0 <= i < |v| :: v[i] == 0.0
    ensures Sum(v) == 0.0
  {
    if |v| > 0 {
      SumZero(v[..|v| - 1]);
    }
  }

  predicate NonNegative(v: seq<real>)
  {
    forall i | 0 <= i < |v| :: v[i] >= 0.0
  }

  predicate AllZero(v: seq<real>)
  {
    forall i | 0 <= i < |v| :: v[i] == 0.0
  }

  /** A sum of non-negative terms vanishes exactly when every term does. */
  lemma {:induction false} SumZeroIff(v: seq<real>)
    requires NonNegative(v)
    ensures Sum(v) >= 0.0
    ensures Sum(v) == 0.0 <==> AllZero(v)
  {
    if |v| > 0 {
      var init := v[..|v| - 1];
      assert NonNegative(init) by {
        forall i | 0 <= i < |init| ensures init[i] >= 0.0 {
          assert init[i] == v[i];
        }
      }
      SumZeroIff(init);
      if Sum(v) == 0.0 {
        forall i | 0 <= i < |v| ensures v[i] == 0.0 {
          if i < |v| - 1 {
            assert init[i] == v[i];
          }
        }
      }
      if AllZero(v) {
        assert AllZero(init) by {
          forall i | 0 <= i < |init| ensures init[i] == 0.0 {
            assert init[i] == v[i];
          }
        }
      }
    }
  }

  lemma AllZeroAppend(a: seq<real>, b: seq<real>)
    ensures AllZero(a + b) <==> AllZero(a) && AllZero(b)
  {
    if AllZero(a + b) {
      assert forall i | 0 <= i < |a| :: a[i] == (a + b)[i];
      assert forall i | 0 <= i < |b| :: b[i] == (a + b)[|a| + i];
    }
  }

  lemma NonNegativeAppend(a: seq<real>, b: seq<real>)
    requires NonNegative(a) && NonNegative(b)
    ensures NonNegative(a + b)
  {
  }

  /** A square is never negative and vanishes only at zero; `t` names the
      product so that callers pass `x * x` and keep reasoning about it
      linearly. */
  lemma SquareVanishes(x: real, t: real)
    requires t == x * x
    ensures t >= 0.0
    ensures t == 0.0 <==> x == 0.0
  {
    if x > 0.0 {
      calc { t; == x * x; > 0.0 * x; == 0.0; }
    } else if x < 0.0 {
      calc { t; == (-x) * (-x); > 0.0 * (-x); == 0.0; }
    } else {
      calc { t; == x * x; == 0.0 * x; == 0.0; }
    }
  }

  /** A product of two positive reals is positive; `p` names the product
      as in `SquareVanishes`. */
  lemma ProductPositive(a: real, b: real, p: real)
    requires a > 0.0 && b > 0.0 && p == a * b
    ensures p > 0.0
  {
    calc { p; == a * b; > 0.0 * b; == 0.0; }
  }

  /** An entry that adds a squared term to a non-negative error only when a
      switch is on vanishes exactly when the error does and, with the switch
      on, the square does too. */
  lemma PenalisedVanishes(e: real, on: bool, t: real)
    requires e >= 0.0 && t >= 0.0
    ensures e + (if on then t else 0.0) >= 0.0
    ensures e + (if on then t else 0.0) == 0.0 <==> e == 0.0 && (on ==> t == 0.0)
  {
  }

  function Abs(x: real): real
  {
    if x < 0.0 then -x else x
  }

  /** `v.lpNorm<Eigen::Infinity>()`, with the empty vector's norm taken as 0. */
  function LInfNorm(v: seq<real>): (r: real)
    ensures r >= 0.0
    ensures forall i | 0 <= i < |v| :: Abs(v[i]) <= r
    ensures r == 0.0 || exists i | 0 <= i < |v| :: Abs(v[i]) == r
  {
    if |v| == 0 then 0.0
    else
      var rest := LInfNorm(v[..|v| - 1]);
      assert forall i | 0 <= i < |v| - 1 :: v[..|v| - 1][i] == v[i];
      if Abs(v[|v| - 1]) > rest then Abs(v[|v| - 1]) else rest
  }

  /** A vector of `n` zeros, what `setZero()` leaves behind. */
  function Zeros(n: nat): (r: seq<real>)
    ensures |r| == n && forall i | 0 <= i < n :: r[i] == 0.0
  {
    seq(n, i => 0.0)
  }

  /** Position of the first `x` in `s`, the lookup behind the event index
      tables ("which impulse follows time stage i"). */
  function FindIndex(s: seq<nat>, x: nat): (r: Option<nat>)
    ensures r.Some? ==> r.value < |s| && s[r.value] == x
    ensures r.Some? ==> forall k | 0 <= k < r.value :: s[k] != x
    ensures r.None? <==> forall k | 0 <= k < |s| :: s[k] != x
  {
    if |s| == 0 then None
    else if s[0] == x then Some(0)
    else
      match FindIndex(s[1..], x)
      case None => None
      case Some(k) => Some(k + 1)
  }

  predicate StrictlyIncreasing(s: seq<nat>)
  {
    forall j, k | 0 <= j < k < |s| :: s[j] < s[k]
  }

  /** In a strictly increasing table every entry is found at its own place. */
  lemma FindIndexOfEntry(s: seq<nat>, k: nat)
    requires StrictlyIncreasing(s) && k < |s|
    ensures FindIndex(s, s[k]) == Some(k)
  {
  }

  /** `n` copies of `x`. */
  function Repeat<T>(x: T, n: nat): (r: seq<T>)
    ensures |r| == n && forall i | 0 <= i < n :: r[i] == x
  {
    seq(n, i => x)
  }
}
