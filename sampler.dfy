/** The matrix catalog and the local draw sampler of the live-draw simulation
    (App.tsx, `startSimulation`, lines 202-224). */
module Sampler {
  import opened Types
  import opened Sorting

  /** How many main balls are drawn, their largest value, and the largest special
      ball (0 when the matrix has no special ball). */
  datatype MatrixConfig = MatrixConfig(mainCount: nat, mainMax: nat, specialMax: nat)

  /** A sampled draw: main balls and the optional special ball. */
  datatype Draw = Draw(numbers: seq<int>, special: Option<int>)

  /** The catalog. `Custom` matches no branch and keeps the defaults 6 of 1..45
      without a special ball. */
  function Catalog(t: LotteryType): (c: MatrixConfig)
    ensures 1 <= c.mainCount <= c.mainMax
  {
    match t
    case Lotto645 => MatrixConfig(6, 45, 0)
    case Lotto649 => MatrixConfig(6, 49, 0)
    case Powerball => MatrixConfig(5, 69, 26)
    case MegaMillions => MatrixConfig(5, 70, 25)
    case Custom => MatrixConfig(6, 45, 0)
  }

  predicate InRange(s: seq<int>, lo: int, hi: int) {
    forall i :: 0 <= i < |s| ==> lo <= s[i] <= hi
  }

  /** The distinct values of `s` in the order of their first occurrence. */
  function Dedup(s: seq<int>): (r: seq<int>)
    ensures Distinct(r)
    ensures forall x :: x in r <==> x in s
    ensures |r| <= |s|
  {
    if s == [] then []
    else
      var d := Dedup(s[..|s| - 1]);
      var last := s[|s| - 1];
      assert s == s[..|s| - 1] + [last];
      if last in d then d else d + [last]
  }

  /** The distinct values of a prefix form a prefix of the distinct values of the whole. */
  lemma {:induction false} DedupPrefix(s: seq<int>, j: nat)
    requires j <= |s|
    ensures Dedup(s[..j]) <= Dedup(s)
  {
    if j < |s| {
      var init := s[..|s| - 1];
      assert init[..j] == s[..j];
      DedupPrefix(init, j);
    } else {
      assert s[..j] == s;
    }
  }

  /** `Math.floor(r * max) + 1` for a random `r`. */
  function Ball(r: real, max: nat): int {
    (r * max as real).Floor + 1
  }

  /** A random number in `[0, 1)` scaled this way is a ball of `1..max`. */
  lemma BallInRange(r: real, max: nat)
    requires 0.0 <= r < 1.0 && max >= 1
    ensures 1 <= Ball(r, max) <= max
  {
    var x := r * max as real;
    assert 0.0 <= x;
    assert x < max as real by {
      assert (1.0 - r) * max as real > 0.0;
    }
  }

  /** The candidate balls produced from a run of random numbers. */
  function Balls(rs: seq<real>, max: nat): (r: seq<int>)
    requires forall i :: 0 <= i < |rs| ==> 0.0 <= rs[i] < 1.0
    requires max >= 1
    ensures |r| == |rs| && InRange(r, 1, max)
  {
    if rs == [] then []
    else
      BallInRange(rs[0], max);
      [Ball(rs[0], max)] + Balls(rs[1..], max)
  }

  /** The candidate balls produced by the oracle all lie in the matrix range, and
      it produces enough distinct ones for the rejection loop to finish. */
  predicate OracleCovers(c: MatrixConfig, candidates: seq<int>, specialCandidate: int) {
    InRange(candidates, 1, c.mainMax) &&
    c.mainCount <= |Dedup(candidates)| &&
    (c.specialMax > 0 ==> 1 <= specialCandidate <= c.specialMax)
  }

  /** The invariant every draw of matrix `c` satisfies. */
  predicate WellFormedDraw(c: MatrixConfig, d: Draw) {
    |d.numbers| == c.mainCount &&
    Distinct(d.numbers) &&
    InRange(d.numbers, 1, c.mainMax) &&
    Ascending(d.numbers) &&
    (d.special.Some? <==> c.specialMax > 0) &&
    (d.special.Some? ==> 1 <= d.special.value <= c.specialMax)
  }

  /** The draw the sampler produces for matrix `t`: the first `mainCount` distinct
      candidates, sorted, and the special candidate when the matrix has a special ball. */
  function Sampled(t: LotteryType, candidates: seq<int>, specialCandidate: int): Draw
    requires Catalog(t).mainCount <= |Dedup(candidates)|
  {
    var c := Catalog(t);
    Draw(SortAscending(Dedup(candidates)[..c.mainCount]),
         if c.specialMax > 0 then Some(specialCandidate) else None)
  }

  /** The rejection loop: keeps drawing candidates, pushing each one not already
      drawn, until `k` distinct balls are held. `used` is how many candidates it took. */
  method DrawMainBalls(candidates: seq<int>, k: nat) returns (balls: seq<int>, used: nat)
    requires k <= |Dedup(candidates)|
    ensures used <= |candidates|
    ensures balls == Dedup(candidates[..used]) && |balls| == k
    ensures forall j :: 0 <= j < used ==> |Dedup(candidates[..j])| < k
    ensures balls == Dedup(candidates)[..k]
  {
    balls, used := [], 0;
    assert candidates[..|candidates|] == candidates;
    while |balls| < k
      invariant used <= |candidates|
      invariant balls == Dedup(candidates[..used])
      invariant |balls| <= k
      invariant forall j :: 0 <= j < used ==> |Dedup(candidates[..j])| < k
      decreases |candidates| - used
    {
      var n := candidates[used];
      assert candidates[..used + 1] == candidates[..used] + [n];
      if n !in balls {
        balls := balls + [n];
      }
      used := used + 1;
    }
    DedupPrefix(candidates, used);
  }

  /** Every sampled draw satisfies the draw invariant of its matrix. */
  lemma SampledWellFormed(t: LotteryType, candidates: seq<int>, specialCandidate: int)
    requires OracleCovers(Catalog(t), candidates, specialCandidate)
    ensures WellFormedDraw(Catalog(t), Sampled(t, candidates, specialCandidate))
  {
    var c := Catalog(t);
    var balls := Dedup(candidates)[..c.mainCount];
    var d := Sampled(t, candidates, specialCandidate);
    assert Distinct(balls);
    SortKeepsDistinct(balls);
    forall i | 0 <= i < |d.numbers| ensures 1 <= d.numbers[i] <= c.mainMax {
      assert d.numbers[i] in SortAscending(balls);
      assert d.numbers[i] in Dedup(candidates);
    }
  }

  /** Samples one draw of matrix `t` from the oracle's candidates. */
  method SampleDraw(t: LotteryType, candidates: seq<int>, specialCandidate: int) returns (d: Draw)
    requires OracleCovers(Catalog(t), candidates, specialCandidate)
    ensures d == Sampled(t, candidates, specialCandidate)
    ensures WellFormedDraw(Catalog(t), d)
  {
    var c := Catalog(t);
    var balls, _ := DrawMainBalls(candidates, c.mainCount);
    var special := if c.specialMax > 0 then Some(specialCandidate) else None;
    d := Draw(SortAscending(balls), special);
    SampledWellFormed(t, candidates, specialCandidate);
  }
}
