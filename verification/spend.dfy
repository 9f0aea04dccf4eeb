/** The spend rule: a direction gate combined with an absolute-or-percentage threshold. */
module Spend {

  /** The run's configuration, passed explicitly rather than read from the
      environment. `spendAbs` is in cents and `spendPct` in hundredths of a
      percent, so both thresholds keep two decimals; `direction` is the
      already lower-cased direction text ("up", "down" or "both"). */
  datatype Config = Config(spendAbs: int, spendPct: int, direction: string)

  /** The defaults: $20, 20 %, "up". */
  const Defaults: Config := Config(2000, 2000, "up")

  function Abs(x: int): (a: nat)
    ensures a == x || a == -x
  {
    if x < 0 then -x else x
  }

  /** Quotient and remainder of `n / d`. They equal `n / d` and `n % d`;
      the recursive definition keeps division out of the solver's
      non-linear reasoning, and DivModSpec states the relation the rounding
      proofs use. */
  function DivMod(n: nat, d: nat): (nat, nat)
    requires d > 0
    decreases n
  {
    if n < d then (0, n)
    else
      var (q, rem) := DivMod(n - d, d);
      (q + 1, rem)
  }

  lemma {:induction false} DivModSpec(n: nat, d: nat)
    requires d > 0
    ensures DivMod(n, d).0 * d + DivMod(n, d).1 == n
    ensures DivMod(n, d).1 < d
    decreases n
  {
    if n >= d {
      DivModSpec(n - d, d);
      var q := DivMod(n - d, d).0;
      assert (q + 1) * d == q * d + d;
    }
  }

  /** Python's `round(n / d)` for a non-negative ratio. */
  function RoundHalfEven(n: nat, d: nat): nat
    requires d > 0
  {
    var (f, rem) := DivMod(n, d);
    if 2 * rem < d then f
    else if 2 * rem > d then f + 1
    else if f % 2 == 0 then f
    else f + 1
  }

  lemma MulSucc(f: int, d: int)
    ensures (f + 1) * d == f * d + d
  {
  }

  lemma MulDiff(a: int, b: int, d: int)
    ensures a * d - b * d == (a - b) * d
  {
  }

  /** The rounding step with the products `f * d` and `q * d` given as
      plain numbers: rounding `f + rem / d` lands within half a step. */
  lemma NearestStep(n: int, d: int, f: int, rem: int, q: int, fd: int, qd: int)
    requires d > 0 && 0 <= rem < d && n == fd + rem
    requires (q == f && qd == fd) || (q == f + 1 && qd == fd + d)
    requires q == f ==> 2 * rem < d || (2 * rem == d && f % 2 == 0)
    requires q == f + 1 ==> 2 * rem > d || (2 * rem == d && f % 2 == 1)
    ensures 2 * Abs(qd - n) <= d
    ensures 2 * Abs(qd - n) == d ==> q % 2 == 0
  {
  }

  /** RoundHalfEven gives the nearest integer to `n / d`, ties going to the
      even neighbour. */
  lemma RoundHalfEvenNearest(n: nat, d: nat)
    requires d > 0
    ensures 2 * Abs(RoundHalfEven(n, d) * d - n) <= d
    ensures 2 * Abs(RoundHalfEven(n, d) * d - n) == d ==> RoundHalfEven(n, d) % 2 == 0
  {
    DivModSpec(n, d);
    var f, rem := DivMod(n, d).0, DivMod(n, d).1;
    var q := RoundHalfEven(n, d);
    MulSucc(f, d);
    NearestStep(n, d, f, rem, q, f * d, q * d);
  }

  /** `k * d` against `d` for a positive step `d`, by the size of `k`. */
  lemma MulBounds(k: int, d: int)
    requires d > 0
    ensures k >= 1 ==> k * d >= d
    ensures k >= 2 ==> k * d >= 2 * d
    ensures k <= -1 ==> k * d <= -d
    ensures k <= -2 ==> k * d <= -2 * d
  {
    if k >= 2 {
      assert (k - 2) * d >= 0;
      assert k * d == (k - 2) * d + 2 * d;
    } else if k <= -2 {
      assert (-k - 2) * d >= 0;
      assert k * d == -((-k - 2) * d) - 2 * d;
    }
  }

  /** Two candidates within half a step of the same ratio, each even when it
      sits exactly on a tie, are the same candidate; `kd` stands for
      `(b - a) * d`. */
  lemma SameCandidate(a: int, b: int, d: int, ea: int, eb: int, kd: int)
    requires d > 0 && eb - ea == kd
    requires b - a >= 1 ==> kd >= d
    requires b - a >= 2 ==> kd >= 2 * d
    requires b - a <= -1 ==> kd <= -d
    requires b - a <= -2 ==> kd <= -2 * d
    requires 2 * Abs(ea) <= d && 2 * Abs(eb) <= d
    requires 2 * Abs(ea) == d ==> a % 2 == 0
    requires 2 * Abs(eb) == d ==> b % 2 == 0
    ensures a == b
  {
  }

  /** Any integer meeting RoundHalfEven's contract is its result. */
  lemma RoundHalfEvenUnique(n: nat, d: nat, q': int)
    requires d > 0
    requires 2 * Abs(q' * d - n) <= d
    requires 2 * Abs(q' * d - n) == d ==> q' % 2 == 0
    ensures q' == RoundHalfEven(n, d)
  {
    RoundHalfEvenNearest(n, d);
    var q := RoundHalfEven(n, d);
    MulDiff(q', q, d);
    MulBounds(q' - q, d);
    SameCandidate(q, q', d, q * d - n, q' * d - n, (q' - q) * d);
  }

  /** The percentage change `round(|delta| / old * 100)` on a positive base;
      on a non-positive base, 100 when there is spend now and 0 otherwise. */
  function Pct(oldCost: int, nowCost: int): nat {
    if oldCost > 0 then RoundHalfEven(Abs(nowCost - oldCost) * 100, oldCost)
    else if nowCost > 0 then 100
    else 0
  }

  /** On a positive base the percentage is |delta| * 100 / old rounded to
      the nearest integer, ties to even; spend that starts from a
      non-positive base counts as 100 % and no spend as 0 %. */
  lemma PctSpec(oldCost: int, nowCost: int)
    ensures var p, n := Pct(oldCost, nowCost), Abs(nowCost - oldCost) * 100;
            && (oldCost > 0 ==> 2 * Abs(p * oldCost - n) <= oldCost)
            && (oldCost > 0 && 2 * Abs(p * oldCost - n) == oldCost ==> p % 2 == 0)
            && (oldCost <= 0 && nowCost > 0 ==> p == 100)
            && (oldCost <= 0 && nowCost <= 0 ==> p == 0)
  {
    if oldCost > 0 {
      RoundHalfEvenNearest(Abs(nowCost - oldCost) * 100, oldCost);
    }
  }

  /** `p` is the percentage change from `oldCost` to `nowCost`, described
      without computing it: on a positive base the integer nearest to
      |delta| * 100 / old, ties to even; otherwise 100 with spend now and 0
      without. */
  predicate IsPct(oldCost: int, nowCost: int, p: int) {
    var n := Abs(nowCost - oldCost) * 100;
    if oldCost > 0 then
      2 * Abs(p * oldCost - n) <= oldCost && (2 * Abs(p * oldCost - n) == oldCost ==> p % 2 == 0)
    else p == (if nowCost > 0 then 100 else 0)
  }

  /** Pct is the one percentage meeting IsPct. */
  lemma PctIff(oldCost: int, nowCost: int, p: int)
    ensures IsPct(oldCost, nowCost, p) <==> p == Pct(oldCost, nowCost)
  {
    PctSpec(oldCost, nowCost);
    if oldCost > 0 && IsPct(oldCost, nowCost, p) {
      RoundHalfEvenUnique(Abs(nowCost - oldCost) * 100, oldCost, p);
    }
  }

  /** The direction gate on the cost delta. */
  predicate DirectionOk(direction: string, delta: int) {
    || direction == "both"
    || (direction == "up" && delta > 0)
    || (direction == "down" && delta < 0)
  }

  /** The thresholds: either one alone suffices. */
  predicate ThresholdMet(cfg: Config, oldCost: int, nowCost: int) {
    Abs(nowCost - oldCost) >= cfg.spendAbs || Pct(oldCost, nowCost) * 100 >= cfg.spendPct
  }

  /** Whether a key already in the state gets a spend line. */
  predicate SpendFires(cfg: Config, oldCost: int, nowCost: int) {
    DirectionOk(cfg.direction, nowCost - oldCost) && ThresholdMet(cfg, oldCost, nowCost)
  }

  /** "up" reports only increases, "down" only decreases, "both" either sign,
      and any other direction text nothing at all. */
  lemma DirectionGate(cfg: Config, oldCost: int, nowCost: int)
    ensures cfg.direction == "up" && SpendFires(cfg, oldCost, nowCost) ==> nowCost > oldCost
    ensures cfg.direction == "down" && SpendFires(cfg, oldCost, nowCost) ==> nowCost < oldCost
    ensures cfg.direction == "both" ==> (SpendFires(cfg, oldCost, nowCost) <==> ThresholdMet(cfg, oldCost, nowCost))
    ensures cfg.direction !in {"up", "down", "both"} ==> !SpendFires(cfg, oldCost, nowCost)
  {
  }

  /** With positive thresholds an unchanged cost never fires, whatever the direction. */
  lemma UnchangedCostIsQuiet(cfg: Config, cost: int)
    requires cfg.spendAbs > 0 && cfg.spendPct > 0
    ensures !SpendFires(cfg, cost, cost)
  {
  }

  /** The thresholds are OR-ed: under the defaults a $15 rise on $1000 is
      below both, while a $21 rise fires on the absolute threshold alone
      even though its percentage (2 %) is far below 20 %. */
  lemma ThresholdsAreOred()
    ensures !SpendFires(Defaults, 100000, 101500)
    ensures Pct(100000, 102100) * 100 < Defaults.spendPct
    ensures SpendFires(Defaults, 100000, 102100)
  {
    assert Pct(100000, 101500) == 2;
    assert Pct(100000, 102100) == 2;
  }

  /** Spend that starts from zero counts as a 100 % change, so it fires under
      "up" whenever the percentage threshold is at most 100 %. */
  lemma SpendFromZero(cfg: Config, nowCost: int)
    requires cfg.direction == "up" && nowCost > 0 && cfg.spendPct <= 10000
    ensures SpendFires(cfg, 0, nowCost)
  {
  }
}
