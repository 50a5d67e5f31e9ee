/**
  Restart delays (`BackoffStrategy` of supervision.rs) over exact reals, with the random factor
  as a parameter.
 */
module Backoff {
  import opened Basics

  /** `min`, `max` in seconds. */
  datatype BackoffStrategy = BackoffStrategy(min: real, max: real, jitter: real, factor: real)

  const I32 := 0x8000_0000

  /** `attempt as i32`. */
  function Exponent(attempt: nat): int
    requires attempt < U32
  {
    if attempt < I32 then attempt else attempt - U32
  }

  function Power(x: real, n: nat): real {
    if n == 0 then 1.0 else x * Power(x, n - 1)
  }

  /** `powi`: a negative exponent divides. */
  function PowI(x: real, n: int): real
    requires n >= 0 || Power(x, -n) != 0.0
  {
    if n >= 0 then Power(x, n) else 1.0 / Power(x, -n)
  }

  function AtMost(x: real, max: real): real {
    if x > max then max else x
  }

  /** The delay before jitter for an exponent of `powi`. */
  function BaseAt(s: BackoffStrategy, n: int): real
    requires n >= 0 || Power(s.factor, -n) != 0.0
  {
    AtMost(s.min * PowI(s.factor, n), s.max)
  }

  function Jittered(s: BackoffStrategy, base: real, random: real): real {
    if s.jitter > 0.0 then base * (1.0 + s.jitter * random) else base
  }

  /** The configurations the formula is meant for. */
  predicate Sensible(s: BackoffStrategy) {
    s.min >= 0.0 && s.max >= 0.0 && s.factor >= 1.0
  }

  /** A product in floating point, as far as it is not rounding: zero to a negative power is infinite. */
  datatype Product = Finite(value: real) | Infinite | NotANumber

  /** `min * factor.powi(attempt as i32)`. */
  function Scaled(s: BackoffStrategy, attempt: nat): (p: Product)
    requires attempt < U32
    ensures p.Finite? <==> attempt < I32 || s.factor != 0.0
    ensures p.NotANumber? <==> attempt >= I32 && s.factor == 0.0 && s.min == 0.0
  {
    var n := Exponent(attempt);
    if s.factor != 0.0 || n >= 0 then
      PowerIsNotZero(s.factor, if n < 0 then -n else 0);
      Finite(s.min * PowI(s.factor, n))
    else if s.min == 0.0 then NotANumber
    else Infinite
  }

  lemma {:induction false} PowerIsNotZero(x: real, n: nat)
    requires x != 0.0 || n == 0
    ensures Power(x, n) != 0.0
  {
    if n > 0 {
      PowerIsNotZero(x, n - 1);
    }
  }

  /**
    The delay. None is a panic: a product that is not a number passes every comparison untouched and
    makes no duration. An infinite one is cut to `max`.
   */
  method Duration(s: BackoffStrategy, attempt: nat, random: real) returns (delay: Option<real>)
    requires s.min >= 0.0 && s.max >= 0.0 && attempt < U32 && -1.0 <= random < 1.0
    ensures delay.None? <==> attempt >= I32 && s.factor == 0.0 && s.min == 0.0
    ensures delay.Some? ==>
              var p := Scaled(s, attempt);
              var base := if p.Finite? then AtMost(p.value, s.max) else s.max;
              delay.value == if Jittered(s, base, random) < 0.0 then 0.0 else Jittered(s, base, random)
  {
    var scaled := Scaled(s, attempt);
    if scaled.NotANumber? {
      return None;
    }
    var d := s.max;
    if scaled.Finite? && scaled.value <= s.max {
      d := scaled.value;
    }
    if s.jitter > 0.0 {
      var amount := d * s.jitter;
      assert d + amount * random == d * (1.0 + s.jitter * random);
      d := d + amount * random;
    }
    if d < 0.0 {
      d := 0.0;
    }
    delay := Some(d);
  }

  /** For the configurations the formula is meant for, the capped product is `Base`. */
  lemma ScaledIsBase(s: BackoffStrategy, attempt: nat)
    requires Sensible(s) && attempt < U32
    ensures Scaled(s, attempt).Finite? && AtMost(Scaled(s, attempt).value, s.max) == Base(s, attempt)
  {
  }

  // ------------------------------------------------------------------- powers

  lemma MulMono(a: real, x: real, y: real)
    requires a >= 0.0 && x <= y
    ensures a * x <= a * y
  {
    NotNegative(a, y - x);
    assert a * (y - x) == a * y - a * x;
  }

  lemma {:induction false} PowerGrows(x: real, m: nat, n: nat)
    requires x >= 1.0 && m <= n
    ensures 1.0 <= Power(x, m) <= Power(x, n)
    decreases n
  {
    if m < n {
      PowerGrows(x, m, n - 1);
      ProductGrows(x, Power(x, n - 1));
    } else if n > 0 {
      PowerGrows(x, n - 1, n - 1);
      ProductGrows(x, Power(x, n - 1));
    }
  }

  lemma ProductGrows(x: real, p: real)
    requires x >= 1.0 && p >= 0.0
    ensures x * p >= p
  {
    NotNegative(x - 1.0, p);
    assert (x - 1.0) * p == x * p - p;
  }

  lemma {:induction false} PowerOfOne(n: nat)
    ensures Power(1.0, n) == 1.0
  {
    if n > 0 {
      PowerOfOne(n - 1);
    }
  }

  /** Bernoulli's inequality. */
  lemma {:induction false} PowerGrowsLinearly(x: real, n: nat)
    requires x >= 1.0
    ensures Power(x, n) >= 1.0 + n as real * (x - 1.0)
  {
    if n > 0 {
      PowerGrowsLinearly(x, n - 1);
      PowerGrows(x, 0, n - 1);
      MulMono(x - 1.0, 1.0, Power(x, n - 1));
      assert Power(x, n) == Power(x, n - 1) + (x - 1.0) * Power(x, n - 1);
    }
  }

  lemma PowerIsPositive(x: real, n: nat)
    requires x >= 1.0
    ensures Power(x, n) >= 1.0
  {
  }

  lemma PowIGrows(x: real, m: int, n: int)
    requires x >= 1.0 && m <= n
    ensures m < 0 ==> Power(x, -m) >= 1.0
    ensures n < 0 ==> Power(x, -n) >= 1.0
    ensures 0.0 < PowI(x, m) <= PowI(x, n)
  {
    if m >= 0 {
      PowerGrows(x, m, n);
    } else if n < 0 {
      PowerGrows(x, -n, -m);
      ReciprocalShrinks(Power(x, -n), Power(x, -m));
    } else {
      PowerGrows(x, 0, -m);
      PowerGrows(x, 0, n);
      ReciprocalShrinks(1.0, Power(x, -m));
    }
  }

  lemma ReciprocalShrinks(a: real, b: real)
    requires 0.0 < a <= b
    ensures 0.0 < 1.0 / b <= 1.0 / a
  {
  }

  // ------------------------------------------------------- the delay before jitter

  /** It never falls while the exponent rises, and never passes `max`. */
  lemma BaseGrows(s: BackoffStrategy, m: int, n: int)
    requires Sensible(s) && m <= n
    ensures m < 0 ==> Power(s.factor, -m) >= 1.0
    ensures n < 0 ==> Power(s.factor, -n) >= 1.0
    ensures 0.0 <= BaseAt(s, m) <= BaseAt(s, n) <= s.max
  {
    PowIGrows(s.factor, m, n);
    MulMono(s.min, PowI(s.factor, m), PowI(s.factor, n));
    MulMono(s.min, 0.0, PowI(s.factor, m));
  }

  /** The delay before jitter for a restart attempt. */
  function Base(s: BackoffStrategy, attempt: nat): real
    requires Sensible(s) && attempt < U32
  {
    PowerIsPositive(s.factor, if attempt < I32 then 0 else U32 - attempt);
    BaseAt(s, Exponent(attempt))
  }

  lemma PowIStep(x: real, n: int)
    requires x >= 1.0
    ensures n < 0 ==> Power(x, -n) >= 1.0
    ensures n + 1 < 0 ==> Power(x, -(n + 1)) >= 1.0
    ensures PowI(x, n + 1) == x * PowI(x, n)
  {
    if n < 0 {
      var p := Power(x, -n - 1);
      PowerIsPositive(x, -n - 1);
      PowerIsPositive(x, -n);
      assert Power(x, -n) == x * p;
      Cancelled(x, p);
    }
  }

  lemma Cancelled(x: real, p: real)
    requires x > 0.0 && p > 0.0 && x * p > 0.0
    ensures 1.0 / p == x * (1.0 / (x * p))
  {
    var a, b := 1.0 / p, 1.0 / (x * p);
    assert a * p == 1.0 && b * (x * p) == 1.0;
    assert (x * b) * p == 1.0;
    assert (a - x * b) * p == 0.0;
  }

  /** One more in the exponent multiplies the delay by the factor, up to `max`. */
  lemma NextExponent(s: BackoffStrategy, n: int)
    requires Sensible(s)
    ensures n < 0 ==> Power(s.factor, -n) >= 1.0
    ensures n + 1 < 0 ==> Power(s.factor, -(n + 1)) >= 1.0
    ensures BaseAt(s, n + 1) == AtMost(s.factor * BaseAt(s, n), s.max)
  {
    hide PowI, Power;
    PowIStep(s.factor, n);
    CutAndMultiply(s.min, s.max, s.factor, PowI(s.factor, n));
  }

  lemma CutAndMultiply(min: real, max: real, factor: real, power: real)
    requires max >= 0.0 && factor >= 1.0
    ensures AtMost(min * (factor * power), max) == AtMost(factor * AtMost(min * power, max), max)
  {
    var uncut := min * power;
    assert min * (factor * power) == factor * uncut;
    if uncut > max {
      MulMono(factor, max, uncut);
      MulMono(max, 1.0, factor);
    }
  }

  /**
    The delay starts at `min`, and each further attempt multiplies it by the factor, up to `max`. The
    cast breaks this in one place, and the last attempt of all leads back to the first.
   */
  lemma DelayGrowsByFactor(s: BackoffStrategy, attempt: nat)
    requires Sensible(s) && attempt < U32
    ensures Base(s, 0) == AtMost(s.min, s.max)
    ensures attempt + 1 < U32 && attempt + 1 != I32 ==> Base(s, attempt + 1) == AtMost(s.factor * Base(s, attempt), s.max)
    ensures attempt + 1 == U32 ==> Base(s, 0) == AtMost(s.factor * Base(s, attempt), s.max)
  {
    NextExponent(s, Exponent(attempt));
  }

  /** Below 2^31 attempts the delay never falls and never passes `max`. */
  lemma BaseIsMonotone(s: BackoffStrategy, a: nat, b: nat)
    requires Sensible(s) && a <= b < I32
    ensures AtMost(s.min, s.max) == Base(s, 0) <= Base(s, a) <= Base(s, b) <= s.max
  {
    BaseGrows(s, 0, a);
    BaseGrows(s, a, b);
  }

  /** From 2^31 attempts on the exponent is negative, and the delay is never above the first one. */
  lemma LateAttemptsFall(s: BackoffStrategy, a: nat)
    requires Sensible(s) && I32 <= a < U32
    ensures Base(s, a) <= Base(s, 0)
  {
    BaseGrows(s, a - U32, 0);
  }

  ghost predicate MonotoneEverywhere(s: BackoffStrategy)
    requires Sensible(s)
  {
    forall a, b :: 0 <= a <= b < U32 ==> Base(s, a) <= Base(s, b)
  }

  /**
    Over all 32-bit attempts the delay never falls exactly when it is constant: no growth, a zero
    minimum, or a maximum that even the smallest power reaches.
   */
  lemma MonotoneEverywhereIff(s: BackoffStrategy)
    requires Sensible(s)
    ensures Power(s.factor, I32) >= 1.0
    ensures MonotoneEverywhere(s) <==>
            s.factor == 1.0 || s.min == 0.0 || s.max <= s.min * PowI(s.factor, -I32)
  {
    PowerIsPositive(s.factor, I32);
    if MonotoneEverywhere(s) {
      assert Base(s, I32 - 1) <= Base(s, I32);
      FallsAtTheCast(s);
    } else {
      var a, b :| 0 <= a <= b < U32 && Base(s, a) > Base(s, b);
      if s.factor == 1.0 || s.min == 0.0 || s.max <= s.min * PowI(s.factor, -I32) {
        ConstantBase(s, a);
        ConstantBase(s, b);
        assert false;
      }
    }
  }

  lemma ConstantBase(s: BackoffStrategy, a: nat)
    requires Sensible(s) && a < U32 && Power(s.factor, I32) >= 1.0
    requires s.factor == 1.0 || s.min == 0.0 || s.max <= s.min * PowI(s.factor, -I32)
    ensures Base(s, a) == AtMost(s.min, s.max)
  {
    if s.factor == 1.0 {
      PowerOfOne(if a < I32 then a else U32 - a);
    } else if s.min == 0.0 {
    } else {
      BaseGrows(s, -I32, Exponent(a));
      BaseGrows(s, -I32, 0);
    }
  }

  lemma FallsAtTheCast(s: BackoffStrategy)
    requires Sensible(s) && Base(s, I32 - 1) <= Base(s, I32) && Power(s.factor, I32) >= 1.0
    ensures s.factor == 1.0 || s.min == 0.0 || s.max <= s.min * PowI(s.factor, -I32)
  {
    if s.factor > 1.0 && s.min > 0.0 {
      var low, high := PowI(s.factor, -I32), PowI(s.factor, I32 - 1);
      PowerGrowsLinearly(s.factor, I32);
      assert Power(s.factor, I32) > 1.0;
      assert low < 1.0;
      PowerIsPositive(s.factor, I32 - 1);
      assert s.min * low < s.min * high;
    }
  }

  // ----------------------------------------------------------- reaching the cap

  /** How many attempts are surely enough to reach `max`. */
  function Enough(s: BackoffStrategy): (n: nat)
    requires Sensible(s) && s.min > 0.0 && s.factor > 1.0
    ensures n as real * (s.min * (s.factor - 1.0)) >= s.max
  {
    var step := s.min * (s.factor - 1.0);
    assert s.max / step >= 0.0;
    var n := (s.max / step).Floor + 1;
    MulMono(step, s.max / step, n as real);
    n
  }

  ghost predicate ReachesMax(s: BackoffStrategy)
    requires Sensible(s)
  {
    exists n: nat :: AtMaxFrom(s, n)
  }

  ghost predicate AtMaxFrom(s: BackoffStrategy, n: nat)
    requires Sensible(s)
  {
    forall k: nat :: n <= k ==> BaseAt(s, k) == s.max
  }

  /** Over unbounded attempts, the delay settles at `max` exactly when it can grow or starts there. */
  lemma ReachesMaxIff(s: BackoffStrategy)
    requires Sensible(s)
    ensures ReachesMax(s) <==> s.min >= s.max || (s.min > 0.0 && s.factor > 1.0)
  {
    if s.min >= s.max {
      forall k: nat ensures BaseAt(s, k) == s.max {
        BaseGrows(s, 0, k);
      }
      assert AtMaxFrom(s, 0);
    } else if s.min > 0.0 && s.factor > 1.0 {
      forall k: nat | Enough(s) <= k ensures BaseAt(s, k) == s.max {
        MaxAfterEnough(s, k);
      }
      assert AtMaxFrom(s, Enough(s));
    } else {
      forall n: nat ensures !AtMaxFrom(s, n) {
        PowerOfOne(n);
        assert BaseAt(s, n) == s.min;
      }
    }
  }

  lemma MaxAfterEnough(s: BackoffStrategy, k: nat)
    requires Sensible(s) && s.min > 0.0 && s.factor > 1.0 && Enough(s) <= k
    ensures BaseAt(s, k) == s.max
  {
    var n := Enough(s);
    PowerGrowsLinearly(s.factor, n);
    PassesMax(s.min, s.max, s.factor - 1.0, n as real, Power(s.factor, n));
    assert BaseAt(s, n) == s.max;
    BaseGrows(s, n, k);
  }

  lemma PassesMax(min: real, max: real, growth: real, n: real, power: real)
    requires min > 0.0 && power >= 1.0 + n * growth && n * (min * growth) >= max
    ensures min * power >= max
  {
    MulMono(min, 1.0 + n * growth, power);
    assert min * (1.0 + n * growth) == min + n * (min * growth);
  }

  // --------------------------------------------------------------------- jitter

  /** With a jitter of at most one the delay stays in its band and the clamp at zero changes nothing. */
  lemma JitterStaysInBand(s: BackoffStrategy, base: real, random: real)
    requires base >= 0.0 && 0.0 <= s.jitter <= 1.0 && -1.0 <= random < 1.0
    ensures 0.0 <= base * (1.0 - s.jitter) <= Jittered(s, base, random) <= base * (1.0 + s.jitter)
  {
    JitterShare(s.jitter, random);
    Band(base, s.jitter, s.jitter * random);
  }

  /** The share of the jitter that the random factor picks. */
  lemma JitterShare(jitter: real, random: real)
    requires jitter >= 0.0 && -1.0 <= random <= 1.0
    ensures -jitter <= jitter * random <= jitter
  {
    NotNegative(jitter, 1.0 + random);
    NotNegative(jitter, 1.0 - random);
    assert jitter * (1.0 + random) == jitter + jitter * random;
    assert jitter * (1.0 - random) == jitter - jitter * random;
  }

  lemma Band(base: real, jitter: real, share: real)
    requires base >= 0.0 && jitter <= 1.0 && -jitter <= share <= jitter
    ensures 0.0 <= base * (1.0 - jitter) <= base * (1.0 + share) <= base * (1.0 + jitter)
  {
    NotNegative(base, 1.0 - jitter);
    MulMono(base, 1.0 - jitter, 1.0 + share);
    MulMono(base, 1.0 + share, 1.0 + jitter);
  }

  lemma NotNegative(a: real, b: real)
    requires a >= 0.0 && b >= 0.0
    ensures a * b >= 0.0
  {
  }

  /** The random factor moves the delay in proportion: none at zero, the whole jitter at minus one. */
  lemma JitterIsProportional(s: BackoffStrategy, base: real, random: real)
    requires s.jitter >= 0.0
    ensures Jittered(s, base, 0.0) == base
    ensures Jittered(s, base, random) - base == random * (base - Jittered(s, base, -1.0))
    ensures base - Jittered(s, base, -1.0) == base * s.jitter
  {
    if s.jitter > 0.0 {
      assert base * (1.0 + s.jitter * random) == base + base * (s.jitter * random);
      assert base * (s.jitter * random) == random * (base * s.jitter);
      assert base * (1.0 + s.jitter * -1.0) == base - base * s.jitter;
    }
  }

  /** The clamp can take effect exactly when a positive delay has a jitter above one. */
  lemma ClampFiresIff(s: BackoffStrategy, base: real)
    requires base >= 0.0 && s.jitter >= 0.0
    ensures (exists random :: -1.0 <= random < 1.0 && Jittered(s, base, random) < 0.0) <==> base > 0.0 && s.jitter > 1.0
  {
    if base > 0.0 && s.jitter > 1.0 {
      assert base * (1.0 - s.jitter) < 0.0;
      assert Jittered(s, base, -1.0) < 0.0;
    } else if s.jitter <= 1.0 {
      forall random | -1.0 <= random < 1.0 ensures Jittered(s, base, random) >= 0.0 {
        JitterStaysInBand(s, base, random);
      }
    }
  }

  /** Jitter comes after the cap: the delay can pass `max` exactly when the top of its band does. */
  lemma JitterPassesMaxIff(s: BackoffStrategy, base: real)
    requires 0.0 <= base <= s.max && s.jitter >= 0.0
    ensures (exists random :: -1.0 <= random < 1.0 && Jittered(s, base, random) > s.max)
            <==> base * (1.0 + s.jitter) > s.max
  {
    if base * (1.0 + s.jitter) > s.max {
      var random := RandomAbove(s, base);
      assert Jittered(s, base, random) > s.max;
    } else {
      forall random | -1.0 <= random < 1.0 ensures Jittered(s, base, random) <= s.max {
        MulMono(s.jitter, random, 1.0);
        MulMono(base, 1.0 + s.jitter * random, 1.0 + s.jitter);
      }
    }
  }

  lemma RandomAbove(s: BackoffStrategy, base: real) returns (random: real)
    requires 0.0 <= base <= s.max && s.jitter >= 0.0 && base * (1.0 + s.jitter) > s.max
    ensures 0.0 <= random < 1.0 && s.jitter > 0.0 && base * (1.0 + s.jitter * random) > s.max
  {
    var spread := base * s.jitter;
    assert base + spread > s.max;
    var need := (s.max - base) / spread;
    random := (need + 1.0) / 2.0;
    assert need * spread == s.max - base;
    if need >= 1.0 {
      MulMono(spread, 1.0, need);
    }
    assert random * spread > need * spread;
    assert base * (1.0 + s.jitter * random) == base + random * spread;
  }
}
