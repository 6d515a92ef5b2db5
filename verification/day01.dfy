/**
 * The fuel computation of src/y2019/day01.rs: each module needs mass / 3 - 2 fuel, and in
 * the second part the fuel itself needs fuel, down to nothing.
 */
module Day01Fuel {

  /** Rust's `/` on `i32`: rounds toward zero, also for a negative mass. */
  function TruncDiv(a: int, b: int): int
    requires b > 0
  {
    if a >= 0 then a / b else -((-a) / b)
  }

  /** The part-1 formula for one module. */
  function ModuleFuel(mass: int): int
  {
    TruncDiv(mass, 3) - 2
  }

  /** `answer1`: the formula summed over the modules. */
  function Part1(masses: seq<int>): int
  {
    if |masses| == 0 then 0 else ModuleFuel(masses[0]) + Part1(masses[1..])
  }

  /** The sum splits over a concatenation of module lists. */
  lemma {:induction false} Part1Append(a: seq<int>, b: seq<int>)
    ensures Part1(a + b) == Part1(a) + Part1(b)
  {
    if |a| > 0 {
      Part1Append(a[1..], b);
      assert (a + b)[1..] == a[1..] + b;
    } else {
      assert a + b == b;
    }
  }

  function Max(a: int, b: int): int
  {
    if a >= b then a else b
  }

  /**
   * The fuel for a mass, as a recurrence: nothing for a mass that is not positive, otherwise
   * f = max(mass / 3 - 2, 0) plus the fuel for f.
   */
  function FuelOf(mass: int): nat
    decreases Max(mass, 0)
  {
    if mass <= 0 then 0
    else
      var f := Max(mass / 3 - 2, 0);
      f + FuelOf(f)
  }

  /**
   * `fuel`: the `while mass > 0` loop.  Each round the positive mass strictly shrinks, so
   * the loop ends; what it adds up is the recurrence.
   */
  method Fuel(moduleMass: int) returns (requiredFuel: int)
    ensures requiredFuel == FuelOf(moduleMass)
  {
    var mass := moduleMass;
    requiredFuel := 0;
    while mass > 0
      invariant requiredFuel + FuelOf(mass) == FuelOf(moduleMass)
      decreases Max(mass, 0)
    {
      mass := Max(mass / 3 - 2, 0);
      requiredFuel := requiredFuel + mass;
    }
  }

  /** Masses up to 8 need no fuel, and 9 already needs some. */
  lemma FuelSmall(mass: int)
    ensures mass <= 8 ==> FuelOf(mass) == 0
    ensures mass >= 9 ==> FuelOf(mass) >= 1
  {
  }

  /** The fuel never exceeds half the mass. */
  lemma {:induction false} FuelHalf(mass: nat)
    ensures FuelOf(mass) <= mass / 2
    decreases mass
  {
    if mass > 0 {
      var f := Max(mass / 3 - 2, 0);
      FuelHalf(f);
      if f > 0 {
        assert 3 * f <= mass - 6;
        assert f + f / 2 <= mass / 2;
      }
    }
  }

  /** More mass never needs less fuel. */
  lemma {:induction false} FuelMonotone(m: int, n: int)
    requires m <= n
    ensures FuelOf(m) <= FuelOf(n)
    decreases Max(n, 0)
  {
    if m > 0 {
      FuelMonotone(Max(m / 3 - 2, 0), Max(n / 3 - 2, 0));
    }
  }

  /** The fuel that also carries its own fuel is at least the part-1 formula. */
  lemma FuelAtLeastFormula(mass: int)
    ensures FuelOf(mass) >= ModuleFuel(mass)
  {
  }

  /** `answer2`: the fuel summed over the modules. */
  ghost function Part2(masses: seq<int>): int
  {
    if |masses| == 0 then 0 else FuelOf(masses[0]) + Part2(masses[1..])
  }

  /** The second answer is never below the first. */
  lemma {:induction false} Part2AtLeastPart1(masses: seq<int>)
    ensures Part2(masses) >= Part1(masses)
  {
    if |masses| > 0 {
      FuelAtLeastFormula(masses[0]);
      Part2AtLeastPart1(masses[1..]);
    }
  }

  /** `answer2`'s `map(fuel).sum()`, calling `fuel` on each module in turn. */
  method TotalFuel(masses: seq<int>) returns (total: int)
    ensures total == Part2(masses)
  {
    total := 0;
    for k := 0 to |masses|
      invariant total == Part2(masses[..k])
    {
      var f := Fuel(masses[k]);
      Part2Last(masses[..k + 1]);
      assert masses[..k + 1][..k] == masses[..k];
      total := total + f;
    }
    assert masses[..|masses|] == masses;
  }

  lemma {:induction false} Part2Last(masses: seq<int>)
    requires |masses| > 0
    ensures Part2(masses) == Part2(masses[..|masses| - 1]) + FuelOf(masses[|masses| - 1])
  {
    if |masses| > 1 {
      Part2Last(masses[1..]);
      assert masses[1..][..|masses| - 2] == masses[..|masses| - 1][1..];
    }
  }
}
