/** The parts of the Java platform the drop engine leans on: nullable values,
    Math.min, the (int) cast, String.toUpperCase, Math.log / Math.sqrt, and the
    random sources (Math.random and ThreadLocalRandom). */
module Platform {

  /** A value that Java would represent by a possibly-null reference. */
  datatype Option<+T> = None | Some(value: T) {
    /** The value, or `default` when absent (Bukkit's getters with a default). */
    function GetOr(default: T): T {
      match this
      case Some(v) => v
      case None => default
    }
  }

  /** Math.min(a, b) on doubles, taken over the reals. */
  function Min(a: real, b: real): (r: real)
    ensures r <= a && r <= b
    ensures r == a || r == b
  {
    if a <= b then a else b
  }

  /** Java's (int) cast of a double: rounds toward zero (Dafny's Floor rounds down). */
  function Trunc(x: real): (n: int)
    ensures 0.0 <= x ==> 0 <= n && n as real <= x < n as real + 1.0
    ensures x < 0.0 ==> n <= 0 && n as real - 1.0 < x <= n as real
  {
    if x >= 0.0 then x.Floor else -((-x).Floor)
  }

  /** Java's int division a / d for d > 0: the quotient rounded toward zero
      (Dafny's / on int rounds toward negative infinity for negative a). */
  function Quot(a: int, d: int): (q: int)
    requires d > 0
    ensures a >= 0 ==> q == a / d
    ensures a < 0 ==> q <= 0 && -q == (-a) / d
  {
    if a >= 0 then a / d else -((-a) / d)
  }

  // ---------------------------------------------------------------- strings

  /** Character.toUpperCase on the ASCII letters. */
  function UpperChar(c: char): char {
    if 'a' <= c <= 'z' then (c as int - 32) as char else c
  }

  /** String.toUpperCase, restricted to ASCII case mapping. */
  function ToUpperCase(s: string): (u: string)
    ensures |u| == |s|
    ensures forall i | 0 <= i < |s| :: u[i] == UpperChar(s[i]) && !('a' <= u[i] <= 'z')
  {
    if s == [] then [] else [UpperChar(s[0])] + ToUpperCase(s[1..])
  }

  /** Upper-casing an upper-cased name changes nothing. */
  lemma ToUpperCaseIdempotent(s: string)
    ensures ToUpperCase(ToUpperCase(s)) == ToUpperCase(s)
  {
    var u := ToUpperCase(s);
    assert forall i | 0 <= i < |u| :: UpperChar(u[i]) == u[i];
  }

  /** A string without lower-case ASCII letters is its own upper case. */
  lemma {:induction false} UpperCaseFixpoint(s: string)
    requires forall i | 0 <= i < |s| :: !('a' <= s[i] <= 'z')
    ensures ToUpperCase(s) == s
  {
    if s != [] {
      UpperCaseFixpoint(s[1..]);
    }
  }

  // ---------------------------------------------------------------- numerics

  /** Math.log and Math.sqrt, left uninterpreted. */
  datatype MathFns = MathFns(log: real -> real, sqrt: real -> real)

  /** The only facts the model assumes of them: ln x > 0 for x > 1 and
      sqrt x > 0 for x >= 1, i.e. ln(level + 1) > 0 and sqrt(level) > 0 for level >= 1. */
  ghost predicate PositiveAboveOne(m: MathFns) {
    && (forall x: real :: x > 1.0 ==> m.log(x) > 0.0)
    && (forall x: real :: x >= 1.0 ==> m.sqrt(x) > 0.0)
  }

  // ---------------------------------------------------------------- randomness

  /** A random source seen as the infinite stream of its nextDouble() draws
      and the position of the next one. */
  datatype Rng = Rng(unit: nat -> real, pos: nat) {

    /** Every draw lies in [0, 1), as Math.random and nextDouble promise. */
    ghost predicate Valid() {
      forall n: nat :: 0.0 <= unit(n) < 1.0
    }

    /** The source after `k` further draws. */
    function Skip(k: nat): (r: Rng)
      ensures r.unit == unit && r.pos == pos + k
    {
      Rng(unit, pos + k)
    }

    /** nextDouble() (and Math.random()): the next draw and the advanced source. */
    function NextDouble(): (r: (real, Rng))
      ensures r.1 == Skip(1)
      ensures Valid() ==> 0.0 <= r.0 < 1.0
    {
      (unit(pos), Skip(1))
    }

    /** nextInt(origin, bound): an integer in [origin, bound) scaled from one draw.
        Java throws IllegalArgumentException when origin >= bound. */
    function NextInt(origin: int, bound: int): (r: (int, Rng))
      requires origin < bound
      ensures r.1 == Skip(1)
      ensures Valid() ==> origin <= r.0 < bound
    {
      var u := unit(pos);
      var k := (u * (bound - origin) as real).Floor;
      ScaledFloorBound(u, bound - origin);
      (origin + k, Skip(1))
    }
  }

  /** floor(u * n) of a draw u in [0, 1) is one of 0 .. n-1. */
  lemma ScaledFloorBound(u: real, n: int)
    ensures 0.0 <= u < 1.0 && n >= 1 ==> 0 <= (u * n as real).Floor < n
  {
    if 0.0 <= u < 1.0 && n >= 1 {
      var x := u * n as real;
      assert n as real - x == (1.0 - u) * n as real;
      assert (1.0 - u) * n as real > 0.0;
    }
  }
}
