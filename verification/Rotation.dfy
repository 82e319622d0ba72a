/** The arithmetic behind quickch's in-place rotation (Libcurses/refresh.c).

    Moving every index of a region of `size` lines by `shift`, modulo the region,
    falls apart into gcd(size, shift) cycles of equal length.  Following one cycle
    from `start` visits exactly the indices congruent to `start`, each once, so the
    next cycle can begin at `start + 1`. */
module Rotation {

  function Gcd(a: nat, b: nat): nat
    decreases b
  {
    if b == 0 then a else Gcd(b, a % b)
  }

  lemma DivMod(a: int, b: int)
    requires 0 < b
    ensures a == (a / b) * b + a % b && 0 <= a % b < b
  {
  }

  lemma ModUnique(a: int, b: int, q: int, r: int)
    requires 0 < b && a == q * b + r && 0 <= r < b
    ensures a % b == r && a / b == q
  {
    DivMod(a, b);
    var d := a / b - q;
    assert d * b == r - a % b;
    assert d >= 1 ==> d * b >= b;
    assert d <= -1 ==> d * b <= -b;
    assert d == 0;
  }

  /** The divisor divides both numbers and is an integer combination of them. */
  lemma {:induction false} GcdFacts(a: nat, b: nat) returns (p: int, q: int, x: int, y: int)
    requires 0 < a || 0 < b
    ensures var g := Gcd(a, b); 0 < g && a == p * g && b == q * g && g == x * a + y * b
    decreases b
  {
    if b == 0 {
      p, q, x, y := 1, 0, 1, 0;
    } else {
      var g := Gcd(a, b);
      var p', q', x', y' := GcdFacts(b, a % b);
      DivMod(a, b);
      // b == p' g and a % b == q' g, so a == ((a / b) p' + q') g
      var k := a / b;
      p, q := k * p' + q', p';
      assert k * (p' * g) == (k * p') * g;
      assert (k * p' + q') * g == (k * p') * g + q' * g;
      // g == x' b + y' (a - k b)
      x, y := y', x' - k * y';
      assert y' * (a - k * b) == y' * a - (k * y') * b;
      assert (x' - k * y') * b == x' * b - (k * y') * b;
    }
  }

  /** The number of steps after which a cycle closes. */
  function Period(size: nat, shift: nat): nat
    requires 0 < size
  {
    var g := Gcd(size, shift);
    if g == 0 then 0 else size / g
  }

  lemma PeriodFacts(size: nat, shift: nat)
    requires 0 < size
    ensures 0 < Gcd(size, shift) <= size && 0 < Period(size, shift)
    ensures Gcd(size, shift) * Period(size, shift) == size
  {
    hide Gcd;
    var p, q, x, y := GcdFacts(size, shift);
    var g := Gcd(size, shift);
    if p >= 1 { MulAtLeast(p, g); } else { MulAtLeast(1 - p, g); }
    ModUnique(size, g, p, 0);
  }

  lemma MulAtLeast(a: int, b: int)
    requires 1 <= a && 0 <= b
    ensures b <= a * b && (1 - a) * b == b - a * b
  {
    assert (a - 1) * b >= 0;
    assert (a - 1) * b == a * b - b;
  }

  /** Where the walk from `start` stands after t steps. */
  function Slot(size: nat, shift: nat, start: nat, t: nat): nat
    requires 0 < size
  {
    (start + t * shift) % size
  }

  lemma SlotZero(size: nat, shift: nat, start: nat)
    requires start < size
    ensures Slot(size, shift, start, 0) == start
  {
    ModUnique(start, size, 0, start);
  }

  lemma SlotNext(size: nat, shift: nat, start: nat, t: nat)
    requires 0 < size
    ensures Slot(size, shift, start, t + 1) == (Slot(size, shift, start, t) + shift) % size
  {
    Distribute(t, 1, shift);
    AddMod(start + t * shift, shift, size);
  }

  lemma AddMod(a: int, b: int, size: int)
    requires 0 < size
    ensures (a + b) % size == (a % size + b) % size
  {
    DivMod(a, size);
    DivMod(a % size + b, size);
    Distribute(a / size, (a % size + b) / size, size);
    ModUnique(a + b, size, a / size + (a % size + b) / size, (a % size + b) % size);
  }

  lemma Distribute(a: int, b: int, c: int)
    ensures (a + b) * c == a * c + b * c && (a - b) * c == a * c - b * c
  {
  }

  lemma SlotClass(size: nat, shift: nat, start: nat, t: nat)
    requires 0 < size && start < Gcd(size, shift)
    ensures Slot(size, shift, start, t) % Gcd(size, shift) == start
  {
    hide Gcd;
    var g := Gcd(size, shift);
    var p, q, x, y := GcdFacts(size, shift);
    var a := start + t * shift;
    DivMod(a, size);
    var k := a / size;
    Substitute(t, shift, q, g);
    Substitute(k, size, p, g);
    assert (t * q - k * p) * g == (t * q) * g - (k * p) * g;
    ModUnique(a % size, g, t * q - k * p, start);
  }

  lemma Substitute(t: int, s: int, q: int, g: int)
    requires s == q * g
    ensures t * s == (t * q) * g
  {
    assert t * (q * g) == (t * q) * g;
  }

  lemma SlotCloses(size: nat, shift: nat, start: nat)
    requires 0 < size && start < size
    ensures Slot(size, shift, start, Period(size, shift)) == start
  {
    hide Gcd, Period;
    var g := Gcd(size, shift);
    var p, q, x, y := GcdFacts(size, shift);
    PeriodFacts(size, shift);
    var l := Period(size, shift);
    // l * shift == l * q * g == q * size
    assert l * (q * g) == q * (g * l);
    ModUnique(start + l * shift, size, q, start);
  }

  /** Within one cycle no index is visited twice. */
  lemma SlotDistinct(size: nat, shift: nat, start: nat, a: nat, b: nat)
    requires 0 < size && a < b && b - a < Period(size, shift)
    ensures Slot(size, shift, start, a) != Slot(size, shift, start, b)
  {
    hide Gcd, Period;
    if Slot(size, shift, start, a) == Slot(size, shift, start, b) {
      var g := Gcd(size, shift);
      var p, q, x, y := GcdFacts(size, shift);
      PeriodFacts(size, shift);
      var w := WholeTurns(size, shift, start, a, b);
      hide Slot;
      NoEarlyReturn(b - a, size, shift, g, Period(size, shift), x, y, w);
    }
  }

  lemma WholeTurns(size: nat, shift: nat, start: nat, a: nat, b: nat) returns (w: int)
    requires 0 < size && Slot(size, shift, start, a) == Slot(size, shift, start, b)
    ensures (b - a) * shift == w * size
  {
    var u, v := start + a * shift, start + b * shift;
    DivMod(u, size);
    DivMod(v, size);
    w := v / size - u / size;
    Distribute(v / size, u / size, size);
    Distribute(b, a, shift);
  }

  /** A whole number of turns takes at least a period of steps. */
  lemma NoEarlyReturn(d: int, size: int, shift: int, g: int, l: int, x: int, y: int, w: int)
    requires 0 < g && 0 < l && size == g * l && g == x * size + y * shift
    requires d * shift == w * size && 0 < d
    ensures l <= d
  {
    var m := d * x + y * w;
    calc {
      d * g;
      d * (x * size + y * shift);
      (d * x) * size + y * (d * shift);
      (d * x) * size + y * (w * size);
      m * size;
    }
    assert m * (g * l) == (m * l) * g;
    CancelFactor(d, m * l, g);
    if m >= 1 { MulAtLeast(m, l); } else { MulAtLeast(1 - m, l); }
  }

  lemma CancelFactor(a: int, b: int, g: int)
    requires 0 < g && a * g == b * g
    ensures a == b
  {
    assert (a - b) * g == 0;
    assert a - b >= 1 ==> (a - b) * g >= 1;
    assert a - b <= -1 ==> (a - b) * g <= -1;
  }

  /** A cycle reaches every index of its class. */
  lemma SlotReaches(size: nat, shift: nat, k: nat) returns (t: nat)
    requires 0 < size && k < size
    ensures 1 <= t <= Period(size, shift)
    ensures Gcd(size, shift) > 0 && Slot(size, shift, k % Gcd(size, shift), t) == k
  {
    hide Gcd, Period, Slot;
    var g := Gcd(size, shift);
    var p, q, x, y := GcdFacts(size, shift);
    PeriodFacts(size, shift);
    var l := Period(size, shift);
    DivMod(k, g);
    var start, n := k % g, k / g;
    DivMod(n * y, l);
    var r, w := (n * y) % l, (n * y) / l;
    Substitute(l, shift, q, g);
    assert (l * q) * g == q * size;
    assert start + r * shift == -(n * x + w * q) * size + k by {
      ReachAlgebra(k, n, g, size, shift, l, start, r, w, x, y, q);
    }
    t := if r == 0 then l else r;
    ReachEnds(size, shift, k, start, r, n * x + w * q, l, q);
  }

  lemma ReachEnds(size: nat, shift: nat, k: nat, start: nat, r: nat, z: int, l: nat, q: int)
    requires 0 < size && k < size && l * shift == q * size && start + r * shift == -z * size + k
    ensures Slot(size, shift, start, if r == 0 then l else r) == k
  {
    if r == 0 {
      Distribute(q, z, size);
      ModUnique(start + l * shift, size, q - z, k);
    } else {
      ModUnique(start + r * shift, size, -z, k);
    }
  }

  lemma ReachAlgebra(k: int, n: int, g: int, size: int, shift: int, l: int, start: int, r: int, w: int, x: int, y: int, q: int)
    requires k == n * g + start && g == x * size + y * shift
    requires n * y == w * l + r && l * shift == q * size
    ensures start + r * shift == -(n * x + w * q) * size + k
  {
    calc {
      n * g;
      n * (x * size + y * shift);
      (n * x) * size + (n * y) * shift;
      (n * x) * size + (w * l + r) * shift;
      (n * x) * size + w * (l * shift) + r * shift;
      (n * x) * size + w * (q * size) + r * shift;
      (n * x + w * q) * size + r * shift;
    }
  }

  /** The indices already filled when the walk is t steps into the cycle of `start`. */
  ghost predicate Filled(size: nat, shift: nat, start: nat, t: nat, k: nat)
    requires 0 < size
  {
    var g := Gcd(size, shift);
    0 < g && (k % g < start || (k % g == start && exists m :: 1 <= m <= t && Slot(size, shift, start, m) == k))
  }

  /** One more step fills exactly the index it lands on, which was still untouched. */
  lemma FilledStep(size: nat, shift: nat, start: nat, t: nat, k: nat)
    requires 0 < size && start < Gcd(size, shift) && t < Period(size, shift) && k < size
    ensures var target := Slot(size, shift, start, t + 1);
      && !Filled(size, shift, start, t, target)
      && (Filled(size, shift, start, t + 1, k) <==> Filled(size, shift, start, t, k) || k == target)
      && (target == start <==> t + 1 == Period(size, shift))
  {
    PeriodFacts(size, shift);
    var g := Gcd(size, shift);
    var target := Slot(size, shift, start, t + 1);
    SlotClass(size, shift, start, t + 1);
    forall m | 1 <= m <= t
      ensures Slot(size, shift, start, m) != target
    {
      SlotDistinct(size, shift, start, m, t + 1);
    }
    SlotZero(size, shift, start);
    SlotCloses(size, shift, start);
    if t + 1 < Period(size, shift) {
      SlotDistinct(size, shift, start, 0, t + 1);
    }
  }

  /** When a cycle closes its whole class is filled, so the walk is where a fresh walk
      from `start + 1` begins. */
  lemma FilledCycle(size: nat, shift: nat, start: nat, k: nat)
    requires 0 < size && start < Gcd(size, shift) && k < size
    ensures Filled(size, shift, start, Period(size, shift), k) <==> Filled(size, shift, start + 1, 0, k)
  {
    PeriodFacts(size, shift);
    var g := Gcd(size, shift);
    if k % g == start {
      var t := SlotReaches(size, shift, k);
      assert Filled(size, shift, start, Period(size, shift), k);
    }
  }

  /** The start of the next cycle has never been reached, unless every line has. */
  lemma NextStartIsFresh(size: nat, shift: nat, start: nat)
    requires 0 < size && start + 1 < Gcd(size, shift)
    ensures start + 1 < size && !Filled(size, shift, start + 1, 0, start + 1)
  {
    PeriodFacts(size, shift);
    ModUnique(start + 1, Gcd(size, shift), 0, start + 1);
  }

  /** After gcd(size, shift) cycles, that is after `size` steps, everything is filled. */
  lemma AllFilled(size: nat, shift: nat, k: nat)
    requires 0 < size && k < size
    ensures Filled(size, shift, Gcd(size, shift), 0, k)
  {
    PeriodFacts(size, shift);
    DivMod(k, Gcd(size, shift));
  }

  /** The walk takes `size` steps in all. */
  lemma StepCount(size: nat, shift: nat, start: nat, t: nat)
    requires 0 < size && start <= Gcd(size, shift) && t < Period(size, shift)
    ensures start * Period(size, shift) + t < size || start == Gcd(size, shift)
    ensures start == Gcd(size, shift) ==> start * Period(size, shift) == size
  {
    hide Gcd, Period;
    PeriodFacts(size, shift);
    var g, l := Gcd(size, shift), Period(size, shift);
    if start < g { MulAtLeast(g - start, l); }
    assert (g - start) * l == g * l - start * l;
  }
}
