/** The condition combinators of the complex example bot
    (client/examples/complex/src/condition.rs).

    A Rust condition is evaluated through `&mut self`, so evaluating it may
    change it (only `AtInterval` has state: the instant it next fires). Here a
    condition is a value, and `Evaluate` returns the verdict together with the
    condition as it is after the evaluation; callers thread it on. */
module Condition {

  /** The conditions that ask the game analyzer (tokyo's `Analyzer`); their
      verdicts come from the caller. */
  datatype Sensor =
    | PlayerWithin(radius: real)
    | PlayerWithHigherScore
    | BulletColliding(radius: real, during: nat)
    | PlayerGettingNear(searchRadius: real, nearRadius: real, during: nat)

  /** Times and durations are in milliseconds. */
  datatype Cond =
    | Always
    | And(lhs: Cond, rhs: Cond)
    | Or(lhs: Cond, rhs: Cond)
    | Not(inner: Cond)
    | AtInterval(interval: nat, next: int)
    | Probe(sensor: Sensor)

  /** Whether a condition holds any `AtInterval`, the only stateful kind. */
  predicate HasTimer(c: Cond)
  {
    match c
    case Always => false
    case And(l, r) => HasTimer(l) || HasTimer(r)
    case Or(l, r) => HasTimer(l) || HasTimer(r)
    case Not(i) => HasTimer(i)
    case AtInterval(_, _) => true
    case Probe(_) => false
  }

  /** `b` is `a` with, at most, the `next` instants of its timers changed. */
  predicate SameShape(a: Cond, b: Cond)
  {
    match a
    case Always => b == Always
    case And(l, r) => b.And? && SameShape(l, b.lhs) && SameShape(r, b.rhs)
    case Or(l, r) => b.Or? && SameShape(l, b.lhs) && SameShape(r, b.rhs)
    case Not(i) => b.Not? && SameShape(i, b.inner)
    case AtInterval(iv, _) => b.AtInterval? && b.interval == iv
    case Probe(s) => b == Probe(s)
  }

  lemma SameShapeReflexive(c: Cond)
    ensures SameShape(c, c)
  {
  }

  /** `AtInterval::new`: the first instant it fires is the creation instant. */
  function NewAtInterval(interval: nat, now: int): (c: Cond)
    ensures c.AtInterval? && c.interval == interval
  {
    AtInterval(interval, now)
  }

  /** A timer made at `created` fires on its first evaluation at or after
      `created`, and on none before. */
  lemma NewAtIntervalFiresFirst(interval: nat, created: int, now: int, sense: Sensor -> bool)
    ensures Evaluate(NewAtInterval(interval, created), now, sense).0 <==> now >= created
  {
  }

  /** `evaluate` at instant `now`, with the analyzer's verdicts in `sense`.
      `And` and `Or` short-circuit, so a right operand that is not needed is
      neither evaluated nor advanced. */
  function Evaluate(c: Cond, now: int, sense: Sensor -> bool): (res: (bool, Cond))
    ensures SameShape(c, res.1)
    ensures !HasTimer(c) ==> res.1 == c
  {
    match c
    case Always => (true, c)
    case And(l, r) =>
      var (bl, l') := Evaluate(l, now, sense);
      if !bl then SameShapeReflexive(r); (false, And(l', r))
      else
        var (br, r') := Evaluate(r, now, sense);
        (br, And(l', r'))
    case Or(l, r) =>
      var (bl, l') := Evaluate(l, now, sense);
      if bl then SameShapeReflexive(r); (true, Or(l', r))
      else
        var (br, r') := Evaluate(r, now, sense);
        (br, Or(l', r'))
    case Not(i) =>
      var (b, i') := Evaluate(i, now, sense);
      (!b, Not(i'))
    case AtInterval(iv, next) =>
      if now >= next then (true, AtInterval(iv, next + iv)) else (false, c)
    case Probe(s) => (sense(s), c)
  }

  lemma AlwaysHolds(now: int, sense: Sensor -> bool)
    ensures Evaluate(Always, now, sense) == (true, Always)
  {
  }

  lemma AndShortCircuits(l: Cond, r: Cond, now: int, sense: Sensor -> bool)
    ensures var res := Evaluate(And(l, r), now, sense);
            && res.0 == (Evaluate(l, now, sense).0 && Evaluate(r, now, sense).0)
            && res.1.lhs == Evaluate(l, now, sense).1
            && (!Evaluate(l, now, sense).0 ==> res.1.rhs == r)
  {
  }

  lemma OrShortCircuits(l: Cond, r: Cond, now: int, sense: Sensor -> bool)
    ensures var res := Evaluate(Or(l, r), now, sense);
            && res.0 == (Evaluate(l, now, sense).0 || Evaluate(r, now, sense).0)
            && res.1.lhs == Evaluate(l, now, sense).1
            && (Evaluate(l, now, sense).0 ==> res.1.rhs == r)
  {
  }

  lemma NotNegates(i: Cond, now: int, sense: Sensor -> bool)
    ensures Evaluate(Not(i), now, sense) == (!Evaluate(i, now, sense).0, Not(Evaluate(i, now, sense).1))
  {
  }

  /** `AtInterval` fires exactly when its instant has come, and then moves
      that instant on by one interval (not to `now` plus the interval). */
  lemma AtIntervalFiresWhenDue(iv: nat, next: int, now: int, sense: Sensor -> bool)
    ensures Evaluate(AtInterval(iv, next), now, sense).0 <==> now >= next
    ensures Evaluate(AtInterval(iv, next), now, sense).1 ==
              AtInterval(iv, if now >= next then next + iv else next)
  {
  }

  /** Evaluating `c` `n` times in a row at the same instant: how many of the
      evaluations hold, and the condition afterwards. */
  function Repeat(c: Cond, now: int, sense: Sensor -> bool, n: nat): (res: (nat, Cond))
    ensures res.0 <= n
    decreases n
  {
    if n == 0 then (0, c)
    else
      var (b, c') := Evaluate(c, now, sense);
      var (k, c'') := Repeat(c', now, sense, n - 1);
      (k + (if b then 1 else 0), c'')
  }

  /** Because `next` moves by one interval per firing, a timer that fell
      `k` whole intervals behind fires on `k + 1` evaluations in a row
      before it catches up with the clock. */
  lemma {:induction false} AtIntervalCatchesUp(iv: nat, next: int, now: int, k: nat,
                                               sense: Sensor -> bool)
    requires next + k * iv <= now
    ensures Repeat(AtInterval(iv, next), now, sense, k + 1) ==
              (k + 1, AtInterval(iv, next + (k + 1) * iv))
    decreases k
  {
    assert Evaluate(AtInterval(iv, next), now, sense) == (true, AtInterval(iv, next + iv));
    if k == 0 {
      assert Repeat(AtInterval(iv, next + iv), now, sense, 0) == (0, AtInterval(iv, next + iv));
    } else {
      assert (next + iv) + (k - 1) * iv == next + k * iv;
      AtIntervalCatchesUp(iv, next + iv, now, k - 1, sense);
      assert (next + iv) + k * iv == next + (k + 1) * iv;
    }
  }

  /** At least one whole interval: `d * iv >= iv` for `d >= 1`. */
  lemma {:induction false} WholeIntervals(d: nat, iv: nat)
    requires d >= 1
    ensures d * iv >= iv
    decreases d
  {
    if d > 1 {
      WholeIntervals(d - 1, iv);
      assert d * iv == (d - 1) * iv + iv;
    }
  }

  /** Division by a positive interval has exactly one quotient. */
  lemma QuotientUnique(a: int, iv: nat, q: int, r: int)
    requires iv > 0 && a == q * iv + r && 0 <= r < iv
    ensures a / iv == q
  {
    var q0, r0 := a / iv, a % iv;
    assert a == q0 * iv + r0 && 0 <= r0 < iv;
    assert (q0 - q) * iv == r - r0 by {
      assert (q0 - q) * iv == q0 * iv - q * iv;
    }
    if q0 > q {
      WholeIntervals(q0 - q, iv);
    } else if q0 < q {
      WholeIntervals(q - q0, iv);
    }
  }

  /** `a / iv`, one interval less, is `(a - iv) / iv` for `a` at least `iv`,
      and 0 below it. */
  lemma IntervalsElapsed(a: int, iv: nat)
    requires iv > 0 && a >= 0
    ensures a >= iv ==> (a - iv) / iv == a / iv - 1
    ensures a < iv ==> a / iv == 0
  {
    if a >= iv {
      var q, r := (a - iv) / iv, (a - iv) % iv;
      assert a == (q + 1) * iv + r by {
        assert (q + 1) * iv == q * iv + iv;
      }
      QuotientUnique(a, iv, q + 1, r);
    } else {
      QuotientUnique(a, iv, 0, a);
    }
  }

  /** How many of its intervals have come due for a timer at `next` by
      `now`: none before `next`, then one more per whole interval. */
  function DueFirings(iv: nat, next: int, now: int): nat
    requires iv > 0
  {
    if now >= next then (now - next) / iv + 1 else 0
  }

  /** How often a timer fires when it is evaluated `n` times at the same
      instant: once per interval that has come due, but at most `n` times;
      `next` moves on by one interval per firing. */
  lemma {:induction false} AtIntervalRepeatCount(iv: nat, next: int, now: int, n: nat,
                                                 sense: Sensor -> bool)
    requires iv > 0
    ensures var k := if n <= DueFirings(iv, next, now) then n else DueFirings(iv, next, now);
            Repeat(AtInterval(iv, next), now, sense, n) == (k, AtInterval(iv, next + k * iv))
    decreases n
  {
    if n == 0 {
      assert Repeat(AtInterval(iv, next), now, sense, 0) == (0, AtInterval(iv, next));
    } else if now < next {
      assert Evaluate(AtInterval(iv, next), now, sense) == (false, AtInterval(iv, next));
      AtIntervalRepeatCount(iv, next, now, n - 1, sense);
    } else {
      assert Evaluate(AtInterval(iv, next), now, sense) == (true, AtInterval(iv, next + iv));
      IntervalsElapsed(now - next, iv);
      var due := DueFirings(iv, next, now);
      assert DueFirings(iv, next + iv, now) == due - 1;
      AtIntervalRepeatCount(iv, next + iv, now, n - 1, sense);
      var k' := if n - 1 <= due - 1 then n - 1 else due - 1;
      assert (next + iv) + k' * iv == next + (k' + 1) * iv;
    }
  }
}
