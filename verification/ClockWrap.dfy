/** Deadlines of Timer.cpp: milliseconds taken modulo the 10^7 of a 10000-second period. */
module ClockWrap {
  const PERIOD: nat := 10_000_000

  /** What is computed from a `timeval`. */
  function Reading(sec: nat, usec: nat): nat { (sec % 10000) * 1000 + usec / 1000 }

  function Millis(sec: nat, usec: nat): nat { sec * 1000 + usec / 1000 }

  lemma ReadingWraps(sec: nat, usec: nat)
    requires usec < 1_000_000
    ensures Reading(sec, usec) == Millis(sec, usec) % PERIOD
  {
    var q := sec / 10000;
    assert sec == q * 10000 + sec % 10000;
    assert Millis(sec, usec) == q * PERIOD + Reading(sec, usec);
    Residue(Millis(sec, usec), q, Reading(sec, usec));
  }

  lemma Residue(t: nat, q: nat, r: nat)
    requires t == q * PERIOD + r && r < PERIOD
    ensures t % PERIOD == r && t / PERIOD == q
  {}

  /** `expiredTime_` of a node armed at real time `armed`. */
  function Deadline(armed: nat, timeout: nat): nat { armed % PERIOD + timeout }

  /** `!isVaild()` asked at real time `t`. */
  predicate Expired(t: nat, deadline: nat) { t % PERIOD >= deadline }

  predicate Wraps(armed: nat, timeout: nat) { Deadline(armed, timeout) >= PERIOD }

  /** Within the period of arming, a node that does not wrap expires exactly at its real deadline. */
  lemma ExactWithinPeriod(armed: nat, timeout: nat, t: nat)
    requires !Wraps(armed, timeout) && t / PERIOD == armed / PERIOD
    ensures Expired(t, Deadline(armed, timeout)) <==> t >= armed + timeout
  {
    assert t == armed / PERIOD * PERIOD + t % PERIOD && armed == armed / PERIOD * PERIOD + armed % PERIOD;
  }

  /** A node never expires exactly when its deadline crosses the end of the period. */
  lemma NeverExpiresExactly(armed: nat, timeout: nat)
    ensures (forall t: nat :: !Expired(t, Deadline(armed, timeout))) <==> Wraps(armed, timeout)
  {
    if !Wraps(armed, timeout) {
      var t: nat := Deadline(armed, timeout);
      assert t % PERIOD == t by { Residue(t, 0, t); }
      assert Expired(t, Deadline(armed, timeout));
    }
  }

  /** Asked at its real deadline, a node answers correctly exactly when it does not wrap. */
  lemma OnTimeExactly(armed: nat, timeout: nat)
    ensures Expired(armed + timeout, Deadline(armed, timeout)) <==> !Wraps(armed, timeout)
  {
    if !Wraps(armed, timeout) {
      Residue(armed + timeout, armed / PERIOD, Deadline(armed, timeout));
    }
  }

  /** Asked in a later period, an overdue node is taken for live again until its residue comes round. */
  lemma OverdueLooksLive(armed: nat, timeout: nat, periods: nat, r: nat)
    requires !Wraps(armed, timeout) && r < PERIOD && periods >= 1
    ensures var t := (armed / PERIOD + periods) * PERIOD + r;
      t >= armed + timeout && (Expired(t, Deadline(armed, timeout)) <==> r >= Deadline(armed, timeout))
  {
    var t := (armed / PERIOD + periods) * PERIOD + r;
    Residue(t, armed / PERIOD + periods, r);
    assert armed == armed / PERIOD * PERIOD + armed % PERIOD;
    assert (armed / PERIOD + periods) * PERIOD == armed / PERIOD * PERIOD + periods * PERIOD;
  }

  /** The heap compares nodes armed in one period as their real deadlines do. */
  lemma OrderWithinPeriod(a: nat, ta: nat, b: nat, tb: nat)
    requires a / PERIOD == b / PERIOD
    ensures Deadline(a, ta) > Deadline(b, tb) <==> a + ta > b + tb
  {
    assert a == a / PERIOD * PERIOD + a % PERIOD && b == b / PERIOD * PERIOD + b % PERIOD;
  }

  /** Whether the heap puts the two nodes in the order of their real deadlines. */
  predicate OrderAgrees(a: nat, ta: nat, b: nat, tb: nat) {
    Deadline(a, ta) > Deadline(b, tb) <==> a + ta > b + tb
  }

  /** The time between the starts of the two periods of arming, `a` in the later one. */
  function Apart(a: nat, b: nat): nat
    requires a / PERIOD >= b / PERIOD
  {
    (a / PERIOD - b / PERIOD) * PERIOD
  }

  lemma DeadlinesApart(a: nat, ta: nat, b: nat, tb: nat)
    requires a / PERIOD >= b / PERIOD
    ensures (a + ta) - (b + tb) == Deadline(a, ta) - Deadline(b, tb) + Apart(a, b)
  {
    assert a == a / PERIOD * PERIOD + a % PERIOD && b == b / PERIOD * PERIOD + b % PERIOD;
    assert Apart(a, b) == a / PERIOD * PERIOD - b / PERIOD * PERIOD;
  }

  /**
    For nodes armed in any periods: the order is right exactly when the node armed later sorts last
    anyway, or sorts first by at least the time between the periods.
   */
  lemma OrderExactly(a: nat, ta: nat, b: nat, tb: nat)
    ensures a / PERIOD >= b / PERIOD ==> (OrderAgrees(a, ta, b, tb) <==>
      Deadline(a, ta) > Deadline(b, tb) || Deadline(b, tb) - Deadline(a, ta) >= Apart(a, b))
    ensures a / PERIOD <= b / PERIOD ==> (OrderAgrees(a, ta, b, tb) <==>
      Deadline(b, tb) >= Deadline(a, ta) || Deadline(a, ta) - Deadline(b, tb) > Apart(b, a))
  {
    if a / PERIOD >= b / PERIOD { DeadlinesApart(a, ta, b, tb); }
    if a / PERIOD <= b / PERIOD { DeadlinesApart(b, tb, a, ta); }
  }

  /** With one timeout for both: armed in a later period, a node sorts right exactly when its residue is later too. */
  lemma OrderAcrossPeriods(a: nat, b: nat, timeout: nat)
    requires a / PERIOD > b / PERIOD
    ensures OrderAgrees(a, timeout, b, timeout) <==> a % PERIOD > b % PERIOD
  {
    OrderExactly(a, timeout, b, timeout);
    assert Apart(a, b) >= PERIOD;
  }

  /** So two nodes armed one millisecond apart across the end of a period sort the wrong way round. */
  lemma OrderWitness()
    ensures !OrderAgrees(PERIOD, 2000, PERIOD - 1, 2000)
  {
    OrderAcrossPeriods(PERIOD, PERIOD - 1, 2000);
  }
}
