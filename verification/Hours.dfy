/** Credited-minutes arithmetic of attendance/hours.go. Times are nanoseconds;
    Go's division truncates toward zero, which TruncDiv writes out. */
module Hours {
  import opened Common

  const NANOS_PER_MINUTE := 60_000_000_000

  datatype RuleType = NoBreak | FixedAfterThreshold

  datatype BreakRule = BreakRule(kind: RuleType, threshold: int, deduction: int)

  datatype Credit = Credit(elapsed: int, deducted: int, credited: int)

  /** Go's integer division: rounds toward zero. */
  function TruncDiv(a: int, b: int): int
    requires b > 0
  {
    if a >= 0 then a / b else -((-a) / b)
  }

  predicate Applies(rule: BreakRule, elapsed: int) {
    rule.kind == FixedAfterThreshold && rule.threshold > 0 && rule.deduction > 0 && elapsed >= rule.threshold
  }

  function CreditedMinutes(timeIn: int, timeOut: int, rule: BreakRule): Credit {
    var elapsed := Max(TruncDiv(timeOut - timeIn, NANOS_PER_MINUTE), 0);
    var deducted := if Applies(rule, elapsed) then Min(rule.deduction, elapsed) else 0;
    Credit(elapsed, deducted, elapsed - deducted)
  }

  function ProgressPercent(completed: int, required: int): int {
    if required <= 0 then 0 else Min(TruncDiv(completed * 100, required), 100)
  }

  /** Conservation: what is not credited was deducted, and nothing goes below zero;
      elapsed is the number of whole minutes that fit between the two instants. */
  lemma CreditConserves(timeIn: int, timeOut: int, rule: BreakRule)
    ensures var c := CreditedMinutes(timeIn, timeOut, rule);
            && c.credited + c.deducted == c.elapsed
            && c.elapsed >= 0 && c.deducted >= 0 && c.credited >= 0
            && (timeOut <= timeIn ==> c.elapsed == 0)
            && (timeOut >= timeIn ==>
                  c.elapsed * NANOS_PER_MINUTE <= timeOut - timeIn < (c.elapsed + 1) * NANOS_PER_MINUTE)
  {
    var d := timeOut - timeIn;
    if d >= 0 {
      assert d == d / NANOS_PER_MINUTE * NANOS_PER_MINUTE + d % NANOS_PER_MINUTE;
    }
  }

  /** Extending the time-out never credits more than the minutes it adds. It lowers
      the credit only when it crosses the break threshold, and then by at most the
      deduction. */
  lemma ExtendingTimeOut(timeIn: int, timeOut: int, later: int, rule: BreakRule)
    requires timeOut <= later
    ensures var c, d := CreditedMinutes(timeIn, timeOut, rule), CreditedMinutes(timeIn, later, rule);
            && c.elapsed <= d.elapsed
            && d.credited - c.credited <= d.elapsed - c.elapsed
            && (d.credited < c.credited ==>
                  !Applies(rule, c.elapsed) && Applies(rule, d.elapsed) && c.credited - d.credited <= rule.deduction)
  {
    TruncDivMonotone(timeOut - timeIn, later - timeIn, NANOS_PER_MINUTE);
  }

  lemma TruncDivMonotone(a: int, b: int, d: int)
    requires a <= b && d > 0
    ensures TruncDiv(a, d) <= TruncDiv(b, d)
  {
    if a >= 0 {
      DivMonotone(a, b, d);
    } else if b < 0 {
      DivMonotone(-b, -a, d);
    } else {
      DivMonotone(0, -a, d);
      DivMonotone(0, b, d);
    }
  }

  lemma DivMonotone(a: int, b: int, d: int)
    requires 0 <= a <= b && d > 0
    ensures 0 <= a / d <= b / d
  {
    if a / d > b / d {
      assert a / d * d >= (b / d + 1) * d by { MulMonotone(b / d + 1, a / d, d); }
    }
  }

  /** Truncated division reaches a positive quotient exactly when the multiple fits. */
  lemma QuotientReaches(a: int, q: int, d: int)
    requires d > 0 && q > 0
    ensures TruncDiv(a, d) >= q <==> a >= q * d
  {
    if a >= q * d {
      assert q * d >= 0 by { MulMonotone(0, q, d); }
      DivMonotone(q * d, a, d);
      assert q * d / d == q by { MulDivCancels(q, d); }
    } else if a >= 0 {
      if a / d >= q { MulMonotone(q, a / d, d); }
    } else {
      DivMonotone(0, -a, d);
    }
  }

  lemma MulDivCancels(q: int, d: int)
    requires d > 0 && q >= 0
    ensures q * d / d == q
  {
    var x := q * d / d;
    assert x * d <= q * d < (x + 1) * d;
    if x < q { MulMonotone(x + 1, q, d); }
    if x > q { MulMonotone(q + 1, x, d); }
  }

  /** For a positive requirement the percentage never drops as minutes are added,
      and it is 100 exactly when the requirement is met. */
  lemma ProgressMonotoneAndExact(completed: int, more: int, required: int)
    requires required > 0 && completed <= more
    ensures ProgressPercent(completed, required) <= ProgressPercent(more, required) <= 100
    ensures ProgressPercent(completed, required) == 100 <==> completed >= required
  {
    TruncDivMonotone(completed * 100, more * 100, required);
    QuotientReaches(completed * 100, 100, required);
  }

  /** The credit in full: of the m whole minutes between the two instants, a fixed break
      is deducted exactly when the time itself reaches the threshold, and never more
      than there is. */
  lemma CreditExactly(timeIn: int, timeOut: int, rule: BreakRule, m: nat)
    requires m * 60_000_000_000 <= timeOut - timeIn < (m + 1) * 60_000_000_000
    ensures var c := CreditedMinutes(timeIn, timeOut, rule);
            var breaks := rule.kind == FixedAfterThreshold && rule.threshold > 0 && rule.deduction > 0
                          && timeOut - timeIn >= rule.threshold * 60_000_000_000;
      && c.elapsed == m
      && c.credited == if !breaks then m else if rule.deduction < m then m - rule.deduction else 0
  {
    CreditConserves(timeIn, timeOut, rule);
    if rule.threshold > 0 { QuotientReaches(timeOut - timeIn, rule.threshold, NANOS_PER_MINUTE); }
  }

  /** Below the requirement the percentage is the whole number of hundredths done. */
  lemma PercentExactly(completed: nat, required: int)
    requires required > 0
    ensures var p := ProgressPercent(completed, required);
      if completed >= required then p == 100 else p * required <= completed * 100 < (p + 1) * required
  {
    ProgressMonotoneAndExact(completed, completed, required);
    var d := completed * 100;
    assert d == d / required * required + d % required;
  }

  const NANOS_PER_MICROSECOND := 1000

  /** What is left of an instant once it is stored with microsecond precision. */
  function Stored(t: int): int { t - t % NANOS_PER_MICROSECOND }

  /** Time Out computes with a stored time-in and its own clock reading; the credit is
      that of the two stored times, because a minute is a whole number of microseconds. */
  lemma MicrosecondsSuffice(timeIn: int, now: int, rule: BreakRule)
    requires Stored(timeIn) == timeIn <= now
    ensures timeIn <= Stored(now) <= now
    ensures CreditedMinutes(timeIn, now, rule) == CreditedMinutes(timeIn, Stored(now), rule)
  {
    var minute := NANOS_PER_MINUTE / NANOS_PER_MICROSECOND;
    var d, e := now - timeIn, Stored(now) - timeIn;
    assert d / NANOS_PER_MICROSECOND == e / NANOS_PER_MICROSECOND;
    assert d / NANOS_PER_MINUTE == d / NANOS_PER_MICROSECOND / minute;
    assert e / NANOS_PER_MINUTE == e / NANOS_PER_MICROSECOND / minute;
  }
}
