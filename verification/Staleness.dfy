/** Staleness of a federated access point (federate/hub.go), over rows the table sink stored. */
module Staleness {
  import opened Text
  import opened Store
  import opened TableSpec
  import opened TableRun
  import opened TableTheorems

  const LAG := "spokelagseconds"
  const INTERVAL := "heartbeatintervalseconds"

  /** syncstatus.DefaultInterval in seconds. */
  const DEFAULT_INTERVAL: int := 5

  /** About a hundred years: the cap on each term. */
  const MAX_STALENESS: int := 100 * 365 * 24 * 3600

  const TWO63: int := 0x8000_0000_0000_0000

  /** Go's int64 arithmetic. */
  function Wrap64(x: int): (r: int)
    ensures -TWO63 <= r < TWO63
  {
    (x + TWO63) % (2 * TWO63) - TWO63
  }

  function MinInt(a: int, b: int): int { if a < b then a else b }

  /** staleness, with its additions and its subtraction as 64-bit ones. */
  function Staleness(row: Ad, now: int): Option<int> {
    var recv, lag := IntOf(row, RECEIVED), IntOf(row, LAG);
    if recv.None? || lag.None? || lag.value < 0 then None
    else
      var iv := match IntOf(row, INTERVAL)
        case Some(i) => if i <= 0 then DEFAULT_INTERVAL else i
        case None => DEFAULT_INTERVAL;
      var since := Wrap64(now - recv.value);
      if since < 0 then None
      else Some(Wrap64(Wrap64(MinInt(since, MAX_STALENESS) + MinInt(lag.value, MAX_STALENESS)) +
                       MinInt(iv, MAX_STALENESS)))
  }

  /** A clock reading: far from the ends of the 64-bit range. */
  predicate ClockTime(t: int) { -TWO63 < 2 * t < TWO63 }

  /** Over any run, a known staleness of a stored syncstatus row is the capped time since a genuine live arrival
      of that heartbeat, plus the capped lag and the capped interval it reported, with nothing wrapped: never
      negative, and more than the first two alone. */
  lemma {:induction false} StalenessBounds(rows: Rows, schedd: string, acts: seq<Action>, hk: string, now: int,
                                           logs: Logs)
    requires RowsOk(rows) && forall h :: h in rows ==> !Owned(schedd, h)
    requires ValidRun(Start(rows, schedd, true), false, acts, logs)
    requires var end := Run(Start(rows, schedd, true), acts);
             && hk in end.w.rows && Owned(schedd, hk) && Staleness(end.w.rows[hk], now).Some?
             && ClockTime(now) && forall r :: r in end.receipts ==> ClockTime(r.at)
    ensures var end := Run(Start(rows, schedd, true), acts);
            var row := end.w.rows[hk];
            var x := Staleness(row, now).value;
            exists r :: r in end.receipts && r.key == hk && r.seqNo == IntOf(row, SEQ) && r.beat == IntOf(row, BEAT) &&
                        r.at <= now && 0 <= x <= 3 * MAX_STALENESS && Sums(row, x, now - r.at) &&
                        x > MinInt(now - r.at, MAX_STALENESS) + MinInt(IntOf(row, LAG).value, MAX_STALENESS)
  {
    hide Sums, Run, ValidRun, Owned, Staleness, IntOf, MinInt, RowsOk;
    ReceiptsGenuine(rows, schedd, true, acts, logs);
    RunKeepsId(Start(rows, schedd, true), acts);
    var end := Run(Start(rows, schedd, true), acts);
    var row := end.w.rows[hk];
    Known(row, now);
    assert RowReceived(hk, row, end.receipts);
    var r := Receipt(hk, IntOf(row, SEQ), IntOf(row, BEAT), row[RECEIVED].i);
    assert r in end.receipts;
    Arithmetic(row, now);
  }

  /** x is since, the row's lag and its interval, each capped and then added as integers; an interval that is
      missing or not positive counts as five seconds. */
  predicate Sums(row: Ad, x: int, since: int) {
    var lag, iv := IntOf(row, LAG), IntOf(row, INTERVAL);
    && lag.Some?
    && x == MinInt(since, MAX_STALENESS) + MinInt(lag.value, MAX_STALENESS) +
            MinInt(if iv.Some? && iv.value > 0 then iv.value else 5, MAX_STALENESS)
  }

  lemma {:induction false} Known(row: Ad, now: int)
    requires Staleness(row, now).Some?
    ensures RECEIVED in row && row[RECEIVED].IntV? && IntOf(row, LAG).Some?
  {
  }

  /** Between clock readings staleness is known exactly when the receipt time and a lag that is not negative are
      stored and the receipt is not in the future, and it is then the plain sum. */
  lemma {:induction false} StalenessExact(row: Ad, now: int)
    requires ClockTime(now) && (IntOf(row, RECEIVED).Some? ==> ClockTime(IntOf(row, RECEIVED).value))
    ensures Staleness(row, now).Some? <==>
            && IntOf(row, RECEIVED).Some? && IntOf(row, RECEIVED).value <= now
            && IntOf(row, LAG).Some? && IntOf(row, LAG).value >= 0
    ensures Staleness(row, now).Some? ==> Sums(row, Staleness(row, now).value, now - IntOf(row, RECEIVED).value)
  {
    hide Wrap64;
    if IntOf(row, RECEIVED).Some? && IntOf(row, LAG).Some? && IntOf(row, LAG).value >= 0 {
      var recv, lag := IntOf(row, RECEIVED).value, IntOf(row, LAG).value;
      var iv := match IntOf(row, INTERVAL)
        case Some(i) => if i <= 0 then DEFAULT_INTERVAL else i
        case None => DEFAULT_INTERVAL;
      WrapSame(now - recv);
      WrapSame(MinInt(now - recv, MAX_STALENESS) + MinInt(lag, MAX_STALENESS));
      WrapSame(MinInt(now - recv, MAX_STALENESS) + MinInt(lag, MAX_STALENESS) + MinInt(iv, MAX_STALENESS));
    }
  }

  /** The bounds that follow. */
  lemma {:induction false} Arithmetic(row: Ad, now: int)
    requires Staleness(row, now).Some? && RECEIVED in row && row[RECEIVED].IntV?
    requires ClockTime(now) && ClockTime(row[RECEIVED].i)
    ensures var x := Staleness(row, now).value;
            && IntOf(row, LAG).Some? && row[RECEIVED].i <= now && 0 <= x <= 3 * MAX_STALENESS
            && Sums(row, x, now - row[RECEIVED].i)
            && x > MinInt(now - row[RECEIVED].i, MAX_STALENESS) + MinInt(IntOf(row, LAG).value, MAX_STALENESS)
  {
    hide Staleness;
    StalenessExact(row, now);
  }

  lemma {:induction false} WrapSame(x: int)
    ensures -TWO63 <= x < TWO63 ==> Wrap64(x) == x
  {
  }
}
