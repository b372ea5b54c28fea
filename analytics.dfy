/** The journal's analytics: trade P/L, the account rollups and the win rate
    (`calcNetPL`, `calcCurrentBalance`, `calcTotalDeposits`,
    `calcTotalWithdrawals`, `calcWinRate` in app.js). Each works on the
    store's arrays as they stand; here the arrays are parameters. */
module Analytics {
  import opened Seqs
  import opened Journal

  /** The cash a fill moves, `quantity × price`: positive for a purchase. */
  function DecisionValue(d: Decision): real
  {
    d.quantity as real * d.price
  }

  /** A trade's profit or loss: what its exits brought in minus what its
      entries cost, i.e. minus the sum of quantity × price. */
  function NetPL(t: Trade): real
  {
    -Sum(t.decisions, DecisionValue)
  }

  /** A money entry's effect on the balance: exactly "Deposit" adds, every
      other type subtracts. */
  function Signed(e: MoneyEntry): real
  {
    if e.kind == "Deposit" then e.amount else -e.amount
  }

  function MoneyBalance(es: seq<MoneyEntry>): real
  {
    Sum(es, Signed)
  }

  /** The P/L of every trade, open or closed. */
  function TradingPL(ts: seq<Trade>): real
  {
    Sum(ts, NetPL)
  }

  function CurrentBalance(ts: seq<Trade>, es: seq<MoneyEntry>): real
  {
    MoneyBalance(es) + TradingPL(ts)
  }

  function Amount(e: MoneyEntry): real
  {
    e.amount
  }

  function KindIs(kind: string): MoneyEntry -> bool
  {
    (e: MoneyEntry) => e.kind == kind
  }

  /** The amounts of the entries whose type is exactly `kind`, added up. */
  function TotalOfKind(es: seq<MoneyEntry>, kind: string): real
  {
    Sum(Filter(es, KindIs(kind)), Amount)
  }

  function TotalDeposits(es: seq<MoneyEntry>): real
  {
    TotalOfKind(es, "Deposit")
  }

  function TotalWithdrawals(es: seq<MoneyEntry>): real
  {
    TotalOfKind(es, "Withdrawal")
  }

  predicate IsOtherKind(e: MoneyEntry)
  {
    e.kind != "Deposit" && e.kind != "Withdrawal"
  }

  /** Entries of any type other than the two the summary cards show. */
  function TotalOther(es: seq<MoneyEntry>): real
  {
    Sum(Filter(es, IsOtherKind), Amount)
  }

  predicate IsClosed(t: Trade)
  {
    t.status == "closed"
  }

  predicate IsWinner(t: Trade)
  {
    NetPL(t) > 0.0
  }

  function ClosedTrades(ts: seq<Trade>): seq<Trade>
  {
    Filter(ts, IsClosed)
  }

  function Winners(ts: seq<Trade>): seq<Trade>
  {
    Filter(ClosedTrades(ts), IsWinner)
  }

  /** The percentage of closed trades with a strictly positive P/L; 0 when no
      trade is closed. */
  function WinRate(ts: seq<Trade>): (r: real)
    ensures 0.0 <= r <= 100.0
    ensures r == 0.0 <==> Winners(ts) == []
    ensures r == 100.0 <==> ClosedTrades(ts) != [] && |Winners(ts)| == |ClosedTrades(ts)|
  {
    var closed := ClosedTrades(ts);
    if |closed| == 0 then 0.0
    else
      Percentage(|Filter(closed, IsWinner)|, |closed|);
      (|Filter(closed, IsWinner)| as real / |closed| as real) * 100.0
  }

  /** `(part / whole) * 100` for counts lies in [0, 100], is 0 exactly when
      the part is empty and 100 exactly when it is the whole. */
  lemma Percentage(part: nat, whole: nat)
    requires 0 < whole && part <= whole
    ensures 0.0 <= (part as real / whole as real) * 100.0 <= 100.0
    ensures (part as real / whole as real) * 100.0 == 0.0 <==> part == 0
    ensures (part as real / whole as real) * 100.0 == 100.0 <==> part == whole
  {
    var q := part as real / whole as real;
    assert q * whole as real == part as real;
    if part < whole {
      assert q < 1.0;
    }
  }

  // ---------------------------------------------------------------- trade P/L

  lemma NetPLNoDecisions(t: Trade)
    requires t.decisions == []
    ensures NetPL(t) == 0.0
  {
  }

  /** Recording one more fill moves the trade's P/L by minus its quantity × price. */
  lemma NetPLAddDecision(t: Trade, d: Decision)
    ensures NetPL(t.(decisions := t.decisions + [d])) == NetPL(t) - d.quantity as real * d.price
  {
    SumAppend(t.decisions, d, DecisionValue);
  }

  /** A round trip: buying q at `entry` and selling the same q at `exit`
      earns q × (exit − entry). */
  lemma NetPLRoundTrip(t: Trade, q: int, entry: real, exit: real)
    requires |t.decisions| == 2
    requires t.decisions[0].quantity == q && t.decisions[0].price == entry
    requires t.decisions[1].quantity == -q && t.decisions[1].price == exit
    ensures NetPL(t) == q as real * (exit - entry)
  {
    var ds := t.decisions;
    assert ds == [ds[0]] + [ds[1]];
    SumPrepend(ds[0], [ds[1]], DecisionValue);
    SumPrepend(ds[1], [], DecisionValue);
    assert [ds[1]] == [ds[1]] + [];
  }

  /** The P/L does not depend on the order in which the fills are listed. */
  lemma NetPLReorder(t: Trade, u: Trade)
    requires multiset(t.decisions) == multiset(u.decisions)
    ensures NetPL(t) == NetPL(u)
  {
    SumPermutation(t.decisions, u.decisions, DecisionValue);
  }

  /** The sample AAPL trade (+100 @ 150, -50 @ 155, -50 @ 158) made 650. */
  lemma SeedAaplNetPL(ids: seq<string>)
    requires |ids| == SeedIdCount
    ensures NetPL(SeedTrades(ids)[0]) == 650.0
  {
    var ds := SeedTrades(ids)[0].decisions;
    SumPrepend(ds[0], ds[1..], DecisionValue);
    SumPrepend(ds[1], ds[2..], DecisionValue);
    SumPrepend(ds[2], ds[3..], DecisionValue);
    assert ds == [ds[0]] + ds[1..];
    assert ds[1..] == [ds[1]] + ds[2..];
    assert ds[2..] == [ds[2]] + ds[3..];
  }

  // --------------------------------------------------------- account rollups

  /** The balance is the same whatever order the money entries and the trades
      are kept in. */
  lemma BalanceReorder(ts: seq<Trade>, ts': seq<Trade>, es: seq<MoneyEntry>, es': seq<MoneyEntry>)
    requires multiset(ts) == multiset(ts') && multiset(es) == multiset(es')
    ensures CurrentBalance(ts, es) == CurrentBalance(ts', es')
  {
    SumPermutation(ts, ts', NetPL);
    SumPermutation(es, es', Signed);
  }

  /** One more money entry adds its amount when it is a "Deposit" and
      subtracts it whatever other type it has. */
  lemma BalanceAddEntry(ts: seq<Trade>, es: seq<MoneyEntry>, e: MoneyEntry)
    ensures e.kind == "Deposit" ==> CurrentBalance(ts, es + [e]) == CurrentBalance(ts, es) + e.amount
    ensures e.kind != "Deposit" ==> CurrentBalance(ts, es + [e]) == CurrentBalance(ts, es) - e.amount
  {
    SumAppend(es, e, Signed);
  }

  /** One more trade moves the balance by exactly that trade's P/L. */
  lemma BalanceAddTrade(ts: seq<Trade>, es: seq<MoneyEntry>, t: Trade)
    ensures CurrentBalance(ts + [t], es) == CurrentBalance(ts, es) + NetPL(t)
  {
    SumAppend(ts, t, NetPL);
  }

  /** A total by type grows by an entry's amount exactly when the entry has
      that type. */
  lemma TotalOfKindAddEntry(es: seq<MoneyEntry>, e: MoneyEntry, kind: string)
    ensures TotalOfKind(es + [e], kind) == TotalOfKind(es, kind) + (if e.kind == kind then e.amount else 0.0)
  {
    FilterAppend(es, e, KindIs(kind));
    if e.kind == kind {
      SumAppend(Filter(es, KindIs(kind)), e, Amount);
    }
  }

  /** The money part of the balance, split by type: deposits count in,
      withdrawals count out, and so does every entry of any other type. */
  lemma {:induction false} MoneyBalanceByKind(es: seq<MoneyEntry>)
    ensures MoneyBalance(es) == TotalDeposits(es) - TotalWithdrawals(es) - TotalOther(es)
    decreases |es|
  {
    if es != [] {
      var es', e := es[..|es| - 1], es[|es| - 1];
      assert es == es' + [e];
      MoneyBalanceByKind(es');
      SumAppend(es', e, Signed);
      TotalOfKindAddEntry(es', e, "Deposit");
      TotalOfKindAddEntry(es', e, "Withdrawal");
      FilterAppend(es', e, IsOtherKind);
      if IsOtherKind(e) {
        SumAppend(Filter(es', IsOtherKind), e, Amount);
      }
    }
  }

  /** When every entry is a "Deposit" or a "Withdrawal", the balance is
      deposits − withdrawals + trading P/L. */
  lemma BalanceFromTotals(ts: seq<Trade>, es: seq<MoneyEntry>)
    requires forall k :: 0 <= k < |es| ==> es[k].kind == "Deposit" || es[k].kind == "Withdrawal"
    ensures CurrentBalance(ts, es) == TotalDeposits(es) - TotalWithdrawals(es) + TradingPL(ts)
  {
    MoneyBalanceByKind(es);
    FilterKeepsNone(es, IsOtherKind);
  }

  /** The sample store's balance: 10000 − 1000 + 650 (AAPL) − 10000 (the cost
      of the open TSLA position) = −350. */
  lemma SeedBalance(ids: seq<string>)
    requires |ids| == SeedIdCount
    ensures CurrentBalance(SeedTrades(ids), SeedMoneyEntries(ids)) == -350.0
  {
    var ts, es := SeedTrades(ids), SeedMoneyEntries(ids);
    SeedAaplNetPL(ids);
    assert ts == [ts[0]] + [ts[1]];
    SumPrepend(ts[0], [ts[1]], NetPL);
    SumPrepend(ts[1], [], NetPL);
    assert [ts[1]] == [ts[1]] + [];
    assert NetPL(ts[1]) == -10000.0 by {
      var ds := ts[1].decisions;
      SumPrepend(ds[0], [], DecisionValue);
      assert ds == [ds[0]] + [];
    }
    assert es == [es[0]] + [es[1]];
    SumPrepend(es[0], [es[1]], Signed);
    SumPrepend(es[1], [], Signed);
    assert [es[1]] == [es[1]] + [];
  }

  // ---------------------------------------------------------------- win rate

  /** Only closed trades matter: the rate over all trades is the rate over
      the closed ones. */
  lemma WinRateOnlyClosed(ts: seq<Trade>)
    ensures WinRate(ts) == WinRate(ClosedTrades(ts))
  {
    FilterIdempotent(ts, IsClosed);
  }

  /** Inserting a trade that is not closed, anywhere, leaves the rate as it was. */
  lemma WinRateIgnoresOpen(front: seq<Trade>, t: Trade, back: seq<Trade>)
    requires !IsClosed(t)
    ensures WinRate(front + [t] + back) == WinRate(front + back)
  {
    FilterConcat(front + [t], back, IsClosed);
    FilterConcat(front, [t], IsClosed);
    FilterConcat(front, back, IsClosed);
    assert Filter([t], IsClosed) == [] by {
      assert [t] == [] + [t];
      FilterAppend([], t, IsClosed);
    }
    assert Filter(front, IsClosed) + [] == Filter(front, IsClosed);
  }

  /** A closed trade that broke even is not a winner: a single one gives 0. */
  lemma WinRateBreakEven(t: Trade)
    requires IsClosed(t) && NetPL(t) == 0.0
    ensures WinRate([t]) == 0.0
  {
    assert [t] == [] + [t];
    FilterAppend([], t, IsClosed);
    FilterAppend([], t, IsWinner);
  }

  /** The sample store's one closed trade is a winner: 100%. */
  lemma SeedWinRate(ids: seq<string>)
    requires |ids| == SeedIdCount
    ensures WinRate(SeedTrades(ids)) == 100.0
  {
    var ts := SeedTrades(ids);
    SeedAaplNetPL(ids);
    assert ts == [ts[0]] + [ts[1]];
    assert [ts[0]] == [] + [ts[0]];
    FilterConcat([ts[0]], [ts[1]], IsClosed);
    FilterAppend([], ts[0], IsClosed);
    assert [ts[1]] == [] + [ts[1]];
    FilterAppend([], ts[1], IsClosed);
    assert ClosedTrades(ts) == [ts[0]];
    FilterAppend([], ts[0], IsWinner);
  }
}
