/** The money-management table: the money entries sorted newest first, each
    shown beside a running balance (the loop in `renderMoneyManagement`).

    The loop as app.js writes it walks the date-descending list from its
    last row (the oldest entry) to its first, handing the current balance to
    the oldest entry and taking each entry's amount off before moving to the
    next newer one. So the balance a row shows leaves out that entry's OLDER
    neighbours instead of its newer ones, and the newest row does not show the
    current balance. `AnnotateRunningBalance` models the loop as written;
    `AnnotateNewestFirst` is the walk that gives each row the balance right
    after its entry, and is what the store's table uses. */
module MoneyTable {
  import opened Seqs
  import opened Journal
  import opened Analytics

  /** A row of the table: a copy of the entry with the balance shown beside it. */
  datatype BalanceRow = BalanceRow(entry: MoneyEntry, runningBalance: real)

  predicate NewestFirst(es: seq<MoneyEntry>)
  {
    forall i, j :: 0 <= i < j < |es| ==> es[i].date >= es[j].date
  }

  /** Puts `e` in front of the first entry that is not newer than it, so an
      entry inserted earlier stays ahead of later ones with the same date. */
  function InsertNewestFirst(e: MoneyEntry, es: seq<MoneyEntry>): (r: seq<MoneyEntry>)
    requires NewestFirst(es)
    ensures NewestFirst(r)
    ensures multiset(r) == multiset(es) + multiset{e}
    decreases |es|
  {
    if es == [] || es[0].date <= e.date then
      NewestFirstCons(e, es);
      [e] + es
    else
      var rest := InsertNewestFirst(e, es[1..]);
      assert es == [es[0]] + es[1..];
      InsertedBelowHead(es[0], es[1..], e, rest);
      NewestFirstCons(es[0], rest);
      [es[0]] + rest
  }

  /** Prepending an entry no older than the head keeps a list newest first. */
  lemma NewestFirstCons(h: MoneyEntry, es: seq<MoneyEntry>)
    requires NewestFirst(es)
    requires forall k :: 0 <= k < |es| ==> es[k].date <= h.date
    ensures NewestFirst([h] + es)
  {
    var r := [h] + es;
    forall i, j | 0 <= i < j < |r| ensures r[i].date >= r[j].date {
      if i > 0 {
        assert r[i] == es[i - 1] && r[j] == es[j - 1];
      } else {
        assert r[j] == es[j - 1];
      }
    }
  }

  /** Inserting an entry no newer than `h` into entries no newer than `h`
      gives entries no newer than `h`. */
  lemma InsertedBelowHead(h: MoneyEntry, tail: seq<MoneyEntry>, e: MoneyEntry, rest: seq<MoneyEntry>)
    requires NewestFirst([h] + tail)
    requires e.date <= h.date
    requires multiset(rest) == multiset(tail) + multiset{e}
    ensures forall k :: 0 <= k < |rest| ==> rest[k].date <= h.date
  {
    forall k | 0 <= k < |rest| ensures rest[k].date <= h.date {
      var x := rest[k];
      assert x in multiset(rest);
      if x != e {
        assert x in multiset(tail);
        var j :| 0 <= j < |tail| && tail[j] == x;
        var l := [h] + tail;
        assert l[0] == h && l[j + 1] == x;
        assert l[0].date >= l[j + 1].date;
      }
    }
  }

  /** `[...entries].sort((a, b) => new Date(b.date) - new Date(a.date))`:
      the same entries, newest first. */
  function SortNewestFirst(es: seq<MoneyEntry>): (r: seq<MoneyEntry>)
    ensures NewestFirst(r)
    ensures multiset(r) == multiset(es)
    ensures |r| == |es|
    decreases |es|
  {
    if es == [] then []
    else
      assert es == [es[0]] + es[1..];
      InsertNewestFirst(es[0], SortNewestFirst(es[1..]))
  }

  /** The balance the loop as written shows beside row `i`: the opening
      balance less every entry listed after that row. */
  function RowBalanceAsWritten(sorted: seq<MoneyEntry>, opening: real, i: nat): real
    requires i < |sorted|
  {
    opening - MoneyBalance(sorted[i + 1..])
  }

  /** The balance right after the entry of row `i` in a newest-first table:
      the current balance less every entry listed before that row (the newer
      ones). */
  function RowBalance(sorted: seq<MoneyEntry>, current: real, i: nat): real
    requires i <= |sorted|
  {
    current - MoneyBalance(sorted[..i])
  }

  /** The loop of app.js: `i` counts down from the last row, each row is put
      at the front of the result with the balance in hand, and the entry's
      signed amount is then taken off that balance. */
  method AnnotateRunningBalance(sortedEntries: seq<MoneyEntry>, openingBalance: real)
    returns (rows: seq<BalanceRow>, runningBalance: real)
    ensures |rows| == |sortedEntries|
    ensures forall k :: 0 <= k < |rows| ==> rows[k].entry == sortedEntries[k]
    ensures forall k :: 0 <= k < |rows| ==>
              rows[k].runningBalance == RowBalanceAsWritten(sortedEntries, openingBalance, k)
    ensures runningBalance == openingBalance - MoneyBalance(sortedEntries)
  {
    rows := [];
    runningBalance := openingBalance;
    var i := |sortedEntries| - 1;
    while i >= 0
      invariant -1 <= i < |sortedEntries|
      invariant rows == RowsAsWritten(sortedEntries, openingBalance, i + 1)
      invariant runningBalance == openingBalance - MoneyBalance(sortedEntries[i + 1..])
      decreases i
    {
      var entry := sortedEntries[i];
      AsWrittenStep(sortedEntries, openingBalance, i, rows, runningBalance);
      rows := [BalanceRow(entry, runningBalance)] + rows;
      runningBalance := runningBalance - Signed(entry);
      i := i - 1;
    }
    assert sortedEntries[0..] == sortedEntries;
    RowsAsWrittenAt(sortedEntries, openingBalance, 0);
  }

  /** The rows the loop as written has built once it has handled every row
      from `from` on. */
  function RowsAsWritten(sorted: seq<MoneyEntry>, opening: real, from: nat): seq<BalanceRow>
    requires from <= |sorted|
    decreases |sorted| - from
  {
    if from == |sorted| then []
    else [BalanceRow(sorted[from], RowBalanceAsWritten(sorted, opening, from))]
         + RowsAsWritten(sorted, opening, from + 1)
  }

  /** One turn of the loop as written keeps its two invariants. */
  lemma {:induction false} AsWrittenStep(sorted: seq<MoneyEntry>, opening: real, i: nat, rows: seq<BalanceRow>, balance: real)
    requires i < |sorted|
    requires rows == RowsAsWritten(sorted, opening, i + 1)
    requires balance == opening - MoneyBalance(sorted[i + 1..])
    ensures [BalanceRow(sorted[i], balance)] + rows == RowsAsWritten(sorted, opening, i)
    ensures balance - Signed(sorted[i]) == opening - MoneyBalance(sorted[i..])
  {
    assert RowBalanceAsWritten(sorted, opening, i) == balance;
    assert RowsAsWritten(sorted, opening, i)
           == [BalanceRow(sorted[i], RowBalanceAsWritten(sorted, opening, i))] + rows;
    AsWrittenBalanceStep(sorted, i);
  }

  /** Taking a row's entry off the sum of the entries after it gives the sum
      from that row on. */
  lemma AsWrittenBalanceStep(sorted: seq<MoneyEntry>, i: nat)
    requires i < |sorted|
    ensures MoneyBalance(sorted[i..]) == Signed(sorted[i]) + MoneyBalance(sorted[i + 1..])
  {
    assert sorted[i..] == [sorted[i]] + sorted[i + 1..];
    SumPrepend(sorted[i], sorted[i + 1..], Signed);
  }

  lemma {:induction false} RowsAsWrittenAt(sorted: seq<MoneyEntry>, opening: real, from: nat)
    requires from <= |sorted|
    ensures |RowsAsWritten(sorted, opening, from)| == |sorted| - from
    ensures forall k :: 0 <= k < |sorted| - from ==>
              RowsAsWritten(sorted, opening, from)[k]
              == BalanceRow(sorted[from + k], RowBalanceAsWritten(sorted, opening, from + k))
    decreases |sorted| - from
  {
    if from < |sorted| {
      RowsAsWrittenAt(sorted, opening, from + 1);
      var rest := RowsAsWritten(sorted, opening, from + 1);
      var head := BalanceRow(sorted[from], RowBalanceAsWritten(sorted, opening, from));
      assert RowsAsWritten(sorted, opening, from) == [head] + rest;
      forall k | 0 < k < |sorted| - from
        ensures ([head] + rest)[k]
                == BalanceRow(sorted[from + k], RowBalanceAsWritten(sorted, opening, from + k))
      {
        assert ([head] + rest)[k] == rest[k - 1];
      }
    }
  }

  /** The walk that gives every row the balance right after its entry: the
      newest row shows the current balance, and each row differs from the
      next older one by exactly its own entry. */
  method AnnotateNewestFirst(sortedEntries: seq<MoneyEntry>, currentBalance: real)
    returns (rows: seq<BalanceRow>, runningBalance: real)
    ensures |rows| == |sortedEntries|
    ensures forall k :: 0 <= k < |rows| ==> rows[k].entry == sortedEntries[k]
    ensures forall k :: 0 <= k < |rows| ==>
              rows[k].runningBalance == RowBalance(sortedEntries, currentBalance, k)
    ensures |rows| > 0 ==> rows[0].runningBalance == currentBalance
    ensures forall k :: 0 <= k < |rows| - 1 ==>
              rows[k].runningBalance == rows[k + 1].runningBalance + Signed(sortedEntries[k])
    ensures runningBalance == currentBalance - MoneyBalance(sortedEntries)
  {
    rows := [];
    runningBalance := currentBalance;
    var i := 0;
    while i < |sortedEntries|
      invariant 0 <= i <= |sortedEntries|
      invariant rows == RowsNewestFirst(sortedEntries, currentBalance, i)
      invariant runningBalance == RowBalance(sortedEntries, currentBalance, i)
    {
      var entry := sortedEntries[i];
      NewestFirstStep(sortedEntries, currentBalance, i);
      rows := rows + [BalanceRow(entry, runningBalance)];
      runningBalance := runningBalance - Signed(entry);
      i := i + 1;
    }
    assert sortedEntries[..i] == sortedEntries;
    RowsNewestFirstAt(sortedEntries, currentBalance, i);
    forall k | 0 <= k < |rows| - 1
      ensures rows[k].runningBalance == rows[k + 1].runningBalance + Signed(sortedEntries[k])
    {
      NewestFirstStep(sortedEntries, currentBalance, k);
    }
  }

  /** The rows of a newest-first table for its first `upTo` entries. */
  function RowsNewestFirst(sorted: seq<MoneyEntry>, current: real, upTo: nat): seq<BalanceRow>
    requires upTo <= |sorted|
  {
    if upTo == 0 then []
    else RowsNewestFirst(sorted, current, upTo - 1)
         + [BalanceRow(sorted[upTo - 1], RowBalance(sorted, current, upTo - 1))]
  }

  /** Going one row older takes that row's entry off the balance. */
  lemma NewestFirstStep(sorted: seq<MoneyEntry>, current: real, i: nat)
    requires i < |sorted|
    ensures RowBalance(sorted, current, i + 1) == RowBalance(sorted, current, i) - Signed(sorted[i])
    ensures RowBalance(sorted, current, 0) == current
  {
    assert sorted[..i + 1] == sorted[..i] + [sorted[i]];
    SumAppend(sorted[..i], sorted[i], Signed);
  }

  lemma {:induction false} RowsNewestFirstAt(sorted: seq<MoneyEntry>, current: real, upTo: nat)
    requires upTo <= |sorted|
    ensures |RowsNewestFirst(sorted, current, upTo)| == upTo
    ensures forall k :: 0 <= k < upTo ==>
              RowsNewestFirst(sorted, current, upTo)[k]
              == BalanceRow(sorted[k], RowBalance(sorted, current, k))
  {
    if upTo > 0 {
      RowsNewestFirstAt(sorted, current, upTo - 1);
    }
  }

  /** In the loop as written, a row differs from the next OLDER row by minus
      that older row's entry, and the oldest row shows the opening balance. */
  lemma AsWrittenRowStep(sorted: seq<MoneyEntry>, opening: real, k: nat)
    requires k + 1 < |sorted|
    ensures RowBalanceAsWritten(sorted, opening, k)
            == RowBalanceAsWritten(sorted, opening, k + 1) - Signed(sorted[k + 1])
    ensures RowBalanceAsWritten(sorted, opening, |sorted| - 1) == opening
  {
    assert sorted[k + 1..] == [sorted[k + 1]] + sorted[k + 2..];
    SumPrepend(sorted[k + 1], sorted[k + 2..], Signed);
  }

  /** Started from the current balance, either walk ends on the trading P/L:
      taking every money entry back off the balance leaves what the trades
      made, whatever order the entries were sorted into. */
  lemma ClosingBalanceIsTradingPL(ts: seq<Trade>, es: seq<MoneyEntry>, sorted: seq<MoneyEntry>)
    requires multiset(sorted) == multiset(es)
    ensures CurrentBalance(ts, es) - MoneyBalance(sorted) == TradingPL(ts)
  {
    SumPermutation(sorted, es, Signed);
  }

  /** The sample entries sort to the withdrawal (15 January) ahead of the
      deposit (1 January). */
  lemma SeedSortsNewestFirst(ids: seq<string>)
    requires |ids| == SeedIdCount
    ensures var es := SeedMoneyEntries(ids); SortNewestFirst(es) == [es[1], es[0]]
  {
    var es := SeedMoneyEntries(ids);
    assert es[1..] == [es[1]] && es[1..][1..] == [];
    assert SortNewestFirst(es[1..]) == [es[1]];
  }

  /** The discrepancy on the sample store: the newest row (the withdrawal)
      shows the current balance less the 10000 deposit, which was made before
      it, while the balance right after the withdrawal is the current one. */
  lemma AsWrittenNewestRowIsWrong(ids: seq<string>)
    requires |ids| == SeedIdCount
    ensures var es := SeedMoneyEntries(ids);
            var sorted := SortNewestFirst(es);
            var current := CurrentBalance(SeedTrades(ids), es);
            RowBalanceAsWritten(sorted, current, 0) == current - 10000.0
            && RowBalance(sorted, current, 0) == current
  {
    var es := SeedMoneyEntries(ids);
    SeedSortsNewestFirst(ids);
    var sorted := SortNewestFirst(es);
    assert sorted[1..] == [es[0]];
    SumPrepend(es[0], [], Signed);
    assert [es[0]] + [] == [es[0]];
  }
}
