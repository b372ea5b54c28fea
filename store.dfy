/** The journal's store (`dataStore` in app.js) and the operations that
    change it: saving a trade from the trade form, saving a money entry from
    the money form, deleting a money entry, loading a stored document, and
    building the money-management table from it. */
module Store {
  import opened Wrappers
  import opened Seqs
  import opened Journal
  import opened Analytics
  import opened Text
  import opened MoneyTable
  import opened Persistence

  /** The trade `saveTrade` builds from the form: symbol trimmed and
      upper-cased, setup and notes trimmed, status "open", no decisions.
      A missing notes field gives empty notes. */
  function NewTrade(id: string, symbol: string, setup: string, before: Option<string>,
                    createdDate: int, sentiment: int): Trade
  {
    Trade(id, ToUpper(Trim(symbol)), Trim(setup),
          match before case Some(b) => Trim(b) case None => "",
          "open", createdDate, sentiment, [])
  }

  /** The entry `saveMoneyEntry` builds from the form; a missing description
      field gives an empty description. */
  function NewMoneyEntry(id: string, date: int, kind: string, amount: real,
                         description: Option<string>): MoneyEntry
  {
    MoneyEntry(id, date, kind, amount,
               match description case Some(d) => Trim(d) case None => "")
  }

  function IdIsNot(id: string): MoneyEntry -> bool
  {
    (e: MoneyEntry) => e.id != id
  }

  function IdIs(id: string): MoneyEntry -> bool
  {
    (e: MoneyEntry) => e.id == id
  }

  /** `moneyEntries.filter(e => e.id !== entryId)`. */
  function WithoutEntry(es: seq<MoneyEntry>, id: string): seq<MoneyEntry>
  {
    Filter(es, IdIsNot(id))
  }

  /** A new trade is open, has no fills and so no P/L, and its symbol has no
      surrounding white space and no lower-case letter. */
  lemma NewTradeShape(id: string, symbol: string, setup: string, before: Option<string>,
                      createdDate: int, sentiment: int)
    ensures var t := NewTrade(id, symbol, setup, before, createdDate, sentiment);
            t.status == "open" && t.decisions == [] && NetPL(t) == 0.0
            && (t.symbol == [] || (!IsWhitespace(t.symbol[0]) && !IsWhitespace(t.symbol[|t.symbol| - 1])))
            && (forall k :: 0 <= k < |t.symbol| ==> !IsLowerAscii(t.symbol[k]))
  {
    var t := NewTrade(id, symbol, setup, before, createdDate, sentiment);
    var trimmed := Trim(symbol);
    assert t.symbol == ToUpper(trimmed);
    if trimmed != [] {
      assert t.symbol[0] == UpperChar(trimmed[0]);
      assert t.symbol[|t.symbol| - 1] == UpperChar(trimmed[|trimmed| - 1]);
      UpperKeepsWhitespace(trimmed[0]);
      UpperKeepsWhitespace(trimmed[|trimmed| - 1]);
    }
  }

  /** Upper-casing never turns a character into white space or back. */
  lemma UpperKeepsWhitespace(c: char)
    ensures IsWhitespace(UpperChar(c)) == IsWhitespace(c)
  {
  }

  /** Every trade the form builds starts open and without fills. */
  lemma NewTradeIsOpen(id: string, symbol: string, setup: string, before: Option<string>,
                       createdDate: int, sentiment: int)
    ensures NewTrade(id, symbol, setup, before, createdDate, sentiment).decisions == []
    ensures !IsClosed(NewTrade(id, symbol, setup, before, createdDate, sentiment))
  {
    assert "open"[0] != "closed"[0];
  }

  /** A saved money entry moves the balance by its amount: up for a
      "Deposit", down for any other type. */
  lemma SavedEntryMovesBalance(ts: seq<Trade>, es: seq<MoneyEntry>, id: string, date: int,
                               kind: string, amount: real, description: Option<string>)
    ensures CurrentBalance(ts, es + [NewMoneyEntry(id, date, kind, amount, description)])
            == CurrentBalance(ts, es) + (if kind == "Deposit" then amount else -amount)
  {
    var e := NewMoneyEntry(id, date, kind, amount, description);
    assert e.kind == kind && e.amount == amount;
    BalanceAddEntry(ts, es, e);
  }

  /** A trade with no fills that is not closed (every new trade) moves
      neither the balance nor the win rate. */
  lemma AddingOpenTradeKeepsMetrics(ts: seq<Trade>, es: seq<MoneyEntry>, t: Trade)
    requires t.decisions == [] && !IsClosed(t)
    ensures CurrentBalance(ts + [t], es) == CurrentBalance(ts, es)
    ensures WinRate(ts + [t]) == WinRate(ts)
  {
    BalanceAddTrade(ts, es, t);
    WinRateIgnoresOpen(ts, t, []);
    assert ts + [t] + [] == ts + [t];
    assert ts + [] == ts;
  }

  /** Saving a trade from the form moves neither the balance nor the win
      rate. */
  lemma SavedTradeKeepsMetrics(ts: seq<Trade>, es: seq<MoneyEntry>, id: string, symbol: string,
                               setup: string, before: Option<string>, createdDate: int, sentiment: int)
    ensures CurrentBalance(ts + [NewTrade(id, symbol, setup, before, createdDate, sentiment)], es)
            == CurrentBalance(ts, es)
    ensures WinRate(ts + [NewTrade(id, symbol, setup, before, createdDate, sentiment)]) == WinRate(ts)
  {
    NewTradeIsOpen(id, symbol, setup, before, createdDate, sentiment);
    AddingOpenTradeKeepsMetrics(ts, es, NewTrade(id, symbol, setup, before, createdDate, sentiment));
  }

  /** After the delete, no entry with the id is left, every entry with another
      id is left as often as it was there, and nothing else is. */
  lemma DeleteRemovesExactlyId(es: seq<MoneyEntry>, id: string, e: MoneyEntry)
    ensures multiset(WithoutEntry(es, id))[e] == if e.id == id then 0 else multiset(es)[e]
  {
    FilterMultiset(es, IdIsNot(id), e);
  }

  /** The delete keeps the surviving entries in their relative order: it
      works piecewise on any split of the list. */
  lemma DeleteKeepsOrder(front: seq<MoneyEntry>, back: seq<MoneyEntry>, id: string)
    ensures WithoutEntry(front + back, id) == WithoutEntry(front, id) + WithoutEntry(back, id)
  {
    FilterConcat(front, back, IdIsNot(id));
  }

  /** Deleting an id no entry has leaves the list as it is. */
  lemma DeleteAbsentId(es: seq<MoneyEntry>, id: string)
    requires forall k :: 0 <= k < |es| ==> es[k].id != id
    ensures WithoutEntry(es, id) == es
  {
    FilterKeepsAll(es, IdIsNot(id));
  }

  /** Deleting takes the removed entries' effect back off the balance. */
  lemma BalanceAfterDelete(ts: seq<Trade>, es: seq<MoneyEntry>, id: string)
    ensures CurrentBalance(ts, WithoutEntry(es, id))
            == CurrentBalance(ts, es) - MoneyBalance(Filter(es, IdIs(id)))
  {
    SumFilterSplit(es, Signed, IdIs(id), IdIsNot(id));
  }

  class DataStore {
    var trades: seq<Trade>
    var moneyEntries: seq<MoneyEntry>
    var templates: seq<Template>
    var settings: Settings

    /** The store as the page starts: the sample trades, money entries and
        template, and the default settings, under fresh identifiers. */
    constructor (ids: seq<string>)
      requires |ids| == SeedIdCount
      ensures trades == SeedTrades(ids) && moneyEntries == SeedMoneyEntries(ids)
      ensures templates == SeedTemplates(ids) && settings == DefaultSettings()
    {
      trades := SeedTrades(ids);
      moneyEntries := SeedMoneyEntries(ids);
      templates := SeedTemplates(ids);
      settings := DefaultSettings();
    }

    /** `saveTrade`: when the symbol, setup and sentiment fields are all on the
        page, one new open trade is pushed at the end; otherwise nothing
        happens. Either way the balance and the win rate stay as they were. */
    method SaveTrade(id: string, symbol: Option<string>, setup: Option<string>,
                     before: Option<string>, sentiment: Option<int>, createdDate: int)
      modifies this
      ensures symbol.Some? && setup.Some? && sentiment.Some? ==>
                trades == old(trades)
                          + [NewTrade(id, symbol.value, setup.value, before, createdDate, sentiment.value)]
      ensures symbol.None? || setup.None? || sentiment.None? ==> trades == old(trades)
      ensures moneyEntries == old(moneyEntries) && templates == old(templates) && settings == old(settings)
      ensures CurrentBalance(trades, moneyEntries) == old(CurrentBalance(trades, moneyEntries))
      ensures WinRate(trades) == old(WinRate(trades))
    {
      if symbol.Some? && setup.Some? && sentiment.Some? {
        var trade := NewTrade(id, symbol.value, setup.value, before, createdDate, sentiment.value);
        SavedTradeKeepsMetrics(trades, moneyEntries, id, symbol.value, setup.value, before,
                               createdDate, sentiment.value);
        trades := trades + [trade];
      }
    }

    /** `saveMoneyEntry`: when the date, type and amount fields are all on the
        page, one new entry is pushed at the end and the balance moves by its
        amount, up for a "Deposit" and down for any other type. */
    method SaveMoneyEntry(id: string, date: Option<int>, kind: Option<string>,
                          amount: Option<real>, description: Option<string>)
      modifies this
      ensures date.Some? && kind.Some? && amount.Some? ==>
                moneyEntries == old(moneyEntries)
                                + [NewMoneyEntry(id, date.value, kind.value, amount.value, description)]
      ensures date.Some? && kind.Some? && amount.Some? ==>
                CurrentBalance(trades, moneyEntries)
                == old(CurrentBalance(trades, moneyEntries))
                   + (if kind.value == "Deposit" then amount.value else -amount.value)
      ensures date.None? || kind.None? || amount.None? ==> moneyEntries == old(moneyEntries)
      ensures trades == old(trades) && templates == old(templates) && settings == old(settings)
    {
      if date.None? || kind.None? || amount.None? {
        return;
      }
      SavedEntryMovesBalance(trades, moneyEntries, id, date.value, kind.value, amount.value, description);
      moneyEntries := moneyEntries + [NewMoneyEntry(id, date.value, kind.value, amount.value, description)];
    }

    /** `deleteMoneyEntry` once the user has confirmed: every entry with the
        id goes, the others stay in order, and the balance loses exactly the
        removed entries' effect. */
    method DeleteMoneyEntry(entryId: string)
      modifies this
      ensures moneyEntries == WithoutEntry(old(moneyEntries), entryId)
      ensures forall k :: 0 <= k < |moneyEntries| ==> moneyEntries[k].id != entryId
      ensures CurrentBalance(trades, moneyEntries)
              == old(CurrentBalance(trades, moneyEntries)) - old(MoneyBalance(Filter(moneyEntries, IdIs(entryId))))
      ensures trades == old(trades) && templates == old(templates) && settings == old(settings)
    {
      BalanceAfterDelete(trades, moneyEntries, entryId);
      moneyEntries := WithoutEntry(moneyEntries, entryId);
      assert forall k :: 0 <= k < |moneyEntries| ==> moneyEntries[k] in moneyEntries;
    }

    /** The rows of the money-management table: every entry, newest first,
        beside the balance right after it. The newest row shows the current
        balance, each row differs from the next older one by its own entry,
        and walking past the oldest entry leaves the trading P/L. */
    method MoneyTableRows() returns (rows: seq<BalanceRow>, closing: real)
      ensures |rows| == |moneyEntries|
      ensures forall k :: 0 <= k < |rows| ==> rows[k].entry == SortNewestFirst(moneyEntries)[k]
      ensures |rows| > 0 ==> rows[0].runningBalance == CurrentBalance(trades, moneyEntries)
      ensures forall k :: 0 <= k < |rows| - 1 ==>
                rows[k].runningBalance == rows[k + 1].runningBalance + Signed(rows[k].entry)
      ensures closing == TradingPL(trades)
    {
      var sorted := SortNewestFirst(moneyEntries);
      var current := CurrentBalance(trades, moneyEntries);
      rows, closing := AnnotateNewestFirst(sorted, current);
      ClosingBalanceIsTradingPL(trades, moneyEntries, sorted);
    }

    /** `loadData` after parsing: each array the document holds replaces the
        store's, stored settings are laid over the current ones, and with no
        stored document nothing changes. */
    method LoadData(stored: Option<StoredData>)
      modifies this
      ensures stored.None? ==>
                trades == old(trades) && moneyEntries == old(moneyEntries)
                && templates == old(templates) && settings == old(settings)
      ensures stored.Some? ==>
                trades == (match stored.value.trades case Some(t) => t case None => old(trades))
                && moneyEntries == (match stored.value.moneyEntries case Some(m) => m case None => old(moneyEntries))
                && templates == (match stored.value.templates case Some(t) => t case None => old(templates))
                && settings == (match stored.value.settings
                                case Some(s) => MergeSettings(old(settings), s)
                                case None => old(settings))
    {
      if stored.None? {
        return;
      }
      var data := stored.value;
      if data.trades.Some? { trades := data.trades.value; }
      if data.moneyEntries.Some? { moneyEntries := data.moneyEntries.value; }
      if data.templates.Some? { templates := data.templates.value; }
      if data.settings.Some? { settings := MergeSettings(settings, data.settings.value); }
    }
  }
}
