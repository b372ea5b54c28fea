/** The records of the trade journal's in-memory store (`dataStore` in app.js)
    and the sample contents the store starts with.

    Amounts and prices are exact reals, quantities whole numbers of shares,
    and dates the integer `yyyymmdd` of their ISO text, so that comparing two
    dates compares the days they name. The JavaScript property `type` is
    called `kind` here, because `type` is a Dafny keyword. */
module Journal {

  /** One fill on a trade. `quantity` is signed: positive when shares are
      bought (an entry), negative when they are sold (an exit). */
  datatype Decision = Decision(
    id: string, date: int, price: real, quantity: int, comments: string, kind: string)

  /** A trade as the journal stores it. `status` is a free string that the
      journal sets to "open" on creation; "closed" is the only value the
      metrics test for. */
  datatype Trade = Trade(
    id: string, symbol: string, setup: string, beforeEntry: string, status: string,
    createdDate: int, sentiment: int, decisions: seq<Decision>)

  /** A deposit or withdrawal of funds. `amount` is a magnitude; its sign
      comes from `kind` when balances are computed. */
  datatype MoneyEntry = MoneyEntry(
    id: string, date: int, kind: string, amount: real, description: string)

  datatype Template = Template(id: string, name: string, setup: string, beforeEntry: string)

  /** A value of the settings object: the journal stores text, numbers and flags. */
  datatype SettingValue = Text(text: string) | Number(number: real) | Flag(flag: bool)

  type Settings = map<string, SettingValue>

  /** The number of fresh identifiers the sample contents draw, in the order
      the sample object literal draws them. */
  const SeedIdCount := 9

  /** The two sample trades: AAPL closed (+100 @ 150, -50 @ 155, -50 @ 158) and
      TSLA open (+50 @ 200). */
  function SeedTrades(ids: seq<string>): seq<Trade>
    requires |ids| == SeedIdCount
  {
    [ Trade(ids[0], "AAPL", "Breakout", "Strong volume, clean breakout above resistance",
            "closed", 20250115, 4,
            [ Decision(ids[1], 20250115, 150.0, 100, "Initial entry", "entry"),
              Decision(ids[2], 20250116, 155.0, -50, "Partial exit", "exit"),
              Decision(ids[3], 20250117, 158.0, -50, "Final exit", "exit") ]),
      Trade(ids[4], "TSLA", "Pullback", "Nice pullback to 20MA support",
            "open", 20250120, 3,
            [ Decision(ids[5], 20250120, 200.0, 50, "Entry at support", "entry") ]) ]
  }

  /** The two sample money entries: a 10000 deposit and a 1000 withdrawal. */
  function SeedMoneyEntries(ids: seq<string>): seq<MoneyEntry>
    requires |ids| == SeedIdCount
  {
    [ MoneyEntry(ids[6], 20250101, "Deposit", 10000.0, "Initial account funding"),
      MoneyEntry(ids[7], 20250115, "Withdrawal", 1000.0, "Partial withdrawal for expenses") ]
  }

  function SeedTemplates(ids: seq<string>): seq<Template>
    requires |ids| == SeedIdCount
  {
    [ Template(ids[8], "Momentum Breakout", "Breakout",
               "Volume confirmation, clean break above resistance") ]
  }

  function DefaultSettings(): Settings
  {
    map["theme" := Text("dark"), "initialBalance" := Number(10000.0),
        "defaultRisk" := Number(2.0), "autoSave" := Flag(true)]
  }
}
