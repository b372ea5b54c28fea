/** The quoting the CSV export applies to a money entry's description and a
    trade's before-entry notes: every double quote is doubled and the whole
    field is wrapped in double quotes, as section 2, rule 7 of RFC 4180
    prescribes. A trade's setup is wrapped in quotes without the doubling. */
module Csv {
  import opened Wrappers

  /** `s.replace(/"/g, '""')`. */
  function EscapeQuotes(s: string): (r: string)
    ensures |r| >= |s|
    decreases |s|
  {
    if s == [] then []
    else (if s[0] == '"' then "\"\"" else [s[0]]) + EscapeQuotes(s[1..])
  }

  /** The field as it is written into a CSV row. */
  function QuoteField(s: string): (r: string)
    ensures |r| >= 2 && r[0] == '"' && r[|r| - 1] == '"'
  {
    "\"" + EscapeQuotes(s) + "\""
  }

  /** Reads the inside of a quoted field back, as a reader following RFC 4180
      does: a doubled quote stands for one quote, and a quote on its own would
      end the field early, so the inside is not well formed. */
  function UnescapeQuotes(s: string): Option<string>
    decreases |s|
  {
    if s == [] then Some([])
    else if s[0] == '"' then
      if |s| >= 2 && s[1] == '"' then
        match UnescapeQuotes(s[2..])
        case None => None
        case Some(t) => Some(['"'] + t)
      else None
    else
      match UnescapeQuotes(s[1..])
      case None => None
      case Some(t) => Some([s[0]] + t)
  }

  /** Reads one quoted field back; anything not wrapped in quotes is refused. */
  function UnquoteField(r: string): Option<string>
  {
    if |r| >= 2 && r[0] == '"' && r[|r| - 1] == '"' then UnescapeQuotes(r[1..|r| - 1])
    else None
  }

  /** The escaped inside reads back as the original text: no quote is left
      standing alone in it. */
  lemma {:induction false} UnescapeEscape(s: string)
    ensures UnescapeQuotes(EscapeQuotes(s)) == Some(s)
    decreases |s|
  {
    if s != [] {
      UnescapeEscape(s[1..]);
      var rest := EscapeQuotes(s[1..]);
      if s[0] == '"' {
        assert EscapeQuotes(s) == "\"\"" + rest;
        assert (EscapeQuotes(s))[2..] == rest;
      } else {
        assert EscapeQuotes(s) == [s[0]] + rest;
        assert (EscapeQuotes(s))[1..] == rest;
      }
      assert [s[0]] + s[1..] == s;
    }
  }

  /** A quoted field reads back as the text that was quoted, whatever quotes,
      commas or line breaks that text holds. */
  lemma QuoteRoundTrip(s: string)
    ensures UnquoteField(QuoteField(s)) == Some(s)
  {
    var r := QuoteField(s);
    assert r[1..|r| - 1] == EscapeQuotes(s);
    UnescapeEscape(s);
  }

  /** Two different texts never produce the same CSV field. */
  lemma QuoteInjective(a: string, b: string)
    requires QuoteField(a) == QuoteField(b)
    ensures a == b
  {
    QuoteRoundTrip(a);
    QuoteRoundTrip(b);
  }

  /** Text without a double quote only gains the surrounding quotes. */
  lemma {:induction false} EscapeWithoutQuotes(s: string)
    requires forall k :: 0 <= k < |s| ==> s[k] != '"'
    ensures EscapeQuotes(s) == s
    decreases |s|
  {
    if s != [] {
      EscapeWithoutQuotes(s[1..]);
      assert [s[0]] + s[1..] == s;
    }
  }

  /** `a"b` is written as `"a""b"`. */
  lemma QuoteExample()
    ensures QuoteField(['a', '"', 'b']) == ['"', 'a', '"', '"', 'b', '"']
  {
    var s := ['a', '"', 'b'];
    assert s[1..] == ['"', 'b'] && s[1..][2..] == [];
    assert ['"', 'b'][1..] == ['b'] && ['b'][1..] == [];
    assert EscapeQuotes(['b']) == ['b'];
    assert EscapeQuotes(['"', 'b']) == ['"', '"', 'b'];
    assert EscapeQuotes(s) == ['a', '"', '"', 'b'];
  }

  /** Escaping works character by character, so it distributes over
      concatenation. */
  lemma {:induction false} EscapeConcat(a: string, b: string)
    ensures EscapeQuotes(a + b) == EscapeQuotes(a) + EscapeQuotes(b)
    decreases |a|
  {
    if a != [] {
      assert (a + b)[1..] == a[1..] + b;
      EscapeConcat(a[1..], b);
    } else {
      assert a + b == b;
    }
  }
}
