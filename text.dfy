/** The two string operations the journal applies to form input:
    `String.prototype.trim` and `String.prototype.toUpperCase`. */
module Text {

  /** The characters `trim` removes: the white space and line terminators of
      the ECMAScript grammar (tab, vertical tab, form feed, space, no-break
      space, byte order mark, the space separators of Unicode, and the four
      line terminators). */
  predicate IsWhitespace(c: char)
  {
    c == '\t' || c == '\n' || c == '\U{000B}' || c == '\U{000C}' || c == '\r' || c == ' '
    || c == '\U{00A0}' || c == '\U{1680}' || ('\U{2000}' <= c <= '\U{200A}')
    || c == '\U{2028}' || c == '\U{2029}' || c == '\U{202F}' || c == '\U{205F}'
    || c == '\U{3000}' || c == '\U{FEFF}'
  }

  /** How many characters of white space `s` starts with. */
  function LeadingSpace(s: string): (n: nat)
    ensures n <= |s|
    ensures forall k :: 0 <= k < n ==> IsWhitespace(s[k])
    ensures n < |s| ==> !IsWhitespace(s[n])
    decreases |s|
  {
    if s != [] && IsWhitespace(s[0]) then 1 + LeadingSpace(s[1..]) else 0
  }

  /** How many characters of white space `s` ends with. */
  function TrailingSpace(s: string): (n: nat)
    ensures n <= |s|
    ensures forall k :: |s| - n <= k < |s| ==> IsWhitespace(s[k])
    ensures n < |s| ==> !IsWhitespace(s[|s| - n - 1])
    decreases |s|
  {
    if s != [] && IsWhitespace(s[|s| - 1]) then 1 + TrailingSpace(s[..|s| - 1]) else 0
  }

  /** Drops the leading white space: what is left is the tail of `s` that
      starts with something else, and all that was dropped is white space. */
  function TrimStart(s: string): (r: string)
    ensures |r| <= |s| && forall k :: 0 <= k < |r| ==> r[k] == s[|s| - |r| + k]
    ensures forall k :: 0 <= k < |s| - |r| ==> IsWhitespace(s[k])
    ensures r == [] || !IsWhitespace(r[0])
  {
    s[LeadingSpace(s)..]
  }

  /** Drops the trailing white space: what is left is the head of `s` that
      ends with something else, and all that was dropped is white space. */
  function TrimEnd(s: string): (r: string)
    ensures |r| <= |s| && forall k :: 0 <= k < |r| ==> r[k] == s[k]
    ensures forall k :: |r| <= k < |s| ==> IsWhitespace(s[k])
    ensures r == [] || !IsWhitespace(r[|r| - 1])
  {
    s[..|s| - TrailingSpace(s)]
  }

  /** `s.trim()`: the result is the part of `s` between its leading and its
      trailing white space, so neither end of it is white space. */
  function Trim(s: string): (r: string)
    ensures |r| <= |s|
    ensures r == [] || (!IsWhitespace(r[0]) && !IsWhitespace(r[|r| - 1]))
    ensures LeadingSpace(s) + |r| <= |s|
    ensures forall k :: 0 <= k < |r| ==> r[k] == s[LeadingSpace(s) + k]
    ensures forall k :: LeadingSpace(s) + |r| <= k < |s| ==> IsWhitespace(s[k])
  {
    var t := s[LeadingSpace(s)..];
    t[..|t| - TrailingSpace(t)]
  }

  /** Trimming is dropping the leading white space and then the trailing
      white space. */
  lemma TrimInTwoSteps(s: string)
    ensures Trim(s) == TrimEnd(TrimStart(s))
  {
    var t := s[LeadingSpace(s)..];
    assert TrimStart(s) == t;
    assert TrimEnd(t) == t[..|t| - TrailingSpace(t)];
  }

  /** Trimming twice is trimming once. */
  lemma TrimIdempotent(s: string)
    ensures Trim(Trim(s)) == Trim(s)
  {
    var r := Trim(s);
    TrimUntouched(r);
  }

  /** A string that neither starts nor ends with white space is left as it is;
      white space inside it is kept. */
  lemma TrimUntouched(s: string)
    requires s == [] || (!IsWhitespace(s[0]) && !IsWhitespace(s[|s| - 1]))
    ensures Trim(s) == s
  {
  }

  /** White space in front of a string that does not start with white
      space is all of its leading white space. */
  lemma {:induction false} LeadingSpacePadded(front: string, rest: string)
    requires forall k :: 0 <= k < |front| ==> IsWhitespace(front[k])
    requires rest != [] && !IsWhitespace(rest[0])
    ensures LeadingSpace(front + rest) == |front|
    decreases |front|
  {
    if front != [] {
      assert (front + rest)[1..] == front[1..] + rest;
      LeadingSpacePadded(front[1..], rest);
    } else {
      assert front + rest == rest;
    }
  }

  /** White space after a string that does not end with white space is all
      of its trailing white space. */
  lemma {:induction false} TrailingSpacePadded(rest: string, back: string)
    requires forall k :: 0 <= k < |back| ==> IsWhitespace(back[k])
    requires rest != [] && !IsWhitespace(rest[|rest| - 1])
    ensures TrailingSpace(rest + back) == |back|
    decreases |back|
  {
    if back != [] {
      var b' := back[..|back| - 1];
      assert (rest + back)[..|rest + back| - 1] == rest + b';
      TrailingSpacePadded(rest, b');
    } else {
      assert rest + back == rest;
    }
  }

  /** Leading white space in front of a string that does not start with
      white space is exactly what `TrimStart` removes. */
  lemma TrimStartPadded(front: string, rest: string)
    requires forall k :: 0 <= k < |front| ==> IsWhitespace(front[k])
    requires rest != [] && !IsWhitespace(rest[0])
    ensures TrimStart(front + rest) == rest
  {
    LeadingSpacePadded(front, rest);
    assert (front + rest)[|front|..] == rest;
  }

  /** Trailing white space after a string that does not end with white space
      is exactly what `TrimEnd` removes. */
  lemma TrimEndPadded(rest: string, back: string)
    requires forall k :: 0 <= k < |back| ==> IsWhitespace(back[k])
    requires rest != [] && !IsWhitespace(rest[|rest| - 1])
    ensures TrimEnd(rest + back) == rest
  {
    TrailingSpacePadded(rest, back);
    assert (rest + back)[..|rest|] == rest;
  }

  /** Trimming a string surrounded by white space gives back the inner string
      when the inner string has no white space at its ends. */
  lemma TrimPadded(front: string, inner: string, back: string)
    requires forall k :: 0 <= k < |front| ==> IsWhitespace(front[k])
    requires forall k :: 0 <= k < |back| ==> IsWhitespace(back[k])
    requires inner != [] && !IsWhitespace(inner[0]) && !IsWhitespace(inner[|inner| - 1])
    ensures Trim(front + inner + back) == inner
  {
    assert front + inner + back == front + (inner + back);
    TrimInTwoSteps(front + inner + back);
    TrimStartPadded(front, inner + back);
    TrimEndPadded(inner, back);
  }

  /** `toUpperCase` on one character, for the ASCII letters. */
  function UpperChar(c: char): char
  {
    if 'a' <= c <= 'z' then (c as int - 32) as char else c
  }

  predicate IsLowerAscii(c: char)
  {
    'a' <= c <= 'z'
  }

  /** `s.toUpperCase()` over ASCII: same length, each character upper-cased
      in place, and no lower-case ASCII letter left. */
  function ToUpper(s: string): (r: string)
    ensures |r| == |s|
    ensures forall k :: 0 <= k < |s| ==> r[k] == UpperChar(s[k])
    ensures forall k :: 0 <= k < |r| ==> !IsLowerAscii(r[k])
    decreases |s|
  {
    if s == [] then [] else [UpperChar(s[0])] + ToUpper(s[1..])
  }

  /** Upper-casing twice is upper-casing once. */
  lemma ToUpperIdempotent(s: string)
    ensures ToUpper(ToUpper(s)) == ToUpper(s)
  {
    var r := ToUpper(s);
    assert forall k :: 0 <= k < |r| ==> UpperChar(r[k]) == r[k];
  }

  lemma UpperExample()
    ensures ToUpper("aapl") == "AAPL"
  {
    var u := ToUpper("aapl");
    assert UpperChar('a') == 'A' && UpperChar('p') == 'P' && UpperChar('l') == 'L';
    assert u[0] == 'A' && u[1] == 'A' && u[2] == 'P' && u[3] == 'L';
  }

  lemma TrimExample()
    ensures Trim(" aapl ") == "aapl"
  {
    var s := " aapl ";
    assert s[1..][0] == 'a' && !IsWhitespace('a');
    assert LeadingSpace(s[1..]) == 0;
    assert LeadingSpace(s) == 1;
    var t := s[1..];
    assert t == "aapl ";
    assert t[..4][3] == 'l' && !IsWhitespace('l');
    assert TrailingSpace(t[..4]) == 0;
    assert TrailingSpace(t) == 1;
    assert t[..4] == "aapl";
  }

  /** A symbol typed as " aapl " is stored as "AAPL". */
  lemma SymbolExample()
    ensures ToUpper(Trim(" aapl ")) == "AAPL"
  {
    TrimExample();
    UpperExample();
  }
}
