/** The small pieces of text the instance-identifier printer produces with printf and strchr:
    the decimal form of a position and the quote character around a predicate value.
    The literal reader is the quoted-string production of the instance-identifier grammar
    (section 14 of RFC 7950), used here only to state what the printer's output means. */
module Lexical {
  import opened LyCommon

  const SQuote: char := '\''
  const DQuote: char := '"'

  predicate IsDigit(c: char) {
    '0' <= c <= '9'
  }

  predicate AllDigits(s: string) {
    forall i :: 0 <= i < |s| ==> IsDigit(s[i])
  }

  function DigitChar(d: nat): (c: char)
    requires d < 10
    ensures IsDigit(c) && c as int - '0' as int == d
  {
    ('0' as int + d) as char
  }

  /** The text "%" PRIu64 writes for n: decimal digits, no sign, no leading zero. */
  function Decimal(n: nat): (s: string)
    ensures |s| >= 1 && AllDigits(s)
    ensures |s| > 1 ==> s[0] != '0'
    decreases n
  {
    if n < 10 then [DigitChar(n)] else Decimal(n / 10) + [DigitChar(n % 10)]
  }

  /** The number a string of decimal digits denotes. */
  function DecimalValue(s: string): nat
    requires AllDigits(s)
    decreases |s|
  {
    if s == [] then 0 else DecimalValue(s[..|s| - 1]) * 10 + (s[|s| - 1] as int - '0' as int)
  }

  /** A printed position reads back as the same number. */
  lemma {:induction false} DecimalRoundTrip(n: nat)
    ensures DecimalValue(Decimal(n)) == n
    decreases n
  {
    if n >= 10 {
      var s := Decimal(n);
      assert s[..|s| - 1] == Decimal(n / 10);
      DecimalRoundTrip(n / 10);
    }
  }

  /** Distinct positions print differently. */
  lemma DecimalInjective(m: nat, n: nat)
    requires Decimal(m) == Decimal(n)
    ensures m == n
  {
    DecimalRoundTrip(m);
    DecimalRoundTrip(n);
  }

  /** The delimiter put around a predicate value: an apostrophe, unless the value holds one,
      in which case a double quote. It occurs in the value exactly when the value holds both. */
  function QuoteFor(s: string): (q: char)
    ensures q == SQuote || q == DQuote
    ensures q == DQuote <==> SQuote in s
    ensures q !in s <==> !(SQuote in s && DQuote in s)
  {
    if SQuote in s then DQuote else SQuote
  }

  /** The value between its delimiters, written without any escaping. */
  function Quoted(s: string): (t: string)
  {
    [QuoteFor(s)] + s + [QuoteFor(s)]
  }

  /** Reads a quoted-string from the head of t: the text up to the next occurrence of the
      opening quote, and what follows that closing quote. */
  function ReadLiteral(t: string): Option<(string, string)>
  {
    if |t| == 0 || (t[0] != SQuote && t[0] != DQuote) then None else ReadUntil(t[1..], t[0])
  }

  function ReadUntil(t: string, q: char): Option<(string, string)>
    decreases |t|
  {
    if |t| == 0 then None
    else if t[0] == q then Some(([], t[1..]))
    else match ReadUntil(t[1..], q)
      case None => None
      case Some(p) => Some(([t[0]] + p.0, p.1))
  }

  lemma {:induction false} ReadUntilClosingQuote(s: string, q: char, rest: string)
    requires q !in s
    ensures ReadUntil(s + [q] + rest, q) == Some((s, rest))
    decreases |s|
  {
    var t := s + [q] + rest;
    if s == [] {
      assert t[1..] == rest;
    } else {
      assert t[1..] == s[1..] + [q] + rest;
      ReadUntilClosingQuote(s[1..], q, rest);
      assert [s[0]] + s[1..] == s;
    }
  }

  /** A quoted value reads back as itself, with the rest of the text untouched, unless the
      value holds both quote characters. */
  lemma QuotedRoundTrip(s: string, rest: string)
    requires !(SQuote in s && DQuote in s)
    ensures ReadLiteral(Quoted(s) + rest) == Some((s, rest))
  {
    var q := QuoteFor(s);
    var t := Quoted(s) + rest;
    assert t[0] == q;
    assert t[1..] == s + [q] + rest;
    ReadUntilClosingQuote(s, q, rest);
  }

  /** A value holding both quote characters is cut short at its inner double quote. */
  lemma BothQuotesCutShort()
    ensures ReadLiteral(Quoted("a'b\"c")) == Some(("a'b", "c\""))
  {
    var s := "a'b\"c";
    assert SQuote in s;
    var t := Quoted(s);
    assert t == "\"a'b\"c\"";
    assert t[1..] == "a'b" + [DQuote] + "c\"";
    ReadUntilClosingQuote("a'b", DQuote, "c\"");
  }
}
