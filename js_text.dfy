/**
 * JavaScript value conventions the core relies on: truthiness of optional
 * numbers and strings, the decimal rendering of an integer inside a template
 * literal, and the small text utilities the decoders below are built from.
 */
module JsText {
  import opened Wrappers

  /** `!x` for a number that may be `undefined`/`null` (NaN is not modelled). */
  predicate IsFalsyNumber(x: Option<int>) {
    x.None? || x.value == 0
  }

  /** `if (x)` for a string that may be `undefined`/`null`. */
  predicate IsTruthyString(x: Option<string>) {
    x.Some? && x.value != ""
  }

  predicate IsDigit(c: char) {
    '0' <= c <= '9'
  }

  predicate AllDigits(s: string) {
    forall i :: 0 <= i < |s| ==> IsDigit(s[i])
  }

  function DigitChar(d: nat): (c: char)
    requires d < 10
    ensures IsDigit(c) && c as int == '0' as int + d
  {
    ('0' as int + d) as char
  }

  function DigitValue(c: char): (d: nat)
    requires IsDigit(c)
    ensures d < 10 && DigitChar(d) == c
  {
    (c as int) - ('0' as int)
  }

  /** Decimal digits of a natural number, most significant first, no leading zero. */
  function NatToString(n: nat): (s: string)
    ensures |s| > 0 && AllDigits(s)
    decreases n
  {
    if n < 10 then [DigitChar(n)] else NatToString(n / 10) + [DigitChar(n % 10)]
  }

  /** `${n}` for an integer-valued number: a minus sign, then the digits. */
  function IntToString(n: int): (s: string)
    ensures |s| > 0 && ' ' !in s
    ensures (n < 0) == (s[0] == '-')
  {
    if n < 0 then "-" + NatToString(-n) else NatToString(n)
  }

  /** The value of a string of decimal digits. */
  function DigitsValue(s: string): nat
    requires AllDigits(s)
    decreases |s|
  {
    if s == [] then 0 else DigitsValue(s[..|s| - 1]) * 10 + DigitValue(s[|s| - 1])
  }

  function ParseNat(s: string): Option<nat> {
    if |s| > 0 && AllDigits(s) then Some(DigitsValue(s)) else None
  }

  function ParseInt(s: string): Option<int> {
    if |s| > 0 && s[0] == '-' then
      match ParseNat(s[1..])
      case Some(n) => Some(-(n as int))
      case None => None
    else
      match ParseNat(s)
      case Some(n) => Some(n)
      case None => None
  }

  lemma {:induction false} NatToStringRoundTrip(n: nat)
    ensures ParseNat(NatToString(n)) == Some(n)
    decreases n
  {
    var s := NatToString(n);
    if n >= 10 {
      NatToStringRoundTrip(n / 10);
      assert s[..|s| - 1] == NatToString(n / 10);
      assert DigitValue(s[|s| - 1]) == n % 10;
    } else {
      assert s == [DigitChar(n)];
      assert s[..0] == [] && DigitValue(s[0]) == n;
      assert DigitsValue(s) == n;
    }
  }

  lemma IntToStringRoundTrip(n: int)
    ensures ParseInt(IntToString(n)) == Some(n)
  {
    if n < 0 {
      NatToStringRoundTrip(-n);
      assert IntToString(n)[1..] == NatToString(-n);
    } else {
      NatToStringRoundTrip(n);
    }
  }

  /** Position of the first occurrence of `c` in `s`. */
  function IndexOf(s: string, c: char): (r: nat)
    requires c in s
    ensures r < |s| && s[r] == c
    ensures forall k :: 0 <= k < r ==> s[k] != c
  {
    if s[0] == c then 0 else 1 + IndexOf(s[1..], c)
  }

  lemma IndexOfFirst(s: string, c: char, i: nat)
    requires i < |s| && s[i] == c
    requires forall k :: 0 <= k < i ==> s[k] != c
    ensures IndexOf(s, c) == i
  {
  }

  /** `s.split(' ')`: the pieces between single spaces, empty pieces kept. */
  function Words(s: string): (w: seq<string>)
    ensures |w| > 0
    decreases |s|
  {
    if ' ' in s then
      var i := IndexOf(s, ' ');
      [s[..i]] + Words(s[i + 1..])
    else
      [s]
  }

  lemma WordsSingle(a: string)
    requires ' ' !in a
    ensures Words(a) == [a]
  {
  }

  lemma WordsCons(a: string, b: string)
    requires ' ' !in a
    ensures Words(a + " " + b) == [a] + Words(b)
  {
    var s := a + " " + b;
    IndexOfFirst(s, ' ', |a|);
    assert s[..|a|] == a;
    assert s[|a| + 1..] == b;
  }

  /** `ws.join(' ')`: the words with one space between neighbours. */
  function Join(ws: seq<string>): string
    requires |ws| > 0
    decreases |ws|
  {
    if |ws| == 1 then ws[0] else ws[0] + " " + Join(ws[1..])
  }

  predicate NoSpaces(ws: seq<string>) {
    forall i :: 0 <= i < |ws| ==> ' ' !in ws[i]
  }

  /** Splitting joined words gives the words back. */
  lemma {:induction false} WordsJoin(ws: seq<string>)
    requires |ws| > 0 && NoSpaces(ws)
    ensures Words(Join(ws)) == ws
    decreases |ws|
  {
    if |ws| == 1 {
      WordsSingle(ws[0]);
    } else {
      WordsCons(ws[0], Join(ws[1..]));
      WordsJoin(ws[1..]);
      assert [ws[0]] + ws[1..] == ws;
    }
  }

  lemma {:induction false} JoinAppend(ws: seq<string>, vs: seq<string>)
    requires |ws| > 0 && |vs| > 0
    ensures Join(ws + vs) == Join(ws) + " " + Join(vs)
    decreases |ws|
  {
    if |ws| == 1 {
      assert (ws + vs)[1..] == vs;
    } else {
      assert (ws + vs)[1..] == ws[1..] + vs;
      JoinAppend(ws[1..], vs);
    }
  }

  lemma WordsOfTwo(a: string, b: string)
    requires ' ' !in a && ' ' !in b
    ensures Words(a + " " + b) == [a, b]
  {
    WordsCons(a, b);
    WordsSingle(b);
  }

  lemma WordsOfFour(a: string, b: string, c: string, d: string)
    requires ' ' !in a && ' ' !in b && ' ' !in c && ' ' !in d
    ensures Words(a + " " + b + " " + c + " " + d) == [a, b, c, d]
  {
    var ws := [a, b, c, d];
    assert Join(ws[3..]) == d;
    assert Join(ws[2..]) == c + " " + d;
    assert Join(ws[1..]) == b + " " + (c + " " + d);
    assert Join(ws) == a + " " + b + " " + c + " " + d;
    WordsJoin(ws);
  }
}
