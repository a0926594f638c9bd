/** The text conventions of the parameter file: integers printed in decimal as Python's
    str() prints them, lists joined with single blanks as ' '.join does, and lines read
    back as runs of non-blank tokens, the way the engine's positional reader sees them. */
module Text {
  import opened Wrappers

  predicate IsDigit(c: char)
  {
    '0' <= c <= '9'
  }

  predicate AllDigits(s: string)
  {
    forall i :: 0 <= i < |s| ==> IsDigit(s[i])
  }

  function DigitChar(d: nat): (c: char)
    requires d < 10
    ensures IsDigit(c) && c as int - '0' as int == d
  {
    ('0' as int + d) as char
  }

  /** Decimal digits of n, most significant first. */
  function NatToString(n: nat): (s: string)
    ensures |s| > 0 && AllDigits(s)
    decreases n
  {
    if n < 10 then [DigitChar(n)] else NatToString(n / 10) + [DigitChar(n % 10)]
  }

  /** Python's str() of an integer: a minus sign for negatives, then the digits. */
  function IntToString(i: int): (s: string)
    ensures |s| > 0 && ' ' !in s
  {
    if i < 0 then "-" + NatToString(-i) else NatToString(i)
  }

  /** The value of a string of decimal digits. */
  function DigitsValue(s: string): nat
    requires AllDigits(s)
  {
    if s == [] then 0 else DigitsValue(s[..|s| - 1]) * 10 + (s[|s| - 1] as int - '0' as int)
  }

  /** Reads a decimal integer token, optionally negative; None when the token is not one. */
  function ParseInt(s: string): Option<int>
  {
    if |s| > 0 && AllDigits(s) then Some(DigitsValue(s))
    else if |s| > 1 && s[0] == '-' && AllDigits(s[1..]) then
      var v: int := DigitsValue(s[1..]); Some(-v)
    else None
  }

  /** Reads every token of ws as an integer; None if one of them is not. */
  function ParseInts(ws: seq<string>): Option<seq<int>>
  {
    if ws == [] then Some([])
    else match (ParseInt(ws[0]), ParseInts(ws[1..]))
      case (Some(x), Some(xs)) => Some([x] + xs)
      case _ => None
  }

  /** The decimal token of every element of xs, in order. */
  function IntTokens(xs: seq<int>): (ts: seq<string>)
    ensures |ts| == |xs|
    ensures forall k :: 0 <= k < |xs| ==> ts[k] == IntToString(xs[k])
  {
    if xs == [] then [] else [IntToString(xs[0])] + IntTokens(xs[1..])
  }

  /** Reading back the digits of n gives n. */
  lemma {:induction false} NatToStringRoundTrip(n: nat)
    ensures DigitsValue(NatToString(n)) == n
    decreases n
  {
    var s := NatToString(n);
    if n >= 10 {
      NatToStringRoundTrip(n / 10);
      assert s[..|s| - 1] == NatToString(n / 10);
    } else {
      assert s[..|s| - 1] == [];
    }
  }

  /** Reading back Python's decimal form of an integer gives that integer. */
  lemma IntToStringRoundTrip(i: int)
    ensures ParseInt(IntToString(i)) == Some(i)
  {
    if i < 0 {
      var s := IntToString(i);
      NatToStringRoundTrip(-i);
      assert !IsDigit(s[0]);
      assert s[1..] == NatToString(-i);
    } else {
      NatToStringRoundTrip(i);
    }
  }

  /** Reading back the tokens of a list of integers gives the list. */
  lemma {:induction false} IntTokensRoundTrip(xs: seq<int>)
    ensures ParseInts(IntTokens(xs)) == Some(xs)
  {
    if xs != [] {
      var ts := IntTokens(xs);
      IntToStringRoundTrip(xs[0]);
      IntTokensRoundTrip(xs[1..]);
      assert ts[1..] == IntTokens(xs[1..]);
      assert [xs[0]] + xs[1..] == xs;
    }
  }

  /** Python's sep.join(ts). */
  function Join(ts: seq<string>, sep: string): string
  {
    if |ts| == 0 then "" else if |ts| == 1 then ts[0] else ts[0] + sep + Join(ts[1..], sep)
  }

  /** A token as a whitespace-delimited reader sees it: non-empty and without blanks. */
  predicate IsToken(t: string)
  {
    |t| > 0 && ' ' !in t
  }

  /** The blank-separated tokens of a line. */
  function Words(line: string): seq<string>
  {
    Scan(line, "")
  }

  /** Scans line, with cur the token read so far. */
  function Scan(line: string, cur: string): seq<string>
    decreases |line|
  {
    if line == [] then (if cur == [] then [] else [cur])
    else if line[0] == ' ' then (if cur == [] then [] else [cur]) + Scan(line[1..], [])
    else Scan(line[1..], cur + [line[0]])
  }

  /** A blank-free prefix only lengthens the token being scanned. */
  lemma {:induction false} ScanToken(w: string, rest: string, cur: string)
    requires ' ' !in w
    ensures Scan(w + rest, cur) == Scan(rest, cur + w)
    decreases |w|
  {
    if w == [] {
      assert w + rest == rest && cur + w == cur;
    } else {
      assert (w + rest)[0] == w[0];
      assert (w + rest)[1..] == w[1..] + rest;
      ScanToken(w[1..], rest, cur + [w[0]]);
      assert cur + [w[0]] + w[1..] == cur + w;
    }
  }

  /** A blank ends the current token: what follows it is scanned afresh. */
  lemma {:induction false} ScanBlank(x: string, y: string, cur: string)
    ensures Scan(x + " " + y, cur) == Scan(x, cur) + Scan(y, [])
    decreases |x|
  {
    var s := x + " " + y;
    if x == [] {
      assert s[0] == ' ' && s[1..] == y;
    } else {
      assert s[0] == x[0];
      assert s[1..] == x[1..] + " " + y;
      if x[0] == ' ' {
        ScanBlank(x[1..], y, []);
      } else {
        ScanBlank(x[1..], y, cur + [x[0]]);
      }
    }
  }

  /** The tokens of two texts joined by a blank are the tokens of each, in order. */
  lemma WordsSplit(x: string, y: string)
    ensures Words(x + " " + y) == Words(x) + Words(y)
  {
    ScanBlank(x, y, "");
  }

  /** Reading back a blank-joined list of tokens gives the list. */
  lemma {:induction false} WordsOfJoin(ts: seq<string>)
    requires forall k :: 0 <= k < |ts| ==> IsToken(ts[k])
    ensures Words(Join(ts, " ")) == ts
  {
    if |ts| > 0 {
      ScanToken(ts[0], "", "");
      assert ts[0] + "" == ts[0] && "" + ts[0] == ts[0];
      assert Words(ts[0]) == [ts[0]];
    }
    if |ts| > 1 {
      WordsOfJoin(ts[1..]);
      WordsSplit(ts[0], Join(ts[1..], " "));
      assert [ts[0]] + ts[1..] == ts;
    }
  }
}
