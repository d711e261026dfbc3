/** Decimal numerals and splitting, as far as replies, attribute keys and host names need them. */
module Text {
  import opened Options

  predicate IsDigit(c: char) { '0' <= c <= '9' }

  predicate AllDigits(s: string) { forall i | 0 <= i < |s| :: IsDigit(s[i]) }

  function DigitOf(d: nat): (c: char)
    requires d < 10
    ensures IsDigit(c) && c as int - '0' as int == d
  {
    '0' + d as char
  }

  function Numeral(n: nat): (s: string)
    ensures |s| > 0 && AllDigits(s)
  {
    if n < 10 then [DigitOf(n)] else Numeral(n / 10) + [DigitOf(n % 10)]
  }

  /** The number that a string of digits denotes, read left to right. */
  function NumberOf(s: string): nat
    requires AllDigits(s)
  {
    if s == [] then 0 else 10 * NumberOf(s[..|s| - 1]) + (s[|s| - 1] as int - '0' as int)
  }

  lemma {:induction false} NumeralDenotes(n: nat)
    ensures NumberOf(Numeral(n)) == n
  {
    if n >= 10 {
      NumeralDenotes(n / 10);
      assert Numeral(n)[..|Numeral(n)| - 1] == Numeral(n / 10);
    } else {
      assert Numeral(n)[..0] == [];
    }
  }

  lemma NumeralInjective(m: nat, n: nat)
    requires Numeral(m) == Numeral(n)
    ensures m == n
  {
    NumeralDenotes(m);
    NumeralDenotes(n);
  }

  /** A string of digits denotes `n` and has no superfluous zero in front exactly if it is the numeral of `n`. */
  lemma {:induction false} NumeralIsCanonical(s: string, n: nat)
    ensures s == Numeral(n) <==> s != [] && AllDigits(s) && NumberOf(s) == n && (s[0] == '0' ==> |s| == 1)
  {
    NumeralDenotes(n);
    NoLeadingZero(n);
    if s != [] && AllDigits(s) && NumberOf(s) == n && (s[0] == '0' ==> |s| == 1) {
      IsItsNumeral(s);
    }
  }

  lemma {:induction false} NoLeadingZero(n: nat)
    ensures Numeral(n)[0] == '0' ==> n == 0 && |Numeral(n)| == 1
  {
    if n >= 10 {
      NoLeadingZero(n / 10);
    }
  }

  lemma {:induction false} IsItsNumeral(s: string)
    requires s != [] && AllDigits(s) && (s[0] == '0' ==> |s| == 1)
    ensures Numeral(NumberOf(s)) == s
  {
    var n := |s| - 1;
    if n == 0 {
      assert NumberOf(s[..0]) == 0;
    } else {
      PositiveWithoutZero(s[..n]);
      IsItsNumeral(s[..n]);
      assert s == s[..n] + [s[n]];
    }
  }

  lemma {:induction false} PositiveWithoutZero(s: string)
    requires s != [] && AllDigits(s) && s[0] != '0'
    ensures NumberOf(s) > 0
  {
    if |s| > 1 {
      PositiveWithoutZero(s[..|s| - 1]);
    }
  }

  /** Zeros in front do not change a number. */
  lemma {:induction false} ZerosInFront(s: string)
    requires AllDigits(s)
    ensures AllDigits("0" + s) && NumberOf("0" + s) == NumberOf(s)
  {
    if s == [] {
      assert ("0" + s)[..0] == [];
    } else {
      ZerosInFront(s[..|s| - 1]);
      assert ("0" + s)[..|"0" + s| - 1] == "0" + s[..|s| - 1];
    }
  }

  /** Leading digits only make a number larger. */
  lemma {:induction false} LongerIsLarger(a: string, b: string)
    requires AllDigits(a) && AllDigits(b)
    ensures AllDigits(a + b) && NumberOf(b) <= NumberOf(a + b)
  {
    if b == [] {
      assert a + b == a;
    } else {
      LongerIsLarger(a, b[..|b| - 1]);
      assert (a + b)[..|a + b| - 1] == a + b[..|b| - 1];
    }
  }

  function IntText(n: int): string {
    if n < 0 then "-" + Numeral(-n) else Numeral(n)
  }

  /** Python's int() on an optional minus sign and digits. */
  function ParseInt(s: string): Option<int> {
    if s != [] && s[0] == '-' then
      if |s| > 1 && AllDigits(s[1..]) then Some(0 - NumberOf(s[1..])) else None
    else if s != [] && AllDigits(s) then Some(NumberOf(s)) else None
  }

  lemma ParseIntText(n: int)
    ensures ParseInt(IntText(n)) == Some(n)
  {
    if n < 0 {
      NumeralDenotes(-n);
      assert IntText(n)[1..] == Numeral(-n);
    } else {
      NumeralDenotes(n);
      assert IsDigit(Numeral(n)[0]);
    }
  }

  /** ParseInt succeeds exactly on digits after an optional minus sign, with the number that they denote. */
  lemma ParsesExactly(s: string, n: int)
    ensures ParseInt(s) == Some(n) <==>
              exists d: string | d != "" && AllDigits(d) :: Denotes(s, d, n)
  {
    if ParseInt(s) == Some(n) {
      assert Denotes(s, if s[0] == '-' then s[1..] else s, n) by {
        assert s[0] == '-' ==> s == "-" + s[1..];
      }
    }
    if d: string :| d != "" && AllDigits(d) && Denotes(s, d, n) {
      assert IsDigit(d[0]) && ("-" + d)[1..] == d;
    }
  }

  predicate Denotes(s: string, d: string, n: int)
    requires AllDigits(d)
  {
    (s == d && n == NumberOf(d)) || (s == "-" + d && n == 0 - NumberOf(d))
  }

  // ---------------------------------------------------------------- Splitting

  /** s.split(sep, 1): the text before and after the first separator, if there is one. */
  function SplitOnce(s: string, sep: char): (r: Option<(string, string)>)
    ensures r.Some? ==> s == r.value.0 + [sep] + r.value.1 && sep !in r.value.0
    ensures r.None? <==> sep !in s
  {
    if s == [] then None
    else if s[0] == sep then Some(([], s[1..]))
    else match SplitOnce(s[1..], sep)
      case None => None
      case Some((a, b)) => Some(([s[0]] + a, b))
  }

  lemma {:induction false} SplitAtFirst(a: string, b: string, sep: char)
    requires sep !in a
    ensures SplitOnce(a + [sep] + b, sep) == Some((a, b))
  {
    var s := a + [sep] + b;
    if a == [] {
      assert s[1..] == b;
    } else {
      assert s[1..] == a[1..] + [sep] + b;
      SplitAtFirst(a[1..], b, sep);
      assert [s[0]] + a[1..] == a;
    }
  }

  /** s.split(sep) */
  function Split(s: string, sep: char): (r: seq<string>)
    ensures |r| > 0
    decreases |s|
  {
    match SplitOnce(s, sep)
    case None => [s]
    case Some((a, b)) => [a] + Split(b, sep)
  }

  /** The parts, with separators between them. */
  function Joined(parts: seq<string>, sep: char): string {
    if parts == [] then "" else if |parts| == 1 then parts[0] else parts[0] + [sep] + Joined(parts[1..], sep)
  }

  /** Splitting finds all separators: the parts have none, and joined they give the text back. */
  lemma {:induction false} SplitIsExact(s: string, sep: char)
    ensures forall i | 0 <= i < |Split(s, sep)| :: sep !in Split(s, sep)[i]
    ensures Joined(Split(s, sep), sep) == s
    decreases |s|
  {
    match SplitOnce(s, sep)
    case None =>
    case Some((a, b)) =>
      SplitIsExact(b, sep);
      assert ([a] + Split(b, sep))[1..] == Split(b, sep);
  }

  function Count(s: string, c: char): nat {
    if s == [] then 0 else Count(s[1..], c) + if s[0] == c then 1 else 0
  }

  lemma {:induction false} CountConcat(a: string, b: string, c: char)
    ensures Count(a + b, c) == Count(a, c) + Count(b, c)
  {
    if a == [] {
      assert a + b == b;
    } else {
      CountConcat(a[1..], b, c);
      assert (a + b)[1..] == a[1..] + b;
    }
  }

  lemma {:induction false} CountNone(s: string, c: char)
    ensures Count(s, c) == 0 <==> c !in s
  {
    if s != [] {
      CountNone(s[1..], c);
    }
  }

  lemma {:induction false} SplitCount(s: string, sep: char)
    ensures |Split(s, sep)| == Count(s, sep) + 1
    decreases |s|
  {
    CountNone(s, sep);
    match SplitOnce(s, sep)
    case None =>
    case Some((a, b)) =>
      SplitCount(b, sep);
      assert s == a + ([sep] + b);
      CountBehind(a, b, sep);
  }

  lemma CountBehind(a: string, b: string, sep: char)
    requires sep !in a
    ensures Count(a + ([sep] + b), sep) == Count(b, sep) + 1
  {
    CountNone(a, sep);
    CountConcat(a, [sep] + b, sep);
    assert ([sep] + b)[1..] == b;
  }

  lemma SplitPair(a: string, b: string, sep: char)
    requires sep !in a && sep !in b
    ensures Split(a + [sep] + b, sep) == [a, b]
  {
    SplitAtFirst(a, b, sep);
    assert Split(b, sep) == [b];
  }

  lemma IntTextHasNo(n: int, c: char)
    requires !IsDigit(c) && c != '-'
    ensures c !in IntText(n)
  {
  }

  // ---------------------------------------------------------------- Replies of a server

  const ERR_KEY := "ERR_KEY"

  /** What a server answers to a get. */
  function ReplyText(key: int, value: Option<int>): string {
    match value
    case None => ERR_KEY
    case Some(v) => IntText(key) + ":" + IntText(v)
  }

  /** How the workload driver reads an answer; None is a ValueError or an IndexError. */
  function ParseReply(reply: string): Option<(int, int)> {
    var parts := Split(reply, ':');
    if |parts| < 2 then None
    else match (ParseInt(parts[0]), ParseInt(parts[1]))
      case (Some(k), Some(v)) => Some((k, v))
      case _ => None
  }

  /** The text of a found pair, negative numbers included, parses back to exactly that pair, and
      the text for a missing key does not parse at all. */
  lemma ReplyRoundTrip(key: int, value: Option<int>)
    ensures ParseReply(ReplyText(key, value)) == match value case Some(v) => Some((key, v)) case None => None
  {
    match value
    case None => assert SplitOnce(ERR_KEY, ':') == None;
    case Some(v) =>
      IntTextHasNo(key, ':');
      IntTextHasNo(v, ':');
      SplitPair(IntText(key), IntText(v), ':');
      ParseIntText(key);
      ParseIntText(v);
  }
}
