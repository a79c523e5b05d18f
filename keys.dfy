/**
 * The textual keys under which a grid cell asks the deterministic `luck`
 * oracle for a value.  The game builds them with JavaScript's
 * `Array.prototype.toString`, which joins the elements with commas and
 * writes each integer in decimal with a leading '-' when negative:
 *   the placement key of cell (i, j) is  "i,j"
 *   its coin-value key is                "i,j,coinValue"
 * The lemmas show that distinct cells never share a key and that the two
 * kinds of key never coincide, so the placement decision and the coin value
 * of a cell are read from different points of the oracle.
 */
module Keys {

  predicate IsDigit(c: char) {
    '0' <= c <= '9'
  }

  predicate AllDigits(s: string) {
    forall k :: 0 <= k < |s| ==> IsDigit(s[k])
  }

  function DigitChar(d: int): (c: char)
    requires 0 <= d < 10
    ensures IsDigit(c) && c as int - '0' as int == d
  {
    ('0' as int + d) as char
  }

  /** Decimal notation of a natural number, without leading zeros. */
  function NatToString(n: nat): string
    decreases n
  {
    if n < 10 then [DigitChar(n)] else NatToString(n / 10) + [DigitChar(n % 10)]
  }

  /** Decimal notation of an integer, as JavaScript writes an integral number. */
  function IntToString(n: int): string {
    if n < 0 then "-" + NatToString(-n) else NatToString(n)
  }

  /** The decimal notation of a natural number is a non-empty string of digits. */
  lemma {:induction false} NatToStringDigits(n: nat)
    ensures |NatToString(n)| > 0 && AllDigits(NatToString(n))
    decreases n
  {
    if n >= 10 {
      NatToStringDigits(n / 10);
    }
  }

  /**
   * The notation of an integer holds no comma, ends in a digit, and starts
   * with '-' exactly when the integer is negative.
   */
  lemma IntToStringShape(n: int)
    ensures var s := IntToString(n);
      |s| > 0 && ',' !in s && IsDigit(s[|s| - 1]) && (s[0] == '-' <==> n < 0) &&
      AllDigits(if s[0] == '-' then s[1..] else s)
  {
    var s := IntToString(n);
    if n < 0 {
      NatToStringDigits(-n);
      assert s[1..] == NatToString(-n);
    } else {
      NatToStringDigits(n);
    }
  }

  /** Reads back a string of decimal digits; the partner of NatToString. */
  function ParseNat(s: string): nat
    requires AllDigits(s)
    decreases |s|
  {
    if s == [] then 0
    else ParseNat(s[..|s| - 1]) * 10 + (s[|s| - 1] as int - '0' as int)
  }

  /** Reads back an optionally signed decimal integer; the partner of IntToString. */
  function ParseInt(s: string): int
    requires |s| > 0
    requires AllDigits(if s[0] == '-' then s[1..] else s)
  {
    if s[0] == '-' then -(ParseNat(s[1..]) as int) else ParseNat(s)
  }

  lemma {:induction false} NatToStringRoundTrip(n: nat)
    ensures AllDigits(NatToString(n)) && ParseNat(NatToString(n)) == n
    decreases n
  {
    NatToStringDigits(n);
    if n >= 10 {
      NatToStringRoundTrip(n / 10);
      var s := NatToString(n);
      assert s[..|s| - 1] == NatToString(n / 10);
    }
  }

  lemma IntToStringRoundTrip(n: int)
    ensures |IntToString(n)| > 0 && AllDigits(var s := IntToString(n); if s[0] == '-' then s[1..] else s)
    ensures ParseInt(IntToString(n)) == n
  {
    IntToStringShape(n);
    var s := IntToString(n);
    if n < 0 {
      assert s[1..] == NatToString(-n);
      NatToStringRoundTrip(-n);
    } else {
      NatToStringRoundTrip(n);
    }
  }

  /** Two integers with the same decimal notation are equal. */
  lemma IntToStringInjective(m: int, n: int)
    requires IntToString(m) == IntToString(n)
    ensures m == n
  {
    IntToStringRoundTrip(m);
    IntToStringRoundTrip(n);
  }

  /**
   * The two kinds of key a cell asks the oracle with: its placement key and
   * its coin-value key.
   */
  datatype Key = PlacementKey(i: int, j: int) | CoinKey(i: int, j: int)

  /**
   * The string the game builds for a key: `[i, j].toString()`, that is
   * "i,j", for a placement key; `[i, j, "coinValue"].toString()`, that is
   * "i,j,coinValue", for a coin-value key.
   */
  function Text(key: Key): string {
    match key
    case PlacementKey(i, j) => IntToString(i) + "," + IntToString(j)
    case CoinKey(i, j) => IntToString(i) + "," + IntToString(j) + "," + "coinValue"
  }

  /**
   * The oracle on key strings, seen as an oracle on keys.  Text is injective
   * (TextInjective), so distinct keys read distinct values of the string
   * oracle.
   */
  function KeyedLuck(luck: string -> real): Key -> real {
    key => luck(Text(key))
  }

  lemma FirstCommaAt(a: string, b: string)
    requires ',' !in a
    ensures (a + "," + b)[|a|] == ','
    ensures forall k :: 0 <= k < |a| ==> (a + "," + b)[k] != ','
  {
  }

  /** A comma-free head followed by a comma determines where the head ends. */
  lemma SplitAtFirstComma(a: string, b: string, c: string, d: string)
    requires ',' !in a && ',' !in c
    requires a + "," + b == c + "," + d
    ensures a == c && b == d
  {
    var s := a + "," + b;
    FirstCommaAt(a, b);
    FirstCommaAt(c, d);
    assert |a| == |c|;
    assert a == s[..|a|];
    assert c == s[..|c|];
    assert b == s[|a| + 1..];
    assert d == s[|c| + 1..];
  }

  /** Distinct cells look up distinct placement keys. */
  lemma PlacementKeyInjective(i: int, j: int, i': int, j': int)
    requires Text(PlacementKey(i, j)) == Text(PlacementKey(i', j'))
    ensures i == i' && j == j'
  {
    IntToStringShape(i);
    IntToStringShape(i');
    SplitAtFirstComma(IntToString(i), IntToString(j), IntToString(i'), IntToString(j'));
    IntToStringInjective(i, i');
    IntToStringInjective(j, j');
  }

  lemma SuffixCancels(p: string, p': string, suffix: string)
    requires p + suffix == p' + suffix
    ensures p == p'
  {
    assert p == (p + suffix)[..|p|];
    assert p' == (p' + suffix)[..|p'|];
  }

  /** Distinct cells look up distinct coin-value keys. */
  lemma CoinKeyInjective(i: int, j: int, i': int, j': int)
    requires Text(CoinKey(i, j)) == Text(CoinKey(i', j'))
    ensures i == i' && j == j'
  {
    var p, p' := Text(PlacementKey(i, j)), Text(PlacementKey(i', j'));
    assert Text(CoinKey(i, j)) == p + ("," + "coinValue");
    assert Text(CoinKey(i', j')) == p' + ("," + "coinValue");
    SuffixCancels(p, p', "," + "coinValue");
    PlacementKeyInjective(i, j, i', j');
  }

  /**
   * No placement key is a coin-value key: a placement key ends in a digit,
   * a coin-value key in the letter 'e'.
   */
  lemma PlacementAndCoinKeysDiffer(i: int, j: int, i': int, j': int)
    ensures Text(PlacementKey(i, j)) != Text(CoinKey(i', j'))
  {
    IntToStringShape(j);
    var p, q := Text(PlacementKey(i, j)), Text(CoinKey(i', j'));
    assert p[|p| - 1] == IntToString(j)[|IntToString(j)| - 1];
    assert q[|q| - 1] == 'e';
  }

  /** Distinct keys are distinct strings, so each reads its own value of the oracle. */
  lemma TextInjective(key: Key, key': Key)
    requires Text(key) == Text(key')
    ensures key == key'
  {
    match key
    case PlacementKey(i, j) =>
      if key'.CoinKey? {
        PlacementAndCoinKeysDiffer(i, j, key'.i, key'.j);
      } else {
        PlacementKeyInjective(i, j, key'.i, key'.j);
      }
    case CoinKey(i, j) =>
      if key'.PlacementKey? {
        PlacementAndCoinKeysDiffer(key'.i, key'.j, i, j);
      } else {
        CoinKeyInjective(i, j, key'.i, key'.j);
      }
  }
}
