/** A cell of a Connect-X board: an immutable (row, column) pair, row 0 at the bottom. */
module Positions {

  datatype BoardPosition = BoardPosition(row: int, column: int) {

    function GetRow(): (r: int)
      ensures r == row
    {
      row
    }

    function GetColumn(): (c: int)
      ensures c == column
    {
      column
    }

    /** Structural equality against any value; a value that is not a position is never equal. */
    function Equals(obj: Value): (b: bool)
      ensures b <==> obj == PositionValue(this)
    {
      match obj
      case PositionValue(other) => row == other.row && column == other.column
      case OtherValue => false
    }

    /**
     * The text form "row,column" with both numbers in decimal: the first comma of the text
     * ends the row's digits, and what follows it is exactly the column's.
     */
    function ToString(): (t: string)
      ensures CommaIndex(t) == |IntToString(row)| < |t|
      ensures t[..CommaIndex(t)] == IntToString(row)
      ensures t[CommaIndex(t) + 1..] == IntToString(column)
    {
      var a, b := IntToString(row), IntToString(column);
      IntToStringHasNoComma(row);
      var t := a + "," + b;
      assert t[|a|] == ',';
      assert t[..|a|] == a;
      assert t[|a| + 1..] == b;
      t
    }
  }

  /** What `equals` may be handed: a position or some other kind of object. */
  datatype Value = PositionValue(pos: BoardPosition) | OtherValue

  /** equals is reflexive and symmetric on positions, and a non-position is equal to none of them. */
  lemma EqualsReflexiveSymmetric(p: BoardPosition, q: BoardPosition)
    ensures p.Equals(PositionValue(p))
    ensures p.Equals(PositionValue(q)) == q.Equals(PositionValue(p))
    ensures !p.Equals(OtherValue)
  {
  }

  // ---------------------------------------------------------------- decimal text

  function DigitChar(d: int): (ch: char)
    requires 0 <= d < 10
    ensures '0' <= ch <= '9' && ch as int - '0' as int == d
  {
    ('0' as int + d) as char
  }

  /** Decimal digits of n, most significant first, with no leading zeros. */
  function NatToString(n: nat): (s: string)
    ensures |s| >= 1
    ensures forall i :: 0 <= i < |s| ==> '0' <= s[i] <= '9'
    ensures n < 10 <==> |s| == 1
    ensures 10 <= n < 100 ==> |s| == 2
    ensures n > 0 ==> s[0] != '0'
  {
    if n < 10 then [DigitChar(n)] else NatToString(n / 10) + [DigitChar(n % 10)]
  }

  /** Java's decimal form of an int: a minus sign for negatives, then the digits. */
  function IntToString(i: int): string
  {
    if i < 0 then "-" + NatToString(-i) else NatToString(i)
  }

  /** The value of a string of decimal digits. */
  function DigitsValue(s: string): nat
  {
    if s == [] then 0
    else
      var d := s[|s| - 1] as int - '0' as int;
      DigitsValue(s[..|s| - 1]) * 10 + (if 0 <= d < 10 then d else 0)
  }

  function ParseInt(s: string): int
  {
    if s != [] && s[0] == '-' then -(DigitsValue(s[1..]) as int) else DigitsValue(s)
  }

  /** Index of the first comma in s, or |s| when there is none. */
  function CommaIndex(s: string): (k: nat)
    ensures k <= |s|
    ensures k < |s| ==> s[k] == ','
    ensures forall i :: 0 <= i < k ==> s[i] != ','
  {
    if s == [] then 0 else if s[0] == ',' then 0 else 1 + CommaIndex(s[1..])
  }

  /** Reads back the text "row,column" produced by ToString. */
  function ParsePosition(s: string): BoardPosition
  {
    var k := CommaIndex(s);
    BoardPosition(ParseInt(s[..k]), ParseInt(if k < |s| then s[k + 1..] else []))
  }

  lemma {:induction false} NatToStringRoundTrip(n: nat)
    ensures DigitsValue(NatToString(n)) == n
  {
    var s := NatToString(n);
    if n >= 10 {
      NatToStringRoundTrip(n / 10);
      assert s[..|s| - 1] == NatToString(n / 10);
    }
  }

  lemma IntToStringRoundTrip(i: int)
    ensures ParseInt(IntToString(i)) == i
  {
    if i < 0 {
      NatToStringRoundTrip(-i);
      assert ("-" + NatToString(-i))[1..] == NatToString(-i);
    } else {
      NatToStringRoundTrip(i);
    }
  }

  lemma IntToStringHasNoComma(i: int)
    ensures forall j :: 0 <= j < |IntToString(i)| ==> IntToString(i)[j] != ','
  {
    var t := NatToString(if i < 0 then -i else i);
    assert forall j :: 0 <= j < |t| ==> t[j] != ',';
    if i < 0 {
      var s := "-" + t;
      assert forall j :: 1 <= j < |s| ==> s[j] == t[j - 1];
    }
  }

  /** The text form is decodable: parsing it gives back the same position. */
  lemma ToStringRoundTrip(p: BoardPosition)
    ensures ParsePosition(p.ToString()) == p
  {
    IntToStringRoundTrip(p.row);
    IntToStringRoundTrip(p.column);
  }

  /** Two positions with the same text form are the same position. */
  lemma ToStringInjective(p: BoardPosition, q: BoardPosition)
    requires p.ToString() == q.ToString()
    ensures p == q
  {
    ToStringRoundTrip(p);
    ToStringRoundTrip(q);
  }
}
