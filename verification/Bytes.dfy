/** Byte strings (QByteArray) and the few text operations the download code applies to them. */
module Bytes {
  type byte = b: int | 0 <= b < 256

  const NEWLINE: byte := 10
  const QUOTE: byte := 34
  const DASH: byte := 45
  const SLASH: byte := 47

  /** The bytes of an ASCII literal. */
  function Ascii(s: string): (r: seq<byte>)
    requires forall i :: 0 <= i < |s| ==> s[i] as int < 256
  {
    seq(|s|, i requires 0 <= i < |s| => s[i] as int)
  }

  /** QByteArray::indexOf: the first index at or after `from` that holds `b`, or -1. */
  function IndexOf(s: seq<byte>, b: byte, from: nat): (r: int)
    ensures -1 <= r < |s|
    ensures r == -1 ==> forall i :: from <= i < |s| ==> s[i] != b
    ensures r >= 0 ==> from <= r && s[r] == b && forall i :: from <= i < r ==> s[i] != b
    decreases |s| - from
  {
    if from >= |s| then -1
    else if s[from] == b then from
    else IndexOf(s, b, from + 1)
  }

  /** QByteArray::split: the pieces between occurrences of `b`; an empty string is one empty piece. */
  function Split(s: seq<byte>, b: byte): seq<seq<byte>>
    decreases |s|
  {
    var i := IndexOf(s, b, 0);
    if i < 0 then [s] else [s[..i]] + Split(s[i + 1..], b)
  }

  lemma {:induction false} SplitLine(line: seq<byte>, b: byte, rest: seq<byte>)
    requires b !in line
    ensures Split(line + [b] + rest, b) == [line] + Split(rest, b)
  {
    var s := line + [b] + rest;
    assert s[|line|] == b;
    assert forall k :: 0 <= k < |line| ==> s[k] == line[k] && line[k] in line;
    var i := IndexOf(s, b, 0);
    assert i == |line|;
    assert s[..i] == line && s[i + 1..] == rest;
  }

  // ---------------------------------------------------------------- decimal numbers

  predicate IsDigit(b: byte) {
    48 <= b <= 57
  }

  predicate AllDigits(s: seq<byte>) {
    forall i :: 0 <= i < |s| ==> IsDigit(s[i])
  }

  /** The number a digit string denotes. */
  function DecimalValue(s: seq<byte>): nat
    requires AllDigits(s)
  {
    if s == [] then 0 else 10 * DecimalValue(s[..|s| - 1]) + (s[|s| - 1] - 48)
  }

  /** QByteArray::number for a non-negative value. */
  function Decimal(n: nat): (s: seq<byte>)
    ensures s != [] && AllDigits(s)
  {
    if n < 10 then [48 + n] else Decimal(n / 10) + [48 + n % 10]
  }

  lemma {:induction false} DecimalValueOfDecimal(n: nat)
    ensures DecimalValue(Decimal(n)) == n
  {
    if n >= 10 {
      DecimalValueOfDecimal(n / 10);
      assert Decimal(n)[..|Decimal(n)| - 1] == Decimal(n / 10);
    } else {
      assert [48 + n][..0] == [];
    }
  }

  lemma {:induction false} DecimalValuePrefix(s: seq<byte>, k: nat)
    requires AllDigits(s) && k <= |s|
    ensures DecimalValue(s[..k]) <= DecimalValue(s)
    decreases |s| - k
  {
    if k == |s| {
      assert s[..k] == s;
    } else {
      DecimalValuePrefix(s, k + 1);
      assert s[..k + 1][..k] == s[..k];
    }
  }

  function Power10(k: nat): nat {
    if k == 0 then 1 else 10 * Power10(k - 1)
  }

  /** A number below 10^k prints in at most k digits. */
  lemma {:induction false} DecimalLength(n: nat, k: nat)
    requires k >= 1 && n < Power10(k)
    ensures |Decimal(n)| <= k
  {
    if n >= 10 {
      assert Power10(1) == 10 * Power10(0);
      DecimalLength(n / 10, k - 1);
    }
  }

  // ---------------------------------------------------------------- hexadecimal

  function HexDigit(v: nat): (b: byte)
    requires v < 16
    ensures 48 <= b <= 57 || 97 <= b <= 102
  {
    if v < 10 then 48 + v else 87 + v
  }

  /** The value of a hexadecimal digit of either case, or -1. */
  function HexValue(b: byte): (v: int)
    ensures -1 <= v < 16
  {
    if 48 <= b <= 57 then b - 48
    else if 97 <= b <= 102 then b - 87
    else if 65 <= b <= 70 then b - 55
    else -1
  }

  /** QByteArray::toHex: two lower-case digits a byte. */
  function ToHex(s: seq<byte>): (r: seq<byte>)
    ensures |r| == 2 * |s|
    ensures forall i :: 0 <= i < |r| ==> r[i] >= 48
  {
    if s == [] then []
    else ToHex(s[..|s| - 1]) + [HexDigit(s[|s| - 1] / 16)] + [HexDigit(s[|s| - 1] % 16)]
  }

  /** The digit values of a string, characters that are no hexadecimal digit left out. */
  function HexValues(s: seq<byte>): (r: seq<int>)
    ensures forall i :: 0 <= i < |r| ==> 0 <= r[i] < 16
  {
    if s == [] then []
    else
      var v := HexValue(s[|s| - 1]);
      HexValues(s[..|s| - 1]) + (if v < 0 then [] else [v])
  }

  /** Digit values paired from the end, as QByteArray::fromHex pairs them. */
  function PairFromEnd(v: seq<int>): seq<byte>
    requires forall i :: 0 <= i < |v| ==> 0 <= v[i] < 16
  {
    if |v| == 0 then []
    else if |v| == 1 then [v[0]]
    else PairFromEnd(v[..|v| - 2]) + [16 * v[|v| - 2] + v[|v| - 1]]
  }

  /** QByteArray::fromHex. */
  function FromHex(s: seq<byte>): seq<byte> {
    PairFromEnd(HexValues(s))
  }

  lemma {:induction false} HexValuesAppend(s: seq<byte>, v: nat)
    requires v < 16
    ensures HexValues(s + [HexDigit(v)]) == HexValues(s) + [v]
  {
    assert (s + [HexDigit(v)])[..|s|] == s;
  }

  lemma {:induction false} PairFromEndAppend(v: seq<int>, high: nat, low: nat)
    requires forall i :: 0 <= i < |v| ==> 0 <= v[i] < 16
    requires high < 16 && low < 16
    ensures PairFromEnd(v + [high] + [low]) == PairFromEnd(v) + [16 * high + low]
  {
    assert (v + [high] + [low])[..|v|] == v;
  }

  lemma {:induction false} FromHexAppend(hex: seq<byte>, high: nat, low: nat)
    requires high < 16 && low < 16
    ensures FromHex(hex + [HexDigit(high)] + [HexDigit(low)]) == FromHex(hex) + [16 * high + low]
  {
    HexValuesAppend(hex, high);
    HexValuesAppend(hex + [HexDigit(high)], low);
    PairFromEndAppend(HexValues(hex), high, low);
  }

  lemma {:induction false} FromHexOfToHex(s: seq<byte>)
    ensures FromHex(ToHex(s)) == s
  {
    if s != [] {
      var front, last := s[..|s| - 1], s[|s| - 1];
      FromHexOfToHex(front);
      FromHexAppend(ToHex(front), last / 16, last % 16);
      assert s == front + [last];
    }
  }
}
