/** The display encoding the read loop applies to binary chunks: every byte is
    written with `toString(16)`, padded on the left with '0' to two characters,
    and the pairs are joined with single spaces. */
module HexDisplay {

  import opened Wrappers
  import opened Platform

  predicate IsLowerHex(c: char) {
    '0' <= c <= '9' || 'a' <= c <= 'f'
  }

  /** The lower-case hexadecimal digit for a value below 16. */
  function HexDigit(d: nat): (c: char)
    requires d < 16
    ensures IsLowerHex(c)
  {
    if d < 10 then ('0' as int + d) as char else ('a' as int + d - 10) as char
  }

  /** The value of a lower-case hexadecimal digit; the inverse of HexDigit. */
  function DigitValue(c: char): (d: nat)
    requires IsLowerHex(c)
    ensures d < 16 && HexDigit(d) == c
  {
    if c <= '9' then c as int - '0' as int else c as int - 'a' as int + 10
  }

  lemma DigitValueOfHexDigit(d: nat)
    requires d < 16
    ensures DigitValue(HexDigit(d)) == d
  {
  }

  predicate AllLowerHex(s: string) {
    forall i :: 0 <= i < |s| ==> IsLowerHex(s[i])
  }

  /** The number a string of hexadecimal digits denotes. */
  function HexValue(s: string): nat
    requires AllLowerHex(s)
  {
    if s == [] then 0 else 16 * HexValue(s[..|s| - 1]) + DigitValue(s[|s| - 1])
  }

  /** `n.toString(16)` for a non-negative integer `n`. */
  function ToRadix16(n: nat): (s: string)
    ensures |s| >= 1 && AllLowerHex(s)
    ensures n < 16 <==> |s| == 1
    decreases n
  {
    if n < 16 then [HexDigit(n)] else ToRadix16(n / 16) + [HexDigit(n % 16)]
  }

  /** `toString(16)` is the canonical base-16 numeral: it denotes `n` and has
      no leading zero. */
  lemma {:induction false} ToRadix16Value(n: nat)
    ensures HexValue(ToRadix16(n)) == n
    ensures ToRadix16(n)[0] == '0' ==> n == 0
    decreases n
  {
    var s := ToRadix16(n);
    if n < 16 {
      DigitValueOfHexDigit(n);
    } else {
      ToRadix16Value(n / 16);
      assert s[..|s| - 1] == ToRadix16(n / 16);
      DigitValueOfHexDigit(n % 16);
    }
  }

  /** `n` copies of `c`. */
  function Repeat(c: char, n: nat): (r: string)
    ensures |r| == n
    ensures forall i :: 0 <= i < n ==> r[i] == c
  {
    if n == 0 then [] else [c] + Repeat(c, n - 1)
  }

  /** `s.padStart(width, fill)` with a one-character fill string: `s` itself
      when it is wide enough, otherwise `s` after as many fill characters as
      make up the width. */
  function PadStart(s: string, width: nat, fill: char): (r: string)
    ensures |r| == if |s| < width then width else |s|
    ensures r[|r| - |s|..] == s
    ensures forall i :: 0 <= i < |r| - |s| ==> r[i] == fill
  {
    if |s| < width then Repeat(fill, width - |s|) + s else s
  }

  /** The rendering of one byte (see ByteToHexDigits). */
  function ByteToHex(b: byte): string {
    PadStart(ToRadix16(b as nat), 2, '0')
  }

  /** The pair of a byte is its high nibble's digit, then its low nibble's,
      zero-padded when the byte is below 16. */
  lemma ByteToHexDigits(b: byte)
    ensures ByteToHex(b) == [HexDigit(b as nat / 16), HexDigit(b as nat % 16)]
  {
    var n := b as nat;
    var hi, lo := n / 16, n % 16;
    assert n == 16 * hi + lo && lo < 16;
    var digits := ToRadix16(n);
    if n < 16 {
      assert hi == 0 && lo == n;
      assert digits == [HexDigit(n)];
      assert Repeat('0', 1) == ['0'];
    } else {
      assert hi < 16;
      assert ToRadix16(hi) == [HexDigit(hi)];
      assert digits == [HexDigit(hi), HexDigit(lo)];
    }
  }

  /** `Array.from(value).map(b => b.toString(16).padStart(2, '0'))`. */
  function HexPairs(bytes: seq<byte>): seq<string> {
    if bytes == [] then [] else [ByteToHex(bytes[0])] + HexPairs(bytes[1..])
  }

  /** One pair per byte, in the order of the bytes. */
  lemma {:induction false} HexPairsAt(bytes: seq<byte>)
    ensures |HexPairs(bytes)| == |bytes|
    ensures forall i :: 0 <= i < |bytes| ==> HexPairs(bytes)[i] == ByteToHex(bytes[i])
  {
    if bytes != [] {
      HexPairsAt(bytes[1..]);
      var pairs := HexPairs(bytes);
      forall i | 0 < i < |bytes| ensures pairs[i] == ByteToHex(bytes[i]) {
        assert pairs[i] == HexPairs(bytes[1..])[i - 1];
        assert bytes[i] == bytes[1..][i - 1];
      }
    }
  }

  /** `parts.join(sep)`. */
  function Join(parts: seq<string>, sep: string): string {
    if |parts| == 0 then ""
    else if |parts| == 1 then parts[0]
    else parts[0] + sep + Join(parts[1..], sep)
  }

  /** The text the read loop forwards for a binary chunk. */
  function RenderHex(bytes: seq<byte>): string {
    Join(HexPairs(bytes), " ")
  }

  /** Reads rendered text back: two-digit pairs separated by single spaces. */
  function ParseHex(s: string): Option<seq<byte>>
    decreases |s|
  {
    if |s| == 0 then Some([])
    else if |s| < 2 || !IsLowerHex(s[0]) || !IsLowerHex(s[1]) then None
    else
      var b := (16 * DigitValue(s[0]) + DigitValue(s[1])) as byte;
      if |s| == 2 then Some([b])
      else if |s| == 3 || s[2] != ' ' then None
      else
        match ParseHex(s[3..])
        case None => None
        case Some(rest) => Some([b] + rest)
  }

  /** Every part is a pair of characters. */
  predicate AllPairs(parts: seq<string>) {
    forall i :: 0 <= i < |parts| ==> |parts[i]| == 2
  }

  /** Every part is a pair of digits denoting the byte at the same position. */
  predicate PairsDenote(parts: seq<string>, bytes: seq<byte>) {
    && |parts| == |bytes|
    && forall i :: 0 <= i < |parts| ==>
         && |parts[i]| == 2 && IsLowerHex(parts[i][0]) && IsLowerHex(parts[i][1])
         && 16 * DigitValue(parts[i][0]) + DigitValue(parts[i][1]) == bytes[i] as int
  }

  /** Joining n > 0 pairs with single spaces gives 3n - 1 characters. */
  lemma {:induction false} JoinPairsLength(parts: seq<string>)
    requires AllPairs(parts)
    ensures |Join(parts, " ")| == if parts == [] then 0 else 3 * |parts| - 1
    decreases |parts|
  {
    if |parts| >= 2 {
      JoinPairsLength(parts[1..]);
    }
  }

  /** In pairs joined with single spaces, pair i sits at 3i and 3i+1 and a
      space follows every pair but the last. */
  lemma {:induction false} JoinPairsAt(parts: seq<string>, i: nat)
    requires AllPairs(parts) && i < |parts|
    ensures |Join(parts, " ")| == 3 * |parts| - 1
    ensures Join(parts, " ")[3 * i] == parts[i][0]
    ensures Join(parts, " ")[3 * i + 1] == parts[i][1]
    ensures i + 1 < |parts| ==> Join(parts, " ")[3 * i + 2] == ' '
    decreases |parts|
  {
    JoinPairsLength(parts);
    if |parts| >= 2 && i > 0 {
      var rest := parts[1..];
      assert rest[i - 1] == parts[i];
      JoinPairsAt(rest, i - 1);
      JoinPairsLength(rest);
      var t := Join(rest, " ");
      assert Join(parts, " ") == parts[0] + " " + t;
    }
  }

  /** Pairs of digits joined with single spaces parse back to the bytes they denote. */
  lemma {:induction false} ParseJoinedPairs(parts: seq<string>, bytes: seq<byte>)
    requires PairsDenote(parts, bytes)
    ensures ParseHex(Join(parts, " ")) == Some(bytes)
    decreases |parts|
  {
    if |parts| == 1 {
      assert bytes == [bytes[0]];
    } else if |parts| >= 2 {
      var t := Join(parts[1..], " ");
      var s := Join(parts, " ");
      assert s == parts[0] + " " + t;
      assert s[0] == parts[0][0] && s[1] == parts[0][1] && s[2] == ' ';
      assert s[3..] == t;
      assert PairsDenote(parts[1..], bytes[1..]);
      ParseJoinedPairs(parts[1..], bytes[1..]);
      JoinPairsLength(parts[1..]);
      assert bytes == [bytes[0]] + bytes[1..];
    }
  }

  /** Every byte is written as two characters. */
  lemma HexPairsArePairs(bytes: seq<byte>)
    ensures AllPairs(HexPairs(bytes))
  {
    HexPairsAt(bytes);
    forall i | 0 <= i < |bytes| ensures |HexPairs(bytes)[i]| == 2 {
      ByteToHexDigits(bytes[i]);
    }
  }

  /** A chunk of n > 0 bytes renders as 3n - 1 characters; an empty one as "". */
  lemma RenderHexLength(bytes: seq<byte>)
    ensures |RenderHex(bytes)| == if bytes == [] then 0 else 3 * |bytes| - 1
  {
    HexPairsArePairs(bytes);
    HexPairsAt(bytes);
    JoinPairsLength(HexPairs(bytes));
  }

  /** Fixed width: byte i is written as its pair at 3i and 3i+1, and a single
      space follows every byte but the last. */
  lemma RenderHexAt(bytes: seq<byte>, i: nat)
    requires i < |bytes|
    ensures |RenderHex(bytes)| == 3 * |bytes| - 1
    ensures RenderHex(bytes)[3 * i] == ByteToHex(bytes[i])[0]
    ensures RenderHex(bytes)[3 * i + 1] == ByteToHex(bytes[i])[1]
    ensures i + 1 < |bytes| ==> RenderHex(bytes)[3 * i + 2] == ' '
  {
    HexPairsArePairs(bytes);
    HexPairsAt(bytes);
    JoinPairsAt(HexPairs(bytes), i);
  }

  /** The pair of a byte reads back as that byte. */
  lemma PairDenotes(b: byte)
    ensures 16 * DigitValue(ByteToHex(b)[0]) + DigitValue(ByteToHex(b)[1]) == b as int
  {
    var h, l := b as nat / 16, b as nat % 16;
    ByteToHexDigits(b);
    DigitValueOfHexDigit(h);
    DigitValueOfHexDigit(l);
  }

  /** The rendering is lossless: parsing it gives back the chunk. */
  lemma ParseRenderHex(bytes: seq<byte>)
    ensures ParseHex(RenderHex(bytes)) == Some(bytes)
  {
    var parts := HexPairs(bytes);
    HexPairsAt(bytes);
    forall i | 0 <= i < |parts|
      ensures && |parts[i]| == 2 && IsLowerHex(parts[i][0]) && IsLowerHex(parts[i][1])
              && 16 * DigitValue(parts[i][0]) + DigitValue(parts[i][1]) == bytes[i] as int
    {
      ByteToHexDigits(bytes[i]);
      PairDenotes(bytes[i]);
    }
    ParseJoinedPairs(parts, bytes);
  }

  /** Different chunks never render alike. */
  lemma RenderHexInjective(a: seq<byte>, b: seq<byte>)
    requires RenderHex(a) == RenderHex(b)
    ensures a == b
  {
    ParseRenderHex(a);
    ParseRenderHex(b);
  }

  /** A byte below 16 is padded with one leading zero. */
  lemma ByteToHexPadded(b: byte)
    requires b < 16
    ensures ByteToHex(b) == ['0', HexDigit(b as nat)]
  {
    assert ToRadix16(b as nat) == [HexDigit(b as nat)];
  }

  /** A byte from 16 up is written with its two digits and no padding. */
  lemma ByteToHexUnpadded(b: byte)
    requires b >= 16
    ensures ByteToHex(b) == ToRadix16(b as nat)
  {
  }

  /** 0x0A is padded to "0a". */
  lemma PairOfNewline()
    ensures ByteToHex(0x0A) == "0a"
  {
    ByteToHexPadded(0x0A);
    assert HexDigit(10) == 'a';
  }

  /** 0xFF is written "ff". */
  lemma PairOfMaxByte()
    ensures ByteToHex(0xFF) == "ff"
  {
    ByteToHexUnpadded(0xFF);
    assert ToRadix16(0xFF) == [HexDigit(15), HexDigit(15)];
    assert HexDigit(15) == 'f';
  }

  /** The pairs of the worked example. */
  lemma ExamplePairs(bytes: seq<byte>)
    requires bytes == [0x0A, 0xFF]
    ensures HexPairs(bytes) == ["0a", "ff"]
  {
    var pairs := HexPairs(bytes);
    HexPairsAt(bytes);
    assert pairs[0] == ByteToHex(0x0A) && pairs[1] == ByteToHex(0xFF);
    PairOfNewline();
    PairOfMaxByte();
  }

  /** The pairs of the worked example, joined. */
  lemma ExampleJoined(parts: seq<string>)
    requires parts == ["0a", "ff"]
    ensures Join(parts, " ") == "0a ff"
  {
    assert parts[1..] == ["ff"];
    assert Join(parts, " ") == "0a" + " " + "ff";
  }

  /** The worked example: [0x0A, 0xFF] renders as "0a ff". */
  lemma RenderHexExample(bytes: seq<byte>)
    requires bytes == [0x0A, 0xFF]
    ensures RenderHex(bytes) == "0a ff"
  {
    ExamplePairs(bytes);
    ExampleJoined(HexPairs(bytes));
  }
}
