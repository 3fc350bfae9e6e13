/**
 Trade numbers that carry an order id (backend/cmn/utilities.go): random part,
 hexadecimal text of the id, and the way back.
 */
module TradeNo {
  import opened Wrappers
  import opened Bytes
  import opened Base64

  datatype Error = TooShort | BadNumber | BadLength | OutOfRange | BadEncoding

  const MIN_INT64 := -0x8000_0000_0000_0000
  const MAX_INT64 := 0x7fff_ffff_ffff_ffff

  // ----- hexadecimal numbers -----

  function HexDigit(d: int): (c: char)
    requires 0 <= d < 16
    ensures HexValue(c) == Some(d)
  {
    if d < 10 then (d + '0' as int) as char else (d - 10 + 'a' as int) as char
  }

  function HexValue(c: char): Option<int> {
    if '0' <= c <= '9' then Some(c as int - '0' as int)
    else if 'a' <= c <= 'f' then Some(c as int - 'a' as int + 10)
    else if 'A' <= c <= 'F' then Some(c as int - 'A' as int + 10)
    else None
  }

  function Hex(n: nat): (s: string)
    ensures |s| > 0
  {
    (if n < 16 then "" else Hex(n / 16)) + [HexDigit(n % 16)]
  }

  /** The verb `%x`. */
  function HexText(id: int): (s: string)
    ensures |s| > 0
  {
    if id < 0 then "-" + Hex(-id) else Hex(id)
  }

  function ParseDigits(s: string): Option<int> {
    if s == "" then Some(0)
    else
      var n := |s| - 1;
      match (ParseDigits(s[..n]), HexValue(s[n]))
      case (Some(v), Some(d)) => Some(16 * v + d)
      case _ => None
  }

  /** `strconv.ParseInt` in base 16, for the range `lo..hi` of the bit size. */
  function ParseHex(s: string, lo: int, hi: int): Option<int> {
    if s == "" || s == "+" || s == "-" then None
    else
      match ParseDigits(if s[0] == '+' || s[0] == '-' then s[1..] else s)
      case None => None
      case Some(v) =>
        var w := if s[0] == '-' then 0 - v else v;
        if lo <= w <= hi then Some(w) else None
  }

  lemma ParseSnoc(s: string, v: int, d: int)
    requires ParseDigits(s) == Some(v) && 0 <= d < 16
    ensures ParseDigits(s + [HexDigit(d)]) == Some(16 * v + d)
  {
    assert (s + [HexDigit(d)])[..|s|] == s;
  }

  lemma {:induction false} ParseDigitsHex(n: nat)
    ensures ParseDigits(Hex(n)) == Some(n)
  {
    if n < 16 {
      ParseSnoc("", 0, n);
    } else {
      ParseDigitsHex(n / 16);
      ParseSnoc(Hex(n / 16), n / 16, n % 16);
    }
  }

  lemma {:induction false} HexChars(n: nat)
    ensures forall c <- Hex(n) :: HexValue(c).Some? && c as int < 128
  {
    if n >= 16 {
      HexChars(n / 16);
    }
  }

  lemma ParseHexNat(n: nat, lo: int, hi: int)
    requires lo <= n <= hi
    ensures ParseHex(Hex(n), lo, hi) == Some(n)
  {
    ParseDigitsHex(n);
    HexChars(n);
    assert Hex(n)[0] in Hex(n);
  }

  lemma ParseMinus(s: string, v: int, lo: int, hi: int)
    requires s != "" && ParseDigits(s) == Some(v) && lo <= -v <= hi
    ensures ParseHex("-" + s, lo, hi) == Some(-v)
  {
    assert ("-" + s)[1..] == s;
  }

  lemma ParseHexText(id: int, lo: int, hi: int)
    requires lo <= id <= hi
    ensures ParseHex(HexText(id), lo, hi) == Some(id)
  {
    if id < 0 {
      ParseDigitsHex(-id);
      ParseMinus(Hex(-id), -id, lo, hi);
    } else {
      ParseHexNat(id, lo, hi);
    }
  }

  function Pow16(k: nat): (p: nat)
    ensures p > 0
  {
    if k == 0 then 1 else 16 * Pow16(k - 1)
  }

  lemma {:induction false} HexLength(n: nat, k: nat)
    requires k > 0
    ensures |Hex(n)| <= k <==> n < Pow16(k)
    decreases k
  {
    if n >= 16 && k > 1 {
      HexLength(n / 16, k - 1);
    }
  }

  // ----- trade numbers -----

  function ToBytes(s: string): (b: seq<byte>)
    requires forall c <- s :: c as int < 256
    ensures |b| == |s|
  {
    seq(|s|, i requires 0 <= i < |s| => assert s[i] in s; s[i] as int as byte)
  }

  function FromBytes(b: seq<byte>): (s: string)
    ensures |s| == |b|
  {
    seq(|b|, i requires 0 <= i < |b| => b[i] as int as char)
  }

  /** The encoded id: base 64 with '_', '-' and '*' in place of '+', '/' and '='. */
  function EncodedId(id: int): string {
    var h := HexText(id);
    HexTextChars(id);
    Swap(Swap(Swap(EncodeStd(ToBytes(h)), '+', '_'), '/', '-'), '=', '*')
  }

  /** `tradeNoNonce`: letters drawn at random, none for a length that is not positive. */
  method TradeNoNonce(length: int) returns (s: string)
    ensures |s| == if length > 0 then length else 0
    ensures forall c <- s :: c in LETTERS
  {
    if length <= 0 {
      return "";
    }
    var b := new char[length](_ => ' ');
    for i := 0 to length
      invariant forall j :: 0 <= j < i ==> b[j] in LETTERS
    {
      var k :| 0 <= k < |LETTERS|;
      b[i] := LETTERS[k];
    }
    s := b[..];
  }

  const LETTERS := "1234567890-abcdefghijklmnopqrstuvwxyz_ABCDEFGHIJKLMNOPQRSTUVWXYZ|*"

  /** The verb `%02x`. */
  function TwoHex(n: nat): string {
    if n < 16 then "0" + Hex(n) else Hex(n)
  }

  /** `tradeNoWithID`, with the random characters as an argument. */
  function WithId(id: int, nonce: string): string {
    var x := EncodedId(id);
    TwoHex(|x|) + x + nonce
  }

  /** The id behind its encoding. */
  function DecodeId(x: string): Result<int, Error> {
    match DecodeStd(Swap(Swap(Swap(x, '_', '+'), '-', '/'), '*', '='))
    case None => Failure(BadEncoding)
    case Some(b) =>
      match ParseHex(FromBytes(b), MIN_INT64, MAX_INT64)
      case None => Failure(BadNumber)
      case Some(id) => Success(id)
  }

  /** `idFromTradeNo`. */
  function IdOf(tradeNo: string): Result<int, Error> {
    if |tradeNo| < 2 then Failure(TooShort)
    else
      match ParseHex(tradeNo[..2], -128, 127)
      case None => Failure(BadNumber)
      case Some(n) =>
        if n <= 0 || n > 20 then Failure(BadLength)
        else if n + 2 > |tradeNo| then Failure(OutOfRange)
        else DecodeId(tradeNo[2..n + 2])
  }

  lemma HexTextChars(id: int)
    ensures forall c <- HexText(id) :: c as int < 128
  {
    HexChars(if id < 0 then 0 - id else id);
  }

  lemma TailLength(b: seq<byte>)
    requires 1 <= |b| <= 2
    ensures |EncodeStd(b)| == 4
  {
    EncodeTail(b);
  }

  lemma {:induction false} EncodeLength(b: seq<byte>)
    ensures |EncodeStd(b)| == (|b| + 2) / 3 * 4
    decreases |b|
  {
    if |b| >= 3 {
      EncodeLength(b[3..]);
      EncodeRest(b);
      assert (|b| + 2) / 3 == (|b| - 3 + 2) / 3 + 1;
    } else if |b| > 0 {
      TailLength(b);
    }
  }

  lemma {:induction false} EncodeChars(b: seq<byte>)
    ensures forall i :: 0 <= i < |EncodeStd(b)| ==> IsSymbol(EncodeStd(b)[i]) || EncodeStd(b)[i] == '='
  {
    var s, p := Body(b), Padding(|Body(b)|);
    forall i | 0 <= i < |s + p| ensures IsSymbol((s + p)[i]) || (s + p)[i] == '=' {
      assert i < |s| ==> s[i] in s;
    }
  }

  lemma SwapBack(s: string)
    requires forall i :: 0 <= i < |s| ==> IsSymbol(s[i]) || s[i] == '='
    ensures var x := Swap(Swap(Swap(s, '+', '_'), '/', '-'), '=', '*');
            Swap(Swap(Swap(x, '_', '+'), '-', '/'), '*', '=') == s
  {
  }

  lemma ZeroHexParse(n: nat)
    requires n < 16
    ensures |TwoHex(n)| == 2 && ParseHex(TwoHex(n), -128, 127) == Some(n)
  {
    ParseSnoc("", 0, 0);
    ParseSnoc("0", 0, n);
    assert "" + [HexDigit(0)] == "0";
    assert TwoHex(n) == "0" + [HexDigit(n)];
  }

  lemma TwoHexParse(n: nat)
    requires n < 128
    ensures |TwoHex(n)| == 2 && ParseHex(TwoHex(n), -128, 127) == Some(n)
  {
    if n < 16 {
      ZeroHexParse(n);
    } else {
      assert Hex(n) == Hex(n / 16) + [HexDigit(n % 16)] && |Hex(n / 16)| == 1;
      ParseHexNat(n, -128, 127);
    }
  }

  /** The length of the encoded id, and how it is undone. */
  lemma EncodedIdBack(id: int)
    requires MIN_INT64 <= id <= MAX_INT64
    ensures |EncodedId(id)| == (|HexText(id)| + 2) / 3 * 4
    ensures DecodeId(EncodedId(id)) == Success(id)
  {
    var h := HexText(id);
    HexTextChars(id);
    var b := ToBytes(h);
    EncodeLength(b);
    EncodeChars(b);
    SwapBack(EncodeStd(b));
    DecodeEncode(b);
    assert FromBytes(b) == h;
    ParseHexText(id, MIN_INT64, MAX_INT64);
  }

  lemma Powers()
    ensures Pow16(14) == 0x100_0000_0000_0000 && Pow16(15) == 0x1000_0000_0000_0000
    ensures Pow16(16) == 0x1_0000_0000_0000_0000
  {
    assert Pow16(8) == 0x1_0000_0000;
  }

  lemma HexFits(n: nat)
    ensures |Hex(n)| <= 14 <==> n < 0x100_0000_0000_0000
    ensures |Hex(n)| <= 15 <==> n < 0x1000_0000_0000_0000
    ensures n < 0x1_0000_0000_0000_0000 ==> |Hex(n)| <= 16
  {
    Powers();
    HexLength(n, 14);
    HexLength(n, 15);
    HexLength(n, 16);
  }

  lemma IdLength(id: int)
    requires MIN_INT64 <= id <= MAX_INT64
    ensures |HexText(id)| <= 17
    ensures |HexText(id)| <= 15 <==> -0x100_0000_0000_0000 < id < 0x1000_0000_0000_0000
  {
    if id < 0 {
      HexFits(-id);
    } else {
      HexFits(id);
    }
  }

  /** A two-digit length, a field of that length and anything after it. */
  lemma IdOfFields(a: string, x: string, nonce: string)
    requires |a| == 2 && ParseHex(a, -128, 127) == Some(|x|) && x != ""
    ensures IdOf(a + x + nonce) == if |x| <= 20 then DecodeId(x) else Failure(BadLength)
  {
    var t := a + x + nonce;
    assert t[..2] == a && t[2..|x| + 2] == x;
  }

  lemma FieldLength(n: nat)
    requires 1 <= n <= 17
    ensures var m := (n + 2) / 3 * 4; 4 <= m <= 24 && (m <= 20 <==> n <= 15)
  {
  }

  /**
   The id comes back, whatever the nonce, exactly when its hexadecimal text has
   at most fifteen characters; otherwise the number is refused.
   */
  lemma IdRoundTrip(id: int, nonce: string)
    requires MIN_INT64 <= id <= MAX_INT64
    requires var n := 30 - |EncodedId(id)|; |nonce| == if n > 0 then n else 0
    ensures |WithId(id, nonce)| == 32
    ensures IdOf(WithId(id, nonce)) == if -0x100_0000_0000_0000 < id < 0x1000_0000_0000_0000 then Success(id)
                                       else Failure(BadLength)
  {
    var x := EncodedId(id);
    IdLength(id);
    EncodedIdBack(id);
    FieldLength(|HexText(id)|);
    TwoHexParse(|x|);
    IdOfFields(TwoHex(|x|), x, nonce);
  }
}
