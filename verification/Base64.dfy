/**
 Base 64 in its URL form (backend/cmn/base64url.go) over the standard encoding
 of section 4 of RFC 4648: what is encoded decodes to itself.
 */
module Base64 {
  import opened Wrappers
  import opened Bytes

  type Sextet = x: int | 0 <= x < 64

  // ----- the standard encoding -----

  function Symbol(v: Sextet): (c: char)
    ensures IsSymbol(c)
  {
    if v < 26 then (v + 'A' as int) as char
    else if v < 52 then (v - 26 + 'a' as int) as char
    else if v < 62 then (v - 52 + '0' as int) as char
    else if v == 62 then '+' else '/'
  }

  predicate IsSymbol(c: char) {
    'A' <= c <= 'Z' || 'a' <= c <= 'z' || '0' <= c <= '9' || c == '+' || c == '/'
  }

  function Value(c: char): (v: Sextet)
    requires IsSymbol(c)
  {
    if 'A' <= c <= 'Z' then c as int - 'A' as int
    else if 'a' <= c <= 'z' then c as int - 'a' as int + 26
    else if '0' <= c <= '9' then c as int - '0' as int + 52
    else if c == '+' then 62 else 63
  }

  lemma SymbolValue(v: Sextet)
    ensures Value(Symbol(v)) == v
  {
  }

  /** The four symbols of three bytes. */
  function Four(x: byte, y: byte, z: byte): (s: string)
    ensures |s| == 4 && forall c <- s :: IsSymbol(c)
  {
    var (x, y, z) := (x as int, y as int, z as int);
    [Symbol(x / 4), Symbol(x % 4 * 16 + y / 16), Symbol(y % 16 * 4 + z / 64), Symbol(z % 64)]
  }

  lemma GroupDigits(i: int, j: int, k: int, v: int)
    requires 0 <= i < 256 && 0 <= j < 256 && 0 <= k < 256 && v == 65536 * i + 256 * j + k
    ensures v / 262144 == i / 4 && v / 4096 % 64 == i % 4 * 16 + j / 16
    ensures v / 64 % 64 == j % 16 * 4 + k / 64 && v % 64 == k % 64
  {
    var (p, q, r, t) := (i / 4, i % 4 * 16 + j / 16, j % 16 * 4 + k / 64, k % 64);
    assert v == 64 * (64 * (64 * p + q) + r) + t;
    assert v / 64 == 64 * (64 * p + q) + r;
    assert v / 4096 == 64 * p + q;
  }

  /** Three bytes are the digits of one number to the base 64, the highest first. */
  lemma GroupSymbols(x: byte, y: byte, z: byte, v: int)
    requires v == 65536 * (x as int) + 256 * (y as int) + z as int
    ensures 0 <= v / 262144 < 64
    ensures Four(x, y, z) == [Symbol(v / 262144), Symbol(v / 4096 % 64), Symbol(v / 64 % 64), Symbol(v % 64)]
  {
    GroupDigits(x as int, y as int, z as int, v);
  }

  /** The symbols of the encoding, without padding. */
  function Body(b: seq<byte>): (s: string)
    ensures forall c <- s :: IsSymbol(c)
  {
    if |b| == 0 then ""
    else if |b| == 1 then Four(b[0], 0, 0)[..2]
    else if |b| == 2 then Four(b[0], b[1], 0)[..3]
    else Four(b[0], b[1], b[2]) + Body(b[3..])
  }

  /** The padding behind a body of `n` symbols, as `B64UDecode` restores it. */
  function Padding(n: nat): string {
    if n % 4 == 2 then "==" else if n % 4 == 3 then "=" else ""
  }

  /** `base64.StdEncoding.EncodeToString`. */
  function EncodeStd(b: seq<byte>): string {
    Body(b) + Padding(|Body(b)|)
  }

  /** One group of four characters; padding stands only in the last one, unused bits are ignored. */
  function Quad(a: char, b: char, c: char, d: char, last: bool): Option<seq<byte>> {
    if !IsSymbol(a) || !IsSymbol(b) then None
    else
      var p, q := Value(a), Value(b);
      var x := (p * 4 + q / 16) as byte;
      if c == '=' then
        if last && d == '=' then Some([x]) else None
      else if !IsSymbol(c) then None
      else
        var r := Value(c);
        var y := (q % 16 * 16 + r / 4) as byte;
        if d == '=' then
          if last then Some([x, y]) else None
        else if !IsSymbol(d) then None
        else Some([x, y, (r % 4 * 64 + Value(d)) as byte])
  }

  /** `base64.StdEncoding.DecodeString`. */
  function DecodeStd(s: string): Option<seq<byte>> {
    if s == "" then Some([])
    else if |s| < 4 then None
    else
      match Quad(s[0], s[1], s[2], s[3], |s| == 4)
      case None => None
      case Some(group) =>
        match DecodeStd(s[4..])
        case None => None
        case Some(rest) => Some(group + rest)
  }

  lemma Sextets(x: int, y: int, z: int)
    requires 0 <= x < 256 && 0 <= y < 256 && 0 <= z < 256
    ensures var p, q, r, t := x / 4, x % 4 * 16 + y / 16, y % 16 * 4 + z / 64, z % 64;
            && 0 <= p < 64 && 0 <= q < 64 && 0 <= r < 64 && 0 <= t < 64
            && p * 4 + q / 16 == x && q % 16 * 16 + r / 4 == y && r % 4 * 64 + t == z
  {
  }

  /** Four symbols, or the first of them with padding, read as the bytes they were made of. */
  lemma QuadOfFour(x: byte, y: byte, z: byte, last: bool)
    ensures var s := Four(x, y, z);
            && Quad(s[0], s[1], s[2], s[3], last) == Some([x, y, z])
            && Quad(s[0], s[1], s[2], '=', true) == Some([x, y])
            && Quad(s[0], s[1], '=', '=', true) == Some([x])
  {
    var (i, j, k) := (x as int, y as int, z as int);
    Sextets(i, j, k);
    SymbolValue(i / 4);
    SymbolValue(i % 4 * 16 + j / 16);
    SymbolValue(j % 16 * 4 + k / 64);
    SymbolValue(k % 64);
  }

  lemma PaddingPeriod(n: nat)
    ensures Padding(n + 4) == Padding(n)
  {
  }

  lemma EncodeRest(b: seq<byte>)
    requires |b| >= 3
    ensures EncodeStd(b) == Four(b[0], b[1], b[2]) + EncodeStd(b[3..])
  {
    PaddingPeriod(|Body(b[3..])|);
  }

  lemma EncodeTail(b: seq<byte>)
    requires 1 <= |b| <= 2
    ensures EncodeStd(b) == if |b| == 1 then Four(b[0], 0, 0)[..2] + "==" else Four(b[0], b[1], 0)[..3] + "="
  {
  }

  lemma DecodeJoin(g: string, t: string, x: seq<byte>, rest: seq<byte>)
    requires |g| == 4 && Quad(g[0], g[1], g[2], g[3], t == "") == Some(x) && DecodeStd(t) == Some(rest)
    ensures DecodeStd(g + t) == Some(x + rest)
  {
    assert (g + t)[4..] == t;
  }

  lemma DecodeLast(g: string, x: seq<byte>)
    requires |g| == 4 && Quad(g[0], g[1], g[2], g[3], true) == Some(x)
    ensures DecodeStd(g) == Some(x)
  {
    DecodeJoin(g, "", x, []);
    assert g + "" == g && x + [] == x;
  }

  lemma TakeThree<T>(b: seq<T>)
    requires |b| >= 3
    ensures b == [b[0], b[1], b[2]] + b[3..]
  {
  }

  lemma {:induction false} DecodeEncode(b: seq<byte>)
    ensures DecodeStd(EncodeStd(b)) == Some(b)
    decreases |b|
  {
    if |b| == 1 {
      QuadOfFour(b[0], 0, 0, true);
      EncodeTail(b);
      assert b == [b[0]];
      DecodeLast(EncodeStd(b), b);
    } else if |b| == 2 {
      QuadOfFour(b[0], b[1], 0, true);
      EncodeTail(b);
      assert b == [b[0], b[1]];
      DecodeLast(EncodeStd(b), b);
    } else if |b| >= 3 {
      var t := b[3..];
      DecodeEncode(t);
      QuadOfFour(b[0], b[1], b[2], EncodeStd(t) == "");
      DecodeJoin(Four(b[0], b[1], b[2]), EncodeStd(t), [b[0], b[1], b[2]], t);
      EncodeRest(b);
      TakeThree(b);
    }
  }

  // ----- the URL form -----

  /** `strings.Replace` of one character by another, everywhere. */
  function Swap(s: string, c: char, d: char): (r: string)
    ensures |r| == |s|
    ensures forall i :: 0 <= i < |s| ==> r[i] == if s[i] == c then d else s[i]
  {
    seq(|s|, i requires 0 <= i < |s| => if s[i] == c then d else s[i])
  }

  /** `strings.Replace` of a character by nothing. */
  function Drop(s: string, c: char): string {
    if s == "" then "" else (if s[0] == c then "" else [s[0]]) + Drop(s[1..], c)
  }

  function UrlEncode(b: seq<byte>): string {
    Drop(Swap(Swap(EncodeStd(b), '+', '-'), '/', '_'), '=')
  }

  function UrlDecode(s: string): Option<seq<byte>> {
    var t := Swap(Swap(s, '-', '+'), '_', '/');
    DecodeStd(t + Padding(|t|))
  }

  lemma {:induction false} DropEnd(s: string, p: string, c: char)
    requires c !in s && forall d <- p :: d == c
    ensures Drop(s + p, c) == s
    decreases |s| + |p|
  {
    var t := s + p;
    if s != "" {
      assert t[1..] == s[1..] + p;
      DropEnd(s[1..], p, c);
    } else if p != "" {
      assert t == p && p[0] in p && forall d <- p[1..] :: d in p;
      DropEnd(s, p[1..], c);
      assert s + p[1..] == t[1..];
    }
  }

  /** Every byte string survives the URL encoding, which uses none of the characters '+', '/' and '='. */
  lemma UrlRoundTrip(b: seq<byte>)
    ensures UrlDecode(UrlEncode(b)) == Some(b)
    ensures forall c <- UrlEncode(b) :: c != '+' && c != '/' && c != '='
  {
    var s, p := Body(b), Padding(|Body(b)|);
    var u := Swap(Swap(s, '+', '-'), '/', '_');
    assert Swap(Swap(s + p, '+', '-'), '/', '_') == u + p;
    forall i | 0 <= i < |s| ensures IsSymbol(s[i]) {
      assert s[i] in s;
    }
    DropEnd(u, p, '=');
    assert Swap(Swap(u, '-', '+'), '_', '/') == s;
    DecodeEncode(b);
  }
}
