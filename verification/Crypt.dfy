/**
 Encryption of a package in chunks (backend/excelize/crypt.go), for any cipher
 that can be undone chunk by chunk.
 */
module Crypt {
  import opened Wrappers
  import opened Bytes

  const BLOCK := 16
  const CHUNK := 4096
  const OFFSET := 8

  /** `enc` and `dec` take the number of the chunk, from which its initialization vector is made. */
  datatype Cipher = Cipher(enc: (nat, seq<byte>) -> seq<byte>, dec: (nat, seq<byte>) -> seq<byte>) {

    /** On whole blocks both directions keep the length. */
    ghost predicate Sized() {
      forall i, x | |x| % BLOCK == 0 :: |enc(i, x)| == |x| && |dec(i, x)| == |x|
    }

    /** On whole blocks both directions keep the length and undo each other. */
    ghost predicate Invertible() {
      Sized() && forall i, x | |x| % BLOCK == 0 :: dec(i, enc(i, x)) == x && enc(i, dec(i, x)) == x
    }
  }

  function Zeros(n: nat): (z: seq<byte>)
    ensures |z| == n && forall b <- z :: b == 0
  {
    seq(n, _ => 0)
  }

  function Padded(x: seq<byte>): (p: seq<byte>)
    ensures |p| % BLOCK == 0 && |x| <= |p| < |x| + BLOCK && x <= p
    ensures forall k :: |x| <= k < |p| ==> p[k] == 0
  {
    x + Zeros((BLOCK - |x| % BLOCK) % BLOCK)
  }

  /** `createUInt32LEBuffer`: the value modulo 2^32 in the first four bytes. */
  function UInt32LE(value: nat, size: nat): (r: seq<byte>)
    requires size >= 4
    ensures |r| == size && forall k :: 4 <= k < size ==> r[k] == 0
    ensures r[0] as int + 256 * r[1] as int + 65536 * r[2] as int + 16777216 * r[3] as int == value % 0x1_0000_0000
  {
    var v := value % 0x1_0000_0000;
    var v1 := v / 256;
    var v2 := v1 / 256;
    var v3 := v2 / 256;
    [(v % 256) as byte, (v1 % 256) as byte, (v2 % 256) as byte, v3 as byte] + Zeros(size - 4)
  }

  // ----- the loop -----

  function Transform(c: Cipher, encrypt: bool, i: nat, chunk: seq<byte>): seq<byte> {
    if encrypt then c.enc(i, Padded(chunk)) else c.dec(i, Padded(chunk))
  }

  lemma TransformSize(c: Cipher, encrypt: bool, i: nat, chunk: seq<byte>)
    requires c.Sized()
    ensures |Transform(c, encrypt, i, chunk)| == |Padded(chunk)|
  {
  }

  /** Where the chunks begin in the input: decryption leaves out the header. */
  function Skip(encrypt: bool): nat {
    if encrypt then 0 else OFFSET
  }

  /** What is left to decrypt is never shorter than the header; otherwise slicing panics. */
  ghost predicate Sliceable(encrypt: bool, n: nat) {
    encrypt || n == 0 || (n >= OFFSET && (n > CHUNK ==> Sliceable(encrypt, n - CHUNK)))
  }

  /** Does the loop end, or slicing panic, with `n` bytes left? */
  predicate Over(encrypt: bool, n: nat) {
    n == 0 || n < Skip(encrypt)
  }

  /** What is read in one turn, of the `n` bytes that are left: up to this index. */
  function ReadTo(encrypt: bool, n: nat): nat {
    var end := if CHUNK > n then n else CHUNK;
    if end + Skip(encrypt) < n then end + Skip(encrypt) else end
  }

  function Next(n: nat): nat {
    if CHUNK > n then n else CHUNK
  }

  /** The output of the loop on what is left of the input, at chunk `i`. */
  ghost function Loop(c: Cipher, encrypt: bool, rest: seq<byte>, i: nat): seq<byte>
    decreases |rest|
  {
    if Over(encrypt, |rest|) then []
    else
      Transform(c, encrypt, i, rest[Skip(encrypt)..ReadTo(encrypt, |rest|)])
      + Loop(c, encrypt, rest[Next(|rest|)..], i + 1)
  }

  /** `data` put into the buffer at `at`, if there is room for it: `append` and the cipher then work in place, otherwise
      on a copy. */
  function Put(buffer: seq<byte>, at: nat, data: seq<byte>): (r: seq<byte>)
    ensures |r| == |buffer|
  {
    if at + |data| <= |buffer| then buffer[..at] + data + buffer[at + |data|..] else buffer
  }

  /** The buffer, whose first `n` bytes are the input, at the end of the loop that has come to `start`. */
  ghost function Overwritten(c: Cipher, encrypt: bool, buffer: seq<byte>, n: nat, start: nat, i: nat): seq<byte>
    requires start <= n <= |buffer|
    decreases n - start
  {
    if Over(encrypt, n - start) then buffer
    else
      var lo, hi := start + Skip(encrypt), start + ReadTo(encrypt, n - start);
      Overwritten(c, encrypt, Put(buffer, lo, Transform(c, encrypt, i, buffer[lo..hi])), n, start + Next(n - start), i + 1)
  }

  /** The turn at `start` reads the bytes `lo` to `hi` and goes on at `end`. */
  predicate IsTurn(encrypt: bool, n: nat, start: nat, lo: nat, hi: nat, end: nat) {
    && start <= n && !Over(encrypt, n - start)
    && lo == start + Skip(encrypt) && hi == start + ReadTo(encrypt, n - start) && end == start + Next(n - start)
  }

  lemma TurnBounds(encrypt: bool, n: nat, start: nat, lo: nat, hi: nat, end: nat)
    requires IsTurn(encrypt, n, start, lo, hi, end)
    ensures start <= lo <= hi <= n && start < end <= n && hi <= lo + CHUNK
    ensures end + Skip(encrypt) < n ==> hi == lo + CHUNK == end + Skip(encrypt)
    ensures end + Skip(encrypt) == n && hi < n ==> lo + CHUNK == n
  {
  }

  /** The loop reads nothing of the bytes it skips. */
  lemma {:induction false} SkippedUnread(c: Cipher, encrypt: bool, a: seq<byte>, b: seq<byte>, i: nat)
    requires |a| == |b| && (Skip(encrypt) <= |a| ==> a[Skip(encrypt)..] == b[Skip(encrypt)..])
    ensures Loop(c, encrypt, a, i) == Loop(c, encrypt, b, i)
    decreases |a|
  {
    if !Over(encrypt, |a|) {
      var k, h, e := Skip(encrypt), ReadTo(encrypt, |a|), Next(|a|);
      assert a[k..][..h - k] == a[k..h] && b[k..][..h - k] == b[k..h];
      if e + k <= |a| {
        assert a[e..][k..] == a[k..][e..] && b[e..][k..] == b[k..][e..];
      }
      SkippedUnread(c, encrypt, a[e..], b[e..], i + 1);
    }
  }

  lemma PutBehind(buffer: seq<byte>, at: nat, data: seq<byte>, end: nat, k: nat, n: nat)
    requires at + |data| <= end + k <= n <= |buffer|
    ensures Put(buffer, at, data)[end..n][k..] == buffer[end..n][k..]
  {
    assert Put(buffer, at, data)[end..n][k..] == Put(buffer, at, data)[end + k..n];
    assert buffer[end..n][k..] == buffer[end + k..n];
  }

  /** What a turn writes is not read again. */
  lemma WrittenUnread(c: Cipher, encrypt: bool, buffer: seq<byte>, n: nat, start: nat, i: nat, lo: nat, hi: nat, end: nat,
                      data: seq<byte>)
    requires n <= |buffer| && IsTurn(encrypt, n, start, lo, hi, end) && |data| == |Padded(buffer[lo..hi])|
    ensures Loop(c, encrypt, Put(buffer, lo, data)[end..n], i) == Loop(c, encrypt, buffer[end..n], i)
  {
    TurnBounds(encrypt, n, start, lo, hi, end);
    var k, after := Skip(encrypt), Put(buffer, lo, data);
    if end == n {
      assert after[n..n] == buffer[n..n];
    } else {
      if end + k <= n {
        PutBehind(buffer, lo, data, end, k, n);
      }
      SkippedUnread(c, encrypt, after[end..n], buffer[end..n], i);
    }
  }

  // ----- the loop as written -----

  /** The bytes `lo` to `hi` of the buffer become whole blocks, in place. */
  method CryptBlocks(c: Cipher, encrypt: bool, i: nat, buffer: array<byte>, lo: nat, hi: nat)
    requires c.Sized() && lo <= hi <= buffer.Length && (hi - lo) % BLOCK == 0
    modifies buffer
    ensures var x := old(buffer[lo..hi]);
            buffer[..] == old(buffer[..lo]) + (if encrypt then c.enc(i, x) else c.dec(i, x)) + old(buffer[hi..])
  {
    var x := buffer[lo..hi];
    var y := if encrypt then c.enc(i, x) else c.dec(i, x);
    forall k | 0 <= k < hi - lo {
      buffer[lo + k] := y[k];
    }
  }

  /** `append` within the capacity. */
  method AppendZeros(buffer: array<byte>, hi: nat, count: nat)
    requires hi + count <= buffer.Length
    modifies buffer
    ensures buffer[..] == old(buffer[..hi]) + Zeros(count) + old(buffer[hi + count..])
  {
    forall k | 0 <= k < count {
      buffer[hi + k] := 0;
    }
  }

  lemma PadThenCrypt(before: seq<byte>, lo: nat, hi: nat, count: nat, data: seq<byte>)
    requires lo <= hi && hi + count <= |before| && |data| == hi + count - lo
    ensures var padded := before[..hi] + Zeros(count) + before[hi + count..];
            && padded[lo..hi + count] == before[lo..hi] + Zeros(count)
            && padded[..lo] + data + padded[hi + count..] == Put(before, lo, data)
  {
  }

  /** One turn: the chunk is padded and transformed, within the buffer if its capacity allows. */
  method CryptChunk(c: Cipher, encrypt: bool, i: nat, buffer: array<byte>, lo: nat, hi: nat) returns (data: seq<byte>)
    requires c.Sized() && lo <= hi <= buffer.Length
    modifies buffer
    ensures data == Transform(c, encrypt, i, old(buffer[lo..hi]))
    ensures buffer[..] == Put(old(buffer[..]), lo, data)
  {
    var chunk := buffer[lo..hi];
    var count := (BLOCK - |chunk| % BLOCK) % BLOCK;
    TransformSize(c, encrypt, i, chunk);
    if hi + count <= buffer.Length {
      PadThenCrypt(buffer[..], lo, hi, count, Transform(c, encrypt, i, chunk));
      AppendZeros(buffer, hi, count);
      CryptBlocks(c, encrypt, i, buffer, lo, hi + count);
      data := buffer[lo..hi + count];
    } else {
      chunk := chunk + Zeros(count);
      data := if encrypt then c.enc(i, chunk) else c.dec(i, chunk);
    }
  }

  /** `output` is what the loop has put out when it has come to `start`. */
  ghost predicate Sent(c: Cipher, encrypt: bool, first: seq<byte>, n: nat, buffer: seq<byte>, output: seq<byte>, start: nat, i: nat)
    requires start <= n <= |buffer| == |first|
  {
    Loop(c, encrypt, first[..n], 0) == output + Loop(c, encrypt, buffer[start..n], i)
  }

  /** The buffer will be what it is to become. */
  ghost predicate Becomes(c: Cipher, encrypt: bool, first: seq<byte>, n: nat, buffer: seq<byte>, start: nat, i: nat)
    requires start <= n <= |buffer| == |first|
  {
    Overwritten(c, encrypt, first, n, 0, 0) == Overwritten(c, encrypt, buffer, n, start, i)
  }

  /** The loop has come to `start`, with `output` so far and the buffer as it is now. */
  ghost predicate Progress(c: Cipher, encrypt: bool, first: seq<byte>, n: nat, buffer: seq<byte>, output: seq<byte>, start: nat,
                           i: nat) {
    && start <= n <= |buffer| == |first| && (Sliceable(encrypt, n) <==> Sliceable(encrypt, n - start))
    && Sent(c, encrypt, first, n, buffer, output, start, i) && Becomes(c, encrypt, first, n, buffer, start, i)
  }

  lemma Window(buffer: seq<byte>, n: nat, start: nat, lo: nat, hi: nat, end: nat)
    requires start <= lo <= hi <= n <= |buffer| && start <= end <= n
    ensures buffer[start..n][lo - start..hi - start] == buffer[lo..hi] && buffer[start..n][end - start..] == buffer[end..n]
  {
    assert forall k | 0 <= k < n - start :: buffer[start..n][k] == buffer[start + k];
  }

  lemma LoopStep(c: Cipher, encrypt: bool, buffer: seq<byte>, n: nat, start: nat, i: nat, lo: nat, hi: nat, end: nat)
    requires n <= |buffer| && IsTurn(encrypt, n, start, lo, hi, end)
    ensures lo <= hi <= n && end <= n
    ensures Loop(c, encrypt, buffer[start..n], i) ==
            Transform(c, encrypt, i, buffer[lo..hi]) + Loop(c, encrypt, buffer[end..n], i + 1)
  {
    var rest := buffer[start..n];
    TurnBounds(encrypt, n, start, lo, hi, end);
    Window(buffer, n, start, lo, hi, end);
    assert Loop(c, encrypt, rest, i) ==
           Transform(c, encrypt, i, rest[lo - start..hi - start]) + Loop(c, encrypt, rest[end - start..], i + 1);
  }

  lemma OverwrittenStep(c: Cipher, encrypt: bool, buffer: seq<byte>, n: nat, start: nat, i: nat, lo: nat, hi: nat, end: nat)
    requires n <= |buffer| && IsTurn(encrypt, n, start, lo, hi, end)
    ensures lo <= hi <= n && end <= n
    ensures Overwritten(c, encrypt, buffer, n, start, i) ==
            Overwritten(c, encrypt, Put(buffer, lo, Transform(c, encrypt, i, buffer[lo..hi])), n, end, i + 1)
  {
    TurnBounds(encrypt, n, start, lo, hi, end);
  }

  lemma SliceStep(encrypt: bool, n: nat, start: nat, lo: nat, hi: nat, end: nat)
    requires IsTurn(encrypt, n, start, lo, hi, end)
    ensures end <= n && (Sliceable(encrypt, n - start) <==> Sliceable(encrypt, n - end))
  {
  }

  lemma Turn(c: Cipher, encrypt: bool, first: seq<byte>, n: nat, buffer: seq<byte>, output: seq<byte>, start: nat, i: nat,
             lo: nat, hi: nat, end: nat, data: seq<byte>)
    requires c.Sized() && Progress(c, encrypt, first, n, buffer, output, start, i)
    requires IsTurn(encrypt, n, start, lo, hi, end) && lo <= hi <= n
    requires data == Transform(c, encrypt, i, buffer[lo..hi])
    ensures Progress(c, encrypt, first, n, Put(buffer, lo, data), output + data, end, i + 1)
  {
    SentTurn(c, encrypt, first, n, buffer, output, start, i, lo, hi, end, data);
    BecomesTurn(c, encrypt, first, n, buffer, start, i, lo, hi, end, data);
    SliceStep(encrypt, n, start, lo, hi, end);
  }

  lemma SentTurn(c: Cipher, encrypt: bool, first: seq<byte>, n: nat, buffer: seq<byte>, output: seq<byte>, start: nat, i: nat,
                 lo: nat, hi: nat, end: nat, data: seq<byte>)
    requires c.Sized() && n <= |buffer| == |first| && IsTurn(encrypt, n, start, lo, hi, end) && lo <= hi <= n && end <= n
    requires data == Transform(c, encrypt, i, buffer[lo..hi])
    requires Sent(c, encrypt, first, n, buffer, output, start, i)
    ensures Sent(c, encrypt, first, n, Put(buffer, lo, data), output + data, end, i + 1)
  {
    TransformSize(c, encrypt, i, buffer[lo..hi]);
    WrittenUnread(c, encrypt, buffer, n, start, i + 1, lo, hi, end, data);
    LoopStep(c, encrypt, buffer, n, start, i, lo, hi, end);
    Regroup(output, data, Loop(c, encrypt, buffer[end..n], i + 1));
  }

  lemma BecomesTurn(c: Cipher, encrypt: bool, first: seq<byte>, n: nat, buffer: seq<byte>, start: nat, i: nat,
                    lo: nat, hi: nat, end: nat, data: seq<byte>)
    requires n <= |buffer| == |first| && IsTurn(encrypt, n, start, lo, hi, end) && lo <= hi <= n && end <= n
    requires data == Transform(c, encrypt, i, buffer[lo..hi])
    requires Becomes(c, encrypt, first, n, buffer, start, i)
    ensures Becomes(c, encrypt, first, n, Put(buffer, lo, data), end, i + 1)
  {
    OverwrittenStep(c, encrypt, buffer, n, start, i, lo, hi, end);
  }

  lemma Regroup(a: seq<byte>, b: seq<byte>, d: seq<byte>)
    ensures a + (b + d) == a + b + d
  {
  }

  lemma Begun(c: Cipher, encrypt: bool, first: seq<byte>, n: nat)
    requires n <= |first|
    ensures Progress(c, encrypt, first, n, first, [], 0, 0)
  {
    assert first[0..n] == first[..n];
  }

  /** The part of the output that is written into the buffer: all of it if there is room, otherwise without the last
      chunk. */
  function Inside(output: seq<byte>, room: int): seq<byte> {
    if |output| <= room || output == [] then output else output[..CHUNK * ((|output| - 1) / CHUNK)]
  }

  /** `after` is the buffer with the output put in at `at`, except a last chunk for whose padding there is no room. */
  predicate Filled(buffer: seq<byte>, at: nat, output: seq<byte>, after: seq<byte>) {
    after == Put(buffer, at, Inside(output, |buffer| - at))
  }

  lemma TurnIs(encrypt: bool, n: nat, start: nat, lo: nat, hi: nat, end: nat)
    requires start < n && lo == start + Skip(encrypt) && end == if start + CHUNK > n then n else start + CHUNK
    requires hi == if end + Skip(encrypt) < n then end + Skip(encrypt) else end
    ensures start < end <= n
    ensures if lo > hi then Over(encrypt, n - start) else IsTurn(encrypt, n, start, lo, hi, end) && hi <= n
  {
  }

  /** At the end, or before slicing panics. */
  lemma Finished(c: Cipher, encrypt: bool, first: seq<byte>, n: nat, buffer: seq<byte>, output: seq<byte>, start: nat, i: nat)
    requires c.Sized() && Progress(c, encrypt, first, n, buffer, output, start, i) && Over(encrypt, n - start)
    ensures Loop(c, encrypt, first[..n], 0) == output && (Sliceable(encrypt, n) <==> start == n)
    ensures Filled(first, Skip(encrypt), output, buffer)
  {
    OverwrittenIs(c, encrypt, first, n, 0, 0);
    assert first[0..n] == first[..n];
    assert output + [] == output;
  }

  /** `cryptPackage` on the first `n` bytes of a buffer; without a result it panics. */
  method CryptPackage(c: Cipher, encrypt: bool, buffer: array<byte>, n: nat) returns (r: Option<seq<byte>>)
    requires c.Sized() && n <= buffer.Length
    modifies buffer
    ensures var output := Loop(c, encrypt, old(buffer[..n]), 0);
            && r == (if !Sliceable(encrypt, n) then None
                     else Some((if encrypt then UInt32LE(n, 8) else []) + output))
            && Filled(old(buffer[..]), Skip(encrypt), output, buffer[..])
  {
    var offset := Skip(encrypt);
    var i: nat, start: nat, end: nat := 0, 0, 0;
    var output: seq<byte> := [];
    ghost var first := buffer[..];
    Begun(c, encrypt, first, n);
    while end < n
      invariant buffer.Length == |first| && Progress(c, encrypt, first, n, buffer[..], output, end, i)
      decreases n - end
    {
      start := end;
      end := start + CHUNK;
      if end > n {
        end := n;
      }
      var hi := if end + offset < n then end + offset else end;
      TurnIs(encrypt, n, start, start + offset, hi, end);
      if start + offset > hi {
        Finished(c, encrypt, first, n, buffer[..], output, start, i);
        return None;
      }
      ghost var before := buffer[..];
      var data := CryptChunk(c, encrypt, i, buffer, start + offset, hi);
      Turn(c, encrypt, first, n, before, output, start, i, start + offset, hi, end, data);
      output := output + data;
      i := i + 1;
    }
    Finished(c, encrypt, first, n, buffer[..], output, end, i);
    if encrypt {
      output := UInt32LE(n, 8) + output;
    }
    r := Some(output);
  }

  // ----- what is left in the buffer -----

  lemma InsideBehind(data: seq<byte>, more: seq<byte>, room: int)
    requires |data| == CHUNK <= room
    ensures Inside(data + more, room) == data + Inside(more, room - CHUNK)
  {
    if |data + more| > room {
      assert (CHUNK + |more| - 1) / CHUNK == 1 + (|more| - 1) / CHUNK;
    }
  }

  lemma PutPut(buffer: seq<byte>, at: nat, a: seq<byte>, b: seq<byte>)
    requires at + |a| + |b| <= |buffer|
    ensures Put(Put(buffer, at, a), at + |a|, b) == Put(buffer, at, a + b)
  {
  }

  /** Nothing comes of a header without anything behind it. */
  lemma LoopShort(c: Cipher, encrypt: bool, rest: seq<byte>, i: nat)
    requires c.Sized() && |rest| <= Skip(encrypt)
    ensures Loop(c, encrypt, rest, i) == []
  {
    if !Over(encrypt, |rest|) {
      var chunk := rest[OFFSET..ReadTo(encrypt, |rest|)];
      assert chunk == [] && |Padded(chunk)| == 0;
      TransformSize(c, encrypt, i, chunk);
      assert rest[Next(|rest|)..] == [];
    }
  }

  lemma TurnSize(c: Cipher, encrypt: bool, buffer: seq<byte>, n: nat, start: nat, i: nat, lo: nat, hi: nat, end: nat)
    requires c.Sized() && n <= |buffer| && IsTurn(encrypt, n, start, lo, hi, end)
    ensures lo <= hi <= n && end <= n && |Transform(c, encrypt, i, buffer[lo..hi])| <= CHUNK
    ensures Loop(c, encrypt, buffer[end..n], i + 1) != [] ==>
              |Transform(c, encrypt, i, buffer[lo..hi])| == CHUNK && lo + CHUNK == end + Skip(encrypt)
  {
    TurnBounds(encrypt, n, start, lo, hi, end);
    TransformSize(c, encrypt, i, buffer[lo..hi]);
    if n - end <= Skip(encrypt) {
      LoopShort(c, encrypt, buffer[end..n], i + 1);
    }
  }

  lemma ChunkMore(n: nat)
    requires n > 0
    ensures CHUNK * ((CHUNK + n - 1) / CHUNK) == CHUNK + CHUNK * ((n - 1) / CHUNK)
  {
  }

  /** All chunks of the output but the last have their place inside the input. */
  lemma {:induction false} LoopWithin(c: Cipher, encrypt: bool, buffer: seq<byte>, n: nat, start: nat, i: nat)
    requires c.Sized() && start <= n <= |buffer|
    ensures var output := Loop(c, encrypt, buffer[start..n], i);
            output != [] ==> start + Skip(encrypt) + CHUNK * ((|output| - 1) / CHUNK) <= n
    decreases n - start
  {
    if !Over(encrypt, n - start) {
      var lo, hi, end := start + Skip(encrypt), start + ReadTo(encrypt, n - start), start + Next(n - start);
      LoopStep(c, encrypt, buffer, n, start, i, lo, hi, end);
      TurnSize(c, encrypt, buffer, n, start, i, lo, hi, end);
      LoopWithin(c, encrypt, buffer, n, end, i + 1);
      var more := Loop(c, encrypt, buffer[end..n], i + 1);
      if more != [] {
        ChunkMore(|more|);
      }
    }
  }

  /** `more` is put in at `next`, behind a whole chunk, and all of it but the last chunk has its place. */
  predicate Follows(size: nat, at: nat, data: seq<byte>, more: seq<byte>, next: nat) {
    && at <= size && |data| <= CHUNK
    && (more != [] ==> |data| == CHUNK && next == at + CHUNK && next + CHUNK * ((|more| - 1) / CHUNK) <= size)
  }

  lemma PutTurn(buffer: seq<byte>, at: nat, data: seq<byte>, more: seq<byte>, next: nat)
    requires Follows(|buffer|, at, data, more, next)
    ensures Put(Put(buffer, at, data), next, Inside(more, |buffer| - next)) == Put(buffer, at, Inside(data + more, |buffer| - at))
  {
    if more != [] {
      InsideBehind(data, more, |buffer| - at);
      PutPut(buffer, at, data, Inside(more, |buffer| - next));
    } else {
      assert data + more == data;
      PutNothing(Put(buffer, at, data), next);
      PutNothing(buffer, at);
    }
  }

  lemma PutNothing(buffer: seq<byte>, at: nat)
    ensures Put(buffer, at, []) == buffer
  {
  }

  lemma FilledTurn(buffer: seq<byte>, at: nat, data: seq<byte>, more: seq<byte>, next: nat, after: seq<byte>)
    requires Follows(|buffer|, at, data, more, next)
    requires Filled(Put(buffer, at, data), next, more, after)
    ensures Filled(buffer, at, data + more, after)
  {
    PutTurn(buffer, at, data, more, next);
  }

  /** At the end of the loop the buffer holds its output. */
  ghost predicate Stands(c: Cipher, encrypt: bool, buffer: seq<byte>, n: nat, start: nat, i: nat)
    requires start <= n <= |buffer|
  {
    Filled(buffer, start + Skip(encrypt), Loop(c, encrypt, buffer[start..n], i), Overwritten(c, encrypt, buffer, n, start, i))
  }

  lemma StandsBehind(c: Cipher, encrypt: bool, buffer: seq<byte>, n: nat, start: nat, i: nat, lo: nat, hi: nat, end: nat,
                     data: seq<byte>)
    requires n <= |buffer| && IsTurn(encrypt, n, start, lo, hi, end) && lo <= hi <= n && end <= n
    requires data == Transform(c, encrypt, i, buffer[lo..hi]) && |data| == |Padded(buffer[lo..hi])|
    requires Stands(c, encrypt, Put(buffer, lo, data), n, end, i + 1)
    ensures Filled(Put(buffer, lo, data), end + Skip(encrypt), Loop(c, encrypt, buffer[end..n], i + 1),
                   Overwritten(c, encrypt, buffer, n, start, i))
  {
    WrittenUnread(c, encrypt, buffer, n, start, i + 1, lo, hi, end, data);
    OverwrittenStep(c, encrypt, buffer, n, start, i, lo, hi, end);
  }

  lemma FollowsTurn(c: Cipher, encrypt: bool, buffer: seq<byte>, n: nat, start: nat, i: nat, lo: nat, hi: nat, end: nat)
    requires c.Sized() && n <= |buffer| && IsTurn(encrypt, n, start, lo, hi, end) && lo <= hi <= n && end <= n
    ensures Follows(|buffer|, lo, Transform(c, encrypt, i, buffer[lo..hi]), Loop(c, encrypt, buffer[end..n], i + 1),
                    end + Skip(encrypt))
  {
    TurnSize(c, encrypt, buffer, n, start, i, lo, hi, end);
    LoopWithin(c, encrypt, buffer, n, end, i + 1);
  }

  lemma StandsStep(c: Cipher, encrypt: bool, buffer: seq<byte>, n: nat, start: nat, i: nat, lo: nat, hi: nat, end: nat,
                   data: seq<byte>)
    requires c.Sized() && n <= |buffer| && IsTurn(encrypt, n, start, lo, hi, end) && lo <= hi <= n && end <= n
    requires data == Transform(c, encrypt, i, buffer[lo..hi]) && Stands(c, encrypt, Put(buffer, lo, data), n, end, i + 1)
    ensures Stands(c, encrypt, buffer, n, start, i)
  {
    var after, more := Overwritten(c, encrypt, buffer, n, start, i), Loop(c, encrypt, buffer[end..n], i + 1);
    TransformSize(c, encrypt, i, buffer[lo..hi]);
    StandsBehind(c, encrypt, buffer, n, start, i, lo, hi, end, data);
    FollowsTurn(c, encrypt, buffer, n, start, i, lo, hi, end);
    FilledTurn(buffer, lo, data, more, end + Skip(encrypt), after);
    LoopStep(c, encrypt, buffer, n, start, i, lo, hi, end);
  }

  lemma {:induction false} OverwrittenIs(c: Cipher, encrypt: bool, buffer: seq<byte>, n: nat, start: nat, i: nat)
    requires c.Sized() && start <= n <= |buffer|
    ensures Stands(c, encrypt, buffer, n, start, i)
    decreases n - start
  {
    if Over(encrypt, n - start) {
      PutNothing(buffer, start + Skip(encrypt));
    } else {
      var lo, hi, end := start + Skip(encrypt), start + ReadTo(encrypt, n - start), start + Next(n - start);
      TurnBounds(encrypt, n, start, lo, hi, end);
      var data := Transform(c, encrypt, i, buffer[lo..hi]);
      OverwrittenIs(c, encrypt, Put(buffer, lo, data), n, end, i + 1);
      StandsStep(c, encrypt, buffer, n, start, i, lo, hi, end, data);
    }
  }

  // ----- what the loop computes -----

  ghost function EncChunks(c: Cipher, x: seq<byte>, i: nat): seq<byte>
    decreases |x|
  {
    if x == [] then []
    else if |x| <= CHUNK then c.enc(i, x)
    else c.enc(i, x[..CHUNK]) + EncChunks(c, x[CHUNK..], i + 1)
  }

  ghost function DecChunks(c: Cipher, x: seq<byte>, i: nat): seq<byte>
    decreases |x|
  {
    if x == [] then []
    else if |x| <= CHUNK then c.dec(i, x)
    else c.dec(i, x[..CHUNK]) + DecChunks(c, x[CHUNK..], i + 1)
  }

  /** What decryption reads: of a last chunk that is full, the final eight bytes are taken for zero. */
  ghost function Blanked(z: seq<byte>): (r: seq<byte>)
    ensures |r| == |z|
    decreases |z|
  {
    if |z| < CHUNK then z
    else if |z| == CHUNK then z[..CHUNK - OFFSET] + Zeros(OFFSET)
    else z[..CHUNK] + Blanked(z[CHUNK..])
  }

  lemma PaddedSplit(x: seq<byte>)
    requires |x| > CHUNK
    ensures var p := Padded(x);
            Padded(x[0..CHUNK]) == p[..CHUNK] && Padded(x[CHUNK..]) == p[CHUNK..]
  {
    assert Padded(x[0..CHUNK]) == x[0..CHUNK];
    assert (|x| - CHUNK) % BLOCK == |x| % BLOCK;
  }

  lemma {:induction false} EncryptLoop(c: Cipher, x: seq<byte>, i: nat)
    ensures Loop(c, true, x, i) == EncChunks(c, Padded(x), i)
    decreases |x|
  {
    if |x| <= CHUNK {
      assert x[0..|x|] == x && x[|x|..] == [];
    } else {
      EncryptLoop(c, x[CHUNK..], i + 1);
      PaddedSplit(x);
    }
  }

  lemma DecryptLast(c: Cipher, y: seq<byte>, i: nat)
    requires c.Invertible() && OFFSET <= |y| <= CHUNK + OFFSET && (|y| - OFFSET) % BLOCK == 0
    ensures Sliceable(false, |y|) && Loop(c, false, y, i) == DecChunks(c, Blanked(y[OFFSET..]), i)
  {
    var z := y[OFFSET..];
    assert c.dec(i, []) == [] && c.dec(i + 1, []) == [];
    assert Padded([]) == [];
    if |z| < CHUNK {
      assert y[OFFSET..|y|] == z && Padded(z) == z && y[|y|..] == [];
    } else {
      var read, last := y[OFFSET..CHUNK], y[CHUNK..];
      assert Padded(read) == Blanked(z);
      assert last[OFFSET..|last|] == [] && last[|last|..] == [];
      assert Loop(c, false, last, i + 1) == [];
    }
  }

  lemma {:induction false} DecryptLoop(c: Cipher, y: seq<byte>, i: nat)
    requires c.Invertible() && OFFSET <= |y| && (|y| - OFFSET) % BLOCK == 0
    ensures Sliceable(false, |y|) && Loop(c, false, y, i) == DecChunks(c, Blanked(y[OFFSET..]), i)
    decreases |y|
  {
    if |y| <= CHUNK + OFFSET {
      DecryptLast(c, y, i);
    } else {
      DecryptLoop(c, y[CHUNK..], i + 1);
      DecryptFirst(c, y, i);
    }
  }

  lemma BlankedFirst(y: seq<byte>)
    requires |y| > CHUNK + OFFSET
    ensures var b := Blanked(y[OFFSET..]);
            b[..CHUNK] == y[OFFSET..CHUNK + OFFSET] && b[CHUNK..] == Blanked(y[CHUNK..][OFFSET..])
  {
    assert y[OFFSET..][..CHUNK] == y[OFFSET..CHUNK + OFFSET];
    assert y[OFFSET..][CHUNK..] == y[CHUNK..][OFFSET..];
  }

  lemma DecryptFirst(c: Cipher, y: seq<byte>, i: nat)
    requires |y| > CHUNK + OFFSET
    requires Loop(c, false, y[CHUNK..], i + 1) == DecChunks(c, Blanked(y[CHUNK..][OFFSET..]), i + 1)
    ensures Loop(c, false, y, i) == DecChunks(c, Blanked(y[OFFSET..]), i)
  {
    var first := y[OFFSET..CHUNK + OFFSET];
    assert Padded(first) == first;
    BlankedFirst(y);
    assert ReadTo(false, |y|) == CHUNK + OFFSET && Next(|y|) == CHUNK;
  }

  /** Nothing is lost exactly when no full chunk comes last, or it ends in eight zero bytes. */
  lemma {:induction false} BlankedSame(z: seq<byte>)
    ensures Blanked(z) == z <==> z == [] || |z| % CHUNK != 0 || z[|z| - OFFSET..] == Zeros(OFFSET)
    decreases |z|
  {
    if |z| == CHUNK {
      assert z == z[..CHUNK - OFFSET] + z[CHUNK - OFFSET..];
      assert Blanked(z)[CHUNK - OFFSET..] == Zeros(OFFSET);
    } else if |z| > CHUNK {
      var t := z[CHUNK..];
      BlankedSame(t);
      assert |z| % CHUNK == |t| % CHUNK;
      assert z == z[..CHUNK] + t && Blanked(z)[CHUNK..] == Blanked(t);
      assert Blanked(z) == z <==> Blanked(t) == t;
      if |t| >= OFFSET {
        assert z[|z| - OFFSET..] == t[|t| - OFFSET..];
      }
    }
  }

  lemma {:induction false} DecEncChunks(c: Cipher, x: seq<byte>, i: nat)
    requires c.Invertible() && |x| % BLOCK == 0
    ensures |EncChunks(c, x, i)| == |x| && DecChunks(c, EncChunks(c, x, i), i) == x
    decreases |x|
  {
    if |x| > CHUNK {
      DecEncChunks(c, x[CHUNK..], i + 1);
      var e := EncChunks(c, x, i);
      assert e[..CHUNK] == c.enc(i, x[..CHUNK]) && e[CHUNK..] == EncChunks(c, x[CHUNK..], i + 1);
      assert x == x[..CHUNK] + x[CHUNK..];
    }
  }

  lemma {:induction false} EncDecChunks(c: Cipher, z: seq<byte>, i: nat)
    requires c.Invertible() && |z| % BLOCK == 0
    ensures |DecChunks(c, z, i)| == |z| && EncChunks(c, DecChunks(c, z, i), i) == z
    decreases |z|
  {
    if |z| > CHUNK {
      EncDecChunks(c, z[CHUNK..], i + 1);
      var d := DecChunks(c, z, i);
      assert d[..CHUNK] == c.dec(i, z[..CHUNK]) && d[CHUNK..] == DecChunks(c, z[CHUNK..], i + 1);
      assert z == z[..CHUNK] + z[CHUNK..];
    }
  }

  /** Different ciphertexts are decrypted differently. */
  lemma DecInjective(c: Cipher, a: seq<byte>, b: seq<byte>)
    requires c.Invertible() && |a| % BLOCK == 0 && |b| % BLOCK == 0
    ensures DecChunks(c, a, 0) == DecChunks(c, b, 0) <==> a == b
  {
    EncDecChunks(c, a, 0);
    EncDecChunks(c, b, 0);
  }

  lemma HeaderTail(header: seq<byte>, z: seq<byte>)
    requires |header| == OFFSET
    ensures (header + z)[OFFSET..] == z && (|z| >= OFFSET ==> (header + z)[|z|..] == z[|z| - OFFSET..])
  {
  }

  /** Behind any header of eight bytes. */
  lemma DecryptHeader(c: Cipher, header: seq<byte>, z: seq<byte>)
    requires c.Invertible() && |header| == OFFSET && |z| % BLOCK == 0
    ensures Sliceable(false, |header + z|)
    ensures Loop(c, false, header + z, 0) == DecChunks(c, z, 0) <==>
            z == [] || |z| % CHUNK != 0 || (header + z)[|z|..] == Zeros(OFFSET)
  {
    HeaderTail(header, z);
    DecryptLoop(c, header + z, 0);
    DecInjective(c, Blanked(z), z);
    BlankedSame(z);
    assert z == [] || |z| >= OFFSET;
  }

  ghost function Encrypted(c: Cipher, x: seq<byte>): seq<byte> {
    UInt32LE(|x|, 8) + Loop(c, true, x, 0)
  }

  /**
   Decrypting what was encrypted gives the input padded to whole blocks, exactly
   when the padded length is zero or no multiple of the chunk size, or the
   ciphertext happens to end in eight zero bytes.
   */
  lemma DecryptEncrypted(c: Cipher, x: seq<byte>)
    requires c.Invertible()
    ensures var y, n := Encrypted(c, x), |Padded(x)|;
            && |y| == n + 8 && Sliceable(false, |y|)
            && (Loop(c, false, y, 0) == Padded(x) <==> n == 0 || n % 4096 != 0 || forall k | n <= k < n + 8 :: y[k] == 0)
  {
    var p, z := Padded(x), EncChunks(c, Padded(x), 0);
    EncryptLoop(c, x, 0);
    DecEncChunks(c, p, 0);
    DecryptHeader(c, UInt32LE(|x|, 8), z);
    EndsInZeros(Encrypted(c, x), |p|);
  }

  lemma EndsInZeros(y: seq<byte>, n: nat)
    requires |y| == n + 8
    ensures y[n..] == Zeros(OFFSET) <==> forall k | n <= k < n + 8 :: y[k] == 0
  {
    if forall k | n <= k < n + 8 :: y[k] == 0 {
      assert y[n..] == Zeros(OFFSET);
    } else {
      assert forall k | n <= k < n + 8 :: y[k] == y[n..][k - n];
    }
  }

  // ----- the layout of an encrypted package -----

  /** Chunk `k` of the input. */
  function Chunk(x: seq<byte>, k: nat): seq<byte>
    requires 4096 * k < |x|
  {
    x[4096 * k..if |x| < 4096 * k + 4096 then |x| else 4096 * k + 4096]
  }

  predicate StandsAt(z: seq<byte>, k: nat, e: seq<byte>) {
    4096 * k + |e| <= |z| && z[4096 * k..4096 * k + |e|] == e
  }

  /** The first chunk, and what comes behind it. */
  lemma FirstChunk(c: Cipher, x: seq<byte>, i: nat)
    requires c.Sized() && x != []
    ensures StandsAt(Loop(c, true, x, i), 0, c.enc(i, Padded(Chunk(x, 0))))
    ensures |x| > 4096 ==> |Loop(c, true, x, i)| >= 4096 && Loop(c, true, x, i)[4096..] == Loop(c, true, x[4096..], i + 1)
  {
    var n := ReadTo(true, |x|);
    assert x[0..n] == Chunk(x, 0);
    TransformSize(c, true, i, x[0..n]);
    assert Loop(c, true, x, i) == Transform(c, true, i, x[0..n]) + Loop(c, true, x[Next(|x|)..], i + 1);
  }

  lemma NextChunk(x: seq<byte>, z: seq<byte>, k: nat, e: seq<byte>)
    requires k > 0 && 4096 * k < |x| && |z| >= 4096
    ensures Chunk(x[4096..], k - 1) == Chunk(x, k)
    ensures StandsAt(z[4096..], k - 1, e) ==> StandsAt(z, k, e)
  {
    if StandsAt(z[4096..], k - 1, e) {
      assert z[4096..][4096 * (k - 1)..4096 * (k - 1) + |e|] == z[4096 * k..4096 * k + |e|];
    }
  }

  lemma {:induction false} ChunkAt(c: Cipher, x: seq<byte>, i: nat, k: nat)
    requires c.Sized() && 4096 * k < |x|
    ensures StandsAt(Loop(c, true, x, i), k, c.enc(i + k, Padded(Chunk(x, k))))
    decreases |x|
  {
    FirstChunk(c, x, i);
    if k > 0 {
      var rest, e := Loop(c, true, x[4096..], i + 1), c.enc(i + k, Padded(Chunk(x, k)));
      NextChunk(x, Loop(c, true, x, i), k, e);
      assert StandsAt(rest, k - 1, e) by {
        ChunkAt(c, x[4096..], i + 1, k - 1);
        assert i + 1 + (k - 1) == i + k;
      }
    }
  }

  /** Behind eight bytes with the length come the chunks of 4096 bytes, the last one filled up with zeros to a multiple of
      16, each encrypted under its own number. */
  lemma EncryptedLayout(c: Cipher, x: seq<byte>, k: nat) returns (p: seq<byte>)
    requires c.Sized() && 4096 * k < |x|
    ensures var y, chunk := Encrypted(c, x), x[4096 * k..if |x| < 4096 * k + 4096 then |x| else 4096 * k + 4096];
            && |p| % 16 == 0 && |chunk| <= |p| < |chunk| + 16 && chunk <= p && (forall j | |chunk| <= j < |p| :: p[j] == 0)
            && 8 + 4096 * k + |p| <= |y| && y[8 + 4096 * k..8 + 4096 * k + |p|] == c.enc(k, p)
            && y[0] as int + 256 * y[1] as int + 65536 * y[2] as int + 16777216 * y[3] as int == |x| % 0x1_0000_0000
            && (forall j | 4 <= j < 8 :: y[j] == 0)
  {
    var y, z := Encrypted(c, x), Loop(c, true, x, 0);
    p := Padded(x[4096 * k..if |x| < 4096 * k + 4096 then |x| else 4096 * k + 4096]);
    ChunkAt(c, x, 0, k);
    assert y[8 + 4096 * k..8 + 4096 * k + |p|] == z[4096 * k..4096 * k + |p|];
  }
}
