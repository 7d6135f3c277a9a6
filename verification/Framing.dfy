/**
 * Length-prefixed framing over a byte stream: the buffered writer of the RPC client and the chunked reader that
 * client and server share. Buffers are arrays; the stream delivers its bytes in whatever chunks it likes.
 */
module Framing {
  import opened Basics

  const U32_RANGE := 0x1_0000_0000

  function U32Bytes(n: nat): (b: seq<Byte>)
    requires n < 0x1_0000_0000
    ensures |b| == 4 && U32Value(b) == n
  {
    var a := n / 256;
    var b := a / 256;
    [b / 256, b % 256, a % 256, n % 256]
  }

  function Pow256(e: nat): (p: nat)
    ensures p > 0
  {
    if e == 0 then 1 else 256 * Pow256(e - 1)
  }

  /** Big-endian: byte i stands for multiples of 256 to the 3 - i. */
  lemma {:induction false} U32BigEndian(n: nat, i: nat)
    requires n < 0x1_0000_0000 && i < 4
    ensures U32Bytes(n)[i] as int == n / Pow256(3 - i) % 256
  {
    assert Pow256(0) == 1 && Pow256(1) == 256 && Pow256(2) == 65536 && Pow256(3) == 16777216;
    assert n / 256 / 256 == n / 65536 && n / 65536 / 256 == n / 16777216;
  }

  function U32Value(b: seq<Byte>): (n: nat)
    requires |b| == 4
    ensures n < 0x1_0000_0000
  {
    (b[0] as int) * 16777216 + (b[1] as int) * 65536 + (b[2] as int) * 256 + b[3] as int
  }

  /** A message is a vector and the number of its bytes that count. */
  datatype Message = Message(data: seq<Byte>, used: nat)

  /** A vector shorter than `used` makes the slice panic. */
  predicate Sendable(m: Message) {
    m.used <= |m.data|
  }

  /** The size field holds the low 32 bits of the vector's whole length; the body is the used part. */
  function Frame(m: Message): seq<Byte>
    requires Sendable(m)
  {
    U32Bytes(|m.data| % 0x1_0000_0000) + m.data[..m.used]
  }

  /** On the wire: four bytes of size, most significant first, then the used part of the vector. */
  lemma {:induction false} FrameLayout(m: Message, i: nat)
    requires Sendable(m)
    ensures |Frame(m)| == 4 + m.used && Frame(m)[4..] == m.data[..m.used]
    ensures i < 4 ==> Frame(m)[i] as int == |m.data| % 0x1_0000_0000 / Pow256(3 - i) % 256
  {
    if i < 4 {
      U32BigEndian(|m.data| % 0x1_0000_0000, i);
    }
  }

  function Frames(ms: seq<Message>): seq<Byte>
    requires forall i :: 0 <= i < |ms| ==> Sendable(ms[i])
  {
    if ms == [] then [] else Frame(ms[0]) + Frames(ms[1..])
  }

  /** The next payload of a stream and what follows it, or nothing while the frame is incomplete. */
  function ParseFrame(s: seq<Byte>): Option<(seq<Byte>, seq<Byte>)> {
    if |s| < 4 then None
    else
      var size := U32Value(s[..4]);
      if |s| - 4 < size then None else Some((s[4..4 + size], s[4 + size..]))
  }

  function ParseFrames(s: seq<Byte>, count: nat): Option<(seq<seq<Byte>>, seq<Byte>)> {
    if count == 0 then Some(([], s))
    else match ParseFrame(s)
      case None => None
      case Some((payload, rest)) =>
        match ParseFrames(rest, count - 1)
        case None => None
        case Some((payloads, end)) => Some(([payload] + payloads, end))
  }

  lemma ParseFirst(s: seq<Byte>, count: nat)
    requires count > 0 && ParseFrames(s, count).Some?
    ensures ParseFrame(s).Some? && ParseFrames(ParseFrame(s).value.1, count - 1).Some?
    ensures var (payload, rest) := ParseFrame(s).value;
            var (payloads, end) := ParseFrames(rest, count - 1).value;
            ParseFrames(s, count) == Some(([payload] + payloads, end))
  {
  }

  lemma ParseNone(s: seq<Byte>)
    ensures ParseFrames(s, 0) == Some(([], s))
  {
  }

  lemma SplitUnread(w: seq<Byte>, more: seq<Byte>, count: nat)
    requires count <= |w|
    ensures (w + more)[..count] == w[..count] && (w + more)[count..] == w[count..] + more
  {
  }

  lemma SliceDrop(s: seq<Byte>, a: nat, b: nat, count: nat)
    requires a + count <= b <= |s|
    ensures s[a + count..b] == s[a..b][count..]
  {
  }

  /** The size field says how many bytes follow: a whole vector of less than 2^32 bytes, in particular. */
  predicate Aligned(m: Message) {
    Sendable(m) && m.used == |m.data| % 0x1_0000_0000
  }

  /** Whatever follows, the reader recovers the used part and stays in step exactly when the message is aligned. */
  lemma {:induction false} FrameRoundTrip(m: Message)
    requires Sendable(m)
    ensures (forall rest :: ParseFrame(Frame(m) + rest) == Some((Payload(m), rest))) <==> Aligned(m)
  {
    var size := |m.data| % 0x1_0000_0000;
    if Aligned(m) {
      forall rest ensures ParseFrame(Frame(m) + rest) == Some((Payload(m), rest)) {
        var s := Frame(m) + rest;
        assert s[..4] == U32Bytes(size);
        assert s[4..4 + size] == m.data[..m.used] && s[4 + size..] == rest;
      }
    }
    if forall rest :: ParseFrame(Frame(m) + rest) == Some((Payload(m), rest)) {
      var s := Frame(m) + [];
      assert s[..4] == U32Bytes(size);
      assert ParseFrame(s) == Some((m.data[..m.used], []));
      assert |s[4..4 + size]| == size;
    }
  }

  /** Two bytes of which one counts: the reader takes the first byte of the next frame along. */
  lemma {:induction false} UnalignedFrameMisreads(b: Byte, x: Byte, next: Byte)
    ensures var m := Message([b, x], 1); !Aligned(m) && ParseFrame(Frame(m) + [next]) == Some(([b, next], []))
  {
    var s := Frame(Message([b, x], 1)) + [next];
    assert U32Bytes(2) == [0, 0, 0, 2];
    assert s == [0, 0, 0, 2, b, next];
    assert s[..4] == [0, 0, 0, 2] && s[4..6] == [b, next] && s[6..] == [];
  }

  ghost predicate AllAligned(ms: seq<Message>)
    ensures AllAligned(ms) ==> forall i :: 0 <= i < |ms| ==> Sendable(ms[i])
  {
    forall i :: 0 <= i < |ms| ==> Aligned(ms[i])
  }

  /** Any sequence of aligned messages is recovered in order. */
  lemma {:induction false} FramesRoundTrip(ms: seq<Message>, rest: seq<Byte>)
    requires AllAligned(ms)
    ensures ParseFrames(Frames(ms) + rest, |ms|) == Some((Payloads(ms), rest))
  {
    hide ParseFrame, Frame, Payload;
    if ms == [] {
      assert Frames(ms) + rest == rest;
    } else {
      assert Aligned(ms[0]);
      FrameRoundTrip(ms[0]);
      FramesRoundTrip(ms[1..], rest);
      var t := Frames(ms[1..]) + rest;
      assert Frames(ms) + rest == Frame(ms[0]) + t;
      assert ParseFrame(Frame(ms[0]) + t) == Some((Payload(ms[0]), t));
    }
  }

  function Payloads(ms: seq<Message>): (ps: seq<seq<Byte>>)
    requires forall i :: 0 <= i < |ms| ==> Sendable(ms[i])
    ensures |ps| == |ms|
  {
    if ms == [] then [] else [Payload(ms[0])] + Payloads(ms[1..])
  }

  function Payload(m: Message): seq<Byte>
    requires Sendable(m)
  {
    m.data[..m.used]
  }

  // ---------------------------------------------------------------- the writer

  class BufferedWriter {
    const writeBuffer: array<Byte>
    var writeOffset: nat
    /** The bytes handed to the stream so far. */
    var sent: seq<Byte>

    ghost predicate Valid()
      reads this
    {
      writeBuffer.Length > 0 && writeOffset <= writeBuffer.Length
    }

    /** Everything written: what the stream has and what still waits in the buffer. */
    ghost function Written(): seq<Byte>
      requires Valid()
      reads this, writeBuffer
    {
      sent + writeBuffer[..writeOffset]
    }

    constructor (capacity: nat)
      requires capacity > 0
      ensures Valid() && fresh(writeBuffer) && Written() == [] && sent == []
    {
      writeBuffer := new Byte[capacity](_ => 0);
      writeOffset := 0;
      sent := [];
    }

    method FlushWriteBuffer()
      requires Valid()
      modifies this
      ensures Valid() && Written() == old(Written()) && sent == Written()
    {
      sent := sent + writeBuffer[..writeOffset];
      writeOffset := 0;
    }

    method WriteAllBuffered(buff: seq<Byte>, len: nat)
      requires Valid() && len <= |buff|
      modifies this, writeBuffer
      ensures Valid() && Written() == old(Written()) + buff[..len]
    {
      ghost var before := Written();
      var n: nat := len;
      while n > 0
        invariant Valid() && n <= len
        invariant Written() == before + buff[..len - n]
        decreases n, writeOffset
      {
        var spaceLeft := writeBuffer.Length - writeOffset;
        if spaceLeft == 0 {
          FlushWriteBuffer();
          continue;
        }
        var toWrite := if n < spaceLeft then n else spaceLeft;
        CopyIn(buff, len - n, toWrite);
        assert buff[..len - n + toWrite] == buff[..len - n] + buff[len - n..len - n + toWrite];
        n := n - toWrite;
      }
    }

    /** copy_from_slice into the free part of the buffer. */
    method CopyIn(buff: seq<Byte>, from: nat, count: nat)
      requires Valid() && from + count <= |buff| && writeOffset + count <= writeBuffer.Length
      modifies this`writeOffset, writeBuffer
      ensures Valid() && Written() == old(Written()) + buff[from..from + count]
      ensures writeOffset == old(writeOffset) + count
    {
      forall i | 0 <= i < count {
        writeBuffer[writeOffset + i] := buff[from + i];
      }
      assert writeBuffer[..writeOffset] == old(writeBuffer[..writeOffset]);
      assert writeBuffer[writeOffset..writeOffset + count] == buff[from..from + count];
      assert writeBuffer[..writeOffset + count] == writeBuffer[..writeOffset] + writeBuffer[writeOffset..writeOffset + count];
      writeOffset := writeOffset + count;
    }

    method WriteU32Buffered(data: nat)
      requires Valid() && data < U32_RANGE
      modifies this, writeBuffer
      ensures Valid() && Written() == old(Written()) + U32Bytes(data)
    {
      var buff := U32Bytes(data);
      WriteAllBuffered(buff, 4);
      assert buff[..4] == buff;
    }

    /** `send_buffered`, and `send` when `flush` is set. */
    method Send(m: Message, flush: bool)
      requires Valid() && Sendable(m)
      modifies this, writeBuffer
      ensures Valid() && Written() == old(Written()) + Frame(m)
      ensures flush ==> sent == Written()
    {
      WriteU32Buffered(|m.data| % U32_RANGE);
      WriteAllBuffered(m.data, m.used);
      if flush {
        FlushWriteBuffer();
      }
    }

    /** Any messages with any flush points: the stream receives their frames back to back. */
    method SendAll(ms: seq<Message>, flushes: seq<bool>)
      requires Valid() && |flushes| == |ms| && forall i :: 0 <= i < |ms| ==> Sendable(ms[i])
      modifies this, writeBuffer
      ensures Valid() && sent == Written() == old(Written()) + Frames(ms)
    {
      ghost var before := Written();
      for k := 0 to |ms|
        invariant Valid() && Written() == before + Frames(ms[..k])
      {
        FramesSnoc(ms[..k], ms[k]);
        assert ms[..k + 1] == ms[..k] + [ms[k]];
        Send(ms[k], flushes[k]);
      }
      assert ms[..|ms|] == ms;
      FlushWriteBuffer();
    }
  }

  lemma {:induction false} FramesSnoc(ms: seq<Message>, m: Message)
    requires Sendable(m) && forall i :: 0 <= i < |ms| ==> Sendable(ms[i])
    ensures Frames(ms + [m]) == Frames(ms) + Frame(m)
  {
    if ms == [] {
      assert ms + [m] == [m] && [m][1..] == [];
    } else {
      FramesSnoc(ms[1..], m);
      assert (ms + [m])[1..] == ms[1..] + [m];
    }
  }

  // ---------------------------------------------------------------- the reader

  function Flatten(chunks: seq<seq<Byte>>): seq<Byte> {
    if chunks == [] then [] else chunks[0] + Flatten(chunks[1..])
  }

  lemma TakeThenDrop(s: seq<Byte>, a: nat, c: nat)
    requires a + c <= |s|
    ensures s[..a] + s[a..][..c] == s[..a + c] && s[a..][c..] == s[a + c..]
  {
  }

  method CopyBytes(src: array<Byte>, from: nat, dst: array<Byte>, pos: nat, count: nat)
    requires src != dst && from + count <= src.Length && pos + count <= dst.Length
    modifies dst
    ensures dst[..pos + count] == old(dst[..pos]) + src[from..from + count]
    ensures forall i :: pos + count <= i < dst.Length ==> dst[i] == old(dst[i])
  {
    for i := 0 to count
      invariant dst[..pos + i] == old(dst[..pos]) + src[from..from + i]
      invariant forall k :: pos + i <= k < dst.Length ==> dst[k] == old(dst[k])
    {
      dst[pos + i] := src[from + i];
    }
  }

  class FrameReader {
    const buffer: array<Byte>
    var offset: nat
    var bound: nat
    /** What the stream will deliver, one chunk per read. */
    var chunks: seq<seq<Byte>>

    /** A read fills at most the buffer and, until the stream closes, returns something. */
    ghost predicate Valid()
      reads this
    {
      && offset <= bound <= buffer.Length
      && (forall i :: 0 <= i < |chunks| ==> 0 < |chunks[i]| <= buffer.Length)
    }

    ghost function Unread(): seq<Byte>
      requires Valid()
      reads this, buffer
    {
      buffer[offset..bound] + Flatten(chunks)
    }

    constructor (capacity: nat, chunks: seq<seq<Byte>>)
      requires forall i :: 0 <= i < |chunks| ==> 0 < |chunks[i]| <= capacity
      ensures Valid() && fresh(buffer) && Unread() == Flatten(chunks)
    {
      buffer := new Byte[capacity](_ => 0);
      offset := 0;
      bound := 0;
      this.chunks := chunks;
    }

    /** One read of the stream into the whole buffer. */
    method Fetch()
      requires Valid() && offset == bound && chunks != []
      modifies this, buffer
      ensures Valid() && Unread() == old(Unread())
      ensures offset < bound && |chunks| == |old(chunks)| - 1
    {
      var chunk := chunks[0];
      forall i | 0 <= i < |chunk| {
        buffer[i] := chunk[i];
      }
      offset, bound, chunks := 0, |chunk|, chunks[1..];
      assert buffer[offset..bound] == chunk;
    }

    lemma UnreadSize()
      requires Valid()
      ensures |Unread()| >= bound - offset
      ensures offset == bound && |Unread()| > 0 ==> chunks != []
    {
    }

    /** The next n bytes of the stream land at the front of v, whatever chunks they arrive in. */
    method ReadNextBytes(n: nat, v: array<Byte>)
      requires Valid() && v != buffer && n <= v.Length && n <= |Unread()|
      modifies this, buffer, v
      ensures Valid()
      ensures v[..n] == old(Unread())[..n]
      ensures forall i :: n <= i < v.Length ==> v[i] == old(v[i])
      ensures Unread() == old(Unread())[n..]
    {
      hide Unread;
      ghost var whole := Unread();
      var pos: nat, left: nat := 0, n;
      while left > 0
        invariant Valid() && left <= n <= |whole| && (left > 0 ==> pos == n - left)
        invariant v[..n - left] == whole[..n - left]
        invariant forall i :: n <= i < v.Length ==> v[i] == old(v[i])
        invariant Unread() == whole[n - left..]
        decreases left, |chunks|
      {
        UnreadSize();
        if bound == offset {
          Fetch();
          UnreadSize();
        }
        TakeThenDrop(whole, pos, if bound - offset >= left then left else bound - offset);
        if bound - offset >= left {
          CopyOut(v, pos, left);
          left := 0;
        } else {
          var got := bound - offset;
          CopyOut(v, pos, got);
          left := left - got;
          pos := pos + got;
        }
      }
    }

    /** copy_from_slice out of the unread part of the buffer. */
    method CopyOut(v: array<Byte>, pos: nat, count: nat)
      requires Valid() && v != buffer && pos + count <= v.Length && offset + count <= bound
      modifies this`offset, v
      ensures Valid() && chunks == old(chunks) && offset == old(offset) + count
      ensures v[..pos + count] == old(v[..pos]) + old(Unread())[..count]
      ensures forall i :: pos + count <= i < v.Length ==> v[i] == old(v[i])
      ensures Unread() == old(Unread())[count..]
    {
      ghost var all, more := buffer[..], Flatten(chunks);
      ghost var w := all[offset..bound];
      CopyBytes(buffer, offset, v, pos, count);
      SplitUnread(w, more, count);
      SliceDrop(all, offset, bound, count);
      assert buffer[offset..offset + count] == w[..count];
      offset := offset + count;
      assert buffer[offset..bound] == all[offset..bound];
    }

    /** The payload ends up at the front of the buffer given, or of a longer copy of it when it does not fit. */
    method GetNextFrame(buff: array<Byte>) returns (size: nat, out: array<Byte>)
      requires Valid() && buff != buffer && ParseFrame(Unread()).Some?
      modifies this, buffer, buff
      ensures Valid() && (out == buff || fresh(out)) && size <= out.Length
      ensures ParseFrame(old(Unread())) == Some((out[..size], Unread()))
    {
      ghost var whole := Unread();
      var sizeVec := new Byte[4](_ => 0);
      ReadNextBytes(4, sizeVec);
      assert sizeVec[..] == whole[..4];
      size := U32Value(sizeVec[..]);
      out := buff;
      if size > buff.Length {
        out := new Byte[size](i => 0);
        forall i | 0 <= i < buff.Length {
          out[i] := buff[i];
        }
      }
      ReadNextBytes(size, out);
      TakeThenDrop(whole, 4, size);
      assert whole[4..][..size] == whole[4..4 + size];
    }

    /** Repeated `get_next_frame`: the payloads of the stream in order. */
    method ReceiveAll(count: nat) returns (payloads: seq<seq<Byte>>)
      requires Valid() && ParseFrames(Unread(), count).Some?
      modifies this, buffer
      ensures Valid() && ParseFrames(old(Unread()), count) == Some((payloads, Unread()))
    {
      hide ParseFrames, ParseFrame;
      payloads := [];
      ghost var whole := Unread();
      ghost var rest := ParseFrames(whole, count).value;
      assert payloads + rest.0 == rest.0;
      for k := 0 to count
        invariant Valid() && ParseFrames(Unread(), count - k) == Some(rest)
        invariant ParseFrames(whole, count) == Some((payloads + rest.0, rest.1))
      {
        var buff := new Byte[256](_ => 0);
        ParseFirst(Unread(), count - k);
        ghost var before := rest;
        var size, out := GetNextFrame(buff);
        rest := ParseFrames(Unread(), count - k - 1).value;
        assert payloads + before.0 == (payloads + [out[..size]]) + rest.0;
        payloads := payloads + [out[..size]];
      }
      ParseNone(Unread());
      assert payloads + rest.0 == payloads;
    }
  }

  // ---------------------------------------------------------------- both ends

  /** A chunking of a byte stream: positive chunk sizes no larger than the reader's buffer that add up to the stream. */
  ghost predicate Chunking(chunks: seq<seq<Byte>>, stream: seq<Byte>, capacity: nat) {
    Flatten(chunks) == stream && forall i :: 0 <= i < |chunks| ==> 0 < |chunks[i]| <= capacity
  }

  /**
   * For every list of aligned messages, every writer buffer, every choice of flush points, every reader buffer and
   * every chunking of what was sent, the reader returns exactly the payloads sent, in order, and nothing is left over.
   */
  method Transfer(ms: seq<Message>, flushes: seq<bool>, writerSize: nat, readerSize: nat, chunks: seq<seq<Byte>>)
    returns (payloads: seq<seq<Byte>>)
    requires AllAligned(ms) && |flushes| == |ms| && writerSize > 0
    requires Chunking(chunks, Frames(ms), readerSize)
    ensures payloads == Payloads(ms)
  {
    var writer := new BufferedWriter(writerSize);
    writer.SendAll(ms, flushes);
    assert writer.sent == Frames(ms);
    var reader := new FrameReader(readerSize, chunks);
    FramesRoundTrip(ms, []);
    assert Frames(ms) + [] == Frames(ms);
    payloads := reader.ReceiveAll(|ms|);
  }
}
