/** Length-prefixed framing of KV cache blocks over a byte stream (crates/kv-transfer/src/tcp_transport.rs). */
module KvFraming {
  import opened Basics

  /** An unsigned 64-bit sequence number, a payload, and whether this is the last block. */
  datatype Block = Block(sequence: int, data: seq<Byte>, isFinal: bool)

  const TwoTo32 := 0x1_0000_0000
  const TwoTo64 := 0x1_0000_0000_0000_0000

  predicate ValidBlock(b: Block) {
    0 <= b.sequence < TwoTo64
  }

  // ---------------------------------------------------------------- big-endian integers

  function Pow256(width: nat): nat {
    if width == 0 then 1 else 256 * Pow256(width - 1)
  }

  /** `to_be_bytes` for a given width, dropping what does not fit. */
  function ToBigEndian(n: nat, width: nat): (bytes: seq<Byte>)
    ensures |bytes| == width
  {
    if width == 0 then [] else ToBigEndian(n / 256, width - 1) + [n % 256]
  }

  /** `from_be_bytes`. */
  function FromBigEndian(bytes: seq<Byte>): nat {
    if bytes == [] then 0 else FromBigEndian(bytes[..|bytes| - 1]) * 256 + bytes[|bytes| - 1]
  }

  lemma {:induction false} BigEndianRoundTrip(n: nat, width: nat)
    requires n < Pow256(width)
    ensures FromBigEndian(ToBigEndian(n, width)) == n
    decreases width
  {
    if width > 0 {
      var high := ToBigEndian(n / 256, width - 1);
      BigEndianRoundTrip(n / 256, width - 1);
      assert ToBigEndian(n, width)[..width - 1] == high;
    }
  }

  lemma DivideTwice(n: nat, k: nat)
    requires k > 0
    ensures n / 256 / k == n / (256 * k)
  {
    var q, r := n / 256, n % 256;
    var p, s := q / k, q % k;
    assert p * (256 * k) == 256 * (p * k);
    var rest := 256 * s + r;
    assert n == p * (256 * k) + rest && rest < 256 * k;
    QuotientIs(n, 256 * k, p, rest);
  }

  lemma QuotientIs(n: nat, k: nat, q: nat, r: nat)
    requires r < k && n == q * k + r
    ensures n / k == q
  {
    var p := n / k;
    assert p * k <= n < p * k + k;
    Multiples(p, q, k);
    Multiples(q, p, k);
  }

  lemma {:induction false} Multiples(a: nat, b: nat, k: nat)
    ensures a < b ==> a * k + k <= b * k
    decreases b
  {
    if a < b {
      Multiples(a, b - 1, k);
      NextMultiple(b - 1, k);
    }
  }

  lemma NextMultiple(a: nat, k: nat)
    ensures (a + 1) * k == a * k + k
  {}

  lemma {:induction false} Pow256Positive(width: nat)
    ensures Pow256(width) > 0
  {
    if width > 0 {
      Pow256Positive(width - 1);
    }
  }

  /** The most significant byte comes first. */
  lemma {:induction false} BigEndianByte(n: nat, width: nat, i: nat)
    requires i < width
    ensures Pow256(width - 1 - i) > 0 && ToBigEndian(n, width)[i] == n / Pow256(width - 1 - i) % 256
    decreases width
  {
    if i == width - 1 {
      assert n / 1 == n;
    } else {
      BigEndianByte(n / 256, width - 1, i);
      Pow256Positive(width - 2 - i);
      DivideTwice(n, Pow256(width - 2 - i));
      assert Pow256(width - 1 - i) == 256 * Pow256(width - 2 - i);
    }
  }

  lemma Widths()
    ensures Pow256(4) == TwoTo32 && Pow256(8) == TwoTo64
  {
    assert Pow256(2) == 0x1_0000;
    assert Pow256(4) == 0x1_0000_0000;
    assert Pow256(6) == 0x1_0000_0000_0000;
  }

  // ---------------------------------------------------------------- one block

  const HeaderSize := 13

  /** The frame length field: nine bytes of header and the payload, cut to 32 bits. */
  function FrameLength(b: Block): nat {
    (HeaderSize - 4 + |b.data|) % TwoTo32
  }

  /** `encode_block`. */
  function Encoded(b: Block): seq<Byte>
    requires ValidBlock(b)
  {
    ToBigEndian(FrameLength(b), 4) + ToBigEndian(b.sequence, 8) + [if b.isFinal then 1 else 0] + b.data
  }

  /** The payloads the 32-bit length can describe. */
  predicate Fits(b: Block) {
    |b.data| <= TwoTo32 - 10
  }

  /** `decode_block` on everything the stream will ever deliver: a block and the unread rest, or an error. */
  function Decoded(stream: seq<Byte>): Option<(Block, seq<Byte>)> {
    if |stream| < 4 then None
    else
      var frameLength := FromBigEndian(stream[..4]);
      if frameLength < 9 || |stream| < 4 + frameLength then None
      else
        Some((Block(FromBigEndian(stream[4..12]), stream[13..4 + frameLength], stream[12] != 0),
              stream[4 + frameLength..]))
  }

  lemma FrameParts(b: Block, rest: seq<Byte>)
    requires ValidBlock(b)
    ensures var s := Encoded(b) + rest;
            && s[..4] == ToBigEndian(FrameLength(b), 4)
            && s[4..12] == ToBigEndian(b.sequence, 8)
            && s[12] == (if b.isFinal then 1 else 0)
            && s[13..] == b.data + rest
            && |s| == HeaderSize + |b.data| + |rest|
  {}

  lemma HeaderRoundTrip(b: Block)
    requires ValidBlock(b)
    ensures FromBigEndian(ToBigEndian(FrameLength(b), 4)) == FrameLength(b)
    ensures FromBigEndian(ToBigEndian(b.sequence, 8)) == b.sequence
  {
    Widths();
    BigEndianRoundTrip(FrameLength(b), 4);
    BigEndianRoundTrip(b.sequence, 8);
  }

  lemma Powers()
    ensures Pow256(0) == 1 && Pow256(1) == 0x100 && Pow256(2) == 0x1_0000 && Pow256(3) == 0x100_0000
    ensures Pow256(4) == 0x1_0000_0000 && Pow256(5) == 0x100_0000_0000 && Pow256(6) == 0x1_0000_0000_0000
    ensures Pow256(7) == 0x100_0000_0000_0000
  {
    assert Pow256(2) == 0x1_0000;
    assert Pow256(4) == 0x1_0000_0000;
    assert Pow256(6) == 0x1_0000_0000_0000;
  }

  function FourBytes(n: nat): seq<Byte> {
    [n / 0x100_0000 % 256, n / 0x1_0000 % 256, n / 0x100 % 256, n % 256]
  }

  function EightBytes(n: nat): seq<Byte> {
    [n / 0x100_0000_0000_0000 % 256, n / 0x1_0000_0000_0000 % 256, n / 0x100_0000_0000 % 256,
     n / 0x1_0000_0000 % 256, n / 0x100_0000 % 256, n / 0x1_0000 % 256, n / 0x100 % 256, n % 256]
  }

  lemma LengthBytes(n: nat)
    ensures ToBigEndian(n, 4) == FourBytes(n)
  {
    Powers();
    BigEndianByte(n, 4, 0);
    BigEndianByte(n, 4, 1);
    BigEndianByte(n, 4, 2);
    BigEndianByte(n, 4, 3);
  }

  lemma SequenceBytes(n: nat)
    ensures ToBigEndian(n, 8) == EightBytes(n)
  {
    Powers();
    BigEndianByte(n, 8, 0);
    BigEndianByte(n, 8, 1);
    BigEndianByte(n, 8, 2);
    BigEndianByte(n, 8, 3);
    BigEndianByte(n, 8, 4);
    BigEndianByte(n, 8, 5);
    BigEndianByte(n, 8, 6);
    BigEndianByte(n, 8, 7);
  }

  /** The bytes on the wire: length and sequence number with the highest byte first, the flag, the payload. */
  lemma WireLayout(b: Block)
    requires ValidBlock(b) && Fits(b)
    ensures Encoded(b) == FourBytes(9 + |b.data|) + EightBytes(b.sequence) + [if b.isFinal then 1 else 0] + b.data
  {
    LengthFits(b);
    LengthBytes(9 + |b.data|);
    SequenceBytes(b.sequence);
    FrameOf(b, FourBytes(9 + |b.data|), EightBytes(b.sequence));
  }

  lemma LengthFits(b: Block)
    requires Fits(b)
    ensures FrameLength(b) == 9 + |b.data|
  {}

  lemma FrameOf(b: Block, length: seq<Byte>, sequence: seq<Byte>)
    requires ValidBlock(b) && length == ToBigEndian(FrameLength(b), 4) && sequence == ToBigEndian(b.sequence, 8)
    ensures Encoded(b) == length + sequence + [if b.isFinal then 1 else 0] + b.data
  {}

  /** Reading back one frame gives the block and leaves the rest exactly when its payload fits the length field. */
  lemma BlockRoundTrip(b: Block, rest: seq<Byte>)
    requires ValidBlock(b)
    ensures Decoded(Encoded(b) + rest) == Some((b, rest)) <==> Fits(b)
  {
    var s := Encoded(b) + rest;
    var n := FrameLength(b);
    FrameParts(b, rest);
    HeaderRoundTrip(b);
    if Fits(b) {
      assert n == 9 + |b.data|;
      assert s[13..4 + n] == s[13..][..|b.data|] == b.data;
      assert s[4 + n..] == s[13..][|b.data|..] == rest;
    } else if 9 <= n {
      assert n < 9 + |b.data|;
      assert |s[13..4 + n]| == n - 9;
    }
  }

  // ---------------------------------------------------------------- a transfer

  function Frames(blocks: seq<Block>): seq<Byte>
    requires forall i | 0 <= i < |blocks| :: ValidBlock(blocks[i])
  {
    if blocks == [] then [] else Encoded(blocks[0]) + Frames(blocks[1..])
  }

  /** `receive_blocks`: blocks up to and including the first final one, or an error, and what is left unread. */
  function Received(stream: seq<Byte>): Option<(seq<Block>, seq<Byte>)>
    decreases |stream|
  {
    match Decoded(stream)
    case None => None
    case Some((b, rest)) =>
      if b.isFinal then Some(([b], rest))
      else
        match Received(rest)
        case None => None
        case Some((more, end)) => Some(([b] + more, end))
  }

  /** The number of blocks up to and including the first final one. */
  function FirstFinal(blocks: seq<Block>): (n: nat)
    requires exists i | 0 <= i < |blocks| :: blocks[i].isFinal
    ensures 0 < n <= |blocks| && blocks[n - 1].isFinal
    ensures forall i | 0 <= i < n - 1 :: !blocks[i].isFinal
  {
    if blocks[0].isFinal then 1 else 1 + FirstFinal(blocks[1..])
  }

  predicate Sendable(blocks: seq<Block>) {
    forall i | 0 <= i < |blocks| :: ValidBlock(blocks[i]) && Fits(blocks[i])
  }

  predicate HasFinal(blocks: seq<Block>) {
    exists i | 0 <= i < |blocks| :: blocks[i].isFinal
  }

  lemma FinalInTail(blocks: seq<Block>)
    requires blocks != [] && !blocks[0].isFinal
    ensures HasFinal(blocks) <==> HasFinal(blocks[1..])
  {
    if i :| 0 <= i < |blocks| && blocks[i].isFinal {
      assert blocks[1..][i - 1].isFinal;
    }
    if i :| 0 <= i < |blocks[1..]| && blocks[1..][i].isFinal {
      assert blocks[i + 1].isFinal;
    }
  }

  /** One frame that is not final: the block, and then whatever the rest of the stream gives. */
  lemma NotFinalGoesOn(b: Block, rest: seq<Byte>)
    requires ValidBlock(b) && Fits(b) && !b.isFinal
    ensures Received(Encoded(b) + rest) == Prepended([b], Received(rest))
  {
    BlockRoundTrip(b, rest);
  }

  /** One final frame: the block, and the rest of the stream unread. */
  lemma FinalStops(b: Block, rest: seq<Byte>)
    requires ValidBlock(b) && Fits(b) && b.isFinal
    ensures Received(Encoded(b) + rest) == Some(([b], rest))
  {
    BlockRoundTrip(b, rest);
  }

  lemma FramesFirst(blocks: seq<Block>, suffix: seq<Byte>)
    requires blocks != [] && Sendable(blocks)
    ensures Sendable(blocks[1..])
    ensures Frames(blocks) + suffix == Encoded(blocks[0]) + (Frames(blocks[1..]) + suffix)
  {}

  lemma FinalFirst(blocks: seq<Block>, rest: seq<Byte>)
    requires blocks != [] && Sendable(blocks) && blocks[0].isFinal
    ensures Received(Encoded(blocks[0]) + rest) == Some((blocks[..1], rest))
  {
    FinalStops(blocks[0], rest);
    assert blocks[..1] == [blocks[0]];
  }

  lemma FinalLater(blocks: seq<Block>, rest: seq<Byte>, n: nat, left: seq<Byte>)
    requires blocks != [] && Sendable(blocks) && !blocks[0].isFinal && n < |blocks|
    requires Received(rest) == Some((blocks[1..][..n], left))
    ensures Received(Encoded(blocks[0]) + rest) == Some((blocks[..n + 1], left))
  {
    NotFinalGoesOn(blocks[0], rest);
    assert [blocks[0]] + blocks[1..][..n] == blocks[..n + 1];
  }

  /** The stream gives the first `n` blocks and leaves what follows their frames. */
  ghost predicate Gives(stream: seq<Byte>, blocks: seq<Block>, n: nat, left: seq<Byte>) {
    n <= |blocks| && Received(stream) == Some((blocks[..n], left))
  }

  lemma {:induction false} FinalGives(blocks: seq<Block>, suffix: seq<Byte>, n: nat)
    requires Sendable(blocks) && HasFinal(blocks) && n == FirstFinal(blocks)
    ensures Gives(Frames(blocks) + suffix, blocks, n, Frames(blocks[n..]) + suffix)
    decreases |blocks|
  {
    FramesFirst(blocks, suffix);
    var rest := Frames(blocks[1..]) + suffix;
    if blocks[0].isFinal {
      FinalFirst(blocks, rest);
    } else {
      FinalInTail(blocks);
      FinalGives(blocks[1..], suffix, n - 1);
      assert blocks[1..][n - 1..] == blocks[n..];
      FinalLater(blocks, rest, n - 1, Frames(blocks[n..]) + suffix);
    }
  }

  lemma FinalEndsTransfer(blocks: seq<Block>, suffix: seq<Byte>)
    requires Sendable(blocks) && HasFinal(blocks)
    ensures var n := FirstFinal(blocks);
            Received(Frames(blocks) + suffix) == Some((blocks[..n], Frames(blocks[n..]) + suffix))
  {
    FinalGives(blocks, suffix, FirstFinal(blocks));
  }

  lemma {:induction false} NoFinalGoesOn(blocks: seq<Block>, suffix: seq<Byte>)
    requires Sendable(blocks) && !HasFinal(blocks)
    ensures Received(Frames(blocks) + suffix) == Prepended(blocks, Received(suffix))
    decreases |blocks|
  {
    if blocks == [] {
      assert Frames(blocks) + suffix == suffix;
      PrependNothing(Received(suffix));
    } else {
      var rest := Frames(blocks[1..]) + suffix;
      assert Frames(blocks) + suffix == Encoded(blocks[0]) + rest;
      NotFinalGoesOn(blocks[0], rest);
      FinalInTail(blocks);
      NoFinalGoesOn(blocks[1..], suffix);
      PrependOne(blocks, Received(suffix));
    }
  }

  /**
   Whatever follows on the stream, exactly the blocks up to the first final one are received and the rest
   stays unread. Without a final block the receiver goes on into what follows.
   */
  lemma TransferRoundTrip(blocks: seq<Block>, suffix: seq<Byte>)
    requires Sendable(blocks)
    ensures HasFinal(blocks) ==>
            var n := FirstFinal(blocks);
            Received(Frames(blocks) + suffix) == Some((blocks[..n], Frames(blocks[n..]) + suffix))
    ensures !HasFinal(blocks) ==> Received(Frames(blocks) + suffix) == Prepended(blocks, Received(suffix))
  {
    if HasFinal(blocks) {
      FinalEndsTransfer(blocks, suffix);
    } else {
      NoFinalGoesOn(blocks, suffix);
    }
  }

  lemma PrependOne(blocks: seq<Block>, r: Option<(seq<Block>, seq<Byte>)>)
    requires blocks != []
    ensures Prepended(blocks, r) == Prepended([blocks[0]], Prepended(blocks[1..], r))
  {
    if r.Some? {
      assert [blocks[0]] + (blocks[1..] + r.value.0) == blocks + r.value.0;
    }
  }

  /** Blocks that were sent without a final one are never a transfer on their own. */
  lemma NoFinalIsAnError(blocks: seq<Block>)
    requires Sendable(blocks) && !HasFinal(blocks)
    ensures Received(Frames(blocks)) == None
  {
    TransferRoundTrip(blocks, []);
    assert Frames(blocks) + [] == Frames(blocks);
  }

  /** A frame cut short is an error. */
  lemma CutFrame(b: Block, k: nat)
    requires ValidBlock(b) && Fits(b) && k < |Encoded(b)|
    ensures Decoded(Encoded(b)[..k]) == None
  {
    FrameParts(b, []);
    HeaderRoundTrip(b);
    assert Encoded(b) + [] == Encoded(b);
    if k >= 4 {
      assert Encoded(b)[..k][..4] == Encoded(b)[..4];
    }
  }

  /** Only the last of these blocks is final. */
  predicate OneTransfer(blocks: seq<Block>) {
    && Sendable(blocks) && blocks != [] && blocks[|blocks| - 1].isFinal
    && forall i | 0 <= i < |blocks| - 1 :: !blocks[i].isFinal
  }

  lemma {:induction false} CutAnywhere(blocks: seq<Block>, k: nat)
    requires OneTransfer(blocks) && k < |Frames(blocks)|
    ensures Received(Frames(blocks)[..k]) == None
    decreases |blocks|
  {
    var first, more := Encoded(blocks[0]), Frames(blocks[1..]);
    CutConcat(first, more, k);
    if k < |first| {
      CutFrame(blocks[0], k);
    } else {
      NotFinalGoesOn(blocks[0], more[..k - |first|]);
      CutAnywhere(blocks[1..], k - |first|);
    }
  }

  /** A stream that ends anywhere before the end of the first final frame is an error. */
  lemma CutTransfer(blocks: seq<Block>, k: nat)
    requires Sendable(blocks) && HasFinal(blocks) && k < |Frames(blocks[..FirstFinal(blocks)])|
    ensures Received(Frames(blocks[..FirstFinal(blocks)])[..k]) == None
  {
    CutAnywhere(blocks[..FirstFinal(blocks)], k);
  }

  lemma CutConcat(a: seq<Byte>, b: seq<Byte>, k: nat)
    requires k <= |a| + |b|
    ensures (a + b)[..k] == if k < |a| then a[..k] else a + b[..k - |a|]
  {}

  function PayloadBytes(blocks: seq<Block>): nat {
    if blocks == [] then 0 else |blocks[0].data| + PayloadBytes(blocks[1..])
  }

  /** The bytes reported for a transfer are the bytes on the wire less thirteen for every block. */
  lemma {:induction false} ReportedBytes(blocks: seq<Block>)
    requires forall i | 0 <= i < |blocks| :: ValidBlock(blocks[i])
    ensures PayloadBytes(blocks) == |Frames(blocks)| - HeaderSize * |blocks|
    decreases |blocks|
  {
    if blocks != [] {
      ReportedBytes(blocks[1..]);
    }
  }

  lemma {:induction false} FramesAppend(blocks: seq<Block>, b: Block)
    requires ValidBlock(b) && forall i | 0 <= i < |blocks| :: ValidBlock(blocks[i])
    ensures Frames(blocks + [b]) == Frames(blocks) + Encoded(b)
    ensures PayloadBytes(blocks + [b]) == PayloadBytes(blocks) + |b.data|
    decreases |blocks|
  {
    if blocks == [] {
      assert blocks + [b] == [b];
    } else {
      var rest := blocks[1..];
      FramesAppend(rest, b);
      assert (blocks + [b])[0] == blocks[0] && (blocks + [b])[1..] == rest + [b];
      Regroup(Encoded(blocks[0]), Frames(rest), Encoded(b));
    }
  }

  // ---------------------------------------------------------------- the transport

  /** A connected transport: what has been written, and what the peer will deliver before the stream ends. */
  class TcpTransferProtocol {
    var writer: Option<seq<Byte>>
    var reader: Option<seq<Byte>>

    constructor ()
      ensures writer == None && reader == None
    {
      writer, reader := None, None;
    }

    /** `send_blocks`, over a connection that takes `room` more bytes before a write fails. */
    method SendBlocks(blocks: seq<Block>, room: nat) returns (r: Option<nat>)
      requires forall i | 0 <= i < |blocks| :: ValidBlock(blocks[i])
      modifies this`writer
      ensures old(writer).None? ==> r == None && writer == None
      ensures old(writer).Some? && |Frames(blocks)| <= room ==>
        r == Some(PayloadBytes(blocks)) && writer == Some(old(writer).value + Frames(blocks))
      ensures old(writer).Some? && |Frames(blocks)| > room ==>
        r == None && writer == Some(old(writer).value + Frames(blocks)[..room])
    {
      if writer.None? {
        return None;
      }
      ghost var before := writer.value;
      var left, total := room, 0;
      assert blocks[..0] == [] && before + [] == before;
      for i := 0 to |blocks|
        invariant writer == Some(before + Frames(blocks[..i]))
        invariant total == PayloadBytes(blocks[..i]) && left == room - |Frames(blocks[..i])| >= 0
      {
        var frame := Encoded(blocks[i]);
        SendStep(before, blocks, i);
        FramesCut(blocks, i, room);
        if |frame| > left {
          Regroup(before, Frames(blocks[..i]), frame[..left]);
          writer := Some(writer.value + frame[..left]);
          return None;
        }
        writer := Some(writer.value + frame);
        left := left - |frame|;
        total := total + |blocks[i].data|;
      }
      assert blocks[..|blocks|] == blocks;
      r := Some(total);
    }

    /** One frame; `read_exact` may have consumed part of a frame it then fails on. */
    method DecodeBlock() returns (r: Option<Block>)
      requires reader.Some?
      modifies this`reader
      ensures reader.Some?
      ensures r.Some? <==> Decoded(old(reader).value).Some?
      ensures r.Some? ==> Decoded(old(reader).value) == Some((r.value, reader.value))
    {
      var s := reader.value;
      if |s| < 4 {
        reader := Some([]);
        return None;
      }
      var frameLength := FromBigEndian(s[..4]);
      if frameLength < 9 {
        reader := Some(s[4..]);
        return None;
      }
      if |s| < 4 + frameLength {
        reader := Some([]);
        return None;
      }
      reader := Some(s[4 + frameLength..]);
      r := Some(Block(FromBigEndian(s[4..12]), s[13..4 + frameLength], s[12] != 0));
    }

    method ReceiveBlocks() returns (r: Option<seq<Block>>)
      modifies this`reader
      ensures old(reader).None? ==> r == None && reader == None
      ensures old(reader).Some? ==> (r.Some? <==> Received(old(reader).value).Some?)
      ensures old(reader).Some? && r.Some? ==> reader.Some? && Received(old(reader).value) == Some((r.value, reader.value))
    {
      if reader.None? {
        return None;
      }
      var blocks: seq<Block> := [];
      PrependNothing(Received(reader.value));
      while true
        invariant reader.Some?
        invariant Received(old(reader).value) == Prepended(blocks, Received(reader.value))
        decreases |reader.value|
      {
        ghost var before := reader.value;
        var next := DecodeBlock();
        if next.None? {
          return None;
        }
        ReceiveStep(blocks, before);
        blocks := blocks + [next.value];
        if next.value.isFinal {
          return Some(blocks);
        }
      }
    }
  }

  lemma SendStep(before: seq<Byte>, blocks: seq<Block>, i: nat)
    requires i < |blocks| && forall i | 0 <= i < |blocks| :: ValidBlock(blocks[i])
    ensures before + Frames(blocks[..i]) + Encoded(blocks[i]) == before + Frames(blocks[..i + 1])
    ensures PayloadBytes(blocks[..i]) + |blocks[i].data| == PayloadBytes(blocks[..i + 1])
  {
    FramesAppend(blocks[..i], blocks[i]);
    assert blocks[..i + 1] == blocks[..i] + [blocks[i]];
  }

  lemma {:induction false} FramesPrefix(blocks: seq<Block>, i: nat)
    requires i <= |blocks| && forall i | 0 <= i < |blocks| :: ValidBlock(blocks[i])
    ensures Frames(blocks[..i]) <= Frames(blocks)
    decreases |blocks| - i
  {
    if i == |blocks| {
      assert blocks[..i] == blocks;
    } else {
      FramesPrefix(blocks, i + 1);
      FramesAppend(blocks[..i], blocks[i]);
      assert blocks[..i + 1] == blocks[..i] + [blocks[i]];
    }
  }

  lemma Regroup(x: seq<Byte>, y: seq<Byte>, z: seq<Byte>)
    ensures (x + y) + z == x + (y + z)
  {}

  /** Where the connection fails inside frame i, what went out is the wire cut at that byte. */
  lemma FramesCut(blocks: seq<Block>, i: nat, room: nat)
    requires i < |blocks| && forall i | 0 <= i < |blocks| :: ValidBlock(blocks[i])
    requires |Frames(blocks[..i])| <= room
    ensures |Frames(blocks[..i + 1])| == |Frames(blocks[..i])| + |Encoded(blocks[i])|
    ensures var left := room - |Frames(blocks[..i])|;
            left < |Encoded(blocks[i])| ==>
              |Frames(blocks)| > room && Frames(blocks[..i]) + Encoded(blocks[i])[..left] == Frames(blocks)[..room]
  {
    FramesPrefix(blocks, i + 1);
    FramesAppend(blocks[..i], blocks[i]);
    assert blocks[..i + 1] == blocks[..i] + [blocks[i]];
  }

  lemma PrependNothing(r: Option<(seq<Block>, seq<Byte>)>)
    ensures Prepended([], r) == r
  {
    if r.Some? {
      assert [] + r.value.0 == r.value.0;
    }
  }

  /** One more frame read: the blocks so far and what the rest of the stream gives. */
  lemma ReceiveStep(blocks: seq<Block>, stream: seq<Byte>)
    requires Decoded(stream).Some?
    ensures var (b, rest) := Decoded(stream).value;
            Prepended(blocks, Received(stream)) ==
            if b.isFinal then Some((blocks + [b], rest)) else Prepended(blocks + [b], Received(rest))
  {
    var (b, rest) := Decoded(stream).value;
    if !b.isFinal && Received(rest).Some? {
      var more := Received(rest).value.0;
      assert blocks + ([b] + more) == blocks + [b] + more;
    }
  }

  ghost function Prepended(blocks: seq<Block>, r: Option<(seq<Block>, seq<Byte>)>): Option<(seq<Block>, seq<Byte>)> {
    match r
    case None => None
    case Some((more, rest)) => Some((blocks + more, rest))
  }
}
