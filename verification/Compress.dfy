/** Compression framing: a flag byte, then the payload, compressed when it is long enough and the
    encoder accepts it. The codec itself is abstract. */
module Compress {
  import opened Wrappers

  type Bytes = seq<bv8>

  const COMPRESSION_SIZE_THRESHOLD := 1024
  const UNCOMPRESS_FLAG: bv8 := 0x00
  const COMPRESS_FLAG: bv8 := 0x80
  const MAX_UNCOMPRESSED_LEN := 0x80_0000

  /** The encoder may refuse; the decoder reads the original length first, and then fills a buffer of
      that length or fails. */
  datatype Codec = Codec(encode: Bytes -> Option<Bytes>, length: Bytes -> Option<nat>, decode: Bytes -> Option<Bytes>) {
    ghost predicate Inverts() {
      forall x | encode(x).Some? :: length(encode(x).value) == Some(|x|) && decode(encode(x).value) == Some(x)
    }
  }

  /** A frame being built or taken apart in place. */
  class Message {
    var inner: Bytes

    constructor FromRaw(data: Bytes)
      ensures inner == [0x00] + data
    {
      inner := [UNCOMPRESS_FLAG] + data;
    }

    constructor FromCompressed(data: Bytes)
      ensures inner == data
    {
      inner := data;
    }

    /** Keep the first `at` bytes and hand over the rest. */
    method SplitOff(at: nat) returns (tail: Bytes)
      requires at <= |inner|
      modifies this
      ensures inner == old(inner)[..at] && tail == old(inner)[at..]
    {
      inner, tail := inner[..at], inner[at..];
    }

    method Extend(tail: Bytes)
      modifies this
      ensures inner == old(inner) + tail
    {
      inner := inner + tail;
    }

    method SetCompressFlag()
      requires inner != []
      modifies this
      ensures inner == [COMPRESS_FLAG] + old(inner)[1..]
    {
      inner := inner[0 := COMPRESS_FLAG];
    }

    /** Afterwards the frame is flagged and compressed, or byte for byte what it was. */
    method Compress(codec: Codec) returns (frame: Bytes)
      requires inner != []
      modifies this
      ensures frame == inner == Compressed(codec, old(inner))
    {
      if |inner| > COMPRESSION_SIZE_THRESHOLD {
        var input := SplitOff(1);
        match codec.encode(input) {
          case Some(res) =>
            Extend(res);
            SetCompressFlag();
          case None => Extend(input);
        }
      }
      frame := inner;
    }

    /** Takes any bytes at all apart, without reaching outside them. */
    method Decompress(codec: Codec) returns (r: Option<Bytes>)
      modifies this
      ensures r == Decompressed(codec, old(inner))
    {
      if inner == [] {
        return None;
      }
      if inner[0] & COMPRESS_FLAG != 0 {
        match codec.length(inner[1..]) {
          case Some(len) =>
            if len > MAX_UNCOMPRESSED_LEN {
              return None;
            }
            r := codec.decode(inner[1..]);
          case None => return None;
        }
      } else {
        var payload := SplitOff(1);
        inner := payload;
        r := Some(inner);
      }
    }
  }

  function Compressed(codec: Codec, frame: Bytes): Bytes
    requires frame != []
  {
    if |frame| <= COMPRESSION_SIZE_THRESHOLD || codec.encode(frame[1..]).None? then frame
    else [COMPRESS_FLAG] + codec.encode(frame[1..]).value
  }

  function Decompressed(codec: Codec, frame: Bytes): Option<Bytes> {
    if frame == [] then None
    else if frame[0] & COMPRESS_FLAG == 0 then Some(frame[1..])
    else
      match codec.length(frame[1..])
      case Some(len) => if len > MAX_UNCOMPRESSED_LEN then None else codec.decode(frame[1..])
      case None => None
  }

  method CompressData(codec: Codec, src: Bytes) returns (frame: Bytes)
    ensures frame ==
            if |src| >= 1024 && codec.encode(src).Some? then [0x80] + codec.encode(src).value else [0x00] + src
  {
    HowPayloadsAreFramed(codec, src);
    var m := new Message.FromRaw(src);
    frame := m.Compress(codec);
  }

  method DecompressData(codec: Codec, src: Bytes) returns (r: Option<Bytes>)
    ensures r == Decompressed(codec, src)
  {
    var m := new Message.FromCompressed(src);
    r := m.Decompress(codec);
  }

  /** The payload survives framing exactly when it is short, refused by the encoder, or no longer than
      the receiver's limit; a longer one that was compressed is always rejected, never altered. */
  lemma FramingRoundTrip(codec: Codec, x: Bytes)
    requires codec.Inverts()
    ensures var r := Decompressed(codec, Compressed(codec, [UNCOMPRESS_FLAG] + x));
            && (r == Some(x) <==> |x| < 1024 || codec.encode(x).None? || |x| <= 0x80_0000)
            && (r == Some(x) || r == None)
  {
    var frame := [UNCOMPRESS_FLAG] + x;
    assert frame[1..] == x;
    assert UNCOMPRESS_FLAG & COMPRESS_FLAG == 0 && COMPRESS_FLAG & COMPRESS_FLAG != 0;
    if |x| >= 1024 && codec.encode(x).Some? {
      assert ([COMPRESS_FLAG] + codec.encode(x).value)[1..] == codec.encode(x).value;
    }
  }

  lemma {:induction false} TopBit(b: bv8)
    ensures b & COMPRESS_FLAG != 0 <==> b >= 0x80
  {}

  /** How a frame is read, by its first byte: from 0x80 up the rest is decoded, unless its length is
      unreadable or above the limit; below, the rest is the payload. */
  lemma {:induction false} HowFramesAreRead(codec: Codec, b: bv8, z: Bytes)
    ensures Decompressed(codec, []) == None
    ensures b < 0x80 ==> Decompressed(codec, [b] + z) == Some(z)
    ensures b >= 0x80 && codec.length(z).Some? && codec.length(z).value <= 0x80_0000 ==>
              Decompressed(codec, [b] + z) == codec.decode(z)
    ensures b >= 0x80 && (codec.length(z).None? || codec.length(z).value > 0x80_0000) ==>
              Decompressed(codec, [b] + z) == None
  {
    TopBit(b);
    assert ([b] + z)[1..] == z;
  }

  /** How a payload is framed: behind 0x80 and encoded when it is at least 1024 bytes long and the encoder
      takes it, behind 0x00 and as it is otherwise. */
  lemma {:induction false} HowPayloadsAreFramed(codec: Codec, x: Bytes)
    ensures Compressed(codec, [UNCOMPRESS_FLAG] + x) ==
            if |x| >= 1024 && codec.encode(x).Some? then [0x80] + codec.encode(x).value else [0x00] + x
  {
    assert ([UNCOMPRESS_FLAG] + x)[1..] == x;
  }

  /** The flag is the top bit alone: the seven reserved bits never change how a frame is read. */
  lemma ReservedBitsIgnored(codec: Codec, frame: Bytes, flag: bv8)
    requires frame != [] && (flag >= 0x80 <==> frame[0] >= 0x80)
    ensures Decompressed(codec, frame[0 := flag]) == Decompressed(codec, frame)
  {
    TopBit(flag);
    TopBit(frame[0]);
    assert frame[0 := flag][1..] == frame[1..];
  }

  /** Both directions, as the two endpoints run them. */
  method Transmit(codec: Codec, x: Bytes) returns (received: Option<Bytes>)
    requires codec.Inverts()
    ensures received == Some(x) <==> |x| < 1024 || codec.encode(x).None? || |x| <= 0x80_0000
  {
    var frame := CompressData(codec, x);
    received := DecompressData(codec, frame);
    FramingRoundTrip(codec, x);
  }
}
