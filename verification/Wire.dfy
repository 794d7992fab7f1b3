/** Framing shared by the socket readers and writers (src/socket.rs): big-endian integers,
    length-bounded frames, streams that end early and writers that break. */
module Wire {
  import opened Bytes

  const MAXIMUM_FRAME_LENGTH: nat := 16 * 1024 * 1024

  type U16 = n: nat | n < 0x1_0000
  type U64 = n: nat | n <= U64_MAX

  /** What a Rust slice or `Vec<u8>` can hold. */
  type Payload = bytes: seq<Byte> | |bytes| <= VEC_MAX

  datatype WireError = UnexpectedEof | InvalidData | ConnectionRefused(message: seq<Byte>)
  datatype IoResult<+T> = Good(good: T) | Bad(bad: WireError)
  datatype Parsed<+T> = Ok(value: T, rest: seq<Byte>) | Err(error: WireError)

  datatype WriteResult = Written | ArchiveFailed | WriterBroke

  // ---------------------------------------------------------------- big-endian integers

  function Pow256(width: nat): nat {
    if width == 0 then 1 else 256 * Pow256(width - 1)
  }

  /** The low `width` bytes of `value`, most significant first. */
  function BigEndian(width: nat, value: nat): (bytes: seq<Byte>)
    ensures |bytes| == width
  {
    if width == 0 then [] else BigEndian(width - 1, value / 256) + [value % 256]
  }

  function FromBigEndian(bytes: seq<Byte>): nat {
    if bytes == [] then 0 else 256 * FromBigEndian(bytes[..|bytes| - 1]) + bytes[|bytes| - 1]
  }

  lemma {:induction false} FromBigEndianBound(bytes: seq<Byte>)
    ensures FromBigEndian(bytes) < Pow256(|bytes|)
  {
    if bytes != [] {
      FromBigEndianBound(bytes[..|bytes| - 1]);
    }
  }

  /** `width` bytes carry a value exactly when it is below 256^width; a larger one is cut silently. */
  lemma {:induction false} BigEndianRoundTrip(width: nat, value: nat)
    ensures FromBigEndian(BigEndian(width, value)) == value <==> value < Pow256(width)
  {
    FromBigEndianBound(BigEndian(width, value));
    if width > 0 && value < Pow256(width) {
      BigEndianRoundTrip(width - 1, value / 256);
      assert BigEndian(width, value)[..width - 1] == BigEndian(width - 1, value / 256);
    }
  }

  lemma {:induction false} BigEndianIsCanonical(bytes: seq<Byte>)
    ensures BigEndian(|bytes|, FromBigEndian(bytes)) == bytes
  {
    if bytes != [] {
      BigEndianIsCanonical(bytes[..|bytes| - 1]);
    }
  }

  lemma Widths()
    ensures Pow256(2) == 0x1_0000 && Pow256(4) == 0x1_0000_0000 && Pow256(8) == U64_MAX + 1
  {
    assert Pow256(1) == 256 && Pow256(2) == 0x1_0000 && Pow256(3) == 0x100_0000;
    assert Pow256(4) == 0x1_0000_0000 && Pow256(5) == 0x100_0000_0000;
    assert Pow256(6) == 0x1_0000_0000_0000 && Pow256(7) == 0x100_0000_0000_0000;
  }

  // ---------------------------------------------------------------- parsing

  function Map<A, B>(parsed: Parsed<A>, f: A -> B): Parsed<B> {
    match parsed
    case Ok(value, rest) => Ok(f(value), rest)
    case Err(error) => Err(error)
  }

  /** `read_exact`. */
  function Take(n: nat, stream: seq<Byte>): Parsed<seq<Byte>> {
    if n <= |stream| then Ok(stream[..n], stream[n..]) else Err(UnexpectedEof)
  }

  function ParseUnsigned(width: nat, stream: seq<Byte>): Parsed<nat> {
    match Take(width, stream)
    case Ok(bytes, rest) => Ok(FromBigEndian(bytes), rest)
    case Err(error) => Err(error)
  }

  /** The bytes announced by a length that was just read. */
  function ParseBody(length: nat, stream: seq<Byte>): Parsed<Payload> {
    if length > MAXIMUM_FRAME_LENGTH then Err(InvalidData) else Take(length, stream)
  }

  function ParseFrame(stream: seq<Byte>): Parsed<Payload> {
    match ParseUnsigned(8, stream)
    case Ok(length, rest) => ParseBody(length, rest)
    case Err(error) => Err(error)
  }

  function PrintFrame(bytes: seq<Byte>): seq<Byte> {
    BigEndian(8, |bytes|) + bytes
  }

  function PrintArchive(bytes: seq<Byte>): seq<Byte> {
    BigEndian(4, |bytes|) + bytes
  }

  /** A Signal message: u32 length, then that many archived bytes. */
  function ParseArchive<Q>(stream: seq<Byte>, archive: Archive<Q>): Parsed<Q> {
    match ParseUnsigned(4, stream)
    case Err(error) => Err(error)
    case Ok(length, after) =>
      match ParseBody(length, after)
      case Err(error) => Err(error)
      case Ok(bytes, rest) =>
        match archive.restore(bytes)
        case Some(message) => Ok(message, rest)
        case None => Err(InvalidData)
  }

  lemma TakePrinted(bytes: seq<Byte>, rest: seq<Byte>)
    ensures Take(|bytes|, bytes + rest) == Ok(bytes, rest)
  {
  }

  lemma UnsignedRoundTrip(width: nat, value: nat, rest: seq<Byte>)
    ensures
      var parsed := ParseUnsigned(width, BigEndian(width, value) + rest);
      && parsed.Ok? && parsed.rest == rest && parsed.value < Pow256(width)
      && (parsed.value == value <==> value < Pow256(width))
  {
    FromBigEndianBound(BigEndian(width, value));
    BigEndianRoundTrip(width, value);
    TakePrinted(BigEndian(width, value), rest);
  }

  lemma U64RoundTrip(value: U64, rest: seq<Byte>)
    ensures ParseUnsigned(8, BigEndian(8, value) + rest) == Ok(value, rest)
  {
    hide Pow256, BigEndian, FromBigEndian;
    Widths();
    UnsignedRoundTrip(8, value, rest);
  }

  lemma U16RoundTrip(value: U16, rest: seq<Byte>)
    ensures ParseUnsigned(2, BigEndian(2, value) + rest) == Ok(value, rest)
  {
    hide Pow256, BigEndian, FromBigEndian;
    Widths();
    UnsignedRoundTrip(2, value, rest);
  }

  /** A frame comes back, and nothing after it is touched, exactly when it is at most 16 MiB;
      the writer sends a longer one all the same, and the reader then refuses it. */
  lemma FrameRoundTrip(bytes: Payload, rest: seq<Byte>)
    ensures ParseFrame(PrintFrame(bytes) + rest)
            == if |bytes| <= MAXIMUM_FRAME_LENGTH then Ok(bytes, rest) else Err(InvalidData)
  {
    ConcatAssociates(BigEndian(8, |bytes|), bytes, rest);
    U64RoundTrip(|bytes|, bytes + rest);
    TakePrinted(bytes, rest);
  }

  /** A Signal message comes back exactly when its archive is at most 16 MiB: a longer one is
      refused, or, once its length no longer fits 32 bits, cut to another length. */
  lemma ArchiveRoundTrip<Q>(message: Q, archive: Archive<Q>, rest: seq<Byte>)
    requires archive.signalize(message).Some? && Restores(archive, message)
    ensures
      var bytes := archive.signalize(message).value;
      ParseArchive(PrintArchive(bytes) + rest, archive) == Ok(message, rest) <==> |bytes| <= MAXIMUM_FRAME_LENGTH
  {
    hide Pow256, BigEndian, ParseUnsigned;
    var bytes := archive.signalize(message).value;
    Widths();
    ConcatAssociates(BigEndian(4, |bytes|), bytes, rest);
    UnsignedRoundTrip(4, |bytes|, bytes + rest);
    TakePrinted(bytes, rest);
  }

  lemma ArchiveTruncated<Q>(bytes: Payload, archive: Archive<Q>, n: nat)
    requires |bytes| <= MAXIMUM_FRAME_LENGTH && n < |PrintArchive(bytes)|
    ensures ParseArchive(PrintArchive(bytes)[..n], archive) == Err(UnexpectedEof)
  {
    if n >= 4 {
      hide Pow256, BigEndian;
      assert PrintArchive(bytes)[..n] == BigEndian(4, |bytes|) + bytes[..n - 4];
      Widths();
      UnsignedRoundTrip(4, |bytes|, bytes[..n - 4]);
    }
  }

  /** Whatever is accepted was a length within the bound and that many bytes that restore. */
  lemma ArchiveIsFramed<Q>(stream: seq<Byte>, archive: Archive<Q>) returns (bytes: Payload)
    requires ParseArchive(stream, archive).Ok?
    ensures |bytes| <= MAXIMUM_FRAME_LENGTH
    ensures stream == PrintArchive(bytes) + ParseArchive(stream, archive).rest
    ensures archive.restore(bytes) == Some(ParseArchive(stream, archive).value)
  {
    hide BigEndian, FromBigEndian, Pow256;
    UnsignedIsCanonical(4, stream);
    var header := ParseUnsigned(4, stream);
    var body := ParseBody(header.value, header.rest);
    bytes := body.value;
    TakenSplit(header.value, header.rest);
    ConcatAssociates(BigEndian(4, header.value), bytes, body.rest);
  }

  lemma UnsignedIsCanonical(width: nat, stream: seq<Byte>)
    requires ParseUnsigned(width, stream).Ok?
    ensures stream == BigEndian(width, ParseUnsigned(width, stream).value) + ParseUnsigned(width, stream).rest
    ensures ParseUnsigned(width, stream).value < Pow256(width)
  {
    BigEndianIsCanonical(stream[..width]);
    FromBigEndianBound(stream[..width]);
  }

  lemma FrameIsCanonical(stream: seq<Byte>)
    requires ParseFrame(stream).Ok?
    ensures stream == PrintFrame(ParseFrame(stream).value) + ParseFrame(stream).rest
    ensures |ParseFrame(stream).value| <= MAXIMUM_FRAME_LENGTH
  {
    hide BigEndian, FromBigEndian, Pow256;
    UnsignedIsCanonical(8, stream);
    var header := ParseUnsigned(8, stream);
    var body := ParseBody(header.value, header.rest);
    TakenSplit(header.value, header.rest);
    ConcatAssociates(BigEndian(8, header.value), body.value, body.rest);
  }

  lemma TakenSplit(n: nat, stream: seq<Byte>)
    requires Take(n, stream).Ok?
    ensures |Take(n, stream).value| == n && stream == Take(n, stream).value + Take(n, stream).rest
  {
  }

  lemma FrameTruncated(bytes: Payload, n: nat)
    requires |bytes| <= MAXIMUM_FRAME_LENGTH && n < |PrintFrame(bytes)|
    ensures ParseFrame(PrintFrame(bytes)[..n]) == Err(UnexpectedEof)
  {
    if n >= 8 {
      assert PrintFrame(bytes)[..n] == BigEndian(8, |bytes|) + bytes[..n - 8];
      U64RoundTrip(|bytes|, bytes[..n - 8]);
    }
  }

  lemma Behind(tag: Byte, body: seq<Byte>, rest: seq<Byte>)
    ensures ([tag] + body + rest)[0] == tag && ([tag] + body + rest)[1..] == body + rest
  {
  }

  lemma CutBehind(tag: Byte, body: seq<Byte>, n: nat)
    requires 0 < n <= |body|
    ensures ([tag] + body)[..n][0] == tag && ([tag] + body)[..n][1..] == body[..n - 1]
  {
  }

  // ---------------------------------------------------------------- streams

  /** A `Read` stream with what it still has to give before it ends. */
  class FrameReader {
    var stream: seq<Byte>

    constructor (stream: seq<Byte>)
      ensures this.stream == stream
    {
      this.stream := stream;
    }

    /** `outcome` and the new stream are those of `parsed`; after an error the position is unspecified. */
    ghost predicate Reports<T>(outcome: IoResult<T>, parsed: Parsed<T>)
      reads this
    {
      match parsed
      case Ok(value, rest) => outcome == Good(value) && stream == rest
      case Err(error) => outcome == Bad(error)
    }

    method ReadExact(n: nat) returns (bytes: IoResult<seq<Byte>>)
      modifies this
      ensures Reports(bytes, Take(n, old(stream)))
    {
      if n <= |stream| {
        bytes, stream := Good(stream[..n]), stream[n..];
      } else {
        bytes, stream := Bad(UnexpectedEof), [];
      }
    }

    /** `read_u64`, `read_u16`, and the u32 lengths of Signal messages. */
    method ReadUnsigned(width: nat) returns (value: IoResult<nat>)
      modifies this
      ensures Reports(value, ParseUnsigned(width, old(stream)))
    {
      var bytes := ReadExact(width);
      match bytes
      case Bad(error) => value := Bad(error);
      case Good(digits) => value := Good(FromBigEndian(digits));
    }

    method ReadBody(length: nat) returns (bytes: IoResult<Payload>)
      modifies this
      ensures Reports(bytes, ParseBody(length, old(stream)))
    {
      if length > MAXIMUM_FRAME_LENGTH {
        return Bad(InvalidData);
      }
      bytes := ReadExact(length);
    }

    method ReadFrame() returns (bytes: IoResult<Payload>)
      modifies this
      ensures Reports(bytes, ParseFrame(old(stream)))
    {
      hide FromBigEndian;
      var length := ReadUnsigned(8);
      match length
      case Bad(error) => bytes := Bad(error);
      case Good(n) => bytes := ReadBody(n);
    }
  }

  /** What a writer with `room` bytes left takes of `bytes` before it breaks. */
  function Taken(room: nat, bytes: seq<Byte>): seq<Byte> {
    if |bytes| <= room then bytes else bytes[..room]
  }

  /** A `Write` stream that takes `room` more bytes and then fails for good. */
  class FrameWriter {
    var written: seq<Byte>
    var room: nat

    constructor (room: nat)
      ensures written == [] && this.room == room
    {
      written, this.room := [], room;
    }

    /** Between `before` and now exactly `bytes` was sent: all of it if `ok`, else the prefix that fitted. */
    twostate predicate Sent(bytes: seq<Byte>, ok: bool)
      reads this
    {
      && written == old(written) + Taken(old(room), bytes)
      && room == old(room) - |Taken(old(room), bytes)|
      && (ok <==> |bytes| <= old(room))
    }

    method WriteAll(bytes: seq<Byte>) returns (ok: bool)
      modifies this
      ensures Sent(bytes, ok)
    {
      ok := |bytes| <= room;
      if ok {
        written, room := written + bytes, room - |bytes|;
      } else {
        written, room := written + bytes[..room], 0;
      }
    }

    /** `write_u64`, `write_u16` and the u32 lengths: the low bytes of the value. */
    method WriteUnsigned(width: nat, value: nat) returns (ok: bool)
      modifies this
      ensures Sent(BigEndian(width, value), ok)
    {
      ok := WriteAll(BigEndian(width, value));
    }

    method WriteFrame(bytes: Payload) returns (ok: bool)
      modifies this
      ensures Sent(PrintFrame(bytes), ok)
    {
      hide BigEndian;
      ok := WriteUnsigned(8, |bytes|);
      SentInTwo(room, old(written), old(room), BigEndian(8, |bytes|), bytes);
      if ok {
        ok := WriteAll(bytes);
      }
    }

    method WriteTagged(tag: Byte, bytes: Payload) returns (ok: bool)
      modifies this
      ensures Sent([tag] + PrintFrame(bytes), ok)
    {
      hide PrintFrame;
      ok := WriteAll([tag]);
      SentInTwo(room, old(written), old(room), [tag], PrintFrame(bytes));
      if ok {
        ok := WriteFrame(bytes);
      }
    }

    method WriteTaggedNumber(tag: Byte, n: U64) returns (ok: bool)
      modifies this
      ensures Sent([tag] + BigEndian(8, n), ok)
    {
      hide BigEndian;
      ok := WriteAll([tag]);
      SentInTwo(room, old(written), old(room), [tag], BigEndian(8, n));
      if ok {
        ok := WriteUnsigned(8, n);
      }
    }

    method WriteTaggedPair(tag: Byte, width: nat, a: nat, b: nat) returns (ok: bool)
      modifies this
      ensures Sent([tag] + (BigEndian(width, a) + BigEndian(width, b)), ok)
    {
      hide BigEndian;
      var first, second := BigEndian(width, a), BigEndian(width, b);
      ok := WriteAll([tag]);
      SentInTwo(room, old(written), old(room), [tag], first + second);
      if ok {
        ghost var before, left := written, room;
        ok := WriteUnsigned(width, a);
        SentInTwo(room, before, left, first, second);
        if ok {
          ok := WriteUnsigned(width, b);
        }
      }
    }

    /** The u32 length of a Signal message is `len as u32`. */
    method WriteArchive(bytes: Payload) returns (ok: bool)
      modifies this
      ensures Sent(PrintArchive(bytes), ok)
    {
      hide BigEndian;
      ok := WriteUnsigned(4, |bytes|);
      SentInTwo(room, old(written), old(room), BigEndian(4, |bytes|), bytes);
      if ok {
        ok := WriteAll(bytes);
      }
    }
  }

  /** What `signalize` and `restore` of the signal-terminal library do with a message. */
  datatype Archive<!Q> = Archive(signalize: Q -> Option<Payload>, restore: seq<Byte> -> Option<Q>)

  ghost predicate Restores<Q>(archive: Archive<Q>, message: Q) {
    archive.signalize(message).Some? ==> archive.restore(archive.signalize(message).value) == Some(message)
  }

  /** Writing `a` and, if that went well, `b` sends what writing `a + b` would. */
  lemma SentInTwo(left: nat, written: seq<Byte>, room: nat, a: seq<Byte>, b: seq<Byte>)
    requires left == room - |Taken(room, a)|
    ensures |a| <= room ==> (written + a) + Taken(left, b) == written + Taken(room, a + b)
    ensures |a| <= room ==> |Taken(left, b)| + |a| == |Taken(room, a + b)|
    ensures |a| > room ==> Taken(room, a) == Taken(room, a + b)
  {
  }
}
