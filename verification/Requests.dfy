/** Socket requests (src/socket.rs): one tag byte, or no tag at all for a Signal query, whose
    u32 length starts where a tag would stand. */
module Requests {
  import opened Bytes
  import opened Wire
  import InputGate

  const CAPTURE_REQUEST: Byte := 67 // 'C'
  const SUBSCRIBE_REQUEST: Byte := 83 // 'S'
  const ATTACH_REQUEST: Byte := 84 // 'T'
  const PROGRAMMATIC_INPUT_REQUEST: Byte := 80 // 'P'
  const VIEWER_INPUT_REQUEST: Byte := 86 // 'V'
  const CLOSE_HUMAN_INPUT_REQUEST: Byte := 71 // 'G'
  const OPEN_HUMAN_INPUT_REQUEST: Byte := 79 // 'O'
  const RESIZE_REQUEST: Byte := 82 // 'R'
  const WAIT_REQUEST: Byte := 87 // 'W'
  const WAIT_EXIT_REQUEST: Byte := 88 // 'X'
  const WORKER_OBSERVATION_REQUEST: Byte := 72 // 'H'

  datatype Request<Q> =
    | Capture
    | SubscribeFromBeginning
    | Attach
    | Input(source: InputGate.Source, bytes: Payload)
    | CloseHumanInput
    | OpenHumanInput(lease: U64)
    | Resize(rows: U16, columns: U16)
    | Wait(needle: Payload)
    | WaitExit
    | WorkerObservation
    | Signal(query: Q)

  /** What the writer sends; nothing when a query cannot be archived. */
  function Print<Q>(request: Request<Q>, archive: Archive<Q>): Option<seq<Byte>> {
    match request
    case Capture => Some([CAPTURE_REQUEST])
    case SubscribeFromBeginning => Some([SUBSCRIBE_REQUEST])
    case Attach => Some([ATTACH_REQUEST])
    case Input(Programmatic, bytes) => Some([PROGRAMMATIC_INPUT_REQUEST] + PrintFrame(bytes))
    case Input(Viewer, bytes) => Some([VIEWER_INPUT_REQUEST] + PrintFrame(bytes))
    case CloseHumanInput => Some([CLOSE_HUMAN_INPUT_REQUEST])
    case OpenHumanInput(lease) => Some([OPEN_HUMAN_INPUT_REQUEST] + BigEndian(8, lease))
    case Resize(rows, columns) => Some([RESIZE_REQUEST] + (BigEndian(2, rows) + BigEndian(2, columns)))
    case Wait(needle) => Some([WAIT_REQUEST] + PrintFrame(needle))
    case WaitExit => Some([WAIT_EXIT_REQUEST])
    case WorkerObservation => Some([WORKER_OBSERVATION_REQUEST])
    case Signal(query) =>
      match archive.signalize(query)
      case Some(bytes) => Some(PrintArchive(bytes))
      case None => None
  }

  function ParseSize<Q>(stream: seq<Byte>): Parsed<Request<Q>> {
    Widths();
    match ParseUnsigned(2, stream)
    case Err(error) => Err(error)
    case Ok(rows, after) =>
      match ParseUnsigned(2, after)
      case Err(error) => Err(error)
      case Ok(columns, rest) =>
        UnsignedIsCanonical(2, stream);
        UnsignedIsCanonical(2, after);
        Ok(Resize(rows, columns), rest)
  }

  function ParseLease<Q>(stream: seq<Byte>): Parsed<Request<Q>> {
    Widths();
    match ParseUnsigned(8, stream)
    case Err(error) => Err(error)
    case Ok(lease, rest) =>
      UnsignedIsCanonical(8, stream);
      Ok(OpenHumanInput(lease), rest)
  }

  predicate IsTag(byte: Byte) {
    || byte == CAPTURE_REQUEST || byte == SUBSCRIBE_REQUEST || byte == ATTACH_REQUEST
    || byte == PROGRAMMATIC_INPUT_REQUEST || byte == VIEWER_INPUT_REQUEST
    || byte == CLOSE_HUMAN_INPUT_REQUEST || byte == OPEN_HUMAN_INPUT_REQUEST || byte == RESIZE_REQUEST
    || byte == WAIT_REQUEST || byte == WAIT_EXIT_REQUEST || byte == WORKER_OBSERVATION_REQUEST
  }

  function ParseTagged<Q>(tag: Byte, rest: seq<Byte>): Parsed<Request<Q>>
    requires IsTag(tag)
  {
    if tag == CAPTURE_REQUEST then Ok(Capture, rest)
    else if tag == SUBSCRIBE_REQUEST then Ok(SubscribeFromBeginning, rest)
    else if tag == ATTACH_REQUEST then Ok(Attach, rest)
    else if tag == PROGRAMMATIC_INPUT_REQUEST then
      Map(ParseFrame(rest), (bytes: Payload) => Input(InputGate.Programmatic, bytes))
    else if tag == VIEWER_INPUT_REQUEST then
      Map(ParseFrame(rest), (bytes: Payload) => Input(InputGate.Viewer, bytes))
    else if tag == CLOSE_HUMAN_INPUT_REQUEST then Ok(CloseHumanInput, rest)
    else if tag == OPEN_HUMAN_INPUT_REQUEST then ParseLease(rest)
    else if tag == RESIZE_REQUEST then ParseSize(rest)
    else if tag == WAIT_REQUEST then Map(ParseFrame(rest), (needle: Payload) => Wait(needle))
    else if tag == WAIT_EXIT_REQUEST then Ok(WaitExit, rest)
    else Ok(WorkerObservation, rest)
  }

  function Parse<Q>(stream: seq<Byte>, archive: Archive<Q>): Parsed<Request<Q>> {
    if stream == [] then Err(UnexpectedEof)
    else if IsTag(stream[0]) then ParseTagged(stream[0], stream[1..])
    else Map(ParseArchive(stream, archive), query => Signal(query))
  }

  /** The bytes the 16 MiB bound is about. */
  function PayloadLength<Q>(request: Request<Q>, archive: Archive<Q>): nat {
    match request
    case Input(_, bytes) => |bytes|
    case Wait(needle) => |needle|
    case Signal(query) => (match archive.signalize(query) case Some(bytes) => |bytes| case None => 0)
    case _ => 0
  }

  // ---------------------------------------------------------------- tags against lengths

  lemma FirstByte(bytes: seq<Byte>)
    requires |bytes| == 4
    ensures FromBigEndian(bytes) / 0x100_0000 == bytes[0]
  {
    assert bytes[..1][..0] == [] && FromBigEndian(bytes[..1]) == bytes[0];
    assert bytes[..2][..1] == bytes[..1] && FromBigEndian(bytes[..2]) == 256 * FromBigEndian(bytes[..1]) + bytes[1];
    assert bytes[..3][..2] == bytes[..2] && FromBigEndian(bytes[..3]) == 256 * FromBigEndian(bytes[..2]) + bytes[2];
  }

  /** A Signal length within the bound starts with 0 or 1, which is no tag. */
  lemma BoundedLengthIsNoTag(length: nat)
    requires length <= MAXIMUM_FRAME_LENGTH
    ensures BigEndian(4, length)[0] <= 1 && !IsTag(BigEndian(4, length)[0])
  {
    hide BigEndian, FromBigEndian, Pow256;
    Widths();
    BigEndianRoundTrip(4, length);
    FirstByte(BigEndian(4, length));
  }

  predicate IsFrameTag(byte: Byte) {
    byte == PROGRAMMATIC_INPUT_REQUEST || byte == VIEWER_INPUT_REQUEST || byte == WAIT_REQUEST
  }

  lemma OneMoreDigit(width: nat, value: nat)
    ensures FromBigEndian(BigEndian(width + 1, value)) ==
            256 * FromBigEndian(BigEndian(width, value / 256)) + value % 256
  {
    assert BigEndian(width + 1, value)[..width] == BigEndian(width, value / 256);
  }

  lemma FourDigits(value: nat)
    ensures value % 0x1_0000_0000 ==
            256 * (256 * (256 * (value / 256 / 256 / 256 % 256) + value / 256 / 256 % 256)
                   + value / 256 % 256) + value % 256
  {
  }

  /** The writer's u32 length is the length modulo 2^32. */
  lemma CutLength(length: nat)
    ensures FromBigEndian(BigEndian(4, length)) == length % 0x1_0000_0000
  {
    assert FromBigEndian(BigEndian(0, length / 256 / 256 / 256 / 256)) == 0;
    hide BigEndian, FromBigEndian;
    OneMoreDigit(3, length);
    OneMoreDigit(2, length / 256);
    OneMoreDigit(1, length / 256 / 256);
    OneMoreDigit(0, length / 256 / 256 / 256);
    FourDigits(length);
  }

  /** What the reader makes of a Signal message whose archive is too long. Beyond the bound the
      two forms do collide, and the writer does not check it; of a length that does not fit, it
      keeps the low 32 bits.
      If the top byte of the length on the wire is a tag, the message is taken for that request:
      always, for the eight tags without a frame, and for the other three if the bytes that
      follow happen to announce a frame that is there. If it is no tag, the message is refused,
      unless the cut length is within the bound: then that many bytes are taken for the archive. */
  lemma OversizeSignalExactly<Q>(query: Q, archive: Archive<Q>, rest: seq<Byte>)
    requires archive.signalize(query).Some? && |archive.signalize(query).value| > MAXIMUM_FRAME_LENGTH
    ensures
      var bytes := archive.signalize(query).value;
      var length := |bytes| % 0x1_0000_0000;
      var top := length / 0x100_0000;
      var sent := Print(Signal(query), archive).value + rest;
      var parsed := Parse(sent, archive);
      && sent != [] && sent[0] == top
      && (IsTag(top) ==> parsed == ParseTagged(top, sent[1..]) && (parsed.Ok? ==> !parsed.value.Signal?))
      && (IsTag(top) ==> (parsed.Ok? <==> (IsFrameTag(top) ==> ParseFrame(sent[1..]).Ok?)))
      && (!IsTag(top) && length > MAXIMUM_FRAME_LENGTH ==> parsed == Err(InvalidData))
      && (length <= MAXIMUM_FRAME_LENGTH ==>
            !IsTag(top) && length < |bytes| &&
            parsed == match archive.restore(bytes[..length])
                      case Some(other) => Ok(Signal(other), bytes[length..] + rest)
                      case None => Err(InvalidData))
  {
    hide BigEndian, FromBigEndian, Pow256, ParseFrame, ParseArchive;
    var bytes := archive.signalize(query).value;
    var sent := Print(Signal(query), archive).value + rest;
    CutLength(|bytes|);
    FirstByte(BigEndian(4, |bytes|));
    OversizeArchive(bytes, archive, rest);
    assert |sent[1..]| >= 8;
  }

  lemma OversizeArchive<Q>(bytes: Payload, archive: Archive<Q>, rest: seq<Byte>)
    ensures
      var length := |bytes| % 0x1_0000_0000;
      ParseArchive(PrintArchive(bytes) + rest, archive) ==
      if length > MAXIMUM_FRAME_LENGTH then Err(InvalidData)
      else match archive.restore(bytes[..length])
           case Some(other) => Ok(other, bytes[length..] + rest)
           case None => Err(InvalidData)
  {
    hide BigEndian, FromBigEndian;
    var length := |bytes| % 0x1_0000_0000;
    CutLength(|bytes|);
    ConcatAssociates(BigEndian(4, |bytes|), bytes, rest);
    TakePrinted(BigEndian(4, |bytes|), bytes + rest);
    assert bytes + rest == bytes[..length] + (bytes[length..] + rest);
    TakePrinted(bytes[..length], bytes[length..] + rest);
  }

  /** A capture request, for one. */
  lemma LongSignalReadsAsCapture<Q>(query: Q, archive: Archive<Q>, rest: seq<Byte>)
    requires archive.signalize(query).Some?
    requires |archive.signalize(query).value| % 0x1_0000_0000 / 0x100_0000 == CAPTURE_REQUEST
    ensures
      var sent := Print(Signal(query), archive).value + rest;
      Parse(sent, archive) == Ok(Capture, sent[1..])
  {
    hide Parse, Print;
    OversizeSignalExactly(query, archive, rest);
  }

  // ---------------------------------------------------------------- round trips

  /** Reading what was written gives the request back, and leaves exactly what follows it,
      if and only if its payload is at most 16 MiB. */
  lemma RequestRoundTripExactly<Q>(request: Request<Q>, archive: Archive<Q>, rest: seq<Byte>)
    requires Print(request, archive).Some?
    requires request.Signal? ==> Restores(archive, request.query)
    ensures
      Parse(Print(request, archive).value + rest, archive) == Ok(request, rest)
      <==> PayloadLength(request, archive) <= MAXIMUM_FRAME_LENGTH
  {
    hide ParseFrame, PrintFrame, BigEndian, ParseUnsigned, FromBigEndian, ParseArchive;
    match request
    case Input(source, bytes) =>
      Behind(if source.Viewer? then VIEWER_INPUT_REQUEST else PROGRAMMATIC_INPUT_REQUEST, PrintFrame(bytes), rest);
      FrameRoundTrip(bytes, rest);
    case Wait(needle) =>
      Behind(WAIT_REQUEST, PrintFrame(needle), rest);
      FrameRoundTrip(needle, rest);
    case OpenHumanInput(lease) =>
      Behind(OPEN_HUMAN_INPUT_REQUEST, BigEndian(8, lease), rest);
      U64RoundTrip(lease, rest);
    case Resize(rows, columns) =>
      Behind(RESIZE_REQUEST, BigEndian(2, rows) + BigEndian(2, columns), rest);
      ConcatAssociates(BigEndian(2, rows), BigEndian(2, columns), rest);
      U16RoundTrip(rows, BigEndian(2, columns) + rest);
      U16RoundTrip(columns, rest);
    case Signal(query) =>
      ArchiveRoundTrip(query, archive, rest);
      var bytes := archive.signalize(query).value;
      if |bytes| <= MAXIMUM_FRAME_LENGTH {
        BoundedLengthIsNoTag(|bytes|);
      }
    case _ =>
      assert (Print(request, archive).value + rest)[1..] == rest;
  }

  /** A writer that breaks midway is always noticed: a request cut short reads as the end of
      the stream, never as another request. */
  lemma TruncatedRequest<Q>(request: Request<Q>, archive: Archive<Q>, n: nat)
    requires Print(request, archive).Some? && PayloadLength(request, archive) <= MAXIMUM_FRAME_LENGTH
    requires n < |Print(request, archive).value|
    ensures Parse(Print(request, archive).value[..n], archive) == Err(UnexpectedEof)
  {
    if n > 0 {
      hide ParseFrame, PrintFrame, BigEndian, FromBigEndian, ParseArchive, PrintArchive;
      match request
      case Input(source, bytes) =>
        CutBehind(if source.Viewer? then VIEWER_INPUT_REQUEST else PROGRAMMATIC_INPUT_REQUEST, PrintFrame(bytes), n);
        FrameTruncated(bytes, n - 1);
      case Wait(needle) =>
        CutBehind(WAIT_REQUEST, PrintFrame(needle), n);
        FrameTruncated(needle, n - 1);
      case OpenHumanInput(lease) =>
        CutBehind(OPEN_HUMAN_INPUT_REQUEST, BigEndian(8, lease), n);
      case Resize(rows, columns) =>
        CutBehind(RESIZE_REQUEST, BigEndian(2, rows) + BigEndian(2, columns), n);
      case Signal(query) =>
        var bytes := archive.signalize(query).value;
        BoundedLengthIsNoTag(|bytes|);
        ArchiveTruncated(bytes, archive, n);
        assert PrintArchive(bytes)[..n][0] == BigEndian(4, |bytes|)[0];
      case _ =>
    }
  }

  /** Over a writer that may break anywhere, the reader gets the request or sees the stream end. */
  lemma DeliveredOrTruncated<Q>(request: Request<Q>, archive: Archive<Q>, room: nat)
    requires Print(request, archive).Some? && PayloadLength(request, archive) <= MAXIMUM_FRAME_LENGTH
    requires request.Signal? ==> Restores(archive, request.query)
    ensures
      var sent := Print(request, archive).value;
      Parse(Taken(room, sent), archive) == if |sent| <= room then Ok(request, []) else Err(UnexpectedEof)
  {
    hide Print, Parse;
    var sent := Print(request, archive).value;
    if |sent| <= room {
      RequestRoundTripExactly(request, archive, []);
      assert sent + [] == sent;
    } else {
      TruncatedRequest(request, archive, room);
    }
  }

  /** Conversely, a stream that reads as a request starts with exactly what the writer would
      send for it; a Signal query may have come from any bytes that restore to it. */
  lemma ParsedWasPrinted<Q>(stream: seq<Byte>, archive: Archive<Q>) returns (archived: Payload)
    requires Parse(stream, archive).Ok?
    ensures
      var Ok(request, rest) := Parse(stream, archive);
      if request.Signal? then
        && archive.restore(archived) == Some(request.query) && |archived| <= MAXIMUM_FRAME_LENGTH
        && stream == PrintArchive(archived) + rest
      else
        && PayloadLength(request, archive) <= MAXIMUM_FRAME_LENGTH
        && stream == Print(request, archive).value + rest
  {
    hide ParseFrame, PrintFrame, BigEndian, ParseUnsigned, FromBigEndian, ParseArchive, PrintArchive;
    archived := [];
    var Ok(request, rest) := Parse(stream, archive);
    assert stream == [stream[0]] + stream[1..];
    match request
    case Input(_, bytes) =>
      FrameIsCanonical(stream[1..]);
      ConcatAssociates([stream[0]], PrintFrame(bytes), rest);
    case Wait(needle) =>
      FrameIsCanonical(stream[1..]);
      ConcatAssociates([stream[0]], PrintFrame(needle), rest);
    case OpenHumanInput(lease) =>
      UnsignedIsCanonical(8, stream[1..]);
      ConcatAssociates([stream[0]], BigEndian(8, lease), rest);
    case Resize(rows, columns) =>
      UnsignedIsCanonical(2, stream[1..]);
      var after := ParseUnsigned(2, stream[1..]).rest;
      UnsignedIsCanonical(2, after);
      ConcatAssociates(BigEndian(2, rows), BigEndian(2, columns), rest);
      ConcatAssociates([stream[0]], BigEndian(2, rows) + BigEndian(2, columns), rest);
    case Signal(query) =>
      archived := ArchiveIsFramed(stream, archive);
    case _ =>
  }

  // ---------------------------------------------------------------- reader and writer

  class SocketRequestReader<Q> {
    const reader: FrameReader
    const archive: Archive<Q>

    constructor (reader: FrameReader, archive: Archive<Q>)
      ensures this.reader == reader && this.archive == archive
    {
      this.reader, this.archive := reader, archive;
    }

    method ReadRequest() returns (request: IoResult<Request<Q>>)
      modifies reader
      ensures reader.Reports(request, Parse(old(reader.stream), archive))
    {
      hide ParseFrame, FromBigEndian, ParseArchive;
      var first := reader.ReadExact(1);
      if first.Bad? {
        return Bad(first.bad);
      }
      var tag := first.good[0];
      if tag == CAPTURE_REQUEST {
        request := Good(Capture);
      } else if tag == SUBSCRIBE_REQUEST {
        request := Good(SubscribeFromBeginning);
      } else if tag == ATTACH_REQUEST {
        request := Good(Attach);
      } else if tag == PROGRAMMATIC_INPUT_REQUEST || tag == VIEWER_INPUT_REQUEST {
        var bytes := reader.ReadFrame();
        match bytes
        case Bad(error) => request := Bad(error);
        case Good(b) =>
          request := Good(Input(if tag == VIEWER_INPUT_REQUEST then InputGate.Viewer else InputGate.Programmatic, b));
      } else if tag == CLOSE_HUMAN_INPUT_REQUEST {
        request := Good(CloseHumanInput);
      } else if tag == OPEN_HUMAN_INPUT_REQUEST {
        request := ReadLease();
      } else if tag == RESIZE_REQUEST {
        request := ReadSize();
      } else if tag == WAIT_REQUEST {
        var bytes := reader.ReadFrame();
        match bytes
        case Bad(error) => request := Bad(error);
        case Good(b) => request := Good(Wait(b));
      } else if tag == WAIT_EXIT_REQUEST {
        request := Good(WaitExit);
      } else if tag == WORKER_OBSERVATION_REQUEST {
        request := Good(WorkerObservation);
      } else {
        request := ReadSignalRequest(tag, old(reader.stream));
      }
    }

    method ReadLease() returns (request: IoResult<Request<Q>>)
      modifies reader
      ensures reader.Reports(request, ParseLease(old(reader.stream)))
    {
      hide FromBigEndian;
      Widths();
      var lease := reader.ReadUnsigned(8);
      match lease
      case Bad(error) => request := Bad(error);
      case Good(n) =>
        UnsignedIsCanonical(8, old(reader.stream));
        request := Good(OpenHumanInput(n));
    }

    method ReadSize() returns (request: IoResult<Request<Q>>)
      modifies reader
      ensures reader.Reports(request, ParseSize(old(reader.stream)))
    {
      hide FromBigEndian;
      Widths();
      var rows := reader.ReadUnsigned(2);
      if rows.Bad? {
        return Bad(rows.bad);
      }
      UnsignedIsCanonical(2, old(reader.stream));
      ghost var after := reader.stream;
      var columns := reader.ReadUnsigned(2);
      if columns.Bad? {
        return Bad(columns.bad);
      }
      UnsignedIsCanonical(2, after);
      request := Good(Resize(rows.good, columns.good));
    }

    /** The first length byte is already taken; three more follow it. */
    method ReadSignalRequest(first: Byte, ghost whole: seq<Byte>) returns (request: IoResult<Request<Q>>)
      requires whole == [first] + reader.stream
      modifies reader
      ensures reader.Reports(request, Map(ParseArchive(whole, archive), query => Signal(query)))
    {
      hide FromBigEndian;
      var tail := reader.ReadExact(3);
      if tail.Bad? {
        return Bad(tail.bad);
      }
      assert [first] + tail.good == whole[..4] && reader.stream == whole[4..];
      var bytes := reader.ReadBody(FromBigEndian([first] + tail.good));
      match bytes
      case Bad(error) => request := Bad(error);
      case Good(b) =>
        match archive.restore(b)
        case Some(query) => request := Good(Signal(query));
        case None => request := Bad(InvalidData);
    }
  }

  class SocketRequestWriter<Q> {
    const writer: FrameWriter
    const archive: Archive<Q>

    constructor (writer: FrameWriter, archive: Archive<Q>)
      ensures this.writer == writer && this.archive == archive
    {
      this.writer, this.archive := writer, archive;
    }

    /** All the `write_*_request` methods. */
    method WriteRequest(request: Request<Q>) returns (result: WriteResult)
      modifies writer
      ensures match Print(request, archive)
              case None => result == ArchiveFailed && writer.written == old(writer.written)
              case Some(bytes) => result != ArchiveFailed && writer.Sent(bytes, result == Written)
    {
      hide PrintFrame, BigEndian, PrintArchive;
      var ok;
      match request {
        case Capture => ok := writer.WriteAll([CAPTURE_REQUEST]);
        case SubscribeFromBeginning => ok := writer.WriteAll([SUBSCRIBE_REQUEST]);
        case Attach => ok := writer.WriteAll([ATTACH_REQUEST]);
        case Input(Programmatic, bytes) => ok := writer.WriteTagged(PROGRAMMATIC_INPUT_REQUEST, bytes);
        case Input(Viewer, bytes) => ok := writer.WriteTagged(VIEWER_INPUT_REQUEST, bytes);
        case CloseHumanInput => ok := writer.WriteAll([CLOSE_HUMAN_INPUT_REQUEST]);
        case OpenHumanInput(lease) => ok := writer.WriteTaggedNumber(OPEN_HUMAN_INPUT_REQUEST, lease);
        case Resize(rows, columns) => ok := writer.WriteTaggedPair(RESIZE_REQUEST, 2, rows, columns);
        case Wait(needle) => ok := writer.WriteTagged(WAIT_REQUEST, needle);
        case WaitExit => ok := writer.WriteAll([WAIT_EXIT_REQUEST]);
        case WorkerObservation => ok := writer.WriteAll([WORKER_OBSERVATION_REQUEST]);
        case Signal(query) =>
          match archive.signalize(query) {
            case None => return ArchiveFailed;
            case Some(bytes) => ok := writer.WriteArchive(bytes);
          }
      }
      result := if ok then Written else WriterBroke;
    }
  }
}
