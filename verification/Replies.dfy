/** Socket replies (src/socket.rs). The reader knows which reply it is waiting for; some carry
    a tag, snapshots, exit statuses and Signal events do not. */
module Replies {
  import opened Bytes
  import opened Wire

  const ACCEPTANCE_REPLY: Byte := 65 // 'A'
  const ATTACH_ACCEPTED_REPLY: Byte := 73 // 'I'
  const ATTACH_REJECTED_REPLY: Byte := 74 // 'J'
  const GATE_LEASE_REPLY: Byte := 76 // 'L'
  const GATE_RELEASE_REPLY: Byte := 85 // 'U'
  const WAIT_SATISFIED_REPLY: Byte := 89 // 'Y'

  datatype Reply<E> =
    | Snapshot(bytes: Payload)
    | Acceptance
    | AttachAccepted
    | AttachRejected(reason: Payload)
    | GateLease(lease: U64)
    | GateRelease(released: U64, heldByteCount: U64)
    | WaitSatisfied
    | ExitStatus(status: Payload)
    | SignalEvent(event: E)

  datatype Expected =
    | ASnapshot | AnAcceptance | AnAttachReply | AGateLease | AGateRelease | AWaitReply | AnExitStatus | ASignalEvent

  function ExpectedFor<E>(reply: Reply<E>): Expected {
    match reply
    case Snapshot(_) => ASnapshot
    case Acceptance => AnAcceptance
    case AttachAccepted => AnAttachReply
    case AttachRejected(_) => AnAttachReply
    case GateLease(_) => AGateLease
    case GateRelease(_, _) => AGateRelease
    case WaitSatisfied => AWaitReply
    case ExitStatus(_) => AnExitStatus
    case SignalEvent(_) => ASignalEvent
  }

  function Print<E>(reply: Reply<E>, archive: Archive<E>): Option<seq<Byte>> {
    match reply
    case Snapshot(bytes) => Some(PrintFrame(bytes))
    case Acceptance => Some([ACCEPTANCE_REPLY])
    case AttachAccepted => Some([ATTACH_ACCEPTED_REPLY])
    case AttachRejected(reason) => Some([ATTACH_REJECTED_REPLY] + PrintFrame(reason))
    case GateLease(lease) => Some([GATE_LEASE_REPLY] + BigEndian(8, lease))
    case GateRelease(released, held) => Some([GATE_RELEASE_REPLY] + (BigEndian(8, released) + BigEndian(8, held)))
    case WaitSatisfied => Some([WAIT_SATISFIED_REPLY])
    case ExitStatus(status) => Some(PrintFrame(status))
    case SignalEvent(event) =>
      match archive.signalize(event)
      case Some(bytes) => Some(PrintArchive(bytes))
      case None => None
  }

  /** `String::from_utf8` over a frame, given what counts as UTF-8. */
  function ParseString(stream: seq<Byte>, utf8: seq<Byte> -> bool): Parsed<Payload> {
    match ParseFrame(stream)
    case Err(error) => Err(error)
    case Ok(bytes, rest) => if utf8(bytes) then Ok(bytes, rest) else Err(InvalidData)
  }

  function ParseTag(tag: Byte, stream: seq<Byte>): Parsed<()> {
    if stream == [] then Err(UnexpectedEof)
    else if stream[0] != tag then Err(InvalidData)
    else Ok((), stream[1..])
  }

  function ParseLease(stream: seq<Byte>): Parsed<U64> {
    Widths();
    match ParseUnsigned(8, stream)
    case Err(error) => Err(error)
    case Ok(n, rest) =>
      UnsignedIsCanonical(8, stream);
      Ok(n, rest)
  }

  function ParseRelease<E>(stream: seq<Byte>): Parsed<Reply<E>> {
    match ParseLease(stream)
    case Err(error) => Err(error)
    case Ok(released, after) => Map(ParseLease(after), (held: U64) => GateRelease(released, held))
  }

  function ParseAttach<E>(stream: seq<Byte>, utf8: seq<Byte> -> bool): Parsed<Reply<E>> {
    if stream == [] then Err(UnexpectedEof)
    else if stream[0] == ATTACH_ACCEPTED_REPLY then Ok(AttachAccepted, stream[1..])
    else if stream[0] == ATTACH_REJECTED_REPLY then
      Map(ParseString(stream[1..], utf8), (reason: Payload) => AttachRejected(reason))
    else Err(InvalidData)
  }

  function Then<A>(tagged: Parsed<()>, next: seq<Byte> -> Parsed<A>): Parsed<A> {
    match tagged
    case Ok(_, rest) => next(rest)
    case Err(error) => Err(error)
  }

  function Parse<E>(expected: Expected, stream: seq<Byte>, archive: Archive<E>, utf8: seq<Byte> -> bool)
    : Parsed<Reply<E>>
  {
    match expected
    case ASnapshot => Map(ParseFrame(stream), (bytes: Payload) => Snapshot(bytes))
    case AnAcceptance => Map(ParseTag(ACCEPTANCE_REPLY, stream), (u: ()) => Acceptance)
    case AnAttachReply => ParseAttach(stream, utf8)
    case AGateLease => Then(ParseTag(GATE_LEASE_REPLY, stream), rest => Map(ParseLease(rest), (n: U64) => GateLease(n)))
    case AGateRelease => Then(ParseTag(GATE_RELEASE_REPLY, stream), rest => ParseRelease(rest))
    case AWaitReply => Map(ParseTag(WAIT_SATISFIED_REPLY, stream), (u: ()) => WaitSatisfied)
    case AnExitStatus => Map(ParseString(stream, utf8), (status: Payload) => ExitStatus(status))
    case ASignalEvent => Map(ParseArchive(stream, archive), event => SignalEvent(event))
  }

  function PayloadLength<E>(reply: Reply<E>, archive: Archive<E>): nat {
    match reply
    case Snapshot(bytes) => |bytes|
    case AttachRejected(reason) => |reason|
    case ExitStatus(status) => |status|
    case SignalEvent(event) => (match archive.signalize(event) case Some(bytes) => |bytes| case None => 0)
    case _ => 0
  }

  /** A Rust `String` is UTF-8, and an archived message restores to itself. */
  ghost predicate WellFormed<E>(reply: Reply<E>, archive: Archive<E>, utf8: seq<Byte> -> bool) {
    match reply
    case AttachRejected(reason) => utf8(reason)
    case ExitStatus(status) => utf8(status)
    case SignalEvent(event) => Restores(archive, event)
    case _ => true
  }

  // ---------------------------------------------------------------- round trips

  /** A reader waiting for the right reply gets it, and leaves exactly what follows it, if and
      only if its payload is at most 16 MiB. */
  lemma ReplyRoundTripExactly<E>(reply: Reply<E>, archive: Archive<E>, utf8: seq<Byte> -> bool, rest: seq<Byte>)
    requires Print(reply, archive).Some? && WellFormed(reply, archive, utf8)
    ensures
      Parse(ExpectedFor(reply), Print(reply, archive).value + rest, archive, utf8) == Ok(reply, rest)
      <==> PayloadLength(reply, archive) <= MAXIMUM_FRAME_LENGTH
  {
    hide ParseFrame, PrintFrame, BigEndian, ParseUnsigned, FromBigEndian, ParseArchive, PrintArchive;
    match reply
    case Snapshot(bytes) => FrameRoundTrip(bytes, rest);
    case AttachRejected(reason) =>
      Behind(ATTACH_REJECTED_REPLY, PrintFrame(reason), rest);
      FrameRoundTrip(reason, rest);
    case GateLease(lease) =>
      Behind(GATE_LEASE_REPLY, BigEndian(8, lease), rest);
      U64RoundTrip(lease, rest);
    case GateRelease(released, held) =>
      Behind(GATE_RELEASE_REPLY, BigEndian(8, released) + BigEndian(8, held), rest);
      ConcatAssociates(BigEndian(8, released), BigEndian(8, held), rest);
      U64RoundTrip(released, BigEndian(8, held) + rest);
      U64RoundTrip(held, rest);
    case ExitStatus(status) => FrameRoundTrip(status, rest);
    case SignalEvent(event) => ArchiveRoundTrip(event, archive, rest);
    case _ =>
      assert (Print(reply, archive).value + rest)[1..] == rest;
  }

  /** A reply cut short reads as the end of the stream, never as another reply. */
  lemma TruncatedReply<E>(reply: Reply<E>, archive: Archive<E>, utf8: seq<Byte> -> bool, n: nat)
    requires Print(reply, archive).Some? && PayloadLength(reply, archive) <= MAXIMUM_FRAME_LENGTH
    requires n < |Print(reply, archive).value|
    ensures Parse(ExpectedFor(reply), Print(reply, archive).value[..n], archive, utf8) == Err(UnexpectedEof)
  {
    hide PrintFrame, BigEndian, FromBigEndian, ParseArchive, PrintArchive;
    match reply
    case Snapshot(bytes) => FrameTruncated(bytes, n);
    case AttachRejected(reason) =>
      if n > 0 {
        CutBehind(ATTACH_REJECTED_REPLY, PrintFrame(reason), n);
        FrameTruncated(reason, n - 1);
      }
    case GateLease(lease) =>
      if n > 0 {
        CutBehind(GATE_LEASE_REPLY, BigEndian(8, lease), n);
      }
    case GateRelease(released, held) =>
      if n > 0 {
        CutBehind(GATE_RELEASE_REPLY, BigEndian(8, released) + BigEndian(8, held), n);
      }
    case ExitStatus(status) => FrameTruncated(status, n);
    case SignalEvent(event) => ArchiveTruncated(archive.signalize(event).value, archive, n);
    case _ =>
  }

  predicate Tagged(expected: Expected) {
    !expected.ASnapshot? && !expected.AnExitStatus? && !expected.ASignalEvent?
  }

  /** A tagged reply is never taken for another one: the wrong tag is invalid data. */
  lemma TagsKeepRepliesApart<E>(
    expected: Expected, reply: Reply<E>, archive: Archive<E>, utf8: seq<Byte> -> bool, rest: seq<Byte>)
    requires Tagged(expected) && Tagged(ExpectedFor(reply)) && expected != ExpectedFor(reply)
    ensures Parse(expected, Print(reply, archive).value + rest, archive, utf8) == Err(InvalidData)
  {
    hide ParseFrame, PrintFrame, BigEndian, ParseUnsigned;
    match reply
    case AttachRejected(reason) => Behind(ATTACH_REJECTED_REPLY, PrintFrame(reason), rest);
    case GateLease(lease) => Behind(GATE_LEASE_REPLY, BigEndian(8, lease), rest);
    case GateRelease(released, held) =>
      Behind(GATE_RELEASE_REPLY, BigEndian(8, released) + BigEndian(8, held), rest);
    case _ =>
  }

  // ---------------------------------------------------------------- reader and writer

  class SocketReplyReader<E> {
    const reader: FrameReader
    const archive: Archive<E>
    const utf8: seq<Byte> -> bool

    constructor (reader: FrameReader, archive: Archive<E>, utf8: seq<Byte> -> bool)
      ensures this.reader == reader && this.archive == archive && this.utf8 == utf8
    {
      this.reader, this.archive, this.utf8 := reader, archive, utf8;
    }

    ghost predicate Got(reply: IoResult<Reply<E>>, expected: Expected, stream: seq<Byte>)
      reads reader
    {
      reader.Reports(reply, Parse(expected, stream, archive, utf8))
    }

    method ReadSnapshot() returns (reply: IoResult<Reply<E>>)
      modifies reader
      ensures Got(reply, ASnapshot, old(reader.stream))
    {
      var bytes := reader.ReadFrame();
      match bytes
      case Bad(error) => reply := Bad(error);
      case Good(b) => reply := Good(Snapshot(b));
    }

    method ReadAcceptance() returns (reply: IoResult<Reply<E>>)
      modifies reader
      ensures Got(reply, AnAcceptance, old(reader.stream))
    {
      var tag := ReadExpectedTag(ACCEPTANCE_REPLY);
      reply := if tag.Good? then Good(Acceptance) else Bad(tag.bad);
    }

    /** A rejection is an error that carries the daemon's message, read to its end. */
    method ReadAttachAcceptance() returns (reply: IoResult<Reply<E>>)
      modifies reader
      ensures match Parse(AnAttachReply, old(reader.stream), archive, utf8)
              case Ok(AttachRejected(reason), rest) => reply == Bad(ConnectionRefused(reason)) && reader.stream == rest
              case parsed => reader.Reports(reply, parsed)
    {
      var tag := reader.ReadExact(1);
      if tag.Bad? {
        return Bad(tag.bad);
      }
      if tag.good[0] == ATTACH_ACCEPTED_REPLY {
        reply := Good(AttachAccepted);
      } else if tag.good[0] == ATTACH_REJECTED_REPLY {
        var message := ReadString();
        reply := Bad(if message.Good? then ConnectionRefused(message.good) else message.bad);
      } else {
        reply := Bad(InvalidData);
      }
    }

    method ReadGateLease() returns (reply: IoResult<Reply<E>>)
      modifies reader
      ensures Got(reply, AGateLease, old(reader.stream))
    {
      var tag := ReadExpectedTag(GATE_LEASE_REPLY);
      if tag.Bad? {
        return Bad(tag.bad);
      }
      var lease := ReadU64();
      reply := if lease.Good? then Good(GateLease(lease.good)) else Bad(lease.bad);
    }

    method ReadGateRelease() returns (reply: IoResult<Reply<E>>)
      modifies reader
      ensures Got(reply, AGateRelease, old(reader.stream))
    {
      var tag := ReadExpectedTag(GATE_RELEASE_REPLY);
      if tag.Bad? {
        return Bad(tag.bad);
      }
      var lease := ReadU64();
      if lease.Bad? {
        return Bad(lease.bad);
      }
      var held := ReadU64();
      reply := if held.Good? then Good(GateRelease(lease.good, held.good)) else Bad(held.bad);
    }

    method ReadWaitSatisfied() returns (reply: IoResult<Reply<E>>)
      modifies reader
      ensures Got(reply, AWaitReply, old(reader.stream))
    {
      var tag := ReadExpectedTag(WAIT_SATISFIED_REPLY);
      reply := if tag.Good? then Good(WaitSatisfied) else Bad(tag.bad);
    }

    method ReadExitStatus() returns (reply: IoResult<Reply<E>>)
      modifies reader
      ensures Got(reply, AnExitStatus, old(reader.stream))
    {
      var status := ReadString();
      reply := if status.Good? then Good(ExitStatus(status.good)) else Bad(status.bad);
    }

    method ReadSignalEvent() returns (reply: IoResult<Reply<E>>)
      modifies reader
      ensures Got(reply, ASignalEvent, old(reader.stream))
    {
      hide FromBigEndian;
      var length := reader.ReadUnsigned(4);
      if length.Bad? {
        return Bad(length.bad);
      }
      var bytes := reader.ReadBody(length.good);
      match bytes
      case Bad(error) => reply := Bad(error);
      case Good(b) =>
        match archive.restore(b)
        case Some(event) => reply := Good(SignalEvent(event));
        case None => reply := Bad(InvalidData);
    }

    method ReadExpectedTag(expected: Byte) returns (tag: IoResult<()>)
      modifies reader
      ensures reader.Reports(tag, ParseTag(expected, old(reader.stream)))
    {
      var read := reader.ReadExact(1);
      match read
      case Bad(error) => tag := Bad(error);
      case Good(bytes) => tag := if bytes[0] == expected then Good(()) else Bad(InvalidData);
    }

    method ReadU64() returns (n: IoResult<U64>)
      modifies reader
      ensures reader.Reports(n, ParseLease(old(reader.stream)))
    {
      hide FromBigEndian;
      Widths();
      var value := reader.ReadUnsigned(8);
      match value
      case Bad(error) => n := Bad(error);
      case Good(v) =>
        UnsignedIsCanonical(8, old(reader.stream));
        n := Good(v);
    }

    method ReadString() returns (text: IoResult<Payload>)
      modifies reader
      ensures reader.Reports(text, ParseString(old(reader.stream), utf8))
    {
      var bytes := reader.ReadFrame();
      match bytes
      case Bad(error) => text := Bad(error);
      case Good(b) => text := if utf8(b) then Good(b) else Bad(InvalidData);
    }
  }

  class SocketReplyWriter<E> {
    const writer: FrameWriter
    const archive: Archive<E>

    constructor (writer: FrameWriter, archive: Archive<E>)
      ensures this.writer == writer && this.archive == archive
    {
      this.writer, this.archive := writer, archive;
    }

    /** All the `write_*` methods. */
    method WriteReply(reply: Reply<E>) returns (result: WriteResult)
      modifies writer
      ensures match Print(reply, archive)
              case None => result == ArchiveFailed && writer.written == old(writer.written)
              case Some(bytes) => result != ArchiveFailed && writer.Sent(bytes, result == Written)
    {
      hide PrintFrame, BigEndian, PrintArchive;
      var ok;
      match reply {
        case Snapshot(bytes) => ok := writer.WriteFrame(bytes);
        case Acceptance => ok := writer.WriteAll([ACCEPTANCE_REPLY]);
        case AttachAccepted => ok := writer.WriteAll([ATTACH_ACCEPTED_REPLY]);
        case AttachRejected(reason) => ok := writer.WriteTagged(ATTACH_REJECTED_REPLY, reason);
        case GateLease(lease) => ok := writer.WriteTaggedNumber(GATE_LEASE_REPLY, lease);
        case GateRelease(released, held) => ok := writer.WriteTaggedPair(GATE_RELEASE_REPLY, 8, released, held);
        case WaitSatisfied => ok := writer.WriteAll([WAIT_SATISFIED_REPLY]);
        case ExitStatus(status) => ok := writer.WriteFrame(status);
        case SignalEvent(event) =>
          match archive.signalize(event) {
            case None => return ArchiveFailed;
            case Some(bytes) => ok := writer.WriteArchive(bytes);
          }
      }
      result := if ok then Written else WriterBroke;
    }
  }
}
