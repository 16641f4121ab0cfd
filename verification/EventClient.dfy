/**
  The event client: reading lines from a connection and checking their order
  (`daemon_event_client.py`).
 */
module EventClient {
  import opened Prelude
  import opened Texts
  import opened JsonText
  import opened Json
  import opened Events
  import opened Framing
  import opened RuntimeSnapshots

  /**
    One side of a stream socket. The peer's remaining bytes arrive in chunks of any size. Which of
    its operations fail is a fault pattern over their number.
   */
  class Connection {
    const faults: nat -> bool
    /** How many operations there have been. */
    var operations: nat
    /** What the peer has sent, or will have sent when it closes, and is not received yet. */
    var pending: Bytes

    constructor (faults: nat -> bool, operations: nat, sent: Bytes)
      ensures this.faults == faults && this.operations == operations && pending == sent
    {
      this.faults, this.operations, pending := faults, operations, sent;
    }

    /** One of the operations from number `from` on has failed. */
    ghost predicate FailedSince(from: nat)
      reads this
    {
      exists k | from <= k < operations :: faults(k)
    }

    /** `socket.recv`: at least one byte unless the stream has ended. */
    method Recv(limit: nat) returns (r: Option<Bytes>)
      requires limit > 0
      modifies this
      ensures operations == old(operations) + 1 && (r.None? <==> faults(old(operations)))
      ensures r.None? ==> pending == old(pending)
      ensures r.Some? ==> old(pending) == r.value + pending && |r.value| <= limit
      ensures r.Some? ==> (r.value == [] <==> old(pending) == [])
    {
      operations := operations + 1;
      if faults(operations - 1) {
        return None;
      }
      if pending == [] {
        return Some([]);
      }
      var n: nat :| 1 <= n <= |pending| && n <= limit by {
        assert 1 <= 1 <= |pending| && 1 <= limit;
      }
      r := Some(pending[..n]);
      assert pending == pending[..n] + pending[n..];
      pending := pending[n..];
    }

    /** `socket.sendall` of something to which the peer answers with these bytes. */
    method SendAll(answer: Bytes) returns (ok: bool)
      modifies this
      ensures operations == old(operations) + 1 && ok == !faults(old(operations))
      ensures pending == if ok then old(pending) + answer else old(pending)
    {
      ok := !faults(operations);
      operations := operations + 1;
      if ok {
        pending := pending + answer;
      }
    }
  }

  /** `_validate_snapshot_payload` */
  predicate ValidSnapshot(payload: map<Text, Json>) {
    ValidRuntimeSnapshot(payload) && MayHave(payload, "recording", IsObject)
  }

  datatype OrderError = NotASnapshot | BadSnapshot | LaterSnapshot | NotAdvancing | Gap

  datatype ReceiveError =
    | Unavailable
    | EventTooLong
    | IncompleteEvent
    | Disconnected
    | Undecodable
    | OutOfOrder(reason: OrderError)

  /** Whether `event` may follow the event with sequence `last`. */
  predicate InOrder(last: Option<nat>, event: Event) {
    match last
    case None => event.kind == SNAPSHOT && ValidSnapshot(event.payload)
    case Some(previous) => event.kind != SNAPSHOT && event.sequence == previous + 1
  }

  /** What one call to receive an event makes of the rest of a stream: the event and what is left, or an error. */
  function Received(stream: Bytes, last: Option<nat>, max: nat): Result<(Event, Bytes), ReceiveError> {
    match NextFrame(stream, max)
    case TooLong => Err(EventTooLong)
    case Incomplete => Err(IncompleteEvent)
    case AtEnd => Err(Disconnected)
    case Frame(line, rest) =>
      match Decode(line)
      case None => Err(Undecodable)
      case Some(event) => if InOrder(last, event) then Ok((event, rest)) else Err(OutOfOrder(OrderFault(last, event)))
  }

  /** What one call to receive answers, of what it makes of the stream. */
  predicate Answers(received: Result<(Event, Bytes), ReceiveError>, r: Result<Event, ReceiveError>) {
    match received
    case Ok((event, _)) => r == Ok(event)
    case Err(error) => r == Err(error)
  }

  /** What reading a line returns or raises. */
  function LineOf(read: Read): Result<Bytes, ReceiveError> {
    match read
    case Frame(line, _) => Ok(line)
    case TooLong => Err(EventTooLong)
    case Incomplete => Err(IncompleteEvent)
    case AtEnd => Err(Disconnected)
  }

  /** Why an event is out of order. */
  function OrderFault(last: Option<nat>, event: Event): (e: OrderError)
    requires !InOrder(last, event)
    ensures e == NotASnapshot <==> last.None? && event.kind != SNAPSHOT
    ensures e == BadSnapshot ==> last.None? && event.kind == SNAPSHOT && !ValidSnapshot(event.payload)
    ensures e == LaterSnapshot <==> last.Some? && event.kind == SNAPSHOT
    ensures e == NotAdvancing <==> last.Some? && event.kind != SNAPSHOT && event.sequence <= last.value
    ensures e == Gap <==> last.Some? && event.kind != SNAPSHOT && event.sequence > last.value + 1
  {
    match last
    case None => if event.kind != SNAPSHOT then NotASnapshot else BadSnapshot
    case Some(previous) =>
      if event.kind == SNAPSHOT then LaterSnapshot else if event.sequence <= previous then NotAdvancing else Gap
  }

  class EventClient {
    const maxEventBytes: nat
    var socket: Option<Connection>
    var buffer: Bytes
    var lastSequence: Option<nat>

    /** A client that is not connected remembers nothing; the buffer never exceeds the limit. */
    ghost predicate Valid()
      reads this
    {
      && maxEventBytes > 0
      && |buffer| <= maxEventBytes
      && (socket.None? ==> buffer == [] && lastSequence.None?)
    }

    constructor (maxEventBytes: nat)
      requires maxEventBytes > 0
      ensures Valid() && socket.None? && this.maxEventBytes == maxEventBytes
    {
      this.maxEventBytes, socket, buffer, lastSequence := maxEventBytes, None, [], None;
    }

    /** The connection a receive uses, given what a connection attempt would come to. */
    ghost function Source(attempt: Option<Connection>): Option<Connection>
      reads this
    {
      if socket.Some? then socket else attempt
    }

    ghost function Peers(attempt: Option<Connection>): set<Connection>
      reads this
    {
      match Source(attempt)
      case None => {}
      case Some(peer) => {peer}
    }

    ghost function Operations(attempt: Option<Connection>): nat
      reads this, Peers(attempt)
    {
      match Source(attempt)
      case None => 0
      case Some(peer) => peer.operations
    }

    /** The rest of the stream that a receive reads. */
    ghost function Stream(attempt: Option<Connection>): Bytes
      reads this, Peers(attempt)
    {
      match Source(attempt)
      case None => []
      case Some(peer) => buffer + peer.pending
    }

    /** `_read_line`: the next line of the stream, whatever the chunks it arrives in. */
    method ReadLine(expected: Connection) returns (r: Result<Bytes, ReceiveError>)
      requires Valid()
      modifies this`buffer, expected
      ensures |buffer| <= maxEventBytes
      ensures r == if expected.FailedSince(old(expected.operations)) then Err(Disconnected)
                   else LineOf(NextFrame(old(buffer + expected.pending), maxEventBytes))
      ensures r.Ok? ==>
                NextFrame(old(buffer + expected.pending), maxEventBytes) == Frame(r.value, buffer + expected.pending)
    {
      ghost var stream := buffer + expected.pending;
      while true
        invariant stream == old(buffer + expected.pending) == buffer + expected.pending
        invariant |buffer| <= maxEventBytes
        invariant !expected.FailedSince(old(expected.operations)) && old(expected.operations) <= expected.operations
        decreases |expected.pending|
      {
        match FindNewline(buffer) {
          case Some(newline) =>
            assert stream[..newline] == buffer[..newline];
            NewlineFound(stream, newline);
            var size := newline + 1;
            if size > maxEventBytes {
              return Err(EventTooLong);
            }
            var frame := buffer[..newline];
            assert stream[newline + 1..] == buffer[newline + 1..] + expected.pending;
            buffer := buffer[size..];
            return Ok(frame);
          case None =>
        }
        if |buffer| >= maxEventBytes {
          NoEarlyNewline(buffer, expected.pending);
          return Err(EventTooLong);
        }
        ghost var before := expected.pending;
        var chunk := expected.Recv(if RECEIVE_SIZE <= maxEventBytes - |buffer| then RECEIVE_SIZE
            else maxEventBytes - |buffer|);
        match chunk {
          case None =>
            assert expected.faults(expected.operations - 1);
            return Err(Disconnected);
          case Some(bytes) =>
            if bytes == [] {
              assert stream == buffer;
              return Err(if buffer != [] then IncompleteEvent else Disconnected);
            }
            assert buffer + (bytes + expected.pending) == (buffer + bytes) + expected.pending;
            buffer := buffer + bytes;
        }
      }
    }

    /** `_validate_order` */
    method ValidateOrder(event: Event) returns (r: Result<(), OrderError>)
      modifies this`lastSequence
      ensures r.Ok? <==> InOrder(old(lastSequence), event)
      ensures r.Ok? ==> lastSequence == Some(event.sequence)
      ensures r.Err? ==> lastSequence == old(lastSequence) && r.error == OrderFault(lastSequence, event)
    {
      match lastSequence
      case None =>
        if event.kind != SNAPSHOT {
          return Err(NotASnapshot);
        }
        if !ValidSnapshot(event.payload) {
          return Err(BadSnapshot);
        }
        lastSequence := Some(event.sequence);
        return Ok(());
      case Some(previous) =>
        if event.kind == SNAPSHOT {
          return Err(LaterSnapshot);
        }
        var next := previous + 1;
        if event.sequence < next {
          return Err(NotAdvancing);
        }
        if event.sequence > next {
          return Err(Gap);
        }
        lastSequence := Some(event.sequence);
        return Ok(());
    }

    /** `_discard_socket`, by the thread that holds the receive lock. */
    method Discard()
      requires maxEventBytes > 0
      modifies this
      ensures Valid() && socket.None?
    {
      socket, buffer, lastSequence := None, [], None;
    }

    /**
      `receive`: the next event of the connection in use, or of a new one. Any error but a
      refused connection discards the connection.
     */
    method Receive(attempt: Option<Connection>) returns (r: Result<Event, ReceiveError>)
      requires Valid()
      modifies this, Peers(attempt)
      ensures Valid()
      ensures r == Err(Unavailable) <==> old(socket).None? && attempt.None?
      ensures r.Ok? ==>
                && socket == old(Source(attempt)) && lastSequence == Some(r.value.sequence)
                && Received(old(Stream(attempt)), old(lastSequence), maxEventBytes) == Ok((r.value, Stream(None)))
      ensures r.Err? ==> socket.None?
      ensures old(Source(attempt)).Some? ==>
                if old(Source(attempt)).value.FailedSince(old(Operations(attempt))) then r == Err(Disconnected)
                else Answers(Received(old(Stream(attempt)), old(lastSequence), maxEventBytes), r)
    {
      if socket.None? {
        if attempt.None? {
          return Err(Unavailable);
        }
        socket, buffer, lastSequence := attempt, [], None;
      }
      var client := socket.value;
      var line := ReadLine(client);
      match line
      case Err(error) =>
        Discard();
        return Err(error);
      case Ok(frame) => r := AcceptFrame(frame);
    }

    /** Decode a line and check its order; any error discards the connection. */
    method AcceptFrame(frame: Bytes) returns (r: Result<Event, ReceiveError>)
      requires Valid() && socket.Some?
      modifies this
      ensures Valid()
      ensures match Decode(frame)
              case None => r == Err(Undecodable)
              case Some(event) =>
                r == if InOrder(old(lastSequence), event) then Ok(event)
                     else Err(OutOfOrder(OrderFault(old(lastSequence), event)))
      ensures r.Ok? ==> socket == old(socket) && buffer == old(buffer) && lastSequence == Some(r.value.sequence)
      ensures r.Err? ==> socket.None?
    {
      match Decode(frame)
      case None =>
        Discard();
        return Err(Undecodable);
      case Some(event) =>
        var order := ValidateOrder(event);
        match order
        case Err(reason) =>
          Discard();
          return Err(OutOfOrder(reason));
        case Ok(_) =>
          return Ok(event);
    }
  }

  /** A newline after a full buffer ends a line that is too long, wherever it is. */
  lemma NoEarlyNewline(buffer: Bytes, pending: Bytes)
    requires NEWLINE !in buffer
    ensures forall max: nat :: max <= |buffer| ==> NextFrame(buffer + pending, max) == TooLong
  {
    assert forall i :: 0 <= i < |buffer| ==> (buffer + pending)[i] == buffer[i];
  }
}
