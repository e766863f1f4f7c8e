/** The stub server of src/bin/stub_dns.rs: its answer and its TCP framing. */
module Stub {
  import opened Prelude

  type byte = n: nat | n < 256

  const HEADER_LEN: nat := 12
  const BUFFER_LEN: nat := 4096

  /** The request's second flag byte reduced to its OPCODE bits, QR set: in
      bits, (b & 0x78) | 0x80. */
  function ReplyFlags(b: byte): byte {
    128 + b / 8 % 16 * 8
  }

  /** The arithmetic form is the source's masking, on all 256 bytes. */
  lemma ReplyFlagsIsMask(b: bv8)
    ensures ReplyFlags(b as nat) == ((b & 0x78) | 0x80) as nat
  {
    assert ((b & 0x78) | 0x80) == 0x80 + (b / 8) % 16 * 8;
  }

  function NoErrorResponse(request: seq<byte>): (r: seq<byte>)
    requires |request| >= HEADER_LEN
    ensures |r| == 12
  {
    [request[0], request[1], ReplyFlags(request[2]), 0, 0, 0, 0, 0, 0, 0, 0, 0]
  }

  /** Fills the 12-byte reply in place. */
  method MakeNoErrorResponse(request: seq<byte>) returns (resp: array<byte>)
    requires |request| >= HEADER_LEN
    ensures fresh(resp) && resp[..] == NoErrorResponse(request)
  {
    resp := new byte[12](_ => 0);
    resp[0] := request[0];
    resp[1] := request[1];
    resp[2] := ReplyFlags(request[2]);
    resp[3] := 0;
  }

  // Header fields of section 4.1.1 of RFC 1035.

  function Id(m: seq<byte>): (byte, byte)
    requires |m| >= HEADER_LEN
  {
    (m[0], m[1])
  }

  function Qr(m: seq<byte>): nat
    requires |m| >= HEADER_LEN
  {
    m[2] / 128
  }

  function Opcode(m: seq<byte>): nat
    requires |m| >= HEADER_LEN
  {
    m[2] / 8 % 16
  }

  function Rcode(m: seq<byte>): nat
    requires |m| >= HEADER_LEN
  {
    m[3] % 16
  }

  predicate NoSections(m: seq<byte>)
    requires |m| >= HEADER_LEN
  {
    m[4..12] == [0, 0, 0, 0, 0, 0, 0, 0]
  }

  lemma FlagBits(b: byte)
    ensures ReplyFlags(b) / 128 == 1
    ensures ReplyFlags(b) / 8 % 16 == b / 8 % 16
    ensures ReplyFlags(b) % 8 == 0
  {
    var opcode := b / 8 % 16;
    assert ReplyFlags(b) == 8 * (16 + opcode);
  }

  /** The reply answers the request: same ID and OPCODE, QR set, no AA, TC or
      RD flag, a second flag octet of zero (RA, Z, AD, CD and RCODE) and empty
      sections. */
  lemma ResponseAnswersRequest(request: seq<byte>)
    requires |request| >= HEADER_LEN
    ensures var r := NoErrorResponse(request);
      && |r| == 12 && Id(r) == Id(request) && Qr(r) == 1 && Opcode(r) == Opcode(request)
      && r[2] % 8 == 0 && r[3] == 0 && Rcode(r) == 0 && NoSections(r)
  {
    FlagBits(request[2]);
  }

  // ── Length-prefixed framing, section 4.2.2 of RFC 1035 ───────────────────

  function FromBe(hi: byte, lo: byte): nat {
    hi * 256 + lo
  }

  /** Whether a stream starts with a frame the server takes. */
  predicate HasFrame(input: seq<byte>) {
    |input| >= 2 && HEADER_LEN <= FromBe(input[0], input[1]) <= BUFFER_LEN && 2 + FromBe(input[0], input[1]) <= |input|
  }

  function FirstMessage(input: seq<byte>): (m: seq<byte>)
    requires HasFrame(input)
    ensures HEADER_LEN <= |m| <= BUFFER_LEN
  {
    input[2..2 + FromBe(input[0], input[1])]
  }

  function AfterFirst(input: seq<byte>): (rest: seq<byte>)
    requires HasFrame(input)
    ensures |rest| < |input|
  {
    input[2 + FromBe(input[0], input[1])..]
  }

  /** Messages in the longest prefix of complete frames the server takes. */
  function Requests(input: seq<byte>): (rs: seq<seq<byte>>)
    ensures Acceptable(rs)
    decreases |input|
  {
    if HasFrame(input) then [FirstMessage(input)] + Requests(AfterFirst(input)) else []
  }

  /** A message behind its two-byte big-endian length. */
  function Frame(m: seq<byte>): (f: seq<byte>)
    requires |m| <= BUFFER_LEN
    ensures |f| == 2 + |m|
  {
    [|m| / 256, |m| % 256] + m
  }

  function Replies(rs: seq<seq<byte>>): (out: seq<seq<byte>>)
    requires Acceptable(rs)
    ensures |out| == |rs| && Answers(out)
    ensures forall i :: 0 <= i < |rs| ==> out[i] == NoErrorResponse(rs[i])
  {
    seq(|rs|, i requires 0 <= i < |rs| => NoErrorResponse(rs[i]))
  }

  predicate Acceptable(ms: seq<seq<byte>>) {
    forall m :: m in ms ==> HEADER_LEN <= |m| <= BUFFER_LEN
  }

  predicate Answers(ms: seq<seq<byte>>) {
    forall m :: m in ms ==> |m| == 12
  }

  function Stream(ms: seq<seq<byte>>): seq<byte>
    requires Acceptable(ms)
  {
    if ms == [] then [] else Frame(ms[0]) + Stream(ms[1..])
  }

  lemma {:induction false} StreamLength(ms: seq<seq<byte>>)
    requires Answers(ms)
    ensures |Stream(ms)| == 14 * |ms|
  {
    if ms != [] {
      StreamLength(ms[1..]);
    }
  }

  lemma FirstFrame(m: seq<byte>, rest: seq<byte>)
    requires HEADER_LEN <= |m| <= BUFFER_LEN
    ensures HasFrame(Frame(m) + rest)
    ensures FirstMessage(Frame(m) + rest) == m && AfterFirst(Frame(m) + rest) == rest
  {
    var s := Frame(m) + rest;
    assert FromBe(s[0], s[1]) == |m|;
    assert s[2..2 + |m|] == m;
    assert s[2 + |m|..] == rest;
  }

  lemma FrameOfFirst(input: seq<byte>)
    requires HasFrame(input)
    ensures Frame(FirstMessage(input)) + AfterFirst(input) == input
  {
    var len := FromBe(input[0], input[1]);
    assert len / 256 == input[0] && len % 256 == input[1];
    assert input == [input[0], input[1]] + input[2..2 + len] + input[2 + len..];
  }

  /** What is left of a stream after the frames the server takes. */
  function Leftover(input: seq<byte>): (rest: seq<byte>)
    ensures !HasFrame(rest)
    decreases |input|
  {
    if HasFrame(input) then Leftover(AfterFirst(input)) else input
  }

  lemma {:induction false} StreamSplits(input: seq<byte>)
    ensures input == Stream(Requests(input)) + Leftover(input)
    decreases |input|
  {
    if HasFrame(input) {
      var rest := AfterFirst(input);
      StreamSplits(rest);
      FrameOfFirst(input);
      assert Requests(input)[1..] == Requests(rest);
      hide Requests, Frame, HasFrame, AfterFirst, FirstMessage;
    }
  }

  lemma RequestsOfFrame(m: seq<byte>, rest: seq<byte>)
    requires HEADER_LEN <= |m| <= BUFFER_LEN
    ensures Requests(Frame(m) + rest) == [m] + Requests(rest)
  {
    FirstFrame(m, rest);
    hide Frame, HasFrame, AfterFirst, FirstMessage;
  }

  lemma {:induction false} DeframeStream(ms: seq<seq<byte>>, rest: seq<byte>)
    requires Acceptable(ms) && !HasFrame(rest)
    ensures Requests(Stream(ms) + rest) == ms
  {
    if ms == [] {
      assert Stream(ms) + rest == rest;
    } else {
      hide Requests, Frame, HasFrame;
      var tail := Stream(ms[1..]) + rest;
      DeframeStream(ms[1..], rest);
      RequestsOfFrame(ms[0], tail);
      Associate(Frame(ms[0]), Stream(ms[1..]), rest);
      assert ms == [ms[0]] + ms[1..];
    }
  }

  /** On the wire a message stands behind its length, most significant octet
      first (section 4.2.2 of RFC 1035). */
  lemma FrameLayout(m: seq<byte>)
    requires |m| <= 4096
    ensures var f := Frame(m); |f| == 2 + |m| && f[2..] == m && 256 * (f[0] as int) + f[1] as int == |m|
    ensures var f := Frame(m); HasFrame(f) <==> |m| >= 12
  {
  }

  /** The messages served are exactly the frames of 12 to 4096 octets up to
      the first point where no such frame follows. */
  lemma RequestsExact(input: seq<byte>, ms: seq<seq<byte>>)
    requires forall m :: m in ms ==> 12 <= |m| <= 4096
    ensures Requests(input) == ms <==> exists rest :: !HasFrame(rest) && input == Stream(ms) + rest
  {
    StreamSplits(input);
    forall rest | !HasFrame(rest) && input == Stream(ms) + rest
      ensures Requests(input) == ms
    {
      DeframeStream(ms, rest);
    }
  }

  /** What the server sends for the requests in a stream. */
  function Answer(input: seq<byte>): seq<byte> {
    Stream(Replies(Requests(input)))
  }

  /** Deframing the server's output returns one answer per request, in order. */
  lemma AnswerDeframes(input: seq<byte>)
    ensures Requests(Answer(input)) == Replies(Requests(input))
    ensures |Answer(input)| == 14 * |Requests(input)|
  {
    var out := Replies(Requests(input));
    DeframeStream(out, []);
    StreamLength(out);
    assert Stream(out) + [] == Stream(out);
  }

  /** Where a connection is cut for writing: after `room` more bytes. */
  function Fit(bytes: seq<byte>, room: nat): (sent: seq<byte>)
    ensures |sent| == if |bytes| <= room then |bytes| else room
    ensures sent <= bytes
  {
    if |bytes| <= room then bytes else bytes[..room]
  }

  /** A connection: what is left to read, what was written, and how many more
      bytes can be written before a write fails. */
  class Connection {
    var unread: seq<byte>
    var written: seq<byte>
    var room: nat

    constructor (input: seq<byte>, room: nat)
      ensures unread == input && written == [] && this.room == room
    {
      unread, written, this.room := input, [], room;
    }

    /** Fills the front of the buffer from the stream, or fails at its end. */
    method ReadExact(buf: array<byte>, len: nat) returns (ok: bool)
      requires len <= buf.Length
      modifies this`unread, buf
      ensures ok <==> len <= |old(unread)|
      ensures ok ==> buf[..len] == old(unread)[..len] && unread == old(unread)[len..]
    {
      ok := len <= |unread|;
      if ok {
        forall i | 0 <= i < len {
          buf[i] := unread[i];
        }
        unread := unread[len..];
      }
    }

    /** Writes all of it, or as much as goes and fails. */
    method WriteAll(bytes: seq<byte>) returns (ok: bool)
      modifies this`written, this`room
      ensures ok <==> |bytes| <= old(room)
      ensures written == old(written) + Fit(bytes, old(room))
      ensures room == old(room) - |Fit(bytes, old(room))|
    {
      ok := |bytes| <= room;
      written := written + Fit(bytes, room);
      room := room - |Fit(bytes, room)|;
    }
  }

  lemma FitConcat(x: seq<byte>, y: seq<byte>, room: nat)
    ensures |x| > room ==> Fit(x + y, room) == Fit(x, room)
    ensures |x| <= room ==> Fit(x + y, room) == x + Fit(y, room - |x|)
  {
  }

  /** Reads the next message; none where no frame the server takes follows. */
  method ReadMessage(conn: Connection, lenBuf: array<byte>, msgBuf: array<byte>) returns (message: Option<seq<byte>>)
    requires lenBuf.Length == 2 && msgBuf.Length == BUFFER_LEN && lenBuf != msgBuf
    modifies conn, lenBuf, msgBuf
    ensures conn.written == old(conn.written) && conn.room == old(conn.room)
    ensures message.None? <==> !HasFrame(old(conn.unread))
    ensures message.Some? ==>
      message.value == FirstMessage(old(conn.unread)) && conn.unread == AfterFirst(old(conn.unread))
  {
    ghost var input := conn.unread;
    hide FromBe;
    var ok := conn.ReadExact(lenBuf, 2);
    if !ok {
      return None;
    }
    assert lenBuf[..2][0] == input[0] && lenBuf[..2][1] == input[1];
    var len := FromBe(lenBuf[0], lenBuf[1]);
    if len < HEADER_LEN || len > msgBuf.Length {
      return None;
    }
    ok := conn.ReadExact(msgBuf, len);
    if !ok {
      return None;
    }
    assert msgBuf[..len] == input[2..2 + len];
    message := Some(msgBuf[..len]);
  }

  /** Builds the reply and writes its length prefix, then the reply itself. */
  method WriteReply(conn: Connection, message: seq<byte>) returns (ok: bool)
    requires |message| >= HEADER_LEN
    modifies conn
    ensures conn.unread == old(conn.unread)
    ensures ok <==> 14 <= old(conn.room)
    ensures conn.written == old(conn.written) + Fit(Frame(NoErrorResponse(message)), old(conn.room))
    ensures ok ==> conn.room == old(conn.room) - 14
  {
    var resp := MakeNoErrorResponse(message);
    var prefix := [resp.Length / 256, resp.Length % 256];
    FitConcat(prefix, resp[..], conn.room);
    hide NoErrorResponse;
    ok := conn.WriteAll(prefix);
    if ok {
      ok := conn.WriteAll(resp[..]);
    }
  }

  lemma RepliesFirst(m: seq<byte>, rs: seq<seq<byte>>)
    requires HEADER_LEN <= |m| <= BUFFER_LEN && Acceptable(rs)
    ensures Replies([m] + rs) == [NoErrorResponse(m)] + Replies(rs)
  {
    hide NoErrorResponse;
  }

  lemma StreamFirst(answer: seq<byte>, rest: seq<seq<byte>>)
    requires |answer| == 12 && Answers(rest)
    ensures Stream([answer] + rest) == Frame(answer) + Stream(rest)
  {
    assert ([answer] + rest)[1..] == rest;
  }

  lemma AnswerUnfolds(input: seq<byte>)
    ensures !HasFrame(input) ==> Requests(input) == [] && Answer(input) == []
    ensures HasFrame(input) ==>
      && |Requests(input)| == 1 + |Requests(AfterFirst(input))|
      && Answer(input) == Frame(NoErrorResponse(FirstMessage(input))) + Answer(AfterFirst(input))
  {
    if HasFrame(input) {
      var m, rs := FirstMessage(input), Requests(AfterFirst(input));
      RepliesFirst(m, rs);
      StreamFirst(NoErrorResponse(m), Replies(rs));
      hide HasFrame, FirstMessage, AfterFirst, NoErrorResponse, Frame, Stream, Replies;
    }
  }

  /** Written: the answer to the input cut after `room` bytes; counted: the
      replies written whole. */
  ghost predicate Delivered(input: seq<byte>, room: nat, output: seq<byte>, answered: nat) {
    && output == Fit(Answer(input), room)
    && answered == if 14 * |Requests(input)| <= room then |Requests(input)| else room / 14
  }

  /** What this connection has written, and what it still will, is the answer
      to its input cut after `room` bytes. */
  ghost predicate OnCourse(input: seq<byte>, room: nat, unread: seq<byte>, written: seq<byte>, left: nat, answered: nat) {
    && answered + |Requests(unread)| == |Requests(input)|
    && left + 14 * answered == room
    && written + Fit(Answer(unread), left) == Fit(Answer(input), room)
  }

  /** The reply to the first message of what is left to read, framed. */
  function NextFrame(unread: seq<byte>): (f: seq<byte>)
    requires HasFrame(unread)
    ensures |f| == 14
  {
    Frame(NoErrorResponse(FirstMessage(unread)))
  }

  lemma NextAnswer(unread: seq<byte>, left: nat)
    requires HasFrame(unread)
    ensures |Requests(unread)| == 1 + |Requests(AfterFirst(unread))|
    ensures left < 14 ==> Fit(Answer(unread), left) == Fit(NextFrame(unread), left)
    ensures left >= 14 ==> Fit(Answer(unread), left) == NextFrame(unread) + Fit(Answer(AfterFirst(unread)), left - 14)
  {
    AnswerUnfolds(unread);
    FitConcat(NextFrame(unread), Answer(AfterFirst(unread)), left);
    hide Requests, Answer, AfterFirst, HasFrame, FirstMessage, NoErrorResponse, Frame, Fit;
  }

  lemma OneAnswered(input: seq<byte>, room: nat, unread: seq<byte>, written: seq<byte>, left: nat, answered: nat)
    requires OnCourse(input, room, unread, written, left, answered) && HasFrame(unread) && left >= 14
    ensures OnCourse(input, room, AfterFirst(unread), written + NextFrame(unread), left - 14, answered + 1)
  {
    NextAnswer(unread, left);
    hide Requests, Answer, AfterFirst, HasFrame, NextFrame, Fit;
    Associate(written, NextFrame(unread), Fit(Answer(AfterFirst(unread)), left - 14));
  }

  lemma WholeReplies(room: nat, answered: nat, left: nat)
    requires left + 14 * answered == room && left < 14
    ensures answered == room / 14
  {
  }

  lemma CutShort(input: seq<byte>, room: nat, unread: seq<byte>, written: seq<byte>, left: nat, answered: nat)
    requires OnCourse(input, room, unread, written, left, answered) && HasFrame(unread) && left < 14
    ensures Delivered(input, room, written + Fit(NextFrame(unread), left), answered)
  {
    NextAnswer(unread, left);
    WholeReplies(room, answered, left);
    hide Requests, Answer, AfterFirst, HasFrame, NextFrame, Fit;
  }

  lemma AllAnswered(input: seq<byte>, room: nat, unread: seq<byte>, written: seq<byte>, left: nat, answered: nat)
    requires OnCourse(input, room, unread, written, left, answered) && !HasFrame(unread)
    ensures Delivered(input, room, written, answered)
  {
    AnswerUnfolds(unread);
    hide Requests, Answer;
  }

  datatype Turn = Served | NothingToServe | WriteFailed

  /** One turn of the connection loop. */
  method ServeNext(conn: Connection, lenBuf: array<byte>, msgBuf: array<byte>) returns (turn: Turn)
    requires lenBuf.Length == 2 && msgBuf.Length == BUFFER_LEN && lenBuf != msgBuf
    modifies conn, lenBuf, msgBuf
    ensures turn.NothingToServe? <==> !HasFrame(old(conn.unread))
    ensures turn.NothingToServe? ==> conn.written == old(conn.written)
    ensures !turn.NothingToServe? ==>
      && (turn.Served? <==> 14 <= old(conn.room))
      && conn.written == old(conn.written) + Fit(NextFrame(old(conn.unread)), old(conn.room))
    ensures turn.Served? ==> conn.unread == AfterFirst(old(conn.unread)) && conn.room == old(conn.room) - 14
  {
    hide HasFrame, FirstMessage, AfterFirst, NoErrorResponse, Frame, Fit;
    var message := ReadMessage(conn, lenBuf, msgBuf);
    if message.None? {
      return NothingToServe;
    }
    var ok := WriteReply(conn, message.value);
    turn := if ok then Served else WriteFailed;
  }

  /** Answers messages until the stream ends, a length is out of range or a
      write fails. */
  method ServeLoop(conn: Connection, lenBuf: array<byte>, msgBuf: array<byte>) returns (answered: nat)
    requires conn.written == []
    requires lenBuf.Length == 2 && msgBuf.Length == BUFFER_LEN && lenBuf != msgBuf
    modifies conn, lenBuf, msgBuf
    ensures Delivered(old(conn.unread), old(conn.room), conn.written, answered)
  {
    answered := 0;
    ghost var input, room := conn.unread, conn.room;
    hide Requests, Answer, AfterFirst, HasFrame, NextFrame, Fit;
    assert OnCourse(input, room, input, [], room, 0);
    hide OnCourse, Delivered;
    while true
      invariant OnCourse(input, room, conn.unread, conn.written, conn.room, answered)
      decreases |conn.unread|
    {
      ghost var unread, written, left := conn.unread, conn.written, conn.room;
      var turn := ServeNext(conn, lenBuf, msgBuf);
      match turn {
        case NothingToServe =>
          AllAnswered(input, room, unread, written, left, answered);
          break;
        case WriteFailed =>
          CutShort(input, room, unread, written, left, answered);
          break;
        case Served =>
          OneAnswered(input, room, unread, written, left, answered);
          answered := answered + 1;
      }
    }
  }

  /** One TCP connection, with buffers reused from message to message. */
  method ServeConnection(input: seq<byte>, room: nat) returns (output: seq<byte>, answered: nat)
    ensures Delivered(input, room, output, answered)
  {
    var lenBuf, msgBuf := new byte[2], new byte[BUFFER_LEN];
    var conn := new Connection(input, room);
    hide Delivered;
    answered := ServeLoop(conn, lenBuf, msgBuf);
    output := conn.written;
  }

  lemma Associate(x: seq<byte>, y: seq<byte>, z: seq<byte>)
    ensures x + (y + z) == (x + y) + z
  {
  }
}
