/**
 The echo server's per-connection handler, with the transport abstracted to
 a script of read and write outcomes: after a successful upgrade it counts
 the connection as active, reads messages, counts each one and writes it back
 with the same frame type and payload, and stops at the first read or write
 error, when the connection stops counting as active.
 */
module Server {

  /** A data frame as the transport hands it over: its frame type code and opaque payload bytes. */
  datatype Message = Message(messageType: int, payload: seq<bv8>)

  datatype ReadResult = Received(message: Message) | ReadFailed

  datatype WriteResult = WriteOk | WriteFailed

  /**
   What the transport does on one iteration of the loop: the result of the
   read, and the result the write would have if it is attempted.
   */
  datatype Turn = Turn(read: ReadResult, write: WriteResult)

  /**
   How a handler invocation ends: the upgrade was refused, the loop stopped
   on a read error or on a write error, or the script ran out while the loop
   was still waiting for the next message.
   */
  datatype Exit = UpgradeRefused | ReadError | WriteError | StillOpen

  /** The messages read, the messages written back (in call order), and how the loop ended. */
  datatype Session = Session(received: seq<Message>, written: seq<Message>, exit: Exit)

  /** The server's two process-wide counters. */
  datatype Counters = Counters(activeConnections: int, messagesReceived: int)

  datatype Handled = Handled(counters: Counters, session: Session)

  /** The counters after serving several connections, and each connection's session in serving order. */
  datatype Served = Served(counters: Counters, sessions: seq<Session>)

  /** One connection to serve: whether its upgrade succeeds, and its transport script. */
  datatype Connection = Connection(upgraded: bool, script: seq<Turn>)

  /** Reference: the messages the peer managed to deliver, up to the first read error. */
  function Sent(script: seq<Turn>): seq<Message>
  {
    if |script| == 0 || script[0].read.ReadFailed? then []
    else [script[0].read.message] + Sent(script[1..])
  }

  /** The first `k` writes of the script succeed. */
  ghost predicate WritesSucceed(script: seq<Turn>, k: nat)
    requires k <= |script|
  {
    forall j :: 0 <= j < k ==> script[j].write.WriteOk?
  }

  /**
   The read-count-echo loop. Each successful read is written straight back
   with the same frame type and payload; the loop ends on the first read
   error (before counting) or on the first write error (after counting).
   */
  function EchoLoop(script: seq<Turn>): (s: Session)
    ensures s.exit != UpgradeRefused
    ensures s.written == s.received
    ensures |s.received| <= |script|
    ensures forall j :: 0 <= j < |s.received| ==> script[j].read == Received(s.received[j])
    ensures s.received <= Sent(script)
    ensures s.exit == ReadError ==>
              |s.received| < |script| && script[|s.received|].read.ReadFailed? && WritesSucceed(script, |s.received|)
    ensures s.exit == WriteError ==>
              0 < |s.received| && script[|s.received| - 1].write.WriteFailed? && WritesSucceed(script, |s.received| - 1)
    ensures s.exit == StillOpen ==>
              |s.received| == |script| && WritesSucceed(script, |script|)
    ensures s.exit != WriteError ==> s.received == Sent(script)
  {
    if |script| == 0 then Session([], [], StillOpen)
    else
      match script[0].read
      case ReadFailed => Session([], [], ReadError)
      case Received(m) =>
        var echo := Message(m.messageType, m.payload);
        if script[0].write.WriteFailed? then
          Session([m], [echo], WriteError)
        else
          var rest := EchoLoop(script[1..]);
          Session([m] + rest.received, [echo] + rest.written, rest.exit)
  }

  /**
   The connection handler: a refused upgrade touches no counter; otherwise
   the connection counts as active for as long as the loop runs, every
   successful read counts one received message, and the deferred cleanup
   takes the active count back down on every way out of the loop.
   */
  function WebsocketHandler(c: Counters, upgraded: bool, script: seq<Turn>): (r: Handled)
    ensures !upgraded ==> r.counters == c && r.session == Session([], [], UpgradeRefused)
    ensures upgraded ==> r.session == EchoLoop(script)
    ensures r.counters.messagesReceived == c.messagesReceived + |r.session.received|
    ensures r.counters.activeConnections == c.activeConnections + (if r.session.exit == StillOpen then 1 else 0)
  {
    if !upgraded then Handled(c, Session([], [], UpgradeRefused))
    else
      var s := EchoLoop(script);
      var active := c.(activeConnections := c.activeConnections + 1);
      var counted := active.(messagesReceived := active.messagesReceived + |s.received|);
      if s.exit == StillOpen then Handled(counted, s)
      else Handled(counted.(activeConnections := counted.activeConnections - 1), s)
  }

  /** The replies the peer receives: every write except a final one that failed. */
  function Replies(s: Session): seq<Message>
  {
    if s.exit == WriteError && 0 < |s.written| then s.written[..|s.written| - 1] else s.written
  }

  /**
   The peer gets back what it sent, in order: all of it unless a write
   failed, and then everything up to the message whose echo failed.
   */
  lemma EchoReplies(script: seq<Turn>)
    ensures var s := EchoLoop(script);
            && (s.exit != WriteError ==> Replies(s) == Sent(script))
            && (s.exit == WriteError ==> Replies(s) + [s.received[|s.received| - 1]] <= Sent(script))
  {
  }

  /** Without any I/O error, every message sent on the connection is echoed, in order, with its frame type. */
  lemma {:induction false} ErrorFreeEchoesAll(script: seq<Turn>)
    requires forall j :: 0 <= j < |script| ==> script[j].read.Received? && script[j].write.WriteOk?
    ensures |Sent(script)| == |script|
    ensures EchoLoop(script).exit == StillOpen
    ensures Replies(EchoLoop(script)) == Sent(script)
  {
    if |script| > 0 {
      ErrorFreeEchoesAll(script[1..]);
    }
  }

  /** Connections still open after their scripts, each of which counts once towards `activeConnections`. */
  function OpenCount(sessions: seq<Session>): nat
  {
    if |sessions| == 0 then 0 else (if sessions[0].exit == StillOpen then 1 else 0) + OpenCount(sessions[1..])
  }

  function ReadCount(sessions: seq<Session>): nat
  {
    if |sessions| == 0 then 0 else |sessions[0].received| + ReadCount(sessions[1..])
  }

  /**
   Several connections handled one after another. The counter updates of
   concurrent handlers commute, so this order loses nothing: the active count
   rises by the connections still open and the received count by all reads.
   */
  function Serve(c: Counters, conns: seq<Connection>): (r: Served)
    ensures |r.sessions| == |conns|
    ensures r.counters.activeConnections == c.activeConnections + OpenCount(r.sessions)
    ensures r.counters.messagesReceived == c.messagesReceived + ReadCount(r.sessions)
    ensures forall i :: 0 <= i < |conns| ==>
              r.sessions[i] == WebsocketHandler(Counters(0, 0), conns[i].upgraded, conns[i].script).session
    decreases |conns|
  {
    if |conns| == 0 then Served(c, [])
    else
      var h := WebsocketHandler(c, conns[0].upgraded, conns[0].script);
      var rest := Serve(h.counters, conns[1..]);
      Served(rest.counters, [h.session] + rest.sessions)
  }

  /** Once every connection has ended, whether by a refused upgrade or an I/O error, the active count is back at its baseline. */
  lemma {:induction false} ActiveReturnsToBaseline(c: Counters, conns: seq<Connection>)
    requires forall i :: 0 <= i < |conns| ==> Serve(c, conns).sessions[i].exit != StillOpen
    ensures Serve(c, conns).counters.activeConnections == c.activeConnections
  {
    ClosedSessions(Serve(c, conns).sessions);
  }

  lemma {:induction false} ClosedSessions(sessions: seq<Session>)
    requires forall i :: 0 <= i < |sessions| ==> sessions[i].exit != StillOpen
    ensures OpenCount(sessions) == 0
  {
    if |sessions| > 0 {
      ClosedSessions(sessions[1..]);
    }
  }

  /** The messages "a", "b", "c" sent on one connection come back as "a", "b", "c" and count three received messages. */
  lemma ThreeMessagesEchoed()
    ensures var a := Message(1, [0x61]);
            var b := Message(1, [0x62]);
            var c := Message(1, [0x63]);
            var h := WebsocketHandler(Counters(0, 0), true, [Turn(Received(a), WriteOk), Turn(Received(b), WriteOk), Turn(Received(c), WriteOk), Turn(ReadFailed, WriteOk)]);
            && Replies(h.session) == [a, b, c]
            && h.counters == Counters(0, 3)
  {
  }
}
