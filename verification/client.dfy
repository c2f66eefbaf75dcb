/**
 The load-test client's bookkeeping, with the transport and the scheduler
 abstracted to outcome sequences: connection setup as a fold over dial
 results, one send tick as a batch over per-connection send outcomes, and the
 event loop as a fold over send and report ticks.
 */
module Client {
  import opened Latency
  import Permutations

  /** A handle on one established connection; the transport behind it is not modelled. */
  type Conn = nat

  /** The outcome of one dial attempt. */
  datatype DialResult = Dialed(conn: Conn) | DialFailed

  /** The live connection pool and the `successfulConnections` counter after setup. */
  datatype Pool = Pool(conns: seq<Conn>, successfulConnections: nat)

  /**
   The outcome of one connection's work in a send tick: whether the ping
   control frame and the payload write succeeded, and the time measured from
   just before the ping to the end of the write.
   */
  datatype SendOutcome = SendOutcome(pingOk: bool, writeOk: bool, elapsed: Duration)

  /** The client's state: the pool, its two counters and the latency store. */
  datatype Client = Client(conns: seq<Conn>, successfulConnections: nat, messagesSent: nat, latencies: seq<Duration>)

  /** One firing of the event loop: a send tick with one outcome per live connection, or a report tick. */
  datatype Event = SendTick(outcomes: seq<SendOutcome>) | ReportTick

  /** The client after the events so far, and every report logged, in order. */
  datatype Trace = Trace(client: Client, reports: seq<Report>)

  // ---------------------------------------------------------------------------
  // Connection setup
  // ---------------------------------------------------------------------------

  /** Reference: the connections the successful dials return, in attempt order. */
  function Established(attempts: seq<DialResult>): seq<Conn>
  {
    if |attempts| == 0 then []
    else (if attempts[0].Dialed? then [attempts[0].conn] else []) + Established(attempts[1..])
  }

  lemma {:induction false} EstablishedConcat(a: seq<DialResult>, b: seq<DialResult>)
    ensures Established(a + b) == Established(a) + Established(b)
  {
    if |a| == 0 {
      assert a + b == b;
    } else {
      var head := if a[0].Dialed? then [a[0].conn] else [];
      assert (a + b)[0] == a[0];
      assert (a + b)[1..] == a[1..] + b;
      assert Established(a + b) == head + Established(a[1..] + b);
      EstablishedConcat(a[1..], b);
    }
  }

  lemma {:induction false} EstablishedLength(a: seq<DialResult>)
    ensures |Established(a)| <= |a|
  {
    if |a| > 0 {
      EstablishedLength(a[1..]);
    }
  }

  /**
   The dial loop, one attempt after another: a failed dial is skipped, a
   successful one is counted and appended to the pool.
   */
  function DialAll(attempts: seq<DialResult>): (p: Pool)
    ensures p.conns == Established(attempts)
    ensures p.successfulConnections == |p.conns| <= |attempts|
  {
    if |attempts| == 0 then Pool([], 0)
    else
      var earlier := attempts[..|attempts| - 1];
      var last := attempts[|attempts| - 1];
      assert attempts == earlier + [last];
      EstablishedConcat(earlier, [last]);
      assert Established([last]) == (if last.Dialed? then [last.conn] else []);
      var p := DialAll(earlier);
      match last
      case DialFailed => p
      case Dialed(c) => Pool(p.conns + [c], p.successfulConnections + 1)
  }

  /** A failed dial leaves the pool as if the attempt had not been made; it does not stop later attempts. */
  lemma DialFailureSkipped(before: seq<DialResult>, after: seq<DialResult>)
    ensures DialAll(before + [DialFailed] + after) == DialAll(before + after)
  {
    EstablishedConcat(before + [DialFailed], after);
    EstablishedConcat(before, [DialFailed]);
    EstablishedConcat(before, after);
    assert Established([DialFailed]) == [];
  }

  /** Every successful dial, wherever it occurs among the attempts, puts its connection into the pool at its rank among the successes. */
  lemma DialSuccessPooled(attempts: seq<DialResult>, i: nat)
    requires i < |attempts| && attempts[i].Dialed?
    ensures |Established(attempts[..i])| < |DialAll(attempts).conns|
    ensures DialAll(attempts).conns[|Established(attempts[..i])|] == attempts[i].conn
  {
    assert attempts == attempts[..i] + ([attempts[i]] + attempts[i + 1..]);
    EstablishedConcat(attempts[..i], [attempts[i]] + attempts[i + 1..]);
    assert ([attempts[i]] + attempts[i + 1..])[1..] == attempts[i + 1..];
  }

  /** The client right after setup: no message sent, no latency recorded. */
  function Start(attempts: seq<DialResult>): (c: Client)
    ensures c.conns == Established(attempts)
    ensures c.successfulConnections == |c.conns| <= |attempts|
    ensures c.messagesSent == 0 && c.latencies == []
  {
    var p := DialAll(attempts);
    Client(p.conns, p.successfulConnections, 0, [])
  }

  // ---------------------------------------------------------------------------
  // One send tick
  // ---------------------------------------------------------------------------

  /** Reference: the durations of the successful writes, in connection order. */
  function Delivered(outcomes: seq<SendOutcome>): seq<Duration>
  {
    if |outcomes| == 0 then []
    else (if outcomes[0].writeOk then [outcomes[0].elapsed] else []) + Delivered(outcomes[1..])
  }

  lemma {:induction false} DeliveredConcat(a: seq<SendOutcome>, b: seq<SendOutcome>)
    ensures Delivered(a + b) == Delivered(a) + Delivered(b)
  {
    if |a| == 0 {
      assert a + b == b;
    } else {
      var head := if a[0].writeOk then [a[0].elapsed] else [];
      assert (a + b)[0] == a[0];
      assert (a + b)[1..] == a[1..] + b;
      assert Delivered(a + b) == head + Delivered(a[1..] + b);
      DeliveredConcat(a[1..], b);
    }
  }

  lemma {:induction false} DeliveredLength(a: seq<SendOutcome>)
    ensures |Delivered(a)| <= |a|
  {
    if |a| > 0 {
      DeliveredLength(a[1..]);
    }
  }

  /**
   The body of one per-connection worker: the ping result is only logged, the
   payload write is attempted regardless, and a successful write counts one
   message sent and records its latency.
   */
  function SendOne(c: Client, o: SendOutcome): Client
  {
    if o.writeOk then
      c.(messagesSent := c.messagesSent + 1, latencies := RecordLatency(c.latencies, o.elapsed))
    else c
  }

  /** The workers of one tick run to completion one after another, in connection order. */
  function SendBatch(c: Client, outcomes: seq<SendOutcome>): (r: Client)
    ensures r.conns == c.conns && r.successfulConnections == c.successfulConnections
    ensures r.messagesSent == c.messagesSent + |Delivered(outcomes)|
    ensures r.latencies == c.latencies + Delivered(outcomes)
    decreases |outcomes|
  {
    if |outcomes| == 0 then c
    else
      var head := if outcomes[0].writeOk then [outcomes[0].elapsed] else [];
      var next := SendOne(c, outcomes[0]);
      assert Delivered(outcomes) == head + Delivered(outcomes[1..]);
      assert next.latencies == c.latencies + head;
      assert next.messagesSent == c.messagesSent + |head|;
      assert c.latencies + head + Delivered(outcomes[1..]) == c.latencies + Delivered(outcomes);
      SendBatch(next, outcomes[1..])
  }

  /**
   One send tick over the live pool, treated as a single step because the
   tick waits for every worker before the next tick can fire: `messagesSent`
   and the latency store both grow by the number of successful writes, which
   is at most the number of live connections.
   */
  function SendTickStep(c: Client, outcomes: seq<SendOutcome>): (r: Client)
    requires |outcomes| == |c.conns|
    ensures r.conns == c.conns && r.successfulConnections == c.successfulConnections
    ensures |Delivered(outcomes)| <= |c.conns|
    ensures r.messagesSent == c.messagesSent + |Delivered(outcomes)|
    ensures |r.latencies| == |c.latencies| + |Delivered(outcomes)|
    ensures r.latencies[..|c.latencies|] == c.latencies
    ensures r.latencies[|c.latencies|..] == Delivered(outcomes)
  {
    DeliveredLength(outcomes);
    var r := SendBatch(c, outcomes);
    assert r.latencies[|c.latencies|..] == Delivered(outcomes);
    r
  }

  lemma {:induction false} DeliveredIgnoresPing(a: seq<SendOutcome>, b: seq<SendOutcome>)
    requires |a| == |b|
    requires forall i :: 0 <= i < |a| ==> a[i].writeOk == b[i].writeOk && a[i].elapsed == b[i].elapsed
    ensures Delivered(a) == Delivered(b)
  {
    if |a| > 0 {
      DeliveredIgnoresPing(a[1..], b[1..]);
    }
  }

  /** A failed ping never changes a tick: two ticks whose writes succeed alike and take the same time end in the same client. */
  lemma PingIrrelevant(c: Client, a: seq<SendOutcome>, b: seq<SendOutcome>)
    requires |a| == |c.conns| && |b| == |a|
    requires forall i :: 0 <= i < |a| ==> a[i].writeOk == b[i].writeOk && a[i].elapsed == b[i].elapsed
    ensures SendTickStep(c, a) == SendTickStep(c, b)
  {
    DeliveredIgnoresPing(a, b);
  }

  /**
   The order in which a tick's workers finish does not change the counter
   or the multiset of recorded latencies, so modelling the concurrent workers
   in connection order loses nothing the summary can observe.
   */
  lemma {:induction false} DeliveredPermutation(a: seq<SendOutcome>, b: seq<SendOutcome>)
    requires multiset(a) == multiset(b)
    ensures multiset(Delivered(a)) == multiset(Delivered(b))
  {
    if |a| == 0 {
      assert |b| == |multiset(b)| == 0;
    } else {
      var j := Permutations.RemoveFirst(a, b);
      DeliveredPermutation(a[1..], b[..j] + b[j + 1..]);
      DeliveredConcat(b[..j], [a[0]] + b[j + 1..]);
      assert ([a[0]] + b[j + 1..])[1..] == b[j + 1..];
      DeliveredConcat(b[..j], b[j + 1..]);
      assert a == [a[0]] + a[1..];
    }
  }

  lemma SendTickOrderIrrelevant(c: Client, a: seq<SendOutcome>, b: seq<SendOutcome>)
    requires |a| == |c.conns|
    requires multiset(a) == multiset(b)
    ensures |b| == |c.conns|
    ensures SendTickStep(c, a).messagesSent == SendTickStep(c, b).messagesSent
    ensures multiset(SendTickStep(c, a).latencies) == multiset(SendTickStep(c, b).latencies)
  {
    assert |b| == |multiset(b)| == |a|;
    DeliveredPermutation(a, b);
    assert |Delivered(a)| == |multiset(Delivered(a))| == |multiset(Delivered(b))| == |Delivered(b)|;
    assert SendBatch(c, a).messagesSent == SendBatch(c, b).messagesSent;
  }

  // ---------------------------------------------------------------------------
  // The event loop
  // ---------------------------------------------------------------------------

  /** Every send tick carries one outcome per connection of the (fixed) pool. */
  ghost predicate Scripted(events: seq<Event>, live: nat)
  {
    forall i :: 0 <= i < |events| && events[i].SendTick? ==> |events[i].outcomes| == live
  }

  lemma ScriptedEarlier(events: seq<Event>, live: nat)
    requires Scripted(events, live) && 0 < |events|
    ensures Scripted(events[..|events| - 1], live)
  {
  }

  /** The counters agree with the pool and the store: one latency per message sent. */
  ghost predicate Consistent(c: Client)
  {
    c.successfulConnections == |c.conns| && c.messagesSent == |c.latencies|
  }

  function CountReports(events: seq<Event>): nat
  {
    if |events| == 0 then 0 else (if events[0].ReportTick? then 1 else 0) + CountReports(events[1..])
  }

  /** Reference: the samples the send ticks deliver, tick by tick in firing order. */
  function History(events: seq<Event>): seq<Duration>
  {
    if |events| == 0 then []
    else (if events[0].SendTick? then Delivered(events[0].outcomes) else []) + History(events[1..])
  }

  lemma {:induction false} HistoryConcat(a: seq<Event>, b: seq<Event>)
    ensures History(a + b) == History(a) + History(b)
  {
    if |a| == 0 {
      assert a + b == b;
    } else {
      var head := if a[0].SendTick? then Delivered(a[0].outcomes) else [];
      assert (a + b)[0] == a[0];
      assert (a + b)[1..] == a[1..] + b;
      assert History(a + b) == head + History(a[1..] + b);
      HistoryConcat(a[1..], b);
    }
  }

  /**
   One firing of the event loop: a send tick runs one batch; a report tick
   sorts the store in place, keeping every sample.
   */
  function Step(c: Client, e: Event): (r: Client)
    requires e.SendTick? ==> |e.outcomes| == |c.conns|
    ensures r.conns == c.conns && r.successfulConnections == c.successfulConnections
    ensures c.messagesSent <= r.messagesSent
    ensures r.messagesSent - c.messagesSent == |r.latencies| - |c.latencies|
    ensures multiset(c.latencies) <= multiset(r.latencies)
    ensures e.SendTick? ==> r.messagesSent == c.messagesSent + |Delivered(e.outcomes)| && r.latencies == c.latencies + Delivered(e.outcomes)
    ensures e.ReportTick? ==> Sorted(r.latencies) && multiset(r.latencies) == multiset(c.latencies) && r.messagesSent == c.messagesSent
  {
    match e
    case SendTick(outcomes) =>
      var r := SendTickStep(c, outcomes);
      assert r.latencies == c.latencies + r.latencies[|c.latencies|..];
      r
    case ReportTick =>
      var r := c.(latencies := CalculateLatencyStats(c.latencies).latencies);
      assert |r.latencies| == |multiset(r.latencies)| == |c.latencies|;
      r
  }

  /** One firing adds exactly its own delivered samples to the store, up to order, and counts each of them as sent. */
  lemma StepHistory(c: Client, e: Event)
    requires e.SendTick? ==> |e.outcomes| == |c.conns|
    ensures Step(c, e).messagesSent == c.messagesSent + |History([e])|
    ensures multiset(Step(c, e).latencies) == multiset(c.latencies) + multiset(History([e]))
  {
  }

  /** What a firing logs: a report tick logs the summary of the whole store so far. */
  function Logged(c: Client, e: Event): seq<Report>
  {
    if e.ReportTick? then [CalculateLatencyStats(c.latencies).report] else []
  }

  /** The event loop over a sequence of timer firings, in firing order, collecting the logged reports. */
  function Run(c: Client, events: seq<Event>): (t: Trace)
    requires Scripted(events, |c.conns|)
    ensures t.client.conns == c.conns
    ensures t.client.successfulConnections == c.successfulConnections
    ensures c.messagesSent <= t.client.messagesSent
    ensures t.client.messagesSent - c.messagesSent == |t.client.latencies| - |c.latencies|
    ensures multiset(c.latencies) <= multiset(t.client.latencies)
    ensures |t.reports| == CountReports(events)
    ensures Consistent(c) ==> Consistent(t.client)
    decreases |events|
  {
    if |events| == 0 then Trace(c, [])
    else
      var earlier := events[..|events| - 1];
      var last := events[|events| - 1];
      assert events == earlier + [last];
      CountReportsConcat(earlier, [last]);
      ScriptedEarlier(events, |c.conns|);
      var prev := Run(c, earlier);
      Trace(Step(prev.client, last), prev.reports + Logged(prev.client, last))
  }

  /**
   Over any sequence of ticks, the store holds exactly the samples it started
   with plus every sample the send ticks delivered, and each of those counts
   one message sent: nothing is lost, cleared or counted twice.
   */
  lemma {:induction false} RunRecordsHistory(c: Client, events: seq<Event>)
    requires Scripted(events, |c.conns|)
    ensures Run(c, events).client.messagesSent == c.messagesSent + |History(events)|
    ensures multiset(Run(c, events).client.latencies) == multiset(c.latencies) + multiset(History(events))
    decreases |events|
  {
    if |events| > 0 {
      var earlier := events[..|events| - 1];
      var last := events[|events| - 1];
      assert events == earlier + [last];
      ScriptedEarlier(events, |c.conns|);
      RunRecordsHistory(c, earlier);
      HistoryConcat(earlier, [last]);
      var prev := Run(c, earlier).client;
      StepHistory(prev, last);
      assert Run(c, events).client == Step(prev, last);
      assert multiset(History(events)) == multiset(History(earlier)) + multiset(History([last]));
    }
  }

  lemma {:induction false} CountReportsConcat(a: seq<Event>, b: seq<Event>)
    ensures CountReports(a + b) == CountReports(a) + CountReports(b)
  {
    if |a| == 0 {
      assert a + b == b;
    } else {
      assert (a + b)[1..] == a[1..] + b;
      CountReportsConcat(a[1..], b);
    }
  }

  /**
   A report tick as the last firing leaves the store sorted, and the report
   it logged summarises the entire history: the samples the client started
   with and every sample any send tick delivered, never only the samples
   since the previous report.
   */
  lemma RunEndingInReport(c: Client, events: seq<Event>)
    requires Scripted(events, |c.conns|)
    requires 0 < |events| && events[|events| - 1].ReportTick?
    ensures 0 < |Run(c, events).reports|
    ensures Sorted(Run(c, events).client.latencies)
    ensures Run(c, events).reports[|Run(c, events).reports| - 1] == CalculateLatencyStats(Run(c, events).client.latencies).report
    ensures Run(c, events).reports[|Run(c, events).reports| - 1] == CalculateLatencyStats(c.latencies + History(events)).report
  {
    var t := Run(c, events);
    var earlier := events[..|events| - 1];
    var prev := Run(c, earlier);
    assert t.client == Step(prev.client, ReportTick);
    assert t.reports == prev.reports + [CalculateLatencyStats(prev.client.latencies).report];
    SummaryOrderIrrelevant(prev.client.latencies, t.client.latencies);
    RunRecordsHistory(c, events);
    SummaryOrderIrrelevant(t.client.latencies, c.latencies + History(events));
  }

  /** From a fresh start, however the ticks interleave, the counters stay consistent with the pool and the store. */
  lemma RunFromStart(attempts: seq<DialResult>, events: seq<Event>)
    requires Scripted(events, |Established(attempts)|)
    ensures Consistent(Run(Start(attempts), events).client)
    ensures Run(Start(attempts), events).client.successfulConnections <= |attempts|
  {
  }

  /** Five dials against an unreachable host leave an empty pool, and ticks on it record nothing. */
  lemma UnreachableHost()
    ensures var c := Start([DialFailed, DialFailed, DialFailed, DialFailed, DialFailed]);
            && c.successfulConnections == 0
            && c.conns == []
            && Run(c, [SendTick([]), ReportTick]).reports == [NoData]
  {
  }

  /**
   Three connections and one tick in which every send succeeds and takes the
   same time `d` (say 50 ms): three samples are recorded,
   and the next report gives `d` for every statistic.
   */
  lemma ThreeConnectionsOneTick(d: Duration)
    ensures Start([Dialed(1), Dialed(2), Dialed(3)]).conns == [1, 2, 3]
    ensures var o := SendOutcome(true, true, d);
            var sent := SendTickStep(Start([Dialed(1), Dialed(2), Dialed(3)]), [o, o, o]);
            && sent.messagesSent == 3
            && sent.latencies == [d, d, d]
            && CalculateLatencyStats(sent.latencies) == Summary([d, d, d], Stats(d, d, d, d, d))
  {
    var attempts := [Dialed(1), Dialed(2), Dialed(3)];
    assert Established(attempts) == [1, 2, 3] by {
      assert attempts[1..] == [Dialed(2), Dialed(3)];
      assert attempts[1..][1..] == [Dialed(3)];
    }
    var o := SendOutcome(true, true, d);
    assert Delivered([o, o, o]) == [d, d, d] by {
      assert [o][1..] == [];
      assert Delivered([o]) == [d];
      assert [o, o][1..] == [o];
      assert Delivered([o, o]) == [d, d];
      assert [o, o, o][1..] == [o, o];
    }
    UniformStore([d, d, d], d);
  }
}
