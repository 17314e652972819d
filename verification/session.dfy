/** The session `protocol` runs for one query (client.c): authenticate to the
    rendezvous server, read its redirect, connect to the sensor host on the
    redirected port, authenticate there, send the query, read the reply, then
    the CLOSE handshake and `close` of the sensor socket.

    The session is a fixed plan of socket operations (`Plan`) carried out by
    an interpreter (`Exec`) against scripted peers; every operation leaves an
    event in the trace, and the first failing one ends the run. */
module Session {
  import opened Text
  import opened Transport
  import Redirect

  /** Size of every receive buffer (`BUFF_SIZE`). */
  const BUFF_SIZE: nat := 1024

  const RENDEZVOUS_HOST := "comp375.sandiego.edu"
  const RENDEZVOUS_PORT := "47789"
  const RENDEZVOUS_AUTH := "AUTH password123\n"
  /** The sensor host is fixed; the host named in the redirect is not used. */
  const SENSOR_HOST := "sensor.sandiego.edu"
  const SENSOR_AUTH := "AUTH sensorpass321\n"
  const CLOSE := "CLOSE\n"

  datatype Endpoint = Rendezvous | Sensor

  /** One observable socket action of the client. A `Sent` event lists the
      pieces the successive `send` calls accepted; a `Connect` event records a
      `connectToHost` attempt, whether or not it succeeded. */
  datatype Event =
    | Connect(at: Endpoint, host: string, port: Option<string>)
    | Sent(at: Endpoint, chunks: seq<string>)
    | Received(at: Endpoint, data: string)
    | Closed(at: Endpoint)

  /** The world a session runs in: the two scripted peers, and which
      `(host, port)` pairs `connectToHost` reaches (`None` is a null port). */
  datatype Env = Env(rendezvous: Peer, sensor: Peer, reachable: (string, Option<string>) -> bool)

  /** What the interpreter carries between operations: the peers' remaining
      scripts and the text of the last receive buffer. */
  datatype State = State(rendezvous: Peer, sensor: Peer, inbox: string)

  /** One step of the plan. `ConnectSensor` connects to the sensor host on the
      port parsed out of the last received buffer. */
  datatype Op =
    | SendOp(at: Endpoint, msg: string)
    | RecvOp(at: Endpoint)
    | ConnectSensor
    | CloseOp(at: Endpoint)

  /** The calls `protocol(server_fd, query)` makes, in order. The literals
      are sent with the lengths written in the source (17, 19, 6); the query
      with its `strlen`. */
  function Plan(query: string): (ops: seq<Op>)
    ensures |ops| == 10
    ensures ops[0] == SendOp(Rendezvous, RENDEZVOUS_AUTH)
    ensures ops[3] == SendOp(Sensor, SENSOR_AUTH)
    ensures ops[7] == SendOp(Sensor, CLOSE)
  {
    assert RENDEZVOUS_AUTH[..17] == RENDEZVOUS_AUTH;
    assert SENSOR_AUTH[..19] == SENSOR_AUTH;
    assert CLOSE[..6] == CLOSE;
    [ SendOp(Rendezvous, RENDEZVOUS_AUTH[..17]), RecvOp(Rendezvous),
      ConnectSensor,
      SendOp(Sensor, SENSOR_AUTH[..19]), RecvOp(Sensor),
      SendOp(Sensor, CString(query)), RecvOp(Sensor),
      SendOp(Sensor, CLOSE[..6]), RecvOp(Sensor),
      CloseOp(Sensor) ]
  }

  function PeerAt(st: State, at: Endpoint): Peer
  {
    if at == Rendezvous then st.rendezvous else st.sensor
  }

  function WithPeer(st: State, at: Endpoint, p: Peer): State
  {
    if at == Rendezvous then st.(rendezvous := p) else st.(sensor := p)
  }

  /** The outcome of one operation: the event it left and the next state, or
      the cause of the abort and the event the failed attempt left, if any. */
  datatype Step = Go(event: Event, st: State) | Stop(logged: Option<Event>, cause: Cause)

  /** One call of `protocol`: a `send_or_exit`, a `recv_or_exit` into a
      `BUFF_SIZE` buffer, the `connectToHost` on the parsed port, or the
      `close`. A successful call leaves an event that attempts and completes
      it; a failed send or connect leaves its attempt, a failed receive
      nothing. */
  function Perform(op: Op, env: Env, st: State): (s: Step)
    ensures s.Go? ==> Attempts(s.event, op, st.inbox) && Completes(s.event, op)
    ensures s.Go? ==> s.st.inbox == (if op.RecvOp? then s.event.data else st.inbox)
    ensures s.Go? ==> (op.RecvOp? <==> s.event.Received?)
    ensures s.Stop? ==> (s.logged.Some? <==> LogsFailure(op))
    ensures s.Stop? && s.logged.Some? ==> Attempts(s.logged.value, op, st.inbox)
  {
    match op
    case SendOp(at, msg) =>
      var p := PeerAt(st, at);
      var t := SendOrExit(msg, p.sendReturns);
      if t.status == Done then Go(Sent(at, t.chunks), WithPeer(st, at, p.(sendReturns := t.rest)))
      else Stop(Some(Sent(at, t.chunks)), t.status.cause)
    case RecvOp(at) =>
      var p := PeerAt(st, at);
      var t := RecvOrExit(BUFF_SIZE, p.incoming);
      if t.status == Done then Go(Received(at, t.data), WithPeer(st, at, p.(incoming := t.rest)).(inbox := t.data))
      else Stop(None, t.status.cause)
    case ConnectSensor =>
      var port := Redirect.ParsePort(CString(st.inbox));
      var e := Connect(Sensor, SENSOR_HOST, port);
      if env.reachable(SENSOR_HOST, port) then Go(e, st) else Stop(Some(e), ConnectFailed)
    case CloseOp(at) => Go(Closed(at), st)
  }

  /** The events of a run and, if it stopped early, why. */
  datatype Run = Run(trace: seq<Event>, failure: Option<Cause>)

  /** Carries out the plan until it is finished or an operation fails. */
  function Exec(ops: seq<Op>, env: Env, st: State): (r: Run)
    ensures |r.trace| <= |ops|
    ensures r.failure.None? ==> |r.trace| == |ops|
    decreases |ops|
  {
    if |ops| == 0 then Run([], None)
    else
      match Perform(ops[0], env, st)
      case Go(e, st') =>
        var r := Exec(ops[1..], env, st');
        Run([e] + r.trace, r.failure)
      case Stop(logged, cause) =>
        Run(if logged.Some? then [logged.value] else [], Some(cause))
  }

  // ---------------------------------------------------------------------
  // What an event must look like to stand for an operation.
  // ---------------------------------------------------------------------

  /** The data of the last `Received` event, or `inbox` when there is none. */
  function LastReceived(trace: seq<Event>, inbox: string): string
    decreases |trace|
  {
    if |trace| == 0 then inbox
    else if trace[|trace| - 1].Received? then trace[|trace| - 1].data
    else LastReceived(trace[..|trace| - 1], inbox)
  }

  /** `e` is an attempt at `op`, given that `inbox` was the last received
      text: the right kind of action on the right connection, a prefix of the
      message for a send, a bounded non-empty read for a receive, the fixed
      sensor host and the parsed port for a connect. */
  predicate Attempts(e: Event, op: Op, inbox: string)
  {
    match op
    case SendOp(at, msg) => e.Sent? && e.at == at && Flatten(e.chunks) <= msg
    case RecvOp(at) => e.Received? && e.at == at && 0 < |e.data| <= BUFF_SIZE
    case ConnectSensor => e == Connect(Sensor, SENSOR_HOST, Redirect.ParsePort(CString(inbox)))
    case CloseOp(at) => e == Closed(at)
  }

  /** `e` completes `op`: every byte of a send was accepted. */
  predicate Completes(e: Event, op: Op)
  {
    op.SendOp? ==> e.Sent? && Flatten(e.chunks) == op.msg
  }

  /** An operation whose failure still leaves an event in the trace. */
  predicate LogsFailure(op: Op)
  {
    op.SendOp? || op.ConnectSensor?
  }

  /** Every event of a run is an attempt at the plan's operation in the
      same position. */
  lemma {:induction false} ExecAttempts(ops: seq<Op>, env: Env, st: State)
    ensures var r := Exec(ops, env, st);
      forall i :: 0 <= i < |r.trace| ==> Attempts(r.trace[i], ops[i], LastReceived(r.trace[..i], st.inbox))
    decreases |ops|
  {
    if |ops| > 0 {
      match Perform(ops[0], env, st)
      case Go(e, st') =>
        ExecAttempts(ops[1..], env, st');
        var more := Exec(ops[1..], env, st');
        var r := Exec(ops, env, st);
        assert r.trace == [e] + more.trace;
        forall i | 0 <= i < |r.trace|
          ensures Attempts(r.trace[i], ops[i], LastReceived(r.trace[..i], st.inbox))
        {
          if i > 0 {
            assert r.trace[i] == more.trace[i - 1];
            assert ops[i] == ops[1..][i - 1];
            LastReceivedAfter(e, more.trace[..i - 1], st.inbox);
            assert r.trace[..i] == [e] + more.trace[..i - 1];
          }
        }
      case Stop(logged, cause) =>
    }
  }

  /** Every event of a run but the failed last one completes its operation,
      and a run that fails after as many events as operations failed at an
      operation that logs its failure. */
  lemma {:induction false} ExecCompletes(ops: seq<Op>, env: Env, st: State)
    ensures var r := Exec(ops, env, st);
      forall i :: 0 <= i < |r.trace| && (i + 1 < |r.trace| || r.failure.None?) ==> Completes(r.trace[i], ops[i])
    ensures var r := Exec(ops, env, st);
      r.failure.Some? && |r.trace| == |ops| ==> LogsFailure(ops[|ops| - 1])
    decreases |ops|
  {
    if |ops| > 0 {
      match Perform(ops[0], env, st)
      case Go(e, st') =>
        ExecCompletes(ops[1..], env, st');
        var more := Exec(ops[1..], env, st');
        var r := Exec(ops, env, st);
        assert r.trace == [e] + more.trace;
        forall i | 0 <= i < |r.trace| && (i + 1 < |r.trace| || r.failure.None?)
          ensures Completes(r.trace[i], ops[i])
        {
          if i > 0 {
            assert r.trace[i] == more.trace[i - 1];
            assert ops[i] == ops[1..][i - 1];
          }
        }
      case Stop(logged, cause) =>
    }
  }

  /** The run follows the plan: its events are attempts at the plan's
      operations, in order, each completed except possibly the last; a run
      without failure performs the whole plan; a failed run stops short of
      the plan's end unless its last operation is one whose failure is logged. */
  lemma ExecFollowsPlan(ops: seq<Op>, env: Env, st: State)
    ensures var r := Exec(ops, env, st);
      forall i :: 0 <= i < |r.trace| ==> Attempts(r.trace[i], ops[i], LastReceived(r.trace[..i], st.inbox))
    ensures var r := Exec(ops, env, st);
      forall i :: 0 <= i < |r.trace| && (i + 1 < |r.trace| || r.failure.None?) ==> Completes(r.trace[i], ops[i])
    ensures var r := Exec(ops, env, st);
      r.failure.Some? && |r.trace| == |ops| ==> LogsFailure(ops[|ops| - 1])
  {
    ExecAttempts(ops, env, st);
    ExecCompletes(ops, env, st);
  }

  /** Looking back past the first event: the last received text after `e`
      and then `rest` starts from what `e` left. */
  lemma {:induction false} LastReceivedAfter(e: Event, rest: seq<Event>, inbox: string)
    ensures LastReceived([e] + rest, inbox) == LastReceived(rest, if e.Received? then e.data else inbox)
    decreases |rest|
  {
    if |rest| > 0 {
      assert ([e] + rest)[..|rest|] == [e] + rest[..|rest| - 1];
      LastReceivedAfter(e, rest[..|rest| - 1], inbox);
    } else {
      assert [e] + rest == [e];
      assert ([e] + rest)[..0] == [];
    }
  }

  // ---------------------------------------------------------------------
  // The session itself.
  // ---------------------------------------------------------------------

  /** How a session ends: the sensor's reply to the query, or an abort (the
      source's `exit(1)`). */
  datatype End = Response(text: string) | Abort(cause: Cause)

  datatype Outcome = Outcome(trace: seq<Event>, end: End)

  function Start(env: Env): State
  {
    State(env.rendezvous, env.sensor, "")
  }

  /** `protocol(server_fd, query)`, with `server_fd` already connected to the
      rendezvous server: the reply to the query (the third receive on the
      sensor socket) or the abort that ended the session. */
  function Protocol(query: string, env: Env): (o: Outcome)
    ensures |o.trace| <= 10
    ensures o.end.Response? ==> |o.trace| == 10 && 0 < |o.end.text| <= BUFF_SIZE
  {
    var r := Exec(Plan(query), env, Start(env));
    match r.failure
    case Some(c) => Outcome(r.trace, Abort(c))
    case None =>
      ExecFollowsPlan(Plan(query), env, Start(env));
      Outcome(r.trace, Response(r.trace[6].data))
  }

  /** The kind of an action and the connection it is on. */
  datatype Kind = SendKind(at: Endpoint) | RecvKind(at: Endpoint) | ConnectKind(at: Endpoint, host: string) | CloseKind(at: Endpoint)

  function KindOf(e: Event): Kind
  {
    match e
    case Connect(at, host, _) => ConnectKind(at, host)
    case Sent(at, _) => SendKind(at)
    case Received(at, _) => RecvKind(at)
    case Closed(at) => CloseKind(at)
  }

  /** The order of actions a session promises: AUTH to the rendezvous server
      and one receive; connect to the sensor host; then AUTH, the query and
      CLOSE to the sensor, each followed by one receive; then close. */
  const SessionOrder: seq<Kind> :=
    [ SendKind(Rendezvous), RecvKind(Rendezvous),
      ConnectKind(Sensor, "sensor.sandiego.edu"),
      SendKind(Sensor), RecvKind(Sensor),
      SendKind(Sensor), RecvKind(Sensor),
      SendKind(Sensor), RecvKind(Sensor),
      CloseKind(Sensor) ]

  /** The bytes an event carries: what a send delivered, what a receive read. */
  function Payload(e: Event): string
  {
    match e
    case Sent(_, chunks) => Flatten(chunks)
    case Received(_, data) => data
    case _ => ""
  }

  lemma PlanOrder(query: string, e: Event, i: nat, inbox: string)
    requires i < |Plan(query)|
    requires Attempts(e, Plan(query)[i], inbox)
    ensures KindOf(e) == SessionOrder[i]
  {
  }

  /** Message order: every session performs a prefix of `SessionOrder`, and
      it reaches the reply exactly when it performs all of it. */
  lemma ProtocolOrder(query: string, env: Env)
    ensures |Protocol(query, env).trace| <= |SessionOrder|
    ensures forall i :: 0 <= i < |Protocol(query, env).trace| ==> KindOf(Protocol(query, env).trace[i]) == SessionOrder[i]
    ensures Protocol(query, env).end.Response? <==> |Protocol(query, env).trace| == |SessionOrder|
  {
    var ops := Plan(query);
    var r := Exec(ops, env, Start(env));
    ExecFollowsPlan(ops, env, Start(env));
    forall i | 0 <= i < |r.trace|
      ensures KindOf(r.trace[i]) == SessionOrder[i]
    {
      PlanOrder(query, r.trace[i], i, LastReceived(r.trace[..i], ""));
    }
    assert !LogsFailure(ops[9]);
  }

  lemma SessionOrderCloses(i: nat)
    requires i < |SessionOrder|
    ensures SessionOrder[i] != CloseKind(Rendezvous)
    ensures SessionOrder[i] == CloseKind(Sensor) ==> i == 9
  {
    assert i == 0 || i == 1 || i == 2 || i == 3 || i == 4 || i == 5 || i == 6 || i == 7 || i == 8 || i == 9;
  }

  /** The rendezvous socket is never closed; the sensor socket is closed
      exactly when the session reaches the reply. */
  lemma ProtocolCloses(query: string, env: Env)
    ensures Closed(Rendezvous) !in Protocol(query, env).trace
    ensures Closed(Sensor) in Protocol(query, env).trace <==> Protocol(query, env).end.Response?
  {
    var o := Protocol(query, env);
    ProtocolOrder(query, env);
    forall i | 0 <= i < |o.trace|
      ensures o.trace[i] != Closed(Rendezvous)
      ensures o.trace[i] == Closed(Sensor) ==> i == 9
    {
      assert KindOf(o.trace[i]) == SessionOrder[i];
      SessionOrderCloses(i);
    }
    if o.end.Response? {
      assert o.trace[9] == Closed(Sensor);
    }
  }

  /** A session that reaches the reply sent each message in full: the two
      AUTH lines (the lengths 17 and 19 written in the source are the
      literals' lengths), the query up to its terminator, and CLOSE; the
      reply is what the receive after the query read. */
  lemma ProtocolMessages(query: string, env: Env)
    ensures var o := Protocol(query, env);
      o.end.Response? ==>
        && |o.trace| == |SessionOrder|
        && Payload(o.trace[0]) == "AUTH password123\n"
        && Payload(o.trace[3]) == "AUTH sensorpass321\n"
        && Payload(o.trace[5]) == CString(query)
        && Payload(o.trace[7]) == "CLOSE\n"
        && o.end.text == Payload(o.trace[6])
  {
    var ops := Plan(query);
    var r := Exec(ops, env, Start(env));
    ExecFollowsPlan(ops, env, Start(env));
    if r.failure.None? {
      assert Completes(r.trace[0], ops[0]);
      assert Completes(r.trace[3], ops[3]);
      assert Completes(r.trace[5], ops[5]);
      assert Completes(r.trace[7], ops[7]);
      assert Attempts(r.trace[0], ops[0], LastReceived(r.trace[..0], ""));
      assert Attempts(r.trace[3], ops[3], LastReceived(r.trace[..3], ""));
      assert Attempts(r.trace[5], ops[5], LastReceived(r.trace[..5], ""));
      assert Attempts(r.trace[7], ops[7], LastReceived(r.trace[..7], ""));
    }
  }

  /** The sensor connection: whenever the session gets that far, it connects
      to the fixed sensor host on the port `parse_port` takes from the
      rendezvous reply; the host named in the reply is never used. */
  lemma ProtocolConnectsToSensor(query: string, env: Env)
    ensures var o := Protocol(query, env);
      |o.trace| > 2 ==>
        o.trace[2] == Connect(Sensor, "sensor.sandiego.edu", Redirect.ParsePort(CString(Payload(o.trace[1]))))
  {
    var ops := Plan(query);
    var r := Exec(ops, env, Start(env));
    ExecFollowsPlan(ops, env, Start(env));
    if |r.trace| > 2 {
      assert Attempts(r.trace[1], ops[1], LastReceived(r.trace[..1], ""));
      assert Attempts(r.trace[2], ops[2], LastReceived(r.trace[..2], ""));
      assert r.trace[..2][1] == r.trace[1];
    }
  }

  /** One operation of a plan, taken from the middle. */
  lemma ExecStep(ops: seq<Op>, i: nat, env: Env, st: State, e: Event, st': State)
    requires i < |ops| && Perform(ops[i], env, st) == Go(e, st')
    ensures Exec(ops[i..], env, st) == Run([e] + Exec(ops[i + 1..], env, st').trace, Exec(ops[i + 1..], env, st').failure)
  {
    assert ops[i..][0] == ops[i];
    assert ops[i..][1..] == ops[i + 1..];
  }

  /** The `i`-th `send` on this connection accepts a whole message of
      `len` bytes at once. */
  predicate TakesWhole(p: Peer, i: nat, len: nat)
  {
    i < |p.sendReturns| && p.sendReturns[i] >= len && p.sendReturns[i] != 0
  }

  /** The `i`-th `recv` on this connection finds a non-empty chunk that fits
      the buffer. */
  predicate AnswersWithin(p: Peer, i: nat)
  {
    i < |p.incoming| && p.incoming[i].Chunk? && 0 < |p.incoming[i].bytes| <= BUFF_SIZE
  }

  /** The peer after one whole send and one whole receive. */
  function Advance(p: Peer): Peer
    requires |p.sendReturns| > 0 && |p.incoming| > 0
  {
    Peer(p.sendReturns[1..], p.incoming[1..])
  }

  /** A send the peer takes at once: one `Sent` event holding the whole
      message. */
  lemma SendGoes(at: Endpoint, msg: string, env: Env, st: State)
    requires TakesWhole(PeerAt(st, at), 0, |msg|)
    ensures var p := PeerAt(st, at);
      Perform(SendOp(at, msg), env, st) == Go(Sent(at, [msg]), WithPeer(st, at, p.(sendReturns := p.sendReturns[1..])))
  {
    SendAtOnce(msg, PeerAt(st, at).sendReturns);
  }

  /** A reply that fits the buffer: one `Received` event holding all of it,
      which becomes the last received text. */
  lemma RecvGoes(at: Endpoint, env: Env, st: State)
    requires AnswersWithin(PeerAt(st, at), 0)
    ensures var p := PeerAt(st, at);
      Perform(RecvOp(at), env, st) == Go(Received(at, p.incoming[0].bytes), WithPeer(st, at, p.(incoming := p.incoming[1..])).(inbox := p.incoming[0].bytes))
  {
    RecvAtOnce(BUFF_SIZE, PeerAt(st, at).incoming);
  }

  /** A send the peer takes at once followed by a reply that fits: two
      events, and the run goes on with the advanced peer. */
  lemma ExchangeGoes(ops: seq<Op>, i: nat, at: Endpoint, msg: string, env: Env, st: State)
    requires i + 1 < |ops| && ops[i] == SendOp(at, msg) && ops[i + 1] == RecvOp(at)
    requires TakesWhole(PeerAt(st, at), 0, |msg|) && AnswersWithin(PeerAt(st, at), 0)
    ensures var p := PeerAt(st, at);
      var next := WithPeer(st, at, Advance(p)).(inbox := p.incoming[0].bytes);
      var r := Exec(ops[i..], env, st);
      var more := Exec(ops[i + 2..], env, next);
      r.trace == [Sent(at, [msg]), Received(at, p.incoming[0].bytes)] + more.trace && r.failure == more.failure
  {
    var p := PeerAt(st, at);
    var mid := WithPeer(st, at, p.(sendReturns := p.sendReturns[1..]));
    var next := WithPeer(st, at, Advance(p)).(inbox := p.incoming[0].bytes);
    var e := Received(at, p.incoming[0].bytes);
    assert PeerAt(mid, at) == p.(sendReturns := p.sendReturns[1..]);
    SendGoes(at, msg, env, st);
    RecvGoes(at, env, mid);
    assert Perform(RecvOp(at), env, mid) == Go(e, next);
    ExecStep(ops, i, env, st, Sent(at, [msg]), mid);
    ExecStep(ops, i + 1, env, mid, e, next);
  }

  /** The plan, one operation at a time. */
  lemma PlanSteps(query: string)
    ensures |Plan(query)| == 10
    ensures Plan(query)[0] == SendOp(Rendezvous, RENDEZVOUS_AUTH[..17]) && Plan(query)[1] == RecvOp(Rendezvous)
    ensures Plan(query)[2] == ConnectSensor
    ensures Plan(query)[3] == SendOp(Sensor, SENSOR_AUTH[..19]) && Plan(query)[4] == RecvOp(Sensor)
    ensures Plan(query)[5] == SendOp(Sensor, CString(query)) && Plan(query)[6] == RecvOp(Sensor)
    ensures Plan(query)[7] == SendOp(Sensor, CLOSE[..6]) && Plan(query)[8] == RecvOp(Sensor)
    ensures Plan(query)[9] == CloseOp(Sensor)
  {
  }

  /** The last operation: the sensor socket is closed, which cannot fail. */
  lemma CloseLeg(query: string, env: Env, st: State)
    ensures Exec(Plan(query)[9..], env, st) == Run([Closed(Sensor)], None)
  {
    var ops := Plan(query);
    PlanSteps(query);
    ExecStep(ops, 9, env, st, Closed(Sensor), st);
    assert Exec(ops[10..], env, st) == Run([], None);
  }

  /** The CLOSE handshake and the close, with a sensor host that takes the
      line at once and answers. */
  lemma ByeLeg(query: string, env: Env, st: State)
    requires TakesWhole(st.sensor, 0, 6) && AnswersWithin(st.sensor, 0)
    ensures Exec(Plan(query)[7..], env, st).failure == None
  {
    PlanSteps(query);
    ExchangeGoes(Plan(query), 7, Sensor, CLOSE[..6], env, st);
    CloseLeg(query, env, st.(sensor := Advance(st.sensor), inbox := st.sensor.incoming[0].bytes));
  }

  /** The query and its reply, then the CLOSE handshake: the reply is the
      second event. */
  lemma QueryLeg(query: string, env: Env, st: State)
    requires TakesWhole(st.sensor, 0, |CString(query)|) && TakesWhole(st.sensor, 1, 6)
    requires AnswersWithin(st.sensor, 0) && AnswersWithin(st.sensor, 1)
    ensures Exec(Plan(query)[5..], env, st).failure == None
    ensures Exec(Plan(query)[5..], env, st).trace[1] == Received(Sensor, st.sensor.incoming[0].bytes)
  {
    PlanSteps(query);
    var next := st.(sensor := Advance(st.sensor), inbox := st.sensor.incoming[0].bytes);
    ExchangeGoes(Plan(query), 5, Sensor, CString(query), env, st);
    assert TakesWhole(next.sensor, 0, 6) && AnswersWithin(next.sensor, 0);
    ByeLeg(query, env, next);
  }

  /** The sensor's half of a session with a well-behaved sensor host: three
      exchanges, then the close; the reply to the query is the fourth event. */
  lemma SensorLegCompletes(query: string, env: Env, st: State)
    requires TakesWhole(st.sensor, 0, 19) && TakesWhole(st.sensor, 1, |CString(query)|) && TakesWhole(st.sensor, 2, 6)
    requires AnswersWithin(st.sensor, 0) && AnswersWithin(st.sensor, 1) && AnswersWithin(st.sensor, 2)
    ensures Exec(Plan(query)[3..], env, st).failure == None
    ensures Exec(Plan(query)[3..], env, st).trace[3] == Received(Sensor, st.sensor.incoming[1].bytes)
  {
    PlanSteps(query);
    var next := st.(sensor := Advance(st.sensor), inbox := st.sensor.incoming[0].bytes);
    ExchangeGoes(Plan(query), 3, Sensor, SENSOR_AUTH[..19], env, st);
    assert TakesWhole(next.sensor, 0, |CString(query)|) && TakesWhole(next.sensor, 1, 6);
    assert AnswersWithin(next.sensor, 0) && AnswersWithin(next.sensor, 1);
    QueryLeg(query, env, next);
  }

  /** The rendezvous half: the AUTH line taken at once and a redirect that
      fits the buffer give two events, and the run goes on with the redirect
      as the last received text. */
  lemma RendezvousLeg(query: string, env: Env)
    requires TakesWhole(env.rendezvous, 0, 17) && AnswersWithin(env.rendezvous, 0)
    ensures var s1 := Start(env).(rendezvous := Advance(env.rendezvous), inbox := env.rendezvous.incoming[0].bytes);
      var r := Exec(Plan(query), env, Start(env));
      var more := Exec(Plan(query)[2..], env, s1);
      r.failure == more.failure && |r.trace| == 2 + |more.trace| && r.trace[2..] == more.trace
  {
    var ops := Plan(query);
    PlanSteps(query);
    ExchangeGoes(ops, 0, Rendezvous, RENDEZVOUS_AUTH[..17], env, Start(env));
    assert ops[0..] == ops;
  }

  /** The connect: a redirect naming a reachable port lets the run go on at
      the sensor. */
  lemma ConnectLeg(query: string, env: Env, st: State, port: string)
    requires Redirect.ParsePort(CString(st.inbox)) == Some(port)
    requires env.reachable(SENSOR_HOST, Some(port))
    ensures var r := Exec(Plan(query)[2..], env, st);
      var more := Exec(Plan(query)[3..], env, st);
      r.failure == more.failure && |r.trace| == 1 + |more.trace| && r.trace[1..] == more.trace
  {
    PlanSteps(query);
    ExecStep(Plan(query), 2, env, st, Connect(Sensor, SENSOR_HOST, Some(port)), st);
  }

  /** Peers that behave: the rendezvous server takes the AUTH line in one
      call and answers with a redirect whose port is reachable; the sensor
      host takes each message in one call and answers each with a chunk that
      fits the buffer. Then the session completes, and its result is the
      sensor's second answer. */
  lemma ProtocolCompletes(query: string, env: Env, port: string)
    requires TakesWhole(env.rendezvous, 0, 17) && AnswersWithin(env.rendezvous, 0)
    requires Redirect.ParsePort(CString(env.rendezvous.incoming[0].bytes)) == Some(port)
    requires env.reachable(SENSOR_HOST, Some(port))
    requires TakesWhole(env.sensor, 0, 19) && TakesWhole(env.sensor, 1, |CString(query)|) && TakesWhole(env.sensor, 2, 6)
    requires AnswersWithin(env.sensor, 0) && AnswersWithin(env.sensor, 1) && AnswersWithin(env.sensor, 2)
    ensures Protocol(query, env).end == Response(env.sensor.incoming[1].bytes)
    ensures |Protocol(query, env).trace| == |SessionOrder|
  {
    var s1 := Start(env).(rendezvous := Advance(env.rendezvous), inbox := env.rendezvous.incoming[0].bytes);
    RendezvousLeg(query, env);
    ConnectLeg(query, env, s1, port);
    SensorLegCompletes(query, env, s1);
    var r := Exec(Plan(query), env, Start(env));
    var r2 := Exec(Plan(query)[2..], env, s1);
    assert r.trace[6] == r2.trace[4];
    assert r2.trace[4] == r2.trace[1..][3];
  }

  /** A redirect with fewer than three fields gives `parse_port` nothing to
      return: the null port goes to `connectToHost` as it is, and the session
      ends there unless a null port happens to be reachable. */
  lemma MalformedRedirect(query: string, env: Env)
    requires TakesWhole(env.rendezvous, 0, 17) && AnswersWithin(env.rendezvous, 0)
    requires |Redirect.Fields(CString(env.rendezvous.incoming[0].bytes))| < 3
    ensures |Protocol(query, env).trace| >= 3
    ensures Protocol(query, env).trace[2] == Connect(Sensor, SENSOR_HOST, None)
    ensures !env.reachable(SENSOR_HOST, None) ==>
      |Protocol(query, env).trace| == 3 && Protocol(query, env).end == Abort(ConnectFailed)
  {
    var s1 := Start(env).(rendezvous := Advance(env.rendezvous), inbox := env.rendezvous.incoming[0].bytes);
    Redirect.ParsePortThirdField(CString(s1.inbox));
    RendezvousLeg(query, env);
    PlanSteps(query);
    var ops := Plan(query);
    var e := Connect(Sensor, SENSOR_HOST, None);
    assert ops[2..][0] == ConnectSensor;
    var more := Exec(ops[2..], env, s1);
    if env.reachable(SENSOR_HOST, None) {
      ExecStep(ops, 2, env, s1, e, s1);
    } else {
      assert more == Run([e], Some(ConnectFailed));
    }
    var r := Exec(ops, env, Start(env));
    assert r.trace[2] == more.trace[0];
  }

  /** The query goes out whole, and the sensor host closes instead of
      answering: the run ends there, with the closed connection as cause. */
  lemma QueryUnanswered(query: string, env: Env, st: State)
    requires TakesWhole(st.sensor, 0, |CString(query)|)
    requires |st.sensor.incoming| > 0 && st.sensor.incoming[0] == Chunk("")
    ensures Exec(Plan(query)[5..], env, st) == Run([Sent(Sensor, [CString(query)])], Some(PeerClosed))
  {
    PlanSteps(query);
    SendAtOnce(CString(query), st.sensor.sendReturns);
    var next := st.(sensor := st.sensor.(sendReturns := st.sensor.sendReturns[1..]));
    ExecStep(Plan(query), 5, env, st, Sent(Sensor, [CString(query)]), next);
    assert Plan(query)[6..][0] == RecvOp(Sensor);
  }

  /** AUTH acknowledged, the query sent, and no reply. */
  lemma SensorAckThenQuery(query: string, env: Env, st: State)
    requires TakesWhole(st.sensor, 0, 19) && AnswersWithin(st.sensor, 0) && TakesWhole(st.sensor, 1, |CString(query)|)
    requires |st.sensor.incoming| > 1 && st.sensor.incoming[1] == Chunk("")
    ensures Exec(Plan(query)[3..], env, st).failure == Some(PeerClosed)
    ensures |Exec(Plan(query)[3..], env, st).trace| == 3
    ensures Exec(Plan(query)[3..], env, st).trace[2] == Sent(Sensor, [CString(query)])
  {
    PlanSteps(query);
    ExchangeGoes(Plan(query), 3, Sensor, SENSOR_AUTH[..19], env, st);
    var next := st.(sensor := Advance(st.sensor), inbox := st.sensor.incoming[0].bytes);
    QueryUnanswered(query, env, next);
  }

  /** The sensor host acknowledges AUTH and then closes before the reply to
      the query arrives: the session aborts as a closed connection after six
      events, the last of them the query, sent in full. */
  lemma SensorClosesBeforeReply(query: string, env: Env, port: string)
    requires TakesWhole(env.rendezvous, 0, 17) && AnswersWithin(env.rendezvous, 0)
    requires Redirect.ParsePort(CString(env.rendezvous.incoming[0].bytes)) == Some(port)
    requires env.reachable(SENSOR_HOST, Some(port))
    requires TakesWhole(env.sensor, 0, 19) && AnswersWithin(env.sensor, 0) && TakesWhole(env.sensor, 1, |CString(query)|)
    requires |env.sensor.incoming| > 1 && env.sensor.incoming[1] == Chunk("")
    ensures Protocol(query, env).end == Abort(PeerClosed)
    ensures |Protocol(query, env).trace| == 6
    ensures Protocol(query, env).trace[5] == Sent(Sensor, [CString(query)])
  {
    var s1 := Start(env).(rendezvous := Advance(env.rendezvous), inbox := env.rendezvous.incoming[0].bytes);
    RendezvousLeg(query, env);
    ConnectLeg(query, env, s1, port);
    SensorAckThenQuery(query, env, s1);
    var r := Exec(Plan(query), env, Start(env));
    var r2 := Exec(Plan(query)[2..], env, s1);
    assert r.trace[5] == r2.trace[3];
    assert r2.trace[3] == r2.trace[1..][2];
  }
}
