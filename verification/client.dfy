/** The user-facing half of client.c: `prompt`'s validation of the typed
    line, the `mainLoop` switch from a menu selection to a sensor query, and
    the `sscanf` that reads the sensor's reply. One iteration of the loop is
    `MainLoopTurn`. */
module Client {
  import opened Text
  import opened Transport
  import opened Session
  import Redirect

  /** The three sensors the menu offers. */
  datatype Quantity = AirTemperature | RelativeHumidity | WindSpeed

  /** What the `switch` in `mainLoop` does with a selection. */
  datatype Command = Query(quantity: Quantity) | Quit | Invalid

  /** The number the printed menu puts in front of each sensor. */
  function MenuNumber(q: Quantity): int
  {
    match q
    case AirTemperature => 1
    case RelativeHumidity => 2
    case WindSpeed => 3
  }

  /** The `switch (selection)`: cases 1-3 query a sensor, 4 quits, every
      other value (including the -1 `prompt` returns for bad input) is an
      invalid selection. */
  function Dispatch(selection: int): (c: Command)
    ensures c.Query? ==> MenuNumber(c.quantity) == selection
    ensures c == Quit <==> selection == 4
    ensures c == Invalid <==> selection < 1 || 4 < selection
  {
    if selection == 1 then Query(AirTemperature)
    else if selection == 2 then Query(RelativeHumidity)
    else if selection == 3 then Query(WindSpeed)
    else if selection == 4 then Quit
    else Invalid
  }

  /** Every menu entry reaches its own sensor. */
  lemma DispatchMenu(q: Quantity)
    ensures Dispatch(MenuNumber(q)) == Query(q)
  {
  }

  /** The sensor's name as the report prints it. */
  function Label(q: Quantity): string
  {
    match q
    case AirTemperature => "AIR TEMPERATURE"
    case RelativeHumidity => "RELATIVE HUMIDITY"
    case WindSpeed => "WIND SPEED"
  }

  /** The query string handed to `protocol`. */
  function QueryText(q: Quantity): (s: string)
    ensures s != "" && '\0' !in s
  {
    match q
    case AirTemperature => "AIR TEMPERATURE\n"
    case RelativeHumidity => "RELATIVE HUMIDITY\n"
    case WindSpeed => "WIND SPEED"
  }

  /** Each query is the sensor's printed name followed by a newline, except
      the wind-speed query, which the source sends without one. No query
      holds a NUL, so `strlen` sends all of it. */
  lemma QueryFraming(q: Quantity)
    ensures QueryText(q) == Label(q) + (if q == WindSpeed then "" else "\n")
    ensures QueryText(q)[|QueryText(q)| - 1] == '\n' <==> q != WindSpeed
    ensures CString(QueryText(q)) == QueryText(q)
  {
    match q
    case AirTemperature =>
      assert "AIR TEMPERATURE" + "\n" == "AIR TEMPERATURE\n";
      TakeUntilAbsent("AIR TEMPERATURE\n", '\0');
    case RelativeHumidity =>
      assert "RELATIVE HUMIDITY" + "\n" == "RELATIVE HUMIDITY\n";
      TakeUntilAbsent("RELATIVE HUMIDITY\n", '\0');
    case WindSpeed =>
      assert "WIND SPEED" + "" == "WIND SPEED";
      TakeUntilAbsent("WIND SPEED", '\0');
  }

  // ---------------------------------------------------------------------
  // The reply: `sscanf(response, "%ld %d …", &epoch, &condition)`.
  // ---------------------------------------------------------------------

  /** The two variables `sscanf` assigns. They live across loop iterations,
      so a conversion that fails leaves the previous values in place. */
  datatype Reading = Reading(epoch: int, condition: int)

  /** `sscanf(reply, "%ld %d …")`: the first conversion sets `epoch`, the
      second `condition`; scanning stops at the first conversion that fails,
      and the variables it did not reach keep their values. The three
      formats in the source differ only after the second conversion, which
      does not change what is assigned. */
  function ScanReply(reply: string, prev: Reading): (r: Reading)
    ensures r != prev ==> exists i :: 0 <= i < |reply| && IsDigit(reply[i])
  {
    match ScanInt(reply, 0)
    case None => prev
    case Some(first) =>
      match ScanInt(reply, first.end)
      case None => Reading(first.value, prev.condition)
      case Some(second) => Reading(first.value, second.value)
  }

  /** Every reply: with no numeral after the leading white space nothing is
      assigned; otherwise `epoch` gets the first numeral's value, and
      `condition` gets the second's when a numeral follows the first, or keeps
      its value when none does. */
  lemma ScanReplyAll(reply: string, prev: Reading)
    ensures !NumeralAhead(reply, 0) ==> ScanReply(reply, prev) == prev
    ensures NumeralAhead(reply, 0) ==>
      var j := SkipSpaces(reply, 0);
      var e := ScanInt(reply, 0).value.end;
      && Numeral(reply[j..e])
      && ScanReply(reply, prev).epoch == NumeralValue(reply[j..e])
      && (!NumeralAhead(reply, e) ==> ScanReply(reply, prev).condition == prev.condition)
      && (NumeralAhead(reply, e) ==>
            var j2 := SkipSpaces(reply, e);
            var e2 := ScanInt(reply, e).value.end;
            Numeral(reply[j2..e2]) && ScanReply(reply, prev).condition == NumeralValue(reply[j2..e2]))
  {
    ScanIntAll(reply, 0);
    if NumeralAhead(reply, 0) {
      ScanIntAll(reply, ScanInt(reply, 0).value.end);
    }
  }

  /** A well-formed reply `<epoch> <value> <unit…>` is read back exactly. */
  lemma ScanReplyRoundTrip(epoch: int, value: int, tail: string, prev: Reading)
    requires tail == "" || !IsDigit(tail[0])
    ensures ScanReply(Show(epoch) + " " + Show(value) + tail, prev) == Reading(epoch, value)
  {
    var s := Show(epoch) + " " + Show(value) + tail;
    var a := |Show(epoch)|;
    var b := |Show(value)|;
    assert s[0..a] == Show(epoch);
    ScanShow(s, 0, 0, epoch);
    assert s[a + 1..a + 1 + b] == Show(value);
    ScanShow(s, a, a + 1, value);
  }

  /** A reply without a single digit assigns nothing. */
  lemma ScanReplyNoNumber(reply: string, prev: Reading)
    requires forall i :: 0 <= i < |reply| ==> !IsDigit(reply[i])
    ensures ScanReply(reply, prev) == prev
  {
  }

  /** A reply that holds only the epoch updates `epoch` and leaves
      `condition` as it was. */
  lemma ScanReplyEpochOnly(epoch: int, tail: string, prev: Reading)
    requires forall i :: 0 <= i < |tail| ==> !IsDigit(tail[i])
    ensures ScanReply(Show(epoch) + tail, prev) == Reading(epoch, prev.condition)
  {
    var s := Show(epoch) + tail;
    var a := |Show(epoch)|;
    assert s[0..a] == Show(epoch);
    ScanShow(s, 0, 0, epoch);
    forall t | a <= t < |s|
      ensures !IsDigit(s[t])
    {
      assert s[t] == tail[t - a];
    }
  }

  // ---------------------------------------------------------------------
  // The typed selection: the tail of `prompt`.
  // ---------------------------------------------------------------------

  /** The tail of `prompt`, given what `fgets` left in the zeroed 10-byte
      buffer: the text is cut at the first newline, converted by `strtol`
      in base 10, and rejected as -1 unless the conversion consumed at least
      one character and stopped exactly at the end of the text. */
  function Prompt(input: string): (n: int)
    ensures n != -1 ==> exists i :: 0 <= i < |input| && IsDigit(input[i])
  {
    var line := TakeUntil(CString(input), '\n');
    match ScanInt(line, 0)
    case Some(sc) => if sc.end == |line| then sc.value else -1
    case None => -1
  }

  /** For every typed line: after the newline cut and the white space
      `strtol` skips, a numeral gives its value and anything else gives -1. */
  lemma PromptNumeral(input: string)
    ensures var line := TakeUntil(CString(input), '\n');
      var rest := line[SkipSpaces(line, 0)..];
      Prompt(input) == if Numeral(rest) then NumeralValue(rest) else -1
  {
    ScanIntWhole(TakeUntil(CString(input), '\n'));
  }

  lemma ShowHasNoControl(n: int)
    ensures '\0' !in Show(n) && '\n' !in Show(n)
  {
    forall i | 0 <= i < |Show(n)|
      ensures Show(n)[i] != '\0' && Show(n)[i] != '\n'
    {
    }
  }

  /** A number typed and ended with the Enter key comes back as that number. */
  lemma PromptRoundTrip(n: int, tail: string)
    ensures Prompt(Show(n) + "\n" + tail) == n
  {
    var input := Show(n) + "\n" + tail;
    ShowHasNoControl(n);
    assert input == Show(n) + ("\n" + tail);
    TakeUntilAppend(Show(n) + "\n", tail, '\0');
    var text := Show(n) + "\n" + TakeUntil(tail, '\0');
    assert text == Show(n) + ("\n" + TakeUntil(tail, '\0'));
    TakeUntilAppend(Show(n), "\n" + TakeUntil(tail, '\0'), '\n');
    var line := Show(n);
    assert TakeUntil(CString(input), '\n') == line;
    assert line[0..|Show(n)|] == Show(n);
    ScanShow(line, 0, 0, n);
  }

  /** A number followed by anything but the line end is rejected. */
  lemma PromptRejectsTrailing(n: int, c: char, tail: string)
    requires !IsDigit(c) && c != '\n' && c != '\0'
    ensures Prompt(Show(n) + [c] + tail) == -1
  {
    var head := Show(n) + [c];
    ShowHasNoControl(n);
    TakeUntilAppend(head, tail, '\0');
    TakeUntilAppend(head, TakeUntil(tail, '\0'), '\n');
    var line := TakeUntil(CString(head + tail), '\n');
    assert line == head + TakeUntil(TakeUntil(tail, '\0'), '\n');
    assert line[0..|Show(n)|] == Show(n);
    assert line[|Show(n)|] == c;
    ScanShow(line, 0, 0, n);
  }

  /** Text without a digit (an empty line included) is rejected. */
  lemma PromptRejectsNoDigits(input: string)
    requires forall i :: 0 <= i < |input| ==> !IsDigit(input[i])
    ensures Prompt(input) == -1
  {
    var line := TakeUntil(CString(input), '\n');
    forall t | 0 <= t < |line|
      ensures !IsDigit(line[t])
    {
      assert line[t] == input[t];
    }
  }

  lemma Pow10Values()
    ensures Pow10(8) == 100000000 && Pow10(9) == 1000000000
  {
    assert Pow10(4) == 10000;
  }

  /** `fgets` stores at most nine characters, so a selection never needs
      more than nine digits: it always fits a 32-bit `long`. */
  lemma PromptBounded(input: string)
    requires |input| <= 9
    ensures -99999999 <= Prompt(input) <= 999999999
  {
    var line := TakeUntil(CString(input), '\n');
    if ScanInt(line, 0).Some? {
      ScanIntMagnitude(line, 0);
      Pow10Monotone(|line|, 9);
      Pow10Monotone(|line| - 1, 8);
      Pow10Values();
    }
  }

  // ---------------------------------------------------------------------
  // One iteration of `mainLoop`.
  // ---------------------------------------------------------------------

  /** How one iteration of the loop ends: the user quits (`exit(0)`), the
      selection is rejected (the loop goes on), a reading is reported, or the
      client aborts (`exit(1)`). */
  datatype TurnEnd = Goodbye | Rejected | Shown(quantity: Quantity, reading: Reading) | Failed(cause: Cause)

  datatype Turn = Turn(trace: seq<Event>, end: TurnEnd)

  /** The connection every iteration opens to the rendezvous server, before
      it looks at the selection. */
  const RendezvousConnect: Event := Connect(Rendezvous, "comp375.sandiego.edu", Some("47789"))

  /** One iteration: the typed line is validated, a rendezvous connection
      is opened whatever the selection, and a sensor selection runs the
      session and scans its reply into the variables of the previous
      iteration. */
  function MainLoopTurn(input: string, env: Env, prev: Reading): (t: Turn)
    ensures 1 <= |t.trace| <= 11 && t.trace[0] == RendezvousConnect
    ensures t.end.Shown? ==> MenuNumber(t.end.quantity) == Prompt(input)
  {
    if !env.reachable(RENDEZVOUS_HOST, Some(RENDEZVOUS_PORT)) then
      Turn([RendezvousConnect], Failed(ConnectFailed))
    else
      match Dispatch(Prompt(input))
      case Quit => Turn([RendezvousConnect], Goodbye)
      case Invalid => Turn([RendezvousConnect], Rejected)
      case Query(q) =>
        var o := Protocol(QueryText(q), env);
        match o.end
        case Abort(c) => Turn([RendezvousConnect] + o.trace, Failed(c))
        case Response(text) => Turn([RendezvousConnect] + o.trace, Shown(q, ScanReply(CString(text), prev)))
  }

  /** Only a sensor selection talks to the network beyond the rendezvous
      connection; quitting and a rejected selection still open it. */
  lemma TurnDispatch(input: string, env: Env, prev: Reading)
    ensures var t := MainLoopTurn(input, env, prev);
      t.trace[0] == RendezvousConnect
    ensures var t := MainLoopTurn(input, env, prev);
      |t.trace| > 1 ==> 1 <= Prompt(input) <= 3
    ensures var t := MainLoopTurn(input, env, prev);
      t.end == Goodbye <==> env.reachable(RENDEZVOUS_HOST, Some(RENDEZVOUS_PORT)) && Prompt(input) == 4
    ensures var t := MainLoopTurn(input, env, prev);
      t.end == Rejected <==> env.reachable(RENDEZVOUS_HOST, Some(RENDEZVOUS_PORT)) && (Prompt(input) < 1 || 4 < Prompt(input))
  {
  }

  /** A reported reading comes from a complete session for the selected
      sensor, opened by the rendezvous connection. */
  lemma TurnShownShape(input: string, env: Env, prev: Reading)
    ensures var t := MainLoopTurn(input, env, prev);
      t.end.Shown? ==>
        var o := Protocol(QueryText(t.end.quantity), env);
        && Dispatch(Prompt(input)) == Query(t.end.quantity)
        && o.end.Response?
        && t.trace == [RendezvousConnect] + o.trace
        && t.end.reading == ScanReply(CString(o.end.text), prev)
  {
  }

  /** A reported reading was obtained by a complete session that sent the
      query for the chosen sensor, and it is the scan of that session's
      reply. */
  lemma TurnReportsQueriedSensor(input: string, env: Env, prev: Reading)
    ensures var t := MainLoopTurn(input, env, prev);
      t.end.Shown? ==>
        && MenuNumber(t.end.quantity) == Prompt(input)
        && |t.trace| == 1 + |SessionOrder|
        && Payload(t.trace[6]) == QueryText(t.end.quantity)
        && t.end.reading == ScanReply(CString(Payload(t.trace[7])), prev)
  {
    var t := MainLoopTurn(input, env, prev);
    TurnShownShape(input, env, prev);
    if t.end.Shown? {
      ReportedSession(t.end.quantity, env, t.trace);
    }
  }

  /** The trace of an iteration that completed the session for `q`: the
      query for `q` is its seventh event and the reply the eighth. */
  lemma ReportedSession(q: Quantity, env: Env, trace: seq<Event>)
    requires Protocol(QueryText(q), env).end.Response?
    requires trace == [RendezvousConnect] + Protocol(QueryText(q), env).trace
    ensures |trace| == 1 + |SessionOrder|
    ensures Payload(trace[6]) == QueryText(q)
    ensures Payload(trace[7]) == Protocol(QueryText(q), env).end.text
  {
    var o := Protocol(QueryText(q), env);
    ProtocolMessages(QueryText(q), env);
    QueryFraming(q);
    assert trace[6] == o.trace[5];
    assert trace[7] == o.trace[6];
  }

  /** The rendezvous connection an iteration opens is never closed. */
  lemma TurnLeavesRendezvousOpen(input: string, env: Env, prev: Reading)
    ensures Closed(Rendezvous) !in MainLoopTurn(input, env, prev).trace
  {
    var t := MainLoopTurn(input, env, prev);
    if env.reachable(RENDEZVOUS_HOST, Some(RENDEZVOUS_PORT)) && Dispatch(Prompt(input)).Query? {
      var q := Dispatch(Prompt(input)).quantity;
      var o := Protocol(QueryText(q), env);
      ProtocolCloses(QueryText(q), env);
      assert t.trace == [RendezvousConnect] + o.trace;
      assert Closed(Rendezvous) !in [RendezvousConnect];
    }
  }

  /** End to end: a sensor selection, reachable hosts, peers that take each
      message at once and answer within the buffer, and a sensor reply
      `<epoch> <value> <unit…>` report exactly that epoch and value for the
      chosen sensor. */
  lemma TurnShowsReply(input: string, env: Env, prev: Reading, q: Quantity, port: string, epoch: int, value: int, tail: string)
    requires Prompt(input) == MenuNumber(q)
    requires env.reachable(RENDEZVOUS_HOST, Some(RENDEZVOUS_PORT)) && env.reachable(SENSOR_HOST, Some(port))
    requires TakesWhole(env.rendezvous, 0, 17) && AnswersWithin(env.rendezvous, 0)
    requires Redirect.ParsePort(CString(env.rendezvous.incoming[0].bytes)) == Some(port)
    requires TakesWhole(env.sensor, 0, 19) && TakesWhole(env.sensor, 1, |QueryText(q)|) && TakesWhole(env.sensor, 2, 6)
    requires AnswersWithin(env.sensor, 0) && AnswersWithin(env.sensor, 1) && AnswersWithin(env.sensor, 2)
    requires env.sensor.incoming[1].bytes == Show(epoch) + " " + Show(value) + tail
    requires '\0' !in tail && (tail == "" || !IsDigit(tail[0]))
    ensures MainLoopTurn(input, env, prev).end == Shown(q, Reading(epoch, value))
  {
    QueryFraming(q);
    DispatchMenu(q);
    ProtocolCompletes(QueryText(q), env, port);
    var reply := env.sensor.incoming[1].bytes;
    ShowHasNoControl(epoch);
    ShowHasNoControl(value);
    assert '\0' !in Show(epoch) + " " + Show(value);
    TakeUntilAppend(Show(epoch) + " " + Show(value), tail, '\0');
    TakeUntilAbsent(tail, '\0');
    assert CString(reply) == reply;
    ScanReplyRoundTrip(epoch, value, tail, prev);
  }
}
