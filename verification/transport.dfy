/** `send_or_exit` and `recv_or_exit` (client.c) over a scripted socket.

    The operating system's `send` and `recv` are replaced by a peer script:
    the values successive `send` calls return, and what successive `recv`
    calls find waiting. Where the source prints a message and calls `exit(1)`,
    the model returns an `Aborted` status naming the cause. */
module Transport {
  import opened Text

  /** Why a transport step ends the session. `Blocked` means the peer script
      has no answer for the call: the blocking call would never return. */
  datatype Cause = PeerClosed | SendFailed | RecvFailed | ConnectFailed | Blocked

  datatype Status = Done | Aborted(cause: Cause)

  /** What one `send` call can return: -1 on error, otherwise a byte count. */
  type SendReturn = r: int | -1 <= r

  /** What one `recv` call finds: bytes the peer has sent (none at all once
      the peer has closed the connection), or an error. */
  datatype RecvReply = Chunk(bytes: string) | Fault

  /** The scripted far end of one connection. */
  datatype Peer = Peer(sendReturns: seq<SendReturn>, incoming: seq<RecvReply>)

  /** The chunks concatenated in order. */
  function Flatten(chunks: seq<string>): (s: string)
    ensures |chunks| == 1 ==> s == chunks[0]
    decreases |chunks|
  {
    if |chunks| == 0 then "" else chunks[0] + Flatten(chunks[1..])
  }

  /** The result of one `send_or_exit`: how it ended, the pieces of the buffer
      the successive `send` calls accepted, and the unused part of the script. */
  datatype Sending = Sending(status: Status, chunks: seq<string>, rest: seq<SendReturn>)

  /** `send_or_exit(fd, buf, |buf|)`: one `send`; 0 aborts as a closed
      connection, -1 as a send error; a short count re-sends the unsent suffix
      by a recursive call. */
  function SendOrExit(buf: string, script: seq<SendReturn>): (r: Sending)
    ensures Flatten(r.chunks) <= buf
    ensures r.status == Done ==> Flatten(r.chunks) == buf
    ensures r.status.Aborted? && |buf| > 0 ==> |Flatten(r.chunks)| < |buf|
    ensures r.status.Aborted? ==> r.status.cause == PeerClosed || r.status.cause == SendFailed || r.status.cause == Blocked
    ensures |buf| > 0 ==> |r.chunks| <= |buf| && forall i :: 0 <= i < |r.chunks| ==> r.chunks[i] != ""
    decreases |buf|
  {
    if |script| == 0 then Sending(Aborted(Blocked), [], [])
    else
      var sent := script[0];
      if sent == 0 then Sending(Aborted(PeerClosed), [], script[1..])
      else if sent == -1 then Sending(Aborted(SendFailed), [], script[1..])
      else if sent < |buf| then
        var more := SendOrExit(buf[sent..], script[1..]);
        Sending(more.status, [buf[..sent]] + more.chunks, more.rest)
      else Sending(Done, [buf], script[1..])
  }

  /** How `send_or_exit` uses the socket: one call per accepted chunk, each
      of which accepted at least one byte, plus the call that failed; a 0
      means the peer closed, a -1 a send error, and an exhausted script a call
      that never returns. The calls not made stay in the script. */
  lemma {:induction false} SendOrExitScript(buf: string, script: seq<SendReturn>)
    ensures var r := SendOrExit(buf, script);
      |r.rest| <= |script| && r.rest == script[|script| - |r.rest|..]
    ensures var r := SendOrExit(buf, script);
      |script| - |r.rest| == |r.chunks| + (if r.status == Done || r.status == Aborted(Blocked) then 0 else 1)
    ensures var r := SendOrExit(buf, script);
      forall i :: 0 <= i < |r.chunks| ==> script[i] >= 1
    ensures var r := SendOrExit(buf, script);
      r.status == Aborted(PeerClosed) ==> script[|r.chunks|] == 0
    ensures var r := SendOrExit(buf, script);
      r.status == Aborted(SendFailed) ==> script[|r.chunks|] == -1
    ensures SendOrExit(buf, script).status == Aborted(Blocked) ==> SendOrExit(buf, script).rest == []
    decreases |buf|
  {
    if |script| > 0 && script[0] != 0 && script[0] != -1 && script[0] < |buf| {
      var sent := script[0];
      SendOrExitScript(buf[sent..], script[1..]);
      var more := SendOrExit(buf[sent..], script[1..]);
      var r := SendOrExit(buf, script);
      assert r.chunks == [buf[..sent]] + more.chunks;
      forall i | 0 <= i < |r.chunks|
        ensures script[i] >= 1
      {
        if i > 0 {
          assert script[i] == script[1..][i - 1];
        }
      }
    }
  }

  /** Delivery: when every `send` accepts at least one byte and the script
      holds enough calls, `send_or_exit` returns normally, after at most
      `|buf|` calls, with the whole buffer delivered. */
  lemma {:induction false} SendDelivers(buf: string, script: seq<SendReturn>)
    requires |buf| > 0 && |script| >= |buf|
    requires forall i :: 0 <= i < |script| ==> script[i] >= 1
    ensures SendOrExit(buf, script).status == Done
    ensures Flatten(SendOrExit(buf, script).chunks) == buf
    ensures |SendOrExit(buf, script).rest| >= |script| - |buf|
    decreases |buf|
  {
    var sent := script[0];
    if sent < |buf| {
      SendDelivers(buf[sent..], script[1..]);
      SendOrExitScript(buf[sent..], script[1..]);
    }
  }

  /** Prepending the first character's chunk to the chunks of the rest keeps
      one chunk per character. */
  lemma OneByteChunks(buf: string, chunks: seq<string>, more: seq<string>)
    requires |buf| > 1 && |more| == |buf| - 1 && chunks == [buf[..1]] + more
    requires forall i :: 0 <= i < |more| ==> more[i] == [buf[1..][i]]
    ensures forall i :: 0 <= i < |buf| ==> chunks[i] == [buf[i]]
  {
    forall i | 0 <= i < |buf|
      ensures chunks[i] == [buf[i]]
    {
      if i > 0 {
        assert chunks[i] == more[i - 1];
      }
    }
  }

  /** A socket that accepts one byte per call: the buffer goes out one
      character per call, in order. */
  lemma {:induction false} SendOneByteAtATime(buf: string, script: seq<SendReturn>)
    requires |buf| > 0 && |script| >= |buf|
    requires forall i :: 0 <= i < |script| ==> script[i] == 1
    ensures SendOrExit(buf, script).status == Done
    ensures |SendOrExit(buf, script).chunks| == |buf|
    ensures forall i :: 0 <= i < |buf| ==> SendOrExit(buf, script).chunks[i] == [buf[i]]
    ensures SendOrExit(buf, script).rest == script[|buf|..]
    decreases |buf|
  {
    if |buf| > 1 {
      SendOneByteAtATime(buf[1..], script[1..]);
      var more := SendOrExit(buf[1..], script[1..]);
      var r := SendOrExit(buf, script);
      assert r == Sending(more.status, [buf[..1]] + more.chunks, more.rest);
      OneByteChunks(buf, r.chunks, more.chunks);
      assert script[1..][|buf| - 1..] == script[|buf|..];
    }
  }

  /** A `send` that accepts the whole buffer ends `send_or_exit` at once. */
  lemma SendAtOnce(buf: string, script: seq<SendReturn>)
    requires |script| > 0 && script[0] >= |buf| && script[0] != 0
    ensures SendOrExit(buf, script) == Sending(Done, [buf], script[1..])
  {
  }

  /** The bytes a peer script will still deliver, in order, up to its first
      close or error. */
  function Stream(incoming: seq<RecvReply>): string
    decreases |incoming|
  {
    if |incoming| == 0 then ""
    else match incoming[0]
      case Fault => ""
      case Chunk(b) => if b == "" then "" else b + Stream(incoming[1..])
  }

  /** The result of one `recv_or_exit`: how it ended, the bytes read, and what
      the peer still has queued. */
  datatype Receiving = Receiving(status: Status, data: string, rest: seq<RecvReply>)

  /** `recv_or_exit(fd, buff, maxLen)`: exactly one `recv` of at most `maxLen`
      bytes; a return of 0 aborts as a closed connection, -1 as a receive
      error. Bytes beyond `maxLen` stay queued for the next call. */
  function RecvOrExit(maxLen: nat, incoming: seq<RecvReply>): (r: Receiving)
    ensures r.status == Done ==> 0 < |r.data| <= maxLen
    ensures r.status == Done ==> r.data + Stream(r.rest) == Stream(incoming)
    ensures r.status == Done ==> r.rest == incoming[1..] || (|r.rest| == |incoming| && r.rest[1..] == incoming[1..])
    ensures r.status.Aborted? ==> r.data == ""
    ensures r.status == Aborted(Blocked) <==> incoming == []
    ensures r.status == Aborted(RecvFailed) <==> incoming != [] && incoming[0] == Fault
    ensures r.status == Aborted(PeerClosed) <==> incoming != [] && incoming[0].Chunk? && (incoming[0].bytes == "" || maxLen == 0)
    ensures r.status != Aborted(SendFailed) && r.status != Aborted(ConnectFailed)
  {
    if |incoming| == 0 then Receiving(Aborted(Blocked), "", [])
    else
      match incoming[0]
      case Fault => Receiving(Aborted(RecvFailed), "", incoming[1..])
      case Chunk(b) =>
        var n := if |b| < maxLen then |b| else maxLen;
        if n == 0 then Receiving(Aborted(PeerClosed), "", incoming[1..])
        else if n < |b| then
          assert b[..n] + b[n..] == b;
          Receiving(Done, b[..n], [Chunk(b[n..])] + incoming[1..])
        else Receiving(Done, b, incoming[1..])
  }

  /** A reply that fits the buffer is read whole by one `recv`. */
  lemma RecvAtOnce(maxLen: nat, incoming: seq<RecvReply>)
    requires |incoming| > 0 && incoming[0].Chunk? && 0 < |incoming[0].bytes| <= maxLen
    ensures RecvOrExit(maxLen, incoming) == Receiving(Done, incoming[0].bytes, incoming[1..])
  {
  }
}
