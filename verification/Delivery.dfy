/** From messages to bytes: what a connection does to its stream is what `Attempt` does to
    the log, as long as no write fails after the first one of its frame and every payload
    fits in 127 bytes. How messages are encoded is left open. */
module Delivery {
  import opened Messages
  import opened Framing

  type Encoding = ServerMsg -> Payload

  function Encoded(log: seq<ServerMsg>, encode: Encoding): seq<Payload> {
    seq(|log|, i requires 0 <= i < |log| => encode(log[i]))
  }

  /** Messages whose length byte reads back. */
  predicate Fits(log: seq<ServerMsg>, encode: Encoding) {
    forall i | 0 <= i < |log| :: Narrow(encode(log[i]))
  }

  lemma FitsIsNarrow(log: seq<ServerMsg>, encode: Encoding)
    requires Fits(log, encode)
    ensures AllNarrow(Encoded(log, encode)) && AllSendable(Encoded(log, encode))
  {
  }

  /** The stream that carries a log. */
  ghost predicate Carries(stream: seq<byte>, log: seq<ServerMsg>, encode: Encoding) {
    Fits(log, encode) && AllSendable(Encoded(log, encode)) && stream == Wire(Encoded(log, encode))
  }

  lemma CarriesOneMore(stream: seq<byte>, log: seq<ServerMsg>, encode: Encoding, m: ServerMsg)
    requires Carries(stream, log, encode) && Narrow(encode(m))
    ensures Carries(stream + Frame(encode(m)), log + [m], encode)
  {
    FitsIsNarrow(log + [m], encode);
    WireAppend(Encoded(log, encode), encode(m));
    assert Encoded(log + [m], encode) == Encoded(log, encode) + [encode(m)];
  }

  /** How many writes failed after the first. */
  ghost function Late(writes: seq<int>): nat {
    if writes == [] then 0 else Failed(writes[1..])
  }

  lemma {:induction false} FailedFirst(writes: seq<int>)
    requires writes != []
    ensures Failed(writes) == Late(writes) + if writes[0] == -1 then 1 else 0
  {
    var n := |writes| - 1;
    if n == 0 {
      assert writes[..0] == [] && writes[1..] == [];
    } else {
      FailedFirst(writes[..n]);
      assert writes[..n][1..] == writes[1..][..n - 1];
    }
  }

  /** The room's view of a connection on which the first of these writes is next. */
  ghost predicate Foretells(link: Link, log: seq<ServerMsg>, writes: seq<int>)
    requires writes != []
  {
    link.log == log && (Fails(link) <==> writes[0] == -1)
  }

  /** One message sent on a stream that carries `log`. What `send` reports and leaves on the
      stream is what `Attempt` says, unless a write fails after the first; a send that
      reports success has put the message on the stream if and only if none did. */
  method SendMessage(conn: Connection, encode: Encoding, m: ServerMsg, ghost log: seq<ServerMsg>)
    returns (sent: bool, ghost writes: seq<int>)
    requires Narrow(encode(m))
    modifies conn.sock`outgoing, conn.sock`failures
    ensures writes != [] && Failed(writes) == old(conn.sock.failures) - conn.sock.failures
    ensures conn.sock.outgoing == old(conn.sock.outgoing) + Wrote(Frame(encode(m)), writes).written
    ensures old(Carries(conn.sock.outgoing, log, encode)) && Late(writes) == 0 ==>
      forall link | Foretells(link, log, writes) ::
        sent == !Fails(link) && Carries(conn.sock.outgoing, Attempt(link, m).log, encode)
    ensures sent ==> (conn.sock.outgoing == old(conn.sock.outgoing) + Frame(encode(m)) <==> Late(writes) == 0)
  {
    ghost var before := conn.sock.outgoing;
    var r;
    r, writes := conn.Send(encode(m));
    sent := r.Sent?;
    FailedFirst(writes);
    if Carries(before, log, encode) {
      CarriesOneMore(before, log, encode, m);
    }
  }

  // ----- a conversation

  /** The link after an attempt at each of the messages. */
  function AttemptAll(link: Link, ms: seq<ServerMsg>): Link {
    if ms == [] then link else Attempt(AttemptAll(link, ms[..|ms| - 1]), ms[|ms| - 1])
  }

  lemma {:induction false} AttemptsCount(link: Link, ms: seq<ServerMsg>)
    ensures AttemptAll(link, ms).attempts == link.attempts + |ms| && AttemptAll(link, ms).faults == link.faults
  {
    if ms != [] {
      AttemptsCount(link, ms[..|ms| - 1]);
    }
  }

  /** Faults still to come do not show. */
  lemma {:induction false} LaterFault(faults: set<nat>, fault: nat, ms: seq<ServerMsg>)
    requires |ms| <= fault
    ensures AttemptAll(Link(faults + {fault}, 0, []), ms).log == AttemptAll(Link(faults, 0, []), ms).log
  {
    if ms != [] {
      LaterFault(faults, fault, ms[..|ms| - 1]);
      AttemptsCount(Link(faults, 0, []), ms[..|ms| - 1]);
      AttemptsCount(Link(faults + {fault}, 0, []), ms[..|ms| - 1]);
    }
  }

  lemma OneMoreAttempt(faults: set<nat>, ms: seq<ServerMsg>, i: nat, fails: bool)
    requires i < |ms| && i !in faults
    ensures var link := AttemptAll(Link(if fails then faults + {i} else faults, 0, []), ms[..i]);
      && link.log == AttemptAll(Link(faults, 0, []), ms[..i]).log && (Fails(link) <==> fails)
      && AttemptAll(Link(if fails then faults + {i} else faults, 0, []), ms[..i + 1]) == Attempt(link, ms[i])
  {
    LaterFault(faults, i, ms[..i]);
    AttemptsCount(Link(if fails then faults + {i} else faults, 0, []), ms[..i]);
    assert ms[..i + 1][..i] == ms[..i];
  }

  /** What sending each of the messages, with these results, puts on the stream. */
  ghost function WroteAll(ms: seq<ServerMsg>, results: seq<seq<int>>, encode: Encoding): seq<byte>
    requires |results| == |ms| && Fits(ms, encode)
  {
    if ms == [] then []
    else
      var n := |ms| - 1;
      WroteAll(ms[..n], results[..n], encode) + Wrote(Frame(encode(ms[n])), results[n]).written
  }

  /** How many writes failed in all. */
  ghost function FailedInAll(results: seq<seq<int>>): nat {
    if results == [] then 0 else FailedInAll(results[..|results| - 1]) + Failed(results[|results| - 1])
  }

  /** The messages whose first write failed: the faults of the link. */
  ghost function FirstFailed(results: seq<seq<int>>): set<nat> {
    set i: nat | i < |results| && results[i] != [] && results[i][0] == -1
  }

  /** No write failed but the first of a message. */
  ghost predicate NoneLate(results: seq<seq<int>>) {
    forall i | 0 <= i < |results| :: Late(results[i]) == 0
  }

  lemma OneMoreResult(ms: seq<ServerMsg>, i: nat, results: seq<seq<int>>, writes: seq<int>, encode: Encoding)
    requires i < |ms| && |results| == i && Fits(ms, encode)
    ensures WroteAll(ms[..i + 1], results + [writes], encode) ==
      WroteAll(ms[..i], results, encode) + Wrote(Frame(encode(ms[i])), writes).written
    ensures FailedInAll(results + [writes]) == FailedInAll(results) + Failed(writes)
  {
    var more := results + [writes];
    assert more[..|more| - 1] == results && ms[..i + 1][..i] == ms[..i];
  }

  lemma OneMoreFirst(results: seq<seq<int>>, writes: seq<int>)
    requires writes != []
    ensures FirstFailed(results + [writes]) ==
      if writes[0] == -1 then FirstFailed(results) + {|results|} else FirstFailed(results)
  {
  }

  lemma OneMoreLate(results: seq<seq<int>>, writes: seq<int>)
    ensures NoneLate(results + [writes]) <==> NoneLate(results) && Late(writes) == 0
  {
    var more := results + [writes];
    assert forall j | 0 <= j < |results| :: more[j] == results[j];
    if NoneLate(more) {
      assert forall j | 0 <= j < |results| :: Late(more[j]) == 0;
      assert Late(more[|results|]) == 0;
    }
  }

  /** Sending them one after the other: what is on the stream, and that it carries the log
      the room model keeps if no write failed late. */
  method SendEach(conn: Connection, encode: Encoding, ms: seq<ServerMsg>)
    returns (ghost results: seq<seq<int>>)
    requires conn.sock.outgoing == [] && Fits(ms, encode)
    modifies conn.sock`outgoing, conn.sock`failures
    ensures |results| == |ms| && FailedInAll(results) == old(conn.sock.failures) - conn.sock.failures
    ensures conn.sock.outgoing == WroteAll(ms, results, encode)
    ensures NoneLate(results) ==>
      Carries(conn.sock.outgoing, AttemptAll(Link(FirstFailed(results), 0, []), ms).log, encode)
  {
    results := [];
    assert ms[..0] == [];
    for i := 0 to |ms|
      invariant |results| == i && FailedInAll(results) == old(conn.sock.failures) - conn.sock.failures
      invariant conn.sock.outgoing == WroteAll(ms[..i], results, encode)
      invariant NoneLate(results) ==>
        Carries(conn.sock.outgoing, AttemptAll(Link(FirstFailed(results), 0, []), ms[..i]).log, encode)
    {
      ghost var faults := FirstFailed(results);
      ghost var log := AttemptAll(Link(faults, 0, []), ms[..i]).log;
      ghost var writes;
      var sent;
      sent, writes := SendMessage(conn, encode, ms[i], log);
      OneMoreAttempt(faults, ms, i, writes[0] == -1);
      OneMoreResult(ms, i, results, writes, encode);
      OneMoreFirst(results, writes);
      OneMoreLate(results, writes);
      results := results + [writes];
      ghost var link := AttemptAll(Link(FirstFailed(results), 0, []), ms[..i]);
      assert Foretells(link, log, writes);
    }
    assert ms[..|ms|] == ms;
  }

  /** From the room to the client: whatever first writes fail, and however writes and reads
      are cut, the client handles exactly the log of the link if no write fails late. */
  method Converse(encode: Encoding, ms: seq<ServerMsg>, failures: nat)
    returns (stream: seq<byte>, handled: seq<Payload>, ghost results: seq<seq<int>>)
    requires Fits(ms, encode)
    ensures |results| == |ms| && FailedInAll(results) <= failures && stream == WroteAll(ms, results, encode)
    ensures AllNarrow(handled) && forall ps | AllNarrow(ps) && stream == Wire(ps) :: handled == ps
    ensures NoneLate(results) ==> handled == Encoded(AttemptAll(Link(FirstFailed(results), 0, []), ms).log, encode)
  {
    var near := new Socket([], failures);
    var sender := new Connection(near);
    results := SendEach(sender, encode, ms);
    stream := near.outgoing;
    var far := new Socket(stream, 0);
    var receiver := new Connection(far);
    handled := ReceiveLoop(receiver);
    if NoneLate(results) {
      FitsIsNarrow(AttemptAll(Link(FirstFailed(results), 0, []), ms).log, encode);
    }
  }
}
