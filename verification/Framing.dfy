/** Length-prefixed frames over a byte stream that may be cut anywhere. */
module Framing {

  newtype byte = x: int | 0 <= x < 256

  type Payload = seq<byte>

  const BUF_SIZE := 256
  const SIZE_RANGE := 0x1_0000_0000_0000_0000

  // ----- the format

  /** A length byte reads back as itself; from 128 on a signed `char` widens to a
      huge unsigned size instead. */
  predicate Narrow(p: Payload) {
    |p| <= 127
  }

  predicate AllNarrow(ps: seq<Payload>) {
    forall p | p in ps :: Narrow(p)
  }

  /** What `send` accepts. */
  predicate AllSendable(ps: seq<Payload>) {
    forall p | p in ps :: |p| <= 255
  }

  function Frame(p: Payload): seq<byte>
    requires |p| <= 255
  {
    [|p| as byte] + p
  }

  /** The stream that carries `ps`. */
  ghost function Wire(ps: seq<Payload>): seq<byte>
    requires AllSendable(ps)
  {
    if ps == [] then [] else Frame(ps[0]) + Wire(ps[1..])
  }

  /** No further message can be cut off the front of `s`. */
  predicate NoFrame(s: seq<byte>) {
    s != [] ==> s[0] >= 128 || |s| <= s[0] as int
  }

  /** `stream` is over, or breaks off after the frames of `taken` inside the next. */
  ghost predicate EndsAfter(stream: seq<byte>, taken: seq<Payload>)
    requires AllSendable(taken)
  {
    || (stream == [] && taken == [])
    || (Wire(taken) < stream && NoFrame(stream[|Wire(taken)|..]))
  }

  /** After the frames of `taken` comes a length byte that does not read back. */
  ghost predicate WideAfter(stream: seq<byte>, taken: seq<Payload>)
    requires AllSendable(taken)
  {
    Wire(taken) < stream && stream[|Wire(taken)|] >= 128
  }

  lemma {:induction false} WireConcat(a: seq<Payload>, b: seq<Payload>)
    requires AllSendable(a) && AllSendable(b)
    ensures Wire(a + b) == Wire(a) + Wire(b)
  {
    if a == [] {
      assert a + b == b;
    } else {
      assert (a + b)[1..] == a[1..] + b;
      WireConcat(a[1..], b);
    }
  }

  /** Sending one more message appends one frame. */
  lemma WireAppend(ps: seq<Payload>, p: Payload)
    requires AllSendable(ps) && |p| <= 255
    ensures Wire(ps + [p]) == Wire(ps) + Frame(p)
  {
    WireConcat(ps, [p]);
    assert Wire([p]) == Frame(p) + Wire([]);
  }

  lemma SameFirstFrame(p: Payload, s: seq<byte>, q: Payload, t: seq<byte>)
    requires |p| <= 255 && |q| <= 255 && Frame(p) + s == Frame(q) + t
    ensures p == q && s == t
  {
    var stream := Frame(p) + s;
    assert stream[0] == |p| as byte;
    assert stream[0] == |q| as byte;
    assert stream[1..1 + |p|] == p && stream[1..1 + |q|] == q;
    assert stream[1 + |p|..] == s && stream[1 + |q|..] == t;
  }

  /** Frames are self-delimiting: whole frames taken off a stream of messages are
      its first messages, and the rest of the stream carries the rest of them. */
  lemma {:induction false} WirePrefix(taken: seq<Payload>, rest: seq<byte>, ps: seq<Payload>)
    requires AllSendable(taken) && AllSendable(ps)
    requires Wire(taken) + rest == Wire(ps)
    ensures |taken| <= |ps| && taken == ps[..|taken|] && rest == Wire(ps[|taken|..])
  {
    if taken == [] {
    } else {
      assert Wire(ps) == Frame(taken[0]) + (Wire(taken[1..]) + rest);
      SameFirstFrame(taken[0], Wire(taken[1..]) + rest, ps[0], Wire(ps[1..]));
      WirePrefix(taken[1..], rest, ps[1..]);
    }
  }

  lemma NextFrame(stream: seq<byte>, taken: seq<Payload>, chunk: seq<byte>, p: Payload, left: seq<byte>)
    requires AllSendable(taken) && Narrow(p)
    requires stream == Wire(taken) + chunk && chunk == Frame(p) + left
    ensures stream == Wire(taken + [p]) + left
  {
    WireAppend(taken, p);
  }

  /** Queueing the frame at the front of the buffer and moving the rest down. */
  lemma FrameMoved(stream: seq<byte>, taken: seq<Payload>, before: seq<byte>, left: nat, size: nat, after: seq<byte>)
    requires AllSendable(taken) && 1 <= size <= left <= |before| == |after|
    requires before[0] < 128 && size == before[0] as int + 1
    requires stream == Wire(taken) + before[..left] && after[..|after| - size] == before[size..]
    ensures stream == Wire(taken + [before[1..size]]) + after[..left - size]
  {
    assert after[..left - size] == before[size..][..left - size] == before[..left][size..];
    assert before[..left] == Frame(before[1..size]) + before[..left][size..];
    NextFrame(stream, taken, before[..left], before[1..size], after[..left - size]);
  }

  // ----- the socket

  /** One end of a stream socket: `incoming` is all the peer will ever have sent and
      is still unread, `outgoing` all that was written. Reads and writes move any
      non-empty piece. `failures` calls, whichever, are still going to fail. */
  class Socket {
    var incoming: seq<byte>
    var outgoing: seq<byte>
    var failures: nat

    constructor (incoming: seq<byte>, failures: nat)
      ensures this.incoming == incoming && outgoing == [] && this.failures == failures
    {
      this.incoming, this.failures := incoming, failures;
      outgoing := [];
    }

    method Read(buf: array<byte>, at: nat, max: nat) returns (n: int)
      requires 0 < max && at + max <= buf.Length
      modifies this`incoming, this`failures, buf
      ensures n == -1 ==> old(failures) == failures + 1 && incoming == old(incoming) && buf[..] == old(buf[..])
      ensures n != -1 ==> failures == old(failures)
      ensures n != -1 ==> 0 <= n <= max && n <= |old(incoming)| && incoming == old(incoming)[n..]
      ensures n == 0 <==> n != -1 && old(incoming) == []
      ensures n != -1 ==> buf[..] == old(buf[..at]) + old(incoming)[..n] + old(buf[at + n..])
    {
      var fails := *;
      if failures > 0 && fails {
        failures := failures - 1;
        return -1;
      }
      var available := |incoming|;
      if available == 0 {
        return 0;
      }
      n :| 1 <= n <= max && n <= available;
      forall i | 0 <= i < n {
        buf[at + i] := incoming[i];
      }
      incoming := incoming[n..];
    }

    method Write(data: seq<byte>) returns (n: int)
      requires data != []
      modifies this`outgoing, this`failures
      ensures n == -1 ==> old(failures) == failures + 1 && outgoing == old(outgoing)
      ensures n != -1 ==> failures == old(failures) && 0 < n <= |data| && outgoing == old(outgoing) + data[..n]
    {
      var fails := *;
      if failures > 0 && fails {
        failures := failures - 1;
        return -1;
      }
      n :| 1 <= n <= |data|;
      outgoing := outgoing + data[..n];
    }
  }

  /** How many of these calls failed. */
  ghost function Failed(results: seq<int>): (n: nat)
    ensures n <= |results|
  {
    if results == [] then 0
    else Failed(results[..|results| - 1]) + if results[|results| - 1] == -1 then 1 else 0
  }

  lemma FailedSnoc(results: seq<int>, n: int)
    ensures Failed(results + [n]) == Failed(results) + if n == -1 then 1 else 0
  {
    assert (results + [n])[..|results + [n]| - 1] == results;
  }

  // ----- Connection

  /** The result of `Receive`; `Broken` stands for running off the 256-byte buffer
      or filling the queue without end, where the call has no useful result. */
  datatype Received = Message(payload: Payload) | Nothing | Broken

  /** `Sent` is what the caller takes for success; `OutOfBuffer` stands for writing
      from before the buffer. */
  datatype SendResult = Sent(bytes: nat) | NotSent | OutOfBuffer | TooBig

  /** `static_cast<size_t>` of a signed byte. */
  function SizeOf(b: byte): nat {
    if b < 128 then b as int else SIZE_RANGE - 256 + b as int
  }

  /** A negative return value stored in a `size_t`. */
  function AsSize(n: int): nat
    requires -1 <= n
  {
    if n == -1 then SIZE_RANGE - 1 else n
  }

  /** Addition to a counter kept in a `size_t`: a failure takes one off, below zero the
      counter wraps. */
  function Bump(total: nat, n: int): (next: nat)
    requires total <= BUF_SIZE && -1 <= n <= BUF_SIZE
    ensures next == if total + n < 0 then SIZE_RANGE - 1 else total + n
  {
    var sum := total + AsSize(n);
    if sum < SIZE_RANGE then sum else sum - SIZE_RANGE
  }

  /** `msg_size + 1` in `size_t` arithmetic. */
  function FrameSize(b: byte): (size: nat)
    ensures b < 128 ==> size == b as int + 1
    ensures 128 <= b < 255 ==> size > BUF_SIZE
    ensures b == 255 ==> size == 0
  {
    if SizeOf(b) + 1 < SIZE_RANGE then SizeOf(b) + 1 else 0
  }

  predicate Blank(buf: seq<byte>) {
    forall i :: 0 <= i < |buf| ==> buf[i] == 0
  }

  predicate AllEmpty(ps: seq<Payload>) {
    forall i :: 0 <= i < |ps| ==> ps[i] == []
  }

  lemma BlankMoved(before: seq<byte>, after: seq<byte>)
    requires Blank(before) && |before| == |after| == BUF_SIZE
    requires after[..BUF_SIZE - 1] == before[1..] && after[BUF_SIZE - 1..] == before[BUF_SIZE - 1..]
    ensures Blank(after)
  {
    forall i | 0 <= i < BUF_SIZE
      ensures after[i] == 0
    {
      assert i < BUF_SIZE - 1 ==> after[i] == after[..BUF_SIZE - 1][i] == before[1..][i];
      assert i == BUF_SIZE - 1 ==> after[i] == after[BUF_SIZE - 1..][0] == before[BUF_SIZE - 1..][0];
    }
  }

  /** `memmove(buf, buf + size, 256 - size)`. */
  method MoveDown(buf: array<byte>, size: nat)
    requires size <= buf.Length
    modifies buf
    ensures buf[..buf.Length - size] == old(buf[size..])
    ensures buf[buf.Length - size..] == old(buf[buf.Length - size..])
  {
    forall i | 0 <= i < buf.Length - size {
      buf[i] := buf[i + size];
    }
  }

  /** What reading from `stream` down to `rest` may produce: a message with the
      ones read ahead in `queue`, all of them exactly the frames `taken` off the
      stream; nothing, when no whole frame follows them and the stream is over; or
      a broken call, when a length byte of 128 or more follows them. */
  ghost predicate Reassembled(stream: seq<byte>, r: Received, taken: seq<Payload>, queue: seq<Payload>,
          rest: seq<byte>) {
    && AllNarrow(taken)
    && match r
       case Message(payload) => taken == [payload] + queue && stream == Wire(taken) + rest
       case Nothing => queue == taken && rest == [] && EndsAfter(stream, taken)
       case Broken => WideAfter(stream, taken)
  }

  lemma SingleFrame(stream: seq<byte>, p: Payload, rest: seq<byte>)
    requires Narrow(p) && stream == Frame(p) + rest
    ensures Reassembled(stream, Message(p), [p], [], rest)
  {
    NextFrame(stream, [], stream, p, rest);
    assert [] + [p] == [p];
  }

  // ----- failing calls go unnoticed

  /** The bytes written and where the counter stands after these results of `write`. A
      failure, stored unsigned, takes one off the counter. */
  datatype Progress = Progress(written: seq<byte>, total: int)

  function Piece(frame: seq<byte>, at: int, n: int): seq<byte> {
    if 0 <= at <= at + n <= |frame| then frame[at..at + n] else []
  }

  function Advance(frame: seq<byte>, p: Progress, w: int): Progress {
    Progress(p.written + Piece(frame, p.total, w), p.total + w)
  }

  ghost function Wrote(frame: seq<byte>, results: seq<int>): Progress {
    if results == [] then Progress([], 0)
    else Advance(frame, Wrote(frame, results[..|results| - 1]), results[|results| - 1])
  }

  lemma WroteSnoc(frame: seq<byte>, results: seq<int>, w: int)
    ensures Wrote(frame, results + [w]) == Advance(frame, Wrote(frame, results), w)
  {
    assert (results + [w])[..|results + [w]| - 1] == results;
  }

  /** `send` after these results, none of which ended it. */
  ghost predicate Sending(frame: seq<byte>, done: seq<byte>, writes: seq<int>, total: int) {
    && 0 <= total <= |frame| && Wrote(frame, writes) == Progress(done, total)
    && |done| == total + Failed(writes)
    && (Failed(writes) == 0 ==> done == frame[..total])
  }

  lemma SendingFails(frame: seq<byte>, done: seq<byte>, writes: seq<int>, total: int)
    requires Sending(frame, done, writes, total) && total > 0
    ensures Sending(frame, done, writes + [-1], total - 1)
  {
    WroteSnoc(frame, writes, -1);
    FailedSnoc(writes, -1);
    assert done + Piece(frame, total, -1) == done;
  }

  lemma SendingMore(frame: seq<byte>, done: seq<byte>, writes: seq<int>, total: int, w: int)
    requires Sending(frame, done, writes, total) && 0 < w <= |frame| - total
    ensures Sending(frame, done + frame[total..total + w], writes + [w], total + w)
  {
    WroteSnoc(frame, writes, w);
    FailedSnoc(writes, w);
    PrefixGrows(frame, total, w);
  }

  lemma PrefixGrows(frame: seq<byte>, at: nat, n: nat)
    requires at + n <= |frame|
    ensures Piece(frame, at, n) == frame[at..at + n]
    ensures frame[..at] + frame[at..at + n] == frame[..at + n]
  {
  }

  /** A failure with `k` bytes out, in whatever pieces, repeats byte `k - 1`: what is on the
      stream in the end is one byte too long. */
  lemma OneFailureRepeatsAByte(frame: seq<byte>, writes: seq<int>, k: nat)
    requires 0 < k < |frame| && Sending(frame, frame[..k], writes, k)
    ensures Sending(frame, frame[..k] + frame[k - 1..], writes + [-1] + [|frame| - k + 1], |frame|)
  {
    SendingFails(frame, frame[..k], writes, k);
    SendingRest(frame, frame[..k], writes + [-1], k - 1);
  }

  /** One write may put out all that is left. */
  lemma SendingRest(frame: seq<byte>, done: seq<byte>, writes: seq<int>, total: int)
    requires Sending(frame, done, writes, total) && total < |frame|
    ensures Sending(frame, done + frame[total..], writes + [|frame| - total], |frame|)
  {
    SendingMore(frame, done, writes, total, |frame| - total);
    TailOf(frame, total, |frame| - total);
  }

  lemma TailOf(frame: seq<byte>, at: nat, n: nat)
    requires at + n == |frame|
    ensures frame[at..at + n] == frame[at..]
  {
  }

  /** A counter that has come to the end says nothing of failures; the stream does. */
  lemma SentRight(base: seq<byte>, frame: seq<byte>, done: seq<byte>, writes: seq<int>)
    requires Sending(frame, done, writes, |frame|)
    ensures |done| == |frame| + Failed(writes)
    ensures base + done == base + frame <==> Failed(writes) == 0
  {
    assert (base + done)[|base|..] == done && (base + frame)[|base|..] == frame;
    assert frame[..|frame|] == frame;
  }

  lemma WrittenMore(out: seq<byte>, done: seq<byte>, buf: seq<byte>, at: nat, n: nat)
    requires at + n <= |buf|
    ensures out + done + buf[at..][..n] == out + (done + buf[at..at + n])
  {
    assert buf[at..][..n] == buf[at..at + n];
  }

  lemma FirstPiece(frame: seq<byte>, n: int)
    requires 0 < n <= |frame|
    ensures Sending(frame, frame[..n], [n], n)
  {
    SendingMore(frame, [], [], 0, n);
    assert [] + [n] == [n] && [] + frame[0..n] == frame[..n];
  }

  /** The front of the buffer after these results of reading single bytes, and how many
      came off the stream. A failure takes the counter, and so the next byte, one back. */
  ghost function Filled(front: seq<byte>, incoming: seq<byte>, results: seq<int>): (seq<byte>, nat) {
    if results == [] then (front, 0)
    else
      var n := |results| - 1;
      var (bytes, used) := Filled(front, incoming, results[..n]);
      if results[n] == -1 then (if bytes == [] then bytes else bytes[..|bytes| - 1], used)
      else (if used < |incoming| then bytes + [incoming[used]] else bytes, used + 1)
  }

  lemma FilledSnoc(front: seq<byte>, incoming: seq<byte>, results: seq<int>, w: int)
    ensures var (bytes, used) := Filled(front, incoming, results);
      Filled(front, incoming, results + [w]) ==
        if w == -1 then (if bytes == [] then bytes else bytes[..|bytes| - 1], used)
        else (if used < |incoming| then bytes + [incoming[used]] else bytes, used + 1)
  {
    assert (results + [w])[..|results + [w]| - 1] == results;
  }

  /** The second loop of `Receive` after these results, its counter at `|bytes|`. */
  ghost predicate Filling(front: seq<byte>, incoming: seq<byte>, results: seq<int>, bytes: seq<byte>, used: nat) {
    && used <= |incoming| && Filled(front, incoming, results) == (bytes, used)
    && |bytes| == |front| + used - Failed(results)
    && (Failed(results) == 0 ==> bytes == front + incoming[..used])
  }

  lemma OneByteRead(before: seq<byte>, after: seq<byte>, at: nat, incoming: seq<byte>, used: nat)
    requires at < |before| && used < |incoming|
    requires after == before[..at] + incoming[used..][..1] + before[at + 1..]
    ensures |after| == |before| && after[..at + 1] == before[..at] + [incoming[used]]
    ensures incoming[used..][1..] == incoming[used + 1..]
  {
  }

  lemma FillingNext(front: seq<byte>, incoming: seq<byte>, results: seq<int>, bytes: seq<byte>, used: nat)
    requires Filling(front, incoming, results, bytes, used)
    ensures used < |incoming| ==> Filling(front, incoming, results + [1], bytes + [incoming[used]], used + 1)
    ensures bytes != [] ==> Filling(front, incoming, results + [-1], bytes[..|bytes| - 1], used)
    ensures bytes == [] ==>
      Filled(front, incoming, results + [-1]).1 == used == Failed(results + [-1]) - |front| - 1
  {
    if used < |incoming| {
      FillingReads(front, incoming, results, bytes, used);
    }
    FillingFails(front, incoming, results, bytes, used);
  }

  lemma FillingReads(front: seq<byte>, incoming: seq<byte>, results: seq<int>, bytes: seq<byte>, used: nat)
    requires Filling(front, incoming, results, bytes, used) && used < |incoming|
    ensures Filling(front, incoming, results + [1], bytes + [incoming[used]], used + 1)
  {
    FilledSnoc(front, incoming, results, 1);
    FailedSnoc(results, 1);
    assert front + incoming[..used + 1] == front + incoming[..used] + [incoming[used]];
  }

  lemma FillingFails(front: seq<byte>, incoming: seq<byte>, results: seq<int>, bytes: seq<byte>, used: nat)
    requires Filling(front, incoming, results, bytes, used)
    ensures bytes != [] ==> Filling(front, incoming, results + [-1], bytes[..|bytes| - 1], used)
    ensures bytes == [] ==>
      Filled(front, incoming, results + [-1]).1 == used == Failed(results + [-1]) - |front| - 1
  {
    FilledSnoc(front, incoming, results, -1);
    FailedSnoc(results, -1);
  }

  /** A message put together over `failed` failing reads, the last of `taken`: it has the
      length announced, but the unread stream is `failed` bytes past the frame boundary,
      or, if the counter ran below zero, anywhere. */
  ghost predicate Misread(stream: seq<byte>, taken: seq<Payload>, rest: seq<byte>, failed: nat) {
    && failed > 0 && taken != [] && AllNarrow(taken) && AllNarrow(taken[..|taken| - 1])
    && var whole, last := taken[..|taken| - 1], taken[|taken| - 1];
       && Wire(whole) < stream && stream[|Wire(whole)|] as int == |last|
       && |rest| <= |stream|
       && (|stream| - |rest| == |Wire(whole)| + 1 + |last| + failed || |stream| - |rest| == |Wire(whole)| + failed - 1)
  }

  /** What comes of a first read that fails: empty messages out of nowhere. */
  ghost predicate Invented(r: Received, queue: seq<Payload>) {
    r == Message([]) && |queue| == SIZE_RANGE - 2 && forall p | p in queue :: p == []
  }

  /** What `Receive` makes of a socket, `failed` of its reads failing. Without failures
      the messages are the next frames and the stream is at a frame boundary. A failing
      read makes messages up or shifts the stream; `Nothing` still means the end of the
      stream, and `Broken` a length byte of 128 or more. */
  ghost predicate Outcome(stream: seq<byte>, r: Received, taken: seq<Payload>, queue: seq<Payload>, rest: seq<byte>,
          failed: int) {
    && 0 <= failed && AllNarrow(taken)
    && (failed == 0 ==> Reassembled(stream, r, taken, queue, rest))
    && (failed > 0 && r.Message? ==>
          || (Invented(r, queue) && rest == stream)
          || (taken == [r.payload] + queue && Misread(stream, taken, rest, failed)))
    && (r.Nothing? ==> rest == [])
    && (r.Broken? ==> WideAfter(stream, taken))
  }

  /** The first loop of `Receive` with `left` of `received` bytes to go: either what was
      read is the frames taken and the front of the buffer, or, after a failed read, one
      empty message has been taken for every byte counted off a blank buffer. */
  ghost predicate Counted(start: seq<byte>, received: nat, taken: seq<Payload>, buf: seq<byte>, left: nat) {
    && AllNarrow(taken) && |start| == |buf| == BUF_SIZE
    && if received <= BUF_SIZE then left <= BUF_SIZE && start[..received] == Wire(taken) + buf[..left]
       else Blank(buf) && AllEmpty(taken) && |taken| == received - left
  }

  lemma CountedNext(start: seq<byte>, received: nat, taken: seq<Payload>, before: seq<byte>, left: nat, size: nat,
          after: seq<byte>)
    requires Counted(start, received, taken, before, left) && size == FrameSize(before[0]) <= left
    requires SizeOf(before[0]) <= BUF_SIZE && |after| == BUF_SIZE && size <= BUF_SIZE
    requires after[..BUF_SIZE - size] == before[size..] && after[BUF_SIZE - size..] == before[BUF_SIZE - size..]
    ensures Counted(start, received, taken + [before[1..size]], after, left - size)
  {
    if received <= BUF_SIZE {
      FrameMoved(start[..received], taken, before, left, size, after);
    } else {
      BlankMoved(before, after);
    }
  }

  lemma TailFollows(whole: seq<Payload>, tail: seq<byte>)
    requires AllNarrow(whole) && tail != []
    ensures var stream := Wire(whole) + tail;
      Wire(whole) < stream && stream[|Wire(whole)|] == tail[0] && stream[|Wire(whole)|..] == tail
  {
  }

  /** The frame at the front of `tail` has been read, `failed` reads failing. */
  lemma FrameReadOn(whole: seq<Payload>, tail: seq<byte>, last: Payload, rest: seq<byte>, failed: nat)
    requires AllNarrow(whole) && Narrow(last) && tail != [] && tail[0] as int == |last| && |rest| <= |tail|
    requires failed == 0 ==> tail == Frame(last) + rest
    requires |tail| - |rest| == 1 + |last| + failed || |tail| - |rest| == failed - 1
    ensures var stream, taken := Wire(whole) + tail, whole + [last];
      && AllNarrow(taken) && taken == [taken[0]] + taken[1..]
      && (failed == 0 ==> stream == Wire(taken) + rest)
      && (failed > 0 ==> Misread(stream, taken, rest, failed))
  {
    var taken := whole + [last];
    TailFollows(whole, tail);
    assert taken[..|taken| - 1] == whole;
    if failed == 0 {
      NextFrame(Wire(whole) + tail, whole, tail, last, rest);
    }
  }

  lemma EmptiesOnly(taken: seq<Payload>, first: Payload, queue: seq<Payload>)
    requires taken == [first] + queue
    ensures AllEmpty(taken) ==> first == [] && |queue| == |taken| - 1 && forall p | p in queue :: p == []
  {
    assert taken[0] == first;
    forall p | p in queue && AllEmpty(taken)
      ensures p == []
    {
      var i :| 0 <= i < |queue| && queue[i] == p;
      assert taken[i + 1] == p;
    }
  }

  class Connection {
    const sock: Socket
    var inboundQueue: seq<Payload>

    constructor (sock: Socket)
      ensures this.sock == sock && inboundQueue == []
    {
      this.sock := sock;
      inboundQueue := [];
    }

    /** The first loop of `Receive`: queue every whole frame in the buffer and move
        what is left to the front. Stops short only at length byte 255, whose size
        plus one wraps to zero. After a failed read the count is huge and the buffer
        blank: every byte counted then makes an empty message. */
    method QueueWholeFrames(buf: array<byte>, bytesReceived: nat)
      returns (left: nat, wrapped: bool, ghost taken: seq<Payload>)
      requires 0 < bytesReceived && buf.Length == BUF_SIZE
      requires bytesReceived <= BUF_SIZE || Blank(buf[..])
      modifies this`inboundQueue, buf
      ensures inboundQueue == old(inboundQueue) + taken
      ensures Counted(old(buf[..]), bytesReceived, taken, buf[..], left)
      ensures if wrapped then bytesReceived <= BUF_SIZE && left > 0 && buf[0] == 255
        else left == 0 || left < FrameSize(buf[0])
      ensures bytesReceived > BUF_SIZE ==> left == 0
    {
      taken := [];
      left, wrapped := bytesReceived, false;
      while left >= FrameSize(buf[0])
        invariant 0 < left <= bytesReceived && inboundQueue == old(inboundQueue) + taken
        invariant Counted(old(buf[..]), bytesReceived, taken, buf[..], left)
        decreases left
      {
        if SizeOf(buf[0]) > BUF_SIZE {
          return left, true, taken;
        }
        ghost var before := buf[..];
        var size := FrameSize(buf[0]);
        var payload := buf[1..size];
        inboundQueue := inboundQueue + [payload];
        MoveDown(buf, size);
        CountedNext(old(buf[..]), bytesReceived, taken, before, left, size, buf[..]);
        left := left - size;
        taken := taken + [payload];
        if left == 0 {
          break;
        }
      }
    }

    /** The second loop of `Receive`: byte by byte until the frame at the front of the
        buffer is whole. `results` are the results of its calls. */
    method ReadRestOfFrame(buf: array<byte>, have: nat) returns (r: Received, ghost results: seq<int>)
      requires 0 < have <= BUF_SIZE == buf.Length && have < FrameSize(buf[0])
      modifies sock`incoming, sock`failures, buf
      ensures Failed(results) == old(sock.failures) - sock.failures
      ensures r.Message? ==> Narrow(r.payload) && |r.payload| == old(buf[0]) as int
      ensures r.Message? ==>
        var (bytes, used) := Filled(old(buf[..have]), old(sock.incoming), results);
        && used <= |old(sock.incoming)| && sock.incoming == old(sock.incoming)[used..]
        && if used == |r.payload| + 1 - have + Failed(results)
           then |bytes| == |r.payload| + 1 && r.payload == bytes[1..]
           else used == Failed(results) - have - 1
      ensures r.Nothing? ==> sock.incoming == []
      ensures r.Broken? ==> old(buf[0]) >= 128
      ensures Failed(results) == 0 && r.Message? ==>
        old(buf[..have] + sock.incoming) == Frame(r.payload) + sock.incoming
      ensures Failed(results) == 0 && r.Nothing? ==> NoFrame(old(buf[..have] + sock.incoming))
    {
      ghost var front, stream := buf[..have], sock.incoming;
      var size := FrameSize(buf[0]);
      var ended, full;
      ghost var bytes, used;
      ended, full, results, bytes, used := FillFrame(buf, have, size);
      if ended {
        return Nothing, results;
      }
      if full || size > BUF_SIZE {
        return Broken, results;
      }
      r := Message(buf[1..size]);
    }

    /** The loop itself. It ends with the stream, or with the buffer full, or with the
        counter at `size`, or with the counter run below zero. */
    method FillFrame(buf: array<byte>, have: nat, size: nat)
      returns (ended: bool, full: bool, ghost results: seq<int>, ghost bytes: seq<byte>, ghost used: nat)
      requires 0 < have <= BUF_SIZE == buf.Length && have < size == FrameSize(buf[0])
      modifies sock`incoming, sock`failures, buf
      ensures Failed(results) == old(sock.failures) - sock.failures
      ensures used <= |old(sock.incoming)| && sock.incoming == old(sock.incoming)[used..]
      ensures ended ==>
        sock.incoming == [] && |bytes| < size && Filling(old(buf[..have]), old(sock.incoming), results, bytes, used)
      ensures full ==> size > BUF_SIZE
      ensures !ended && !full ==>
        if used == Failed(results) - have - 1 then Filled(old(buf[..have]), old(sock.incoming), results).1 == used
        else |bytes| == size && (size <= BUF_SIZE ==> bytes == buf[..size])
             && Filling(old(buf[..have]), old(sock.incoming), results, bytes, used)
    {
      ghost var front, stream := buf[..have], sock.incoming;
      var readTotal := have;
      results, bytes, used := [], front, 0;
      ended, full := false, false;
      while readTotal < size
        invariant Failed(results) == old(sock.failures) - sock.failures
        invariant used <= |stream| && sock.incoming == stream[used..]
        invariant readTotal <= BUF_SIZE ==>
          0 <= readTotal <= size && bytes == buf[..readTotal] && Filling(front, stream, results, bytes, used)
        invariant readTotal > BUF_SIZE ==>
          readTotal == SIZE_RANGE - 1 && Filled(front, stream, results).1 == used == Failed(results) - have - 1
        decreases sock.failures, if readTotal <= BUF_SIZE then BUF_SIZE - readTotal else 0
      {
        if readTotal == BUF_SIZE {
          full := true;
          return;
        }
        var n;
        n, results, bytes, used := ReadByte(buf, readTotal, front, stream, results, bytes, used);
        if AsSize(n) == 0 {
          ended := true;
          return;
        }
        readTotal := Bump(readTotal, n);
      }
    }

    /** One turn of it: a byte is read to position `at`, or the stream is over, or the read
        fails. `front`, `stream` and the rest say where the loop stands. */
    method ReadByte(buf: array<byte>, at: nat, ghost front: seq<byte>, ghost stream: seq<byte>,
            ghost results: seq<int>, ghost bytes: seq<byte>, ghost used: nat)
      returns (n: int, ghost results': seq<int>, ghost bytes': seq<byte>, ghost used': nat)
      requires at < BUF_SIZE == buf.Length && used <= |stream| && sock.incoming == stream[used..]
      requires bytes == buf[..at] && Filling(front, stream, results, bytes, used)
      modifies sock`incoming, sock`failures, buf
      ensures -1 <= n <= 1 && sock.failures == old(sock.failures) - (if n == -1 then 1 else 0)
      ensures n == 0 ==> sock.incoming == [] && results' == results && bytes' == bytes && used' == used
      ensures used' <= |stream| && sock.incoming == stream[used'..]
      ensures n != 0 ==> results' == results + [n] && Failed(results') == Failed(results) + if n == -1 then 1 else 0
      ensures n != 0 && at + n >= 0 ==> bytes' == buf[..at + n] && Filling(front, stream, results', bytes', used')
      ensures n != 0 && at + n < 0 ==>
        Filled(front, stream, results').1 == used' == Failed(results') - |front| - 1
    {
      results', bytes', used' := results, bytes, used;
      ghost var before := buf[..];
      n := sock.Read(buf, at, 1);
      if n == 0 {
        return;
      }
      FillingNext(front, stream, results, bytes, used);
      FailedSnoc(results, n);
      results' := results + [n];
      if n == 1 {
        OneByteRead(before, buf[..], at, stream, used);
        bytes', used' := bytes + [stream[used]], used + 1;
      } else if bytes != [] {
        assert bytes[..|bytes| - 1] == buf[..at - 1];
        bytes' := bytes[..|bytes| - 1];
      }
    }

    /** The last part of `Receive`: the whole frames are queued, `left` bytes of the
        next one are at the front of the buffer. */
    method FinishBatch(buf: array<byte>, left: nat, ghost whole: seq<Payload>)
      returns (r: Received, ghost taken: seq<Payload>)
      requires left <= BUF_SIZE == buf.Length && inboundQueue == whole && AllNarrow(whole)
      requires if left == 0 then whole != [] else left < FrameSize(buf[0])
      modifies this`inboundQueue, sock`incoming, sock`failures, buf
      ensures left == 0 ==>
        && r.Message? && taken == whole == [r.payload] + inboundQueue
        && sock.incoming == old(sock.incoming) && sock.failures == old(sock.failures)
      ensures left > 0 ==>
        Outcome(Wire(whole) + (old(buf[..left] + sock.incoming)), r, taken, inboundQueue, sock.incoming,
          old(sock.failures) - sock.failures)
    {
      ghost var tail := buf[..left] + sock.incoming;
      taken := whole;
      if left > 0 {
        ghost var results;
        r, results := ReadRestOfFrame(buf, left);
        TailFollows(whole, tail);
        if !r.Message? {
          return;
        }
        inboundQueue := inboundQueue + [r.payload];
        taken := whole + [r.payload];
        FrameReadOn(whole, tail, r.payload, sock.incoming, Failed(results));
      }
      r := Message(inboundQueue[0]);
      inboundQueue := inboundQueue[1..];
    }

    /** Everything after the first read, unless that was just one message. */
    method TakeApart(buf: array<byte>, bytesReceived: nat) returns (r: Received, ghost taken: seq<Payload>)
      requires inboundQueue == [] && 0 < bytesReceived && buf.Length == BUF_SIZE
      requires bytesReceived <= BUF_SIZE || (bytesReceived == SIZE_RANGE - 1 && Blank(buf[..]))
      modifies this`inboundQueue, sock`incoming, sock`failures, buf
      ensures bytesReceived <= BUF_SIZE ==>
        Outcome(old(buf[..bytesReceived] + sock.incoming), r, taken, inboundQueue, sock.incoming,
          old(sock.failures) - sock.failures)
      ensures bytesReceived > BUF_SIZE ==>
        && Invented(r, inboundQueue) && AllNarrow(taken)
        && sock.incoming == old(sock.incoming) && sock.failures == old(sock.failures)
    {
      ghost var start, incoming := buf[..], sock.incoming;
      var left, wrapped;
      left, wrapped, taken := QueueWholeFrames(buf, bytesReceived);
      if bytesReceived <= BUF_SIZE {
        assert start[..bytesReceived] + incoming == Wire(taken) + (buf[..left] + incoming);
      }
      if wrapped {
        return Broken, taken;
      }
      r, taken := FinishBatch(buf, left, taken);
      if left == 0 {
        EmptiesOnly(taken, r.payload, inboundQueue);
        if bytesReceived <= BUF_SIZE {
          assert start[..bytesReceived] + incoming == Wire(taken) + incoming;
        }
      }
    }

    /** `Receive` when nothing is queued: one read of up to 256 bytes, then whatever
        it takes to end on a frame boundary. */
    method ReceiveFromSocket() returns (r: Received, ghost taken: seq<Payload>)
      requires inboundQueue == []
      modifies this`inboundQueue, sock`incoming, sock`failures
      ensures Outcome(old(sock.incoming), r, taken, inboundQueue, sock.incoming, old(sock.failures) - sock.failures)
    {
      taken := [];
      ghost var stream := sock.incoming;
      var buf := new byte[BUF_SIZE](_ => 0);
      var n := sock.Read(buf, 0, BUF_SIZE);
      var bytesReceived := AsSize(n);
      if bytesReceived <= 0 {
        return Nothing, taken;
      }
      assert n != -1 ==> stream == buf[..bytesReceived] + sock.incoming;

      if bytesReceived == FrameSize(buf[0]) {
        r := Message(buf[1..bytesReceived]);
        taken := [r.payload];
        SingleFrame(stream, r.payload, sock.incoming);
        return;
      }
      r, taken := TakeApart(buf, bytesReceived);
    }

    /** Whatever arrives, if no read fails a message handed out was the next whole
        frame, everything read ahead is queued behind it, and the unread stream again
        starts at a frame boundary. `Nothing` comes only at the end of the stream and
        `Broken` only before a length byte of 128 or more. A failing read is never
        answered by `Nothing`: it makes up messages, or shifts the stream. */
    method Receive() returns (r: Received, ghost taken: seq<Payload>)
      requires AllNarrow(inboundQueue)
      modifies this`inboundQueue, sock`incoming, sock`failures
      ensures old(inboundQueue) != [] ==>
        && r.Message? && old(inboundQueue) == [r.payload] + inboundQueue
        && sock.incoming == old(sock.incoming) && sock.failures == old(sock.failures)
      ensures old(inboundQueue) == [] ==>
        Outcome(old(sock.incoming), r, taken, inboundQueue, sock.incoming, old(sock.failures) - sock.failures)
    {
      taken := [];
      if |inboundQueue| > 0 {
        r := Message(inboundQueue[0]);
        inboundQueue := inboundQueue[1..];
        return;
      }
      r, taken := ReceiveFromSocket();
    }

    method HasMoreMessages() returns (more: bool)
      ensures more <==> inboundQueue != []
    {
      more := |inboundQueue| != 0;
    }

    /** `send`: writes the frame in as many pieces as the socket takes; `writes` are the
        results. A 255-byte message whose 256 bytes go out in the first write, and one
        whose first write fails, are reported as not sent. Any other failing write goes
        unnoticed: what is then taken for success has put something else than the frame
        on the stream. */
    method Send(p: Payload) returns (r: SendResult, ghost writes: seq<int>)
      modifies sock`outgoing, sock`failures
      ensures r.TooBig? <==> |p| > 255
      ensures r.TooBig? ==> sock.outgoing == old(sock.outgoing) && sock.failures == old(sock.failures)
      ensures !r.TooBig? ==>
        && writes != [] && Failed(writes) == old(sock.failures) - sock.failures
        && sock.outgoing == old(sock.outgoing) + Wrote(Frame(p), writes).written
      ensures !r.TooBig? ==> (r.NotSent? <==> writes[0] == -1 || writes[0] == 256)
      ensures r.NotSent? ==> sock.outgoing == old(sock.outgoing) + if writes[0] == -1 then [] else Frame(p)
      ensures r.Sent? ==>
        && r.bytes == |p| + 1 && |Wrote(Frame(p), writes).written| == |p| + 1 + Failed(writes)
        && (sock.outgoing == old(sock.outgoing) + Frame(p) <==> Failed(writes) == 0)
      ensures r.OutOfBuffer? ==> Failed(writes) > 0
      ensures sock.failures == old(sock.failures) && |p| <= 255 ==> sock.outgoing == old(sock.outgoing) + Frame(p)
      ensures sock.failures == old(sock.failures) && |p| < 255 ==> r.Sent?
      ensures sock.failures == old(sock.failures) && |p| == 255 ==> r.Sent? || r.NotSent?
    {
      writes := [];
      if |p| > 255 {
        return TooBig, writes;
      }
      r, writes := SendFrame(Frame(p));
    }

    /** ... once it is known to fit the buffer. */
    method SendFrame(buf: seq<byte>) returns (r: SendResult, ghost writes: seq<int>)
      requires 0 < |buf| <= BUF_SIZE
      modifies sock`outgoing, sock`failures
      ensures !r.TooBig? && writes != [] && Failed(writes) == old(sock.failures) - sock.failures
      ensures sock.outgoing == old(sock.outgoing) + Wrote(buf, writes).written
      ensures r.NotSent? <==> writes[0] == -1 || writes[0] == 256
      ensures r.NotSent? ==> sock.outgoing == old(sock.outgoing) + if writes[0] == -1 then [] else buf
      ensures r.NotSent? ==> if writes[0] == -1 then Failed(writes) > 0 else |buf| == 256
      ensures r.Sent? ==>
        && r.bytes == |buf| && |Wrote(buf, writes).written| == |buf| + Failed(writes)
        && (sock.outgoing == old(sock.outgoing) + buf <==> Failed(writes) == 0)
      ensures r.OutOfBuffer? ==> Failed(writes) > 0
    {
      ghost var base := sock.outgoing;
      var n := sock.Write(buf);
      FailedSnoc([], n);
      WroteSnoc(buf, [], n);
      assert [] + [n] == [n];
      writes := [n];
      var bytesSent := AsSize(n);
      if bytesSent <= 0 || bytesSent > 255 {
        return NotSent, writes;
      }
      FirstPiece(buf, n);
      ghost var done;
      var ok;
      ok, writes, done := SendRest(buf, bytesSent, base, writes, buf[..n]);
      if !ok {
        return OutOfBuffer, writes;
      }
      SentRight(base, buf, done, writes);
      return Sent(|buf|), writes;
    }

    /** The loop of `send`, until the counter says that all of `buf` is out, or runs
        below zero. */
    method SendRest(buf: seq<byte>, bytesSent: nat, ghost base: seq<byte>, ghost first: seq<int>, ghost out: seq<byte>)
      returns (ok: bool, ghost writes: seq<int>, ghost done: seq<byte>)
      requires |buf| <= BUF_SIZE && first != [] && Sending(buf, out, first, bytesSent)
      requires sock.outgoing == base + out
      modifies sock`outgoing, sock`failures
      ensures writes != [] && writes[0] == first[0]
      ensures Failed(writes) - Failed(first) == old(sock.failures) - sock.failures
      ensures Wrote(buf, writes).written == done && sock.outgoing == base + done
      ensures if ok then Sending(buf, done, writes, |buf|) else Failed(writes) > 0
    {
      var totalSent: nat := bytesSent;
      writes, done := first, out;
      while totalSent != |buf|
        invariant writes != [] && writes[0] == first[0]
        invariant Failed(writes) - Failed(first) == old(sock.failures) - sock.failures
        invariant Sending(buf, done, writes, totalSent) && sock.outgoing == base + done
        decreases sock.failures, |buf| - totalSent
      {
        var n := sock.Write(buf[totalSent..]);
        FailedSnoc(writes, n);
        if n == -1 {
          if totalSent == 0 {
            WroteSnoc(buf, writes, n);
            return false, writes + [n], done;
          }
          SendingFails(buf, done, writes, totalSent);
        } else {
          SendingMore(buf, done, writes, totalSent, n);
          WrittenMore(base, done, buf, totalSent, n);
          done := done + buf[totalSent..totalSent + n];
        }
        writes := writes + [n];
        totalSent := Bump(totalSent, n);
      }
      ok := true;
    }
  }

  /** The client's receive loop: every message, queued ones included, until the
      connection is over. However the stream is cut into results, exactly the messages
      sent are handled, in order, if and only if every one of them fits in 127 bytes. */
  method ReceiveLoop(conn: Connection) returns (handled: seq<Payload>)
    requires conn.inboundQueue == [] && conn.sock.failures == 0
    modifies conn`inboundQueue, conn.sock`incoming, conn.sock`failures
    ensures AllNarrow(handled)
    ensures forall ps | AllSendable(ps) && old(conn.sock.incoming) == Wire(ps) ::
      (handled == ps <==> AllNarrow(ps))
  {
    handled := [];
    ghost var stream := conn.sock.incoming;
    var r: Received := Nothing;
    ghost var taken: seq<Payload>;
    while true
      invariant AllNarrow(handled) && AllNarrow(conn.inboundQueue) && conn.sock.failures == 0
      invariant stream == Wire(handled + conn.inboundQueue) + conn.sock.incoming
      decreases |conn.sock.incoming| + |conn.inboundQueue|
    {
      ghost var had, rest := conn.inboundQueue, conn.sock.incoming;
      r, taken := conn.Receive();
      if !r.Message? {
        assert had == [] && handled + had == handled;
        ReceiveEnds(stream, handled, rest, taken);
        break;
      }
      if had == [] {
        WireLength(taken);
      } else {
        taken := had;
      }
      HandledOne(stream, handled, had, rest, taken, r.payload, conn.inboundQueue, conn.sock.incoming);
      handled := handled + [r.payload];
    }
  }

  /** One message handled: the next in the queue, or the first of those just `taken`. */
  lemma HandledOne(stream: seq<byte>, handled: seq<Payload>, had: seq<Payload>, rest: seq<byte>,
          taken: seq<Payload>, p: Payload, queue: seq<Payload>, left: seq<byte>)
    requires AllNarrow(handled) && AllNarrow(taken) && AllNarrow(had) && stream == Wire(handled + had) + rest
    requires taken == [p] + queue
    requires if had == [] then rest == Wire(taken) + left else taken == had && rest == left
    ensures AllNarrow(handled + [p]) && AllNarrow(queue) && stream == Wire(handled + [p] + queue) + left
  {
    NarrowParts(handled, taken, p, queue);
    assert handled + [p] + queue == handled + taken;
    if had == [] {
      assert handled + had == handled;
      WireLonger(stream, handled, taken, left);
    }
  }

  lemma WireLonger(stream: seq<byte>, handled: seq<Payload>, taken: seq<Payload>, left: seq<byte>)
    requires AllNarrow(handled) && AllNarrow(taken) && stream == Wire(handled) + (Wire(taken) + left)
    ensures AllNarrow(handled + taken) && stream == Wire(handled + taken) + left
  {
    WireConcat(handled, taken);
  }

  lemma NarrowParts(handled: seq<Payload>, taken: seq<Payload>, p: Payload, queue: seq<Payload>)
    requires AllNarrow(handled) && AllNarrow(taken) && taken == [p] + queue
    ensures AllNarrow(handled + [p]) && AllNarrow(queue) && AllNarrow(handled + [p] + queue)
    ensures handled + [p] + queue == handled + taken
  {
    assert taken[0] == p && forall q | q in queue :: q in taken;
  }

  lemma OneMoreFrame(base: seq<byte>, ps: seq<Payload>, i: nat)
    requires AllSendable(ps) && i < |ps|
    ensures base + Wire(ps[..i]) + Frame(ps[i]) == base + Wire(ps[..i + 1])
  {
    WireAppend(ps[..i], ps[i]);
    assert ps[..i + 1] == ps[..i] + [ps[i]];
  }

  /** Sending them all, one after the other. */
  method SendAll(conn: Connection, ps: seq<Payload>)
    requires AllSendable(ps) && conn.sock.failures == 0
    modifies conn.sock`outgoing, conn.sock`failures
    ensures conn.sock.outgoing == old(conn.sock.outgoing) + Wire(ps) && conn.sock.failures == 0
  {
    assert ps[..0] == [];
    for i := 0 to |ps|
      invariant conn.sock.failures == 0
      invariant conn.sock.outgoing == old(conn.sock.outgoing) + Wire(ps[..i])
    {
      var _, _ := conn.Send(ps[i]);
      OneMoreFrame(old(conn.sock.outgoing), ps, i);
    }
    assert ps[..|ps|] == ps;
  }

  /** From one connection to the other: however the writes are cut and however the
      reads, the messages handled are those sent if and only if all fit in 127 bytes. */
  method Deliver(ps: seq<Payload>) returns (handled: seq<Payload>)
    requires AllSendable(ps)
    ensures handled == ps <==> AllNarrow(ps)
  {
    var near := new Socket([], 0);
    var sender := new Connection(near);
    SendAll(sender, ps);
    var far := new Socket(near.outgoing, 0);
    var receiver := new Connection(far);
    handled := ReceiveLoop(receiver);
  }

  lemma {:induction false} WireLength(ps: seq<Payload>)
    requires AllSendable(ps)
    ensures |Wire(ps)| >= |ps|
  {
    if ps != [] {
      WireLength(ps[1..]);
    }
  }

  /** Where a stream of whole messages stops yielding them, there is none left or the
      next one is too wide. */
  lemma ReceiveEnds(stream: seq<byte>, handled: seq<Payload>, rest: seq<byte>, taken: seq<Payload>)
    requires AllNarrow(handled) && AllNarrow(taken)
    requires stream == Wire(handled) + rest
    requires EndsAfter(rest, taken) || WideAfter(rest, taken)
    ensures forall ps | AllSendable(ps) && stream == Wire(ps) :: (handled == ps <==> AllNarrow(ps))
  {
    forall ps | AllSendable(ps) && stream == Wire(ps) && AllNarrow(ps)
      ensures handled == ps
    {
      WirePrefix(handled, rest, ps);
      NoMoreMessages(rest, taken, ps[|handled|..]);
      assert ps == handled + ps[|handled|..];
    }
  }

  lemma NoMoreMessages(rest: seq<byte>, taken: seq<Payload>, next: seq<Payload>)
    requires AllNarrow(taken) && AllNarrow(next) && rest == Wire(next)
    requires EndsAfter(rest, taken) || WideAfter(rest, taken)
    ensures next == []
  {
    var tail := rest[|Wire(taken)|..];
    assert rest == Wire(taken) + tail;
    WirePrefix(taken, tail, next);
    NoFrameLeft(next[|taken|..]);
  }

  lemma NoFrameLeft(ps: seq<Payload>)
    requires AllNarrow(ps)
    ensures NoFrame(Wire(ps)) <==> ps == []
  {
    if ps != [] {
      assert AllNarrow(ps[1..]) && Narrow(ps[0]) by {
        assert forall p | p in ps[1..] :: p in ps;
      }
      assert Wire(ps) == [|ps[0]| as byte] + (ps[0] + Wire(ps[1..]));
    }
  }
}
