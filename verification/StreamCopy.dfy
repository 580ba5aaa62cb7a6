/** Copying all data from an application's source into a stream, and from a stream into an
    application's sink. */
module StreamCopy {

  newtype byte = x: int | 0 <= x < 256

  /** The size of the buffer. */
  const WANT: nat := 1024 * 64

  // ------------------------------------------------------------------ what is copied

  /** One answer of a producer; no bytes at all is the end of the data. */
  datatype Reply = Failure | Data(bytes: seq<byte>)

  /** All the bytes that a producer supplies before its data end or it fails. */
  function Supplied(replies: seq<Reply>): seq<byte> {
    if replies == [] || replies[0].Failure? || replies[0].bytes == [] then []
    else replies[0].bytes + Supplied(replies[1..])
  }

  /** Whether the data end before the producer fails. */
  predicate EndsWell(replies: seq<Reply>) {
    replies == [] || (replies[0].Data? && (replies[0].bytes == [] || EndsWell(replies[1..])))
  }

  ghost predicate Fits(replies: seq<Reply>, want: nat) {
    forall r :: r in replies && r.Data? ==> |r.bytes| <= want
  }

  datatype Taking = Taking(ok: bool, taken: seq<byte>, left: seq<int>)

  /** How a consumer takes one chunk: each answer is how many bytes it is ready to take, or negative
      for a failure; having no answer left is a failure too. */
  function TakeChunk(bytes: seq<byte>, answers: seq<int>): Taking
    decreases |answers|
  {
    if bytes == [] then Taking(true, [], answers)
    else if answers == [] then Taking(false, [], [])
    else if answers[0] < 0 then Taking(false, [], answers[1..])
    else
      var done := if answers[0] < |bytes| then answers[0] else |bytes|;
      var rest := TakeChunk(bytes[done..], answers[1..]);
      Taking(rest.ok, bytes[..done] + rest.taken, rest.left)
  }

  datatype Verdict = Complete | ProducerFailed | ConsumerFailed

  datatype Copying = Copying(verdict: Verdict, bytes: seq<byte>)

  /** How a copy goes, chunk by chunk. */
  function Copy(replies: seq<Reply>, answers: seq<int>): Copying {
    if replies == [] then Copying(Complete, [])
    else if replies[0].Failure? then Copying(ProducerFailed, [])
    else if replies[0].bytes == [] then Copying(Complete, [])
    else
      var first := TakeChunk(replies[0].bytes, answers);
      if !first.ok then Copying(ConsumerFailed, first.taken)
      else
        var rest := Copy(replies[1..], first.left);
        Copying(rest.verdict, first.taken + rest.bytes)
  }

  // ------------------------------------------------------------------ conservation

  lemma {:induction false} ChunkIsConserved(bytes: seq<byte>, answers: seq<int>)
    ensures TakeChunk(bytes, answers).taken <= bytes
    ensures TakeChunk(bytes, answers).ok <==> TakeChunk(bytes, answers).taken == bytes
    decreases |answers|
  {
    if bytes != [] && answers != [] && answers[0] >= 0 {
      var done := if answers[0] < |bytes| then answers[0] else |bytes|;
      ChunkIsConserved(bytes[done..], answers[1..]);
      assert bytes == bytes[..done] + bytes[done..];
    }
  }

  /** The bytes handed on are a prefix of those supplied, whatever fails.  All of them are handed on, in
      order and once, exactly if the consumer does not fail; then the copy is complete exactly if the data end
      before the producer fails. */
  lemma {:induction false} CopyConserves(replies: seq<Reply>, answers: seq<int>)
    ensures Copy(replies, answers).bytes <= Supplied(replies)
    ensures Copy(replies, answers).verdict != ConsumerFailed <==> Copy(replies, answers).bytes == Supplied(replies)
    ensures Copy(replies, answers).verdict != ConsumerFailed ==>
      (Copy(replies, answers).verdict == Complete <==> EndsWell(replies))
  {
    if replies != [] && replies[0].Data? && replies[0].bytes != [] {
      ChunkIsConserved(replies[0].bytes, answers);
      CopyConserves(replies[1..], TakeChunk(replies[0].bytes, answers).left);
    }
  }

  function Sum(xs: seq<int>): int {
    if xs == [] then 0 else xs[0] + Sum(xs[1..])
  }

  /** A chunk of n bytes is taken if and only if the first few answers, none of them a failure, add up to
      at least n. */
  lemma {:induction false} ChunkIsTakenIff(bytes: seq<byte>, answers: seq<int>)
    ensures TakeChunk(bytes, answers).ok <==>
      exists k: nat :: k <= |answers| && (forall i :: 0 <= i < k ==> answers[i] >= 0) && Sum(answers[..k]) >= |bytes|
    decreases |answers|
  {
    if bytes == [] {
      assert Sum(answers[..0]) >= |bytes|;
    } else if answers != [] && answers[0] >= 0 {
      var done := if answers[0] < |bytes| then answers[0] else |bytes|;
      var rest := answers[1..];
      ChunkIsTakenIff(bytes[done..], rest);
      if TakeChunk(bytes, answers).ok {
        var k: nat :| k <= |rest| && (forall i :: 0 <= i < k ==> rest[i] >= 0) && Sum(rest[..k]) >= |bytes[done..]|;
        assert answers[..k + 1][1..] == rest[..k];
      } else {
        forall k: nat | k <= |answers| && forall i :: 0 <= i < k ==> answers[i] >= 0
          ensures Sum(answers[..k]) < |bytes|
        {
          if k > 0 {
            assert answers[..k][1..] == rest[..k - 1];
            assert forall i :: 0 <= i < k - 1 ==> rest[i] == answers[i + 1];
            assert Sum(rest[..k - 1]) < |bytes[done..]|;
            SumIsNatural(rest[..k - 1]);
          }
        }
      }
    }
  }

  lemma {:induction false} SumIsNatural(xs: seq<int>)
    requires forall i :: 0 <= i < |xs| ==> xs[i] >= 0
    ensures Sum(xs) >= 0
  {
    if xs != [] { SumIsNatural(xs[1..]); }
  }

  lemma {:induction false} ProgressTakesChunk(bytes: seq<byte>, answers: seq<int>)
    requires forall i :: 0 <= i < |answers| ==> answers[i] >= 1
    requires |answers| >= |bytes|
    ensures var t := TakeChunk(bytes, answers);
      t.ok && |t.left| >= |answers| - |bytes| && forall i :: 0 <= i < |t.left| ==> t.left[i] >= 1
    decreases |answers|
  {
    if bytes != [] {
      var done := if answers[0] < |bytes| then answers[0] else |bytes|;
      ProgressTakesChunk(bytes[done..], answers[1..]);
    }
  }

  /** If every transfer moves at least one byte and the consumer answers at least once for each byte, the
      copy completes exactly when the producer's data end before it fails. */
  lemma {:induction false} ProgressCompletesIff(replies: seq<Reply>, answers: seq<int>)
    requires forall i :: 0 <= i < |answers| ==> answers[i] >= 1
    requires |answers| >= |Supplied(replies)|
    ensures Copy(replies, answers).verdict == if EndsWell(replies) then Complete else ProducerFailed
  {
    if replies != [] && replies[0].Data? && replies[0].bytes != [] {
      ProgressTakesChunk(replies[0].bytes, answers);
      ProgressCompletesIff(replies[1..], TakeChunk(replies[0].bytes, answers).left);
    }
  }

  /** Whether the consumer takes every chunk that the producer supplies. */
  predicate AllTaken(replies: seq<Reply>, answers: seq<int>) {
    replies == [] || replies[0].Failure? || replies[0].bytes == [] ||
    (TakeChunk(replies[0].bytes, answers).ok && AllTaken(replies[1..], TakeChunk(replies[0].bytes, answers).left))
  }

  /** Which side fails, from the two sides alone: the consumer if it does not take everything, else the producer
      if its data do not end well. */
  lemma {:induction false} VerdictIs(replies: seq<Reply>, answers: seq<int>)
    ensures Copy(replies, answers).verdict ==
      if !AllTaken(replies, answers) then ConsumerFailed else if EndsWell(replies) then Complete else ProducerFailed
  {
    if replies != [] && replies[0].Data? && replies[0].bytes != [] && TakeChunk(replies[0].bytes, answers).ok {
      VerdictIs(replies[1..], TakeChunk(replies[0].bytes, answers).left);
    }
  }

  /** A consumer that takes at least one byte at a time and answers once for each byte takes everything. */
  lemma {:induction false} ProgressTakesAll(replies: seq<Reply>, answers: seq<int>)
    requires forall i :: 0 <= i < |answers| ==> answers[i] >= 1
    requires |answers| >= |Supplied(replies)|
    ensures AllTaken(replies, answers)
  {
    ProgressCompletesIff(replies, answers);
    VerdictIs(replies, answers);
  }

  /** A lossless stream: it gives back what it was given, in chunks of any sizes. */
  function Rechunked(bytes: seq<byte>, sizes: seq<nat>): seq<Reply> {
    if bytes == [] then []
    else if sizes == [] then [Data(bytes[..1])] + Rechunked(bytes[1..], [])
    else
      var n := if sizes[0] == 0 then 1 else if sizes[0] < |bytes| then sizes[0] else |bytes|;
      [Data(bytes[..n])] + Rechunked(bytes[n..], sizes[1..])
  }

  lemma {:induction false} RechunkedIsLossless(bytes: seq<byte>, sizes: seq<nat>)
    requires forall i :: 0 <= i < |sizes| ==> sizes[i] <= WANT
    ensures Supplied(Rechunked(bytes, sizes)) == bytes
    ensures EndsWell(Rechunked(bytes, sizes)) && Fits(Rechunked(bytes, sizes), WANT)
    decreases |bytes|
  {
    if bytes != [] {
      var n := if sizes == [] || sizes[0] == 0 then 1 else if sizes[0] < |bytes| then sizes[0] else |bytes|;
      var later := if sizes == [] then [] else sizes[1..];
      RechunkedIsLossless(bytes[n..], later);
      assert Rechunked(bytes, sizes) == [Data(bytes[..n])] + Rechunked(bytes[n..], later);
      hide Rechunked;
      OneMoreChunk(bytes[..n], Rechunked(bytes[n..], later));
      assert bytes == bytes[..n] + bytes[n..];
    }
  }

  lemma OneMoreChunk(chunk: seq<byte>, replies: seq<Reply>)
    requires 0 < |chunk| <= WANT && EndsWell(replies) && Fits(replies, WANT)
    ensures var more := [Data(chunk)] + replies;
      Supplied(more) == chunk + Supplied(replies) && EndsWell(more) && Fits(more, WANT)
  {
    var more := [Data(chunk)] + replies;
    assert more[0] == Data(chunk) && more[1..] == replies;
  }

  /** Answers enough for so many bytes, each of them for at least one. */
  predicate Progresses(answers: seq<int>, bytes: nat) {
    |answers| >= bytes && forall i :: 0 <= i < |answers| ==> answers[i] >= 1
  }

  /** Sending all of a source and receiving all of it at the other end of a lossless stream yields the
      identical bytes, whatever the chunks and however little each transfer moves.  With progress on both sides
      all of it arrives, and only a source that fails keeps the sending from being complete. */
  lemma SendThenReceive(source: seq<Reply>, driver: seq<int>, sizes: seq<nat>, sink: seq<int>)
    requires forall i :: 0 <= i < |sizes| ==> sizes[i] <= WANT
    ensures var sent := Copy(source, driver);
      var received := Copy(Rechunked(sent.bytes, sizes), sink);
      && received.bytes <= sent.bytes <= Supplied(source)
      && (sent.verdict == Complete && received.verdict == Complete ==> received.bytes == Supplied(source))
      && (Progresses(driver, |Supplied(source)|) && Progresses(sink, |Supplied(source)|) ==>
        && received.verdict == Complete && received.bytes == Supplied(source)
        && (sent.verdict == Complete <==> EndsWell(source)))
  {
    var sent := Copy(source, driver);
    CopyConserves(source, driver);
    RechunkedIsLossless(sent.bytes, sizes);
    CopyConserves(Rechunked(sent.bytes, sizes), sink);
    if Progresses(driver, |Supplied(source)|) && Progresses(sink, |Supplied(source)|) {
      ProgressCompletesIff(source, driver);
      ProgressCompletesIff(Rechunked(sent.bytes, sizes), sink);
    }
  }

  // ------------------------------------------------------------------ one turn of each loop

  /** A consumer that had taken start is on its way to what t says: it has taken some more, and takes the
      rest of the chunk as TakeChunk says. */
  ghost predicate TakingOn(t: Taking, start: seq<byte>, taken: seq<byte>, rest: seq<byte>, answers: seq<int>) {
    var rem := TakeChunk(rest, answers);
    t.ok == rem.ok && t.left == rem.left && start + t.taken == taken + rem.taken
  }

  lemma TakeTurn(t: Taking, start: seq<byte>, taken: seq<byte>, rest: seq<byte>, answers: seq<int>)
    requires |rest| > 0 && TakingOn(t, start, taken, rest, answers)
    ensures |answers| == 0 || answers[0] < 0 ==>
      !t.ok && start + t.taken == taken && t.left == if |answers| == 0 then [] else answers[1..]
    ensures |answers| > 0 && answers[0] >= 0 ==>
      var done := if answers[0] < |rest| then answers[0] else |rest|;
      TakingOn(t, start, taken + rest[..done], rest[done..], answers[1..])
  {
    if |answers| > 0 && answers[0] >= 0 {
      var done := if answers[0] < |rest| then answers[0] else |rest|;
      AppendIsAssociative(taken, rest[..done], TakeChunk(rest[done..], answers[1..]).taken);
    }
  }

  lemma AppendIsAssociative(a: seq<byte>, b: seq<byte>, c: seq<byte>)
    ensures a + (b + c) == a + b + c
  {
  }

  lemma TakesAll(t: Taking, start: seq<byte>, taken: seq<byte>, rest: seq<byte>, answers: seq<int>)
    requires |rest| == 0 && TakingOn(t, start, taken, rest, answers)
    ensures t.ok && start + t.taken == taken && t.left == answers
  {
  }

  /** The same for a whole copy. */
  ghost predicate CopyingOn(copy: Copying, start: seq<byte>, taken: seq<byte>, replies: seq<Reply>, answers: seq<int>) {
    var rem := Copy(replies, answers);
    copy.verdict == rem.verdict && start + copy.bytes == taken + rem.bytes
  }

  lemma CopyTurn(copy: Copying, start: seq<byte>, taken: seq<byte>, replies: seq<Reply>, answers: seq<int>)
    requires CopyingOn(copy, start, taken, replies, answers)
    ensures |replies| == 0 || (replies[0].Data? && |replies[0].bytes| == 0) ==>
      copy.verdict == Complete && start + copy.bytes == taken
    ensures |replies| > 0 && replies[0].Failure? ==> copy.verdict == ProducerFailed && start + copy.bytes == taken
    ensures |replies| > 0 && replies[0].Data? && |replies[0].bytes| > 0 ==>
      var t := TakeChunk(replies[0].bytes, answers);
      if t.ok then CopyingOn(copy, start, taken + t.taken, replies[1..], t.left)
      else copy.verdict == ConsumerFailed && start + copy.bytes == taken + t.taken
  {
    hide TakeChunk;
    if |replies| > 0 && replies[0].Data? && |replies[0].bytes| > 0 {
      var t := TakeChunk(replies[0].bytes, answers);
      AppendIsAssociative(taken, t.taken, Copy(replies[1..], t.left).bytes);
    }
  }

  lemma StartsOn(replies: seq<Reply>, chunk: seq<byte>, start: seq<byte>, answers: seq<int>)
    ensures CopyingOn(Copy(replies, answers), start, start, replies, answers)
    ensures TakingOn(TakeChunk(chunk, answers), start, start, chunk, answers)
  {
  }

  // ------------------------------------------------------------------ the two loops

  /** A source callback, or the receiving side of a stream: it fills a buffer. */
  class Producer {
    var replies: seq<Reply>

    constructor (replies: seq<Reply>)
      ensures this.replies == replies
    {
      this.replies := replies;
    }

    method Give(bytes: array<byte>) returns (got: int)
      requires Fits(replies, bytes.Length)
      modifies this, bytes
      ensures got < 0 <==> |old(replies)| > 0 && old(replies)[0].Failure?
      ensures got <= bytes.Length
      ensures got >= 0 ==> bytes[..got] == if |old(replies)| == 0 then [] else old(replies)[0].bytes
      ensures replies == if |old(replies)| == 0 then [] else old(replies)[1..]
      ensures Fits(replies, bytes.Length)
    {
      if replies == [] { return 0; }
      var reply := replies[0];
      replies := replies[1..];
      match reply
      case Failure => return -1;
      case Data(data) =>
        assert Data(data) in old(replies);
        for i := 0 to |data|
          modifies bytes
          invariant bytes[..i] == data[..i]
        {
          bytes[i] := data[i];
        }
        return |data|;
    }
  }

  /** A sink callback, or the sending side of a stream: it takes some bytes of a buffer. */
  class Consumer {
    var answers: seq<int>
    var taken: seq<byte>

    constructor (answers: seq<int>)
      ensures this.answers == answers && taken == []
    {
      this.answers, taken := answers, [];
    }

    method Take(bytes: array<byte>, offset: nat, count: nat) returns (done: int)
      requires offset + count <= bytes.Length
      modifies this
      ensures done < 0 <==> old(answers) == [] || old(answers)[0] < 0
      ensures done >= 0 ==> done == if old(answers)[0] < count then old(answers)[0] else count
      ensures taken == old(taken) + if done < 0 then [] else bytes[offset..offset + done]
      ensures answers == if old(answers) == [] then [] else old(answers)[1..]
    {
      if answers == [] { return -1; }
      done := answers[0];
      answers := answers[1..];
      if done < 0 { return -1; }
      if done > count { done := count; }
      taken := taken + bytes[offset..offset + done];
    }

    /** The inner loop of both directions: the first bytes of the buffer, from an advancing offset. */
    method TakeAll(bytes: array<byte>, got: nat) returns (ok: bool)
      requires got <= bytes.Length
      modifies this
      ensures var t := TakeChunk(bytes[..got], old(answers));
        ok == t.ok && taken == old(taken) + t.taken && answers == t.left
    {
      hide *;
      ghost var chunk, t := bytes[..got], TakeChunk(bytes[..got], answers);
      StartsOn([], chunk, taken, answers);
      var offset := 0;
      assert chunk[0..] == chunk;
      while offset < got
        invariant 0 <= offset <= got
        invariant TakingOn(t, old(taken), taken, chunk[offset..], answers)
        decreases |answers|
      {
        TakeTurn(t, old(taken), taken, chunk[offset..], answers);
        var done := Take(bytes, offset, got - offset);
        if done < 0 { return false; }
        assert chunk[offset..][..done] == bytes[offset..offset + done];
        assert chunk[offset..][done..] == chunk[offset + done..];
        offset := offset + done;
      }
      TakesAll(t, old(taken), taken, chunk[offset..], answers);
      return true;
    }
  }

  // ------------------------------------------------------------------ the stream

  class Stream {
    const nonblock: bool
    const incoming: Producer
    const outgoing: Consumer
    var aborted: bool

    constructor (nonblock: bool, incoming: Producer, outgoing: Consumer)
      ensures this.nonblock == nonblock && this.incoming == incoming && this.outgoing == outgoing && !aborted
    {
      this.nonblock, this.incoming, this.outgoing, aborted := nonblock, incoming, outgoing, false;
    }

    method Abort()
      modifies this`aborted
      ensures aborted
    {
      aborted := true;
    }

    /** virStreamSendAll: 0 if and only if the copy completed; the driver has been given the bytes that
        the copy hands on; it aborts the stream if and only if the source failed. */
    method SendAll(handler: Producer?, memory: bool) returns (ret: int)
      requires handler != null ==> Fits(handler.replies, 65536)
      modifies this`aborted, outgoing, handler
      ensures ret == 0 || ret == -1
      ensures handler == null || nonblock || !memory ==>
        ret == -1 && aborted == old(aborted) && unchanged(outgoing) && (handler != null ==> unchanged(handler))
      ensures handler != null && !nonblock && memory ==>
        var copy := Copy(old(handler.replies), old(outgoing.answers));
        && (ret == 0 <==> copy.verdict == Complete)
        && outgoing.taken == old(outgoing.taken) + copy.bytes
      ensures handler != null && !nonblock && memory ==>
        var taken := AllTaken(old(handler.replies), old(outgoing.answers));
        && (aborted <==> old(aborted) || (taken && !EndsWell(old(handler.replies))))
        && ((ret != 0 ==> aborted) <==> old(aborted) || taken)
    {
      ret := -1;
      if handler == null { return; }
      if nonblock { return; }
      if !memory { return; }
      hide *;
      VerdictIs(handler.replies, outgoing.answers);
      var bytes := new byte[WANT];
      ghost var copy := Copy(handler.replies, outgoing.answers);
      StartsOn(handler.replies, [], outgoing.taken, outgoing.answers);
      while true
        invariant Fits(handler.replies, WANT) && aborted == old(aborted)
        invariant CopyingOn(copy, old(outgoing.taken), outgoing.taken, handler.replies, outgoing.answers)
        decreases |handler.replies|
      {
        CopyTurn(copy, old(outgoing.taken), outgoing.taken, handler.replies, outgoing.answers);
        var got := handler.Give(bytes);
        if got < 0 {
          Abort();
          return;
        }
        if got == 0 { break; }
        var ok := outgoing.TakeAll(bytes, got);
        if !ok { return; }
      }
      ret := 0;
    }

    /** virStreamRecvAll: the same towards the sink, but it aborts the stream if and only if the sink
        failed. */
    method RecvAll(handler: Consumer?, memory: bool) returns (ret: int)
      requires Fits(incoming.replies, 65536)
      modifies this`aborted, incoming, handler
      ensures ret == 0 || ret == -1
      ensures handler == null || nonblock || !memory ==>
        ret == -1 && aborted == old(aborted) && unchanged(incoming) && (handler != null ==> unchanged(handler))
      ensures handler != null && !nonblock && memory ==>
        var copy := Copy(old(incoming.replies), old(handler.answers));
        && (ret == 0 <==> copy.verdict == Complete)
        && handler.taken == old(handler.taken) + copy.bytes
      ensures handler != null && !nonblock && memory ==>
        var taken := AllTaken(old(incoming.replies), old(handler.answers));
        && (aborted <==> old(aborted) || !taken)
        && ((ret != 0 ==> aborted) <==> old(aborted) || !taken || EndsWell(old(incoming.replies)))
    {
      ret := -1;
      if handler == null { return; }
      if nonblock { return; }
      if !memory { return; }
      hide *;
      VerdictIs(incoming.replies, handler.answers);
      var bytes := new byte[WANT];
      ghost var copy := Copy(incoming.replies, handler.answers);
      StartsOn(incoming.replies, [], handler.taken, handler.answers);
      while true
        invariant Fits(incoming.replies, WANT) && aborted == old(aborted)
        invariant CopyingOn(copy, old(handler.taken), handler.taken, incoming.replies, handler.answers)
        decreases |incoming.replies|
      {
        CopyTurn(copy, old(handler.taken), handler.taken, incoming.replies, handler.answers);
        var got := incoming.Give(bytes);
        if got < 0 { return; }
        if got == 0 { break; }
        var ok := handler.TakeAll(bytes, got);
        if !ok {
          Abort();
          return;
        }
      }
      ret := 0;
    }
  }

  /** Source and sink end to end: two streams with a lossless transport of any chunking between them.  Each call
      returns 0 exactly if its consumer takes everything and its data end well; for the receiving call the data
      are what has been given to the transport. */
  method SendAndReceive(source: seq<Reply>, driver: seq<int>, sizes: seq<nat>, sink: seq<int>)
    returns (sent: int, received: int, given: seq<byte>, delivered: seq<byte>)
    requires Fits(source, WANT) && forall i :: 0 <= i < |sizes| ==> sizes[i] <= WANT
    ensures delivered <= given <= Supplied(source)
    ensures sent in {0, -1} && (sent == 0 <==> AllTaken(source, driver) && EndsWell(source))
    ensures given == Supplied(source) <==> AllTaken(source, driver)
    ensures received in {0, -1} && (received == 0 <==> AllTaken(Rechunked(given, sizes), sink))
    ensures received == 0 <==> delivered == given
    ensures Progresses(driver, |Supplied(source)|) && Progresses(sink, |Supplied(source)|) ==>
      received == 0 && delivered == Supplied(source)
  {
    hide Copy, Supplied, EndsWell, Rechunked, AllTaken, Fits, TakeChunk;
    SendThenReceive(source, driver, sizes, sink);
    CopyConserves(source, driver);
    VerdictIs(source, driver);
    var from := new Producer(source);
    var out := new Consumer(driver);
    var idle := new Producer([]);
    var one := new Stream(false, idle, out);
    sent := one.SendAll(from, true);
    given := out.taken;
    assert given == Copy(source, driver).bytes;
    RechunkedIsLossless(given, sizes);
    CopyConserves(Rechunked(given, sizes), sink);
    VerdictIs(Rechunked(given, sizes), sink);
    var back := new Producer(Rechunked(given, sizes));
    var to := new Consumer(sink);
    var other := new Stream(false, back, out);
    received := other.RecvAll(to, true);
    delivered := to.taken;
    assert delivered == Copy(Rechunked(given, sizes), sink).bytes;
  }

  /** A failed call that has not aborted the stream: the driver refuses the only byte. */
  method RefusedByteDoesNotAbortSending() returns (stream: Stream, ret: int)
    ensures ret == -1 && !stream.aborted && !stream.nonblock && stream.outgoing.taken == []
  {
    var source := new Producer([Data([65])]);
    var driver := new Consumer([-1]);
    var none := new Producer([]);
    stream := new Stream(false, none, driver);
    assert TakeChunk([65], [-1]) == Taking(false, [], []);
    assert !AllTaken([Data([65])], [-1]);
    VerdictIs([Data([65])], [-1]);
    ret := stream.SendAll(source, true);
  }

  /** The same when receiving: the stream itself fails at once. */
  method FailingStreamIsNotAbortedByReceiving() returns (stream: Stream, ret: int)
    ensures ret == -1 && !stream.aborted && !stream.nonblock
  {
    var incoming := new Producer([Failure]);
    var sink := new Consumer([]);
    stream := new Stream(false, incoming, sink);
    assert AllTaken([Failure], []) && !EndsWell([Failure]);
    VerdictIs([Failure], []);
    ret := stream.RecvAll(sink, true);
  }
}
