/** The screen on/off notification queue: requests are queued in at most two of three slots,
    pairs that cancel are stripped, and a drain task posted to the handler thread delivers what
    is left.  A reference-counted wake lock keeps the CPU on until every broadcast is done.
    This is the specification; PowerManagerService.SendNotificationLocked and its
    companions are proved against it. */
module NotificationQueue {

  datatype Notice = Notice(on: bool, why: int)

  /** queue: what is waiting; count: references held on the broadcast wake lock; posted and
      running: drain tasks waiting and whether one is inside its loop; inFlight: dequeued
      notifications whose broadcast is not done; delivered: everything dequeued so far; requested:
      everything asked for so far. */
  datatype Board = Board(
    queue: seq<Notice>,
    count: int,
    posted: nat,
    running: bool,
    inFlight: nat,
    delivered: seq<Notice>,
    requested: seq<Notice>)

  datatype Act =
    | Request(on: bool, why: int)
    | StartDrain
    | Dequeue
    | BroadcastDone

  predicate Enabled(b: Board, a: Act) {
    match a
    case Request(_, _) => true
    case StartDrain => b.posted > 0 && !b.running
    case Dequeue => b.running
    case BroadcastDone => b.inFlight > 0
  }

  /** Folding a third request into the head entry: an off request keeps the smaller reason. */
  function Fold(head: Notice, n: Notice): Notice {
    Notice(n.on, if !n.on && head.why > n.why then n.why else head.why)
  }

  function Enqueue(queue: seq<Notice>, n: Notice): seq<Notice> {
    if |queue| >= 2 then [Fold(queue[0], n)]
    else if |queue| == 1 && !n.on then []
    else queue + [n]
  }

  function Step(b: Board, a: Act): Board
    requires Enabled(b, a)
  {
    match a
    case Request(on, why) =>
      var n := Notice(on, why);
      var asked := b.(queue := Enqueue(b.queue, n), requested := b.requested + [n]);
      if |b.queue| >= 2 then asked.(count := b.count - 2 + 1, posted := b.posted + 1)
      else if |b.queue| == 1 && !on then asked.(count := b.count - 1)
      else asked.(count := b.count + 1, posted := b.posted + 1)
    case StartDrain =>
      b.(posted := b.posted - 1, running := true)
    case Dequeue =>
      if b.queue == [] then b.(running := false)
      else b.(queue := b.queue[1..], inFlight := b.inFlight + 1, delivered := b.delivered + [b.queue[0]])
    case BroadcastDone =>
      b.(inFlight := b.inFlight - 1, count := b.count - 1)
  }

  /** The wake lock is referenced once for each notification queued or being broadcast, at most
      two slots are in use, and a waiting notification always has a drain task coming. */
  ghost predicate Inv(b: Board) {
    && |b.queue| <= 2
    && b.count == |b.queue| + b.inFlight
    && (b.queue != [] ==> b.posted > 0 || b.running)
    && (|b.queue| == 2 ==> b.queue[1].on)
  }

  const Idle := Board([], 0, 0, false, 0, [], [])

  ghost predicate Legal(b: Board, acts: seq<Act>)
    decreases |acts|
  {
    acts == [] || (Enabled(b, acts[0]) && Legal(Step(b, acts[0]), acts[1..]))
  }

  function Run(b: Board, acts: seq<Act>): Board
    requires Legal(b, acts)
    decreases |acts|
  {
    if acts == [] then b else Run(Step(b, acts[0]), acts[1..])
  }

  /** Every interleaving of requests, drain steps and finished broadcasts keeps the protocol
      invariant; in particular the reference count never drops below zero. */
  lemma {:induction false} RunKeepsInv(b: Board, acts: seq<Act>)
    requires Inv(b) && Legal(b, acts)
    ensures Inv(Run(b, acts)) && Run(b, acts).count >= 0
    decreases |acts|
  {
    if acts != [] {
      RunKeepsInv(Step(b, acts[0]), acts[1..]);
    }
  }

  function LastOf(s: seq<Notice>, initial: bool): bool {
    if s == [] then initial else s[|s| - 1].on
  }

  /** What the keyguard will have been told last, once the queue has drained. */
  function Final(b: Board, initial: bool): bool {
    LastOf(b.queue, LastOf(b.delivered, initial))
  }

  /** A request is reflected in what will finally be delivered, except that an off request
      behind one waiting entry strips the pair: then the last delivery stands. */
  lemma RequestIsReflectedIff(b: Board, on: bool, why: int, initial: bool)
    requires Inv(b)
    ensures Final(Step(b, Request(on, why)), initial) == on <==>
      !(|b.queue| == 1 && !on && LastOf(b.delivered, initial))
  {
  }

  /** A request posts one drain task unless it strips a pair.  One that is queued keeps its own reason; one that is
      folded in keeps the reason of the first entry, or for an off the smaller one. */
  lemma RequestPosts(b: Board, on: bool, why: int)
    requires Inv(b)
    ensures var now := Step(b, Request(on, why));
      && now.posted == b.posted + (if |b.queue| == 1 && !on then 0 else 1)
      && (|b.queue| == 1 && !on ==> now.queue == [])
      && (b.queue == [] ==> now.queue == [Notice(on, why)])
      && (|b.queue| == 1 && on ==> now.queue == [b.queue[0], Notice(true, why)])
      && (|b.queue| == 2 ==>
            |now.queue| == 1 && now.queue[0].on == on && now.queue[0].why <= b.queue[0].why
            && (now.queue[0].why == b.queue[0].why || (!on && now.queue[0].why == why))
            && (!on ==> now.queue[0].why <= why))
  {
  }

  ghost predicate Alternates(s: seq<Notice>, initial: bool) {
    forall i :: 0 <= i < |s| ==> s[i].on != LastOf(s[..i], initial)
  }

  lemma AlternatesTail(n: Notice, s: seq<Notice>, initial: bool)
    requires Alternates([n] + s, initial)
    ensures n.on != initial && Alternates(s, n.on)
  {
    var all := [n] + s;
    assert all[0].on != LastOf(all[..0], initial);
    forall i | 0 <= i < |s| ensures s[i].on != LastOf(s[..i], n.on) {
      assert all[i + 1].on != LastOf(all[..i + 1], initial);
      assert all[..i + 1] == [n] + s[..i];
    }
  }

  lemma AlternatesAppendIff(s: seq<Notice>, n: Notice, initial: bool)
    ensures Alternates(s + [n], initial) <==> Alternates(s, initial) && n.on != LastOf(s, initial)
  {
    var more := s + [n];
    assert more[..|s|] == s;
    assert forall i :: 0 <= i < |s| ==> more[i] == s[i] && more[..i] == s[..i];
    if Alternates(more, initial) {
      forall i | 0 <= i < |s| ensures s[i].on != LastOf(s[..i], initial) {
        assert more[i].on != LastOf(more[..i], initial);
      }
      assert more[|s|].on != LastOf(more[..|s|], initial);
    }
  }

  /** The requests of a run, in order. */
  function Requests(acts: seq<Act>): seq<Notice>
    decreases |acts|
  {
    if acts == [] then []
    else (if acts[0].Request? then [Notice(acts[0].on, acts[0].why)] else []) + Requests(acts[1..])
  }

  /** What holds while requests alternate: `last` is the latest request (or the initial screen state). */
  ghost predicate AltInv(b: Board, initial: bool, last: bool) {
    && Inv(b)
    && Alternates(b.delivered, initial)
    && Final(b, initial) == last
    && (b.queue != [] ==> b.queue[0].on != LastOf(b.delivered, initial))
    && (|b.queue| == 2 ==> !b.queue[0].on && b.queue[1].on)
  }

  lemma AlternatingRequest(b: Board, on: bool, why: int, initial: bool, last: bool)
    requires AltInv(b, initial, last) && on != last
    ensures AltInv(Step(b, Request(on, why)), initial, on)
  {
    hide Alternates;
  }

  lemma AlternatingDequeue(b: Board, initial: bool, last: bool)
    requires AltInv(b, initial, last) && b.running
    ensures AltInv(Step(b, Dequeue), initial, last)
  {
    hide Alternates;
    if b.queue != [] {
      AlternatesAppendIff(b.delivered, b.queue[0], initial);
    }
  }

  lemma AlternatingStep(b: Board, a: Act, initial: bool, last: bool)
    requires AltInv(b, initial, last) && Enabled(b, a)
    requires a.Request? ==> a.on != last
    ensures AltInv(Step(b, a), initial, if a.Request? then a.on else last)
  {
    hide Alternates;
    match a
    case Request(on, why) => AlternatingRequest(b, on, why, initial, last);
    case Dequeue => AlternatingDequeue(b, initial, last);
    case StartDrain =>
    case BroadcastDone =>
  }

  /** The protocol invariant of a device that starts with its screen off: while all requests so far
      alternate, collapsing has not changed what they mean. */
  ghost predicate Faithful(b: Board) {
    Inv(b) && (Alternates(b.requested, false) ==> AltInv(b, false, LastOf(b.requested, false)))
  }

  lemma FaithfulKeepsCount(b: Board)
    requires Faithful(b)
    ensures |b.queue| <= 2 && b.count == |b.queue| + b.inFlight && (|b.queue| == 2 ==> b.queue[1].on)
  {
  }

  lemma StepKeepsFaithful(b: Board, a: Act)
    requires Faithful(b) && Enabled(b, a)
    ensures Faithful(Step(b, a))
  {
    if a.Request? { AlternatesAppendIff(b.requested, Notice(a.on, a.why), false); }
    if Alternates(Step(b, a).requested, false) {
      AlternatingStep(b, a, false, LastOf(b.requested, false));
    }
  }

  /** Several requests in a row. */
  function Notified(b: Board, ns: seq<Notice>): Board {
    if ns == [] then b
    else
      var last := ns[|ns| - 1];
      Step(Notified(b, ns[..|ns| - 1]), Request(last.on, last.why))
  }

  lemma {:induction false} NotifiedRequests(b: Board, ns: seq<Notice>)
    ensures Notified(b, ns).requested == b.requested + ns
    ensures Notified(b, ns).delivered == b.delivered
  {
    if ns != [] {
      var init, last := ns[..|ns| - 1], ns[|ns| - 1];
      NotifiedRequests(b, init);
      StepRequests(Notified(b, init), last);
      hide Step;
      assert ns == init + [last];
      assert b.requested + ns == b.requested + init + [last];
    }
  }

  lemma StepRequests(b: Board, n: Notice)
    ensures Step(b, Request(n.on, n.why)).requested == b.requested + [n]
    ensures Step(b, Request(n.on, n.why)).delivered == b.delivered
  {
    hide Enqueue;
  }

  lemma NotifiedTwice(b: Board, n: Notice, m: Notice)
    ensures Notified(b, []) == b
    ensures Notified(b, [n]) == Step(b, Request(n.on, n.why))
    ensures Notified(b, [n, m]) == Step(Step(b, Request(n.on, n.why)), Request(m.on, m.why))
  {
    assert [n][..0] == [];
    assert [n, m][..1] == [n];
  }

  lemma RequestsTail(acts: seq<Act>, last: bool)
    requires acts != [] && Alternates(Requests(acts), last)
    ensures acts[0].Request? ==> acts[0].on != last
    ensures Alternates(Requests(acts[1..]), if acts[0].Request? then acts[0].on else last)
    ensures LastOf(Requests(acts), last) ==
      LastOf(Requests(acts[1..]), if acts[0].Request? then acts[0].on else last)
  {
    var rest := Requests(acts[1..]);
    if acts[0].Request? {
      var n := Notice(acts[0].on, acts[0].why);
      assert Requests(acts) == [n] + rest;
      AlternatesTail(n, rest, last);
    } else {
      assert Requests(acts) == rest;
    }
  }

  /** Collapsing preserves meaning: if the requests alternate, then however the drains
      interleave the deliveries alternate, the last request is what is queued last or else was
      delivered last, and two waiting entries are always off then on. */
  lemma {:induction false} CollapsingPreservesMeaning(b: Board, acts: seq<Act>, initial: bool, last: bool)
    requires AltInv(b, initial, last) && Legal(b, acts)
    requires Alternates(Requests(acts), last)
    ensures AltInv(Run(b, acts), initial, LastOf(Requests(acts), last))
    decreases |acts|
  {
    if acts != [] {
      var a := acts[0];
      var now := if a.Request? then a.on else last;
      RequestsTail(acts, last);
      AlternatingStep(b, a, initial, last);
      CollapsingPreservesMeaning(Step(b, a), acts[1..], initial, now);
    }
  }

  lemma RunOne(b: Board, a: Act, acts: seq<Act>)
    requires Enabled(b, a) && Legal(Step(b, a), acts)
    ensures Legal(b, [a] + acts) && Run(b, [a] + acts) == Run(Step(b, a), acts)
    ensures Requests([a] + acts) == (if a.Request? then [Notice(a.on, a.why)] else []) + Requests(acts)
  {
    assert ([a] + acts)[1..] == acts;
  }

  /** Without alternation the meaning is lost: on is requested and delivered, then off is requested twice before
      anything is drained.  The second off strips both, and on is the last thing delivered for good. */
  lemma RepeatedOffIsLost()
    ensures var acts := [Request(true, -1), StartDrain, Dequeue, Request(false, 1), Request(false, 2)];
      && Legal(Idle, acts) && Run(Idle, acts).queue == []
      && !LastOf(Requests(acts), false) && Final(Run(Idle, acts), false)
  {
    var b1 := Step(Idle, Request(true, -1));
    var b2 := Step(b1, StartDrain);
    var b3 := Step(b2, Dequeue);
    var b4 := Step(b3, Request(false, 1));
    hide Legal, Run, Requests;
    EndsThere(Step(b4, Request(false, 2)));
    RunOne(b4, Request(false, 2), []);
    RunOne(b3, Request(false, 1), [Request(false, 2)]);
    RunOne(b2, Dequeue, [Request(false, 1), Request(false, 2)]);
    RunOne(b1, StartDrain, [Dequeue, Request(false, 1), Request(false, 2)]);
    RunOne(Idle, Request(true, -1), [StartDrain, Dequeue, Request(false, 1), Request(false, 2)]);
  }

  lemma EndsThere(b: Board)
    ensures Legal(b, []) && Run(b, []) == b && Requests([]) == []
  {
  }

  function Min(a: int, b: int): int {
    if a < b then a else b
  }

  function MinOf(s: seq<int>): int
    requires s != []
  {
    if |s| == 1 then s[0] else Min(MinOf(s[..|s| - 1]), s[|s| - 1])
  }

  /** The off reasons folded into the head entry of the queue: an off request that finds the queue
      empty starts a new list, one that is folded in position 2 extends it. */
  function FoldedInto(b: Board, a: Act, folded: seq<int>): seq<int>
    requires Enabled(b, a)
  {
    match a
    case Request(on, why) =>
      if on then (if |b.queue| == 1 then folded else [])
      else if |b.queue| >= 2 then folded + [why]
      else if b.queue == [] then [why]
      else []
    case Dequeue => []
    case _ => folded
  }

  /** With alternating requests the reason kept for a waiting off is the smallest of those folded
      into it. */
  ghost predicate ReasonInv(b: Board, folded: seq<int>) {
    b.queue != [] && !b.queue[0].on ==> folded != [] && b.queue[0].why == MinOf(folded)
  }

  lemma KeptReasonIsMinimum(b: Board, a: Act, initial: bool, last: bool, folded: seq<int>)
    requires AltInv(b, initial, last) && Enabled(b, a)
    requires a.Request? ==> a.on != last
    requires ReasonInv(b, folded)
    ensures ReasonInv(Step(b, a), FoldedInto(b, a, folded))
  {
    if a.Request? && !a.on && |b.queue| >= 2 {
      assert (folded + [a.why])[..|folded|] == folded;
    }
  }

  ghost function FoldedRun(b: Board, acts: seq<Act>, folded: seq<int>): seq<int>
    requires Legal(b, acts)
    decreases |acts|
  {
    if acts == [] then folded
    else FoldedRun(Step(b, acts[0]), acts[1..], FoldedInto(b, acts[0], folded))
  }

  lemma {:induction false} KeptReasonIsMinimumOverRuns(b: Board, acts: seq<Act>, initial: bool, last: bool,
                                                       folded: seq<int>)
    requires AltInv(b, initial, last) && Legal(b, acts)
    requires Alternates(Requests(acts), last)
    requires ReasonInv(b, folded)
    ensures ReasonInv(Run(b, acts), FoldedRun(b, acts, folded))
    decreases |acts|
  {
    if acts != [] {
      var a := acts[0];
      var now := if a.Request? then a.on else last;
      RequestsTail(acts, last);
      KeptReasonIsMinimum(b, a, initial, last, folded);
      AlternatingStep(b, a, initial, last);
      KeptReasonIsMinimumOverRuns(Step(b, a), acts[1..], initial, now, FoldedInto(b, a, folded));
    }
  }

  function Repeated(a: Act, n: nat): seq<Act> {
    if n == 0 then [] else [a] + Repeated(a, n - 1)
  }

  /** Nothing waits for ever: from any reachable board a running drain task takes one step for each
      waiting notification and one to stop, and has then delivered the whole queue in order. */
  lemma {:induction false} DrainDelivers(b: Board)
    requires Inv(b) && b.running
    ensures var acts := Repeated(Dequeue, |b.queue| + 1);
      && Legal(b, acts)
      && Run(b, acts) == b.(queue := [], running := false, inFlight := b.count, delivered := b.delivered + b.queue)
    decreases |b.queue|
  {
    var acts := Repeated(Dequeue, |b.queue| + 1);
    var next := Step(b, Dequeue);
    assert acts[1..] == Repeated(Dequeue, |b.queue|);
    if b.queue == [] {
      assert Legal(next, acts[1..]);
    } else {
      DrainDelivers(next);
      assert next.delivered + next.queue == b.delivered + b.queue;
    }
  }

  /** Once they are all done the broadcast wake lock is free again. */
  lemma {:induction false} BroadcastsFinish(b: Board)
    requires Inv(b) && b.queue == []
    ensures var acts := Repeated(BroadcastDone, b.inFlight);
      Legal(b, acts) && Run(b, acts) == b.(inFlight := 0, count := 0)
    decreases b.inFlight
  {
    if b.inFlight > 0 {
      BroadcastsFinish(Step(b, BroadcastDone));
      assert Repeated(BroadcastDone, b.inFlight)[1..] == Repeated(BroadcastDone, b.inFlight - 1);
    }
  }

  /** All that is left to do: the drain under way, those posted, and the broadcasts. */
  function Draining(b: Board): seq<Act>
    decreases b.posted, b.running
  {
    if b.running then Repeated(Dequeue, |b.queue| + 1) + Draining(b.(queue := [], running := false))
    else if b.posted > 0 then [StartDrain] + Draining(b.(posted := b.posted - 1, running := true))
    else []
  }

  lemma {:induction false} RunBoth(b: Board, acts: seq<Act>, more: seq<Act>)
    requires Legal(b, acts) && Legal(Run(b, acts), more)
    ensures Legal(b, acts + more) && Run(b, acts + more) == Run(Run(b, acts), more)
    decreases |acts|
  {
    if acts == [] {
      assert acts + more == more;
    } else {
      RunBoth(Step(b, acts[0]), acts[1..], more);
      assert (acts + more)[0] == acts[0] && (acts + more)[1..] == acts[1..] + more;
    }
  }

  /** When nothing more is requested the handler comes to rest: every drain task posted runs once, and then
      everything that waited has been delivered, in order. */
  lemma {:induction false} DrainsComeToRest(b: Board)
    requires Inv(b)
    ensures Legal(b, Draining(b))
    ensures Run(b, Draining(b)) ==
      b.(queue := [], posted := 0, running := false, inFlight := b.count, delivered := b.delivered + b.queue)
    decreases b.posted, b.running
  {
    if b.running {
      DrainDelivers(b);
      var drained := Run(b, Repeated(Dequeue, |b.queue| + 1));
      DrainsComeToRest(drained);
      SameDraining(drained, b.(queue := [], running := false));
      RunBoth(b, Repeated(Dequeue, |b.queue| + 1), Draining(drained));
      assert drained.delivered + [] == drained.delivered;
    } else if b.posted > 0 {
      var started := b.(posted := b.posted - 1, running := true);
      assert started == Step(b, StartDrain);
      DrainsComeToRest(started);
      RunOne(b, StartDrain, Draining(started));
    } else {
      EndsThere(b);
      assert b.delivered + [] == b.delivered;
    }
  }

  /** Only the queue and the tasks matter for that. */
  lemma {:induction false} SameDraining(b: Board, c: Board)
    requires b.queue == c.queue && b.posted == c.posted && b.running == c.running
    ensures Draining(b) == Draining(c)
    decreases b.posted, b.running
  {
    if b.running {
      SameDraining(b.(queue := [], running := false), c.(queue := [], running := false));
    } else if b.posted > 0 {
      SameDraining(b.(posted := b.posted - 1, running := true), c.(posted := c.posted - 1, running := true));
    }
  }
}
