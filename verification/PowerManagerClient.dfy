/** The client side of the wake-lock protocol: reference-counted locks in front of the service. */
module PowerManagerClient {
  import opened PowerBits
  import S = PowerManagerService
  import L = WakeLockList

  lemma ClientsMembership(t: Token, listed: set<Token>)
    requires t.Client?
    ensures t in S.Clients(listed) <==> t in listed
  {
  }

  class WakeLock {
    const service: S.PowerManagerService
    const token: Token
    var count: int
    var refCounted: bool
    var held: bool

    /** A lock that has not been under-released: the three views of it say the same. */
    ghost predicate Agrees()
      reads this, service, service.locks
    {
      && refCounted && count >= 0
      && (held <==> count > 0)
      && (held <==> token in service.locks.tokens)
    }

    constructor (service: S.PowerManagerService, id: nat, flags: LockFlags)
      requires Client(id, flags) !in service.locks.tokens
      ensures this.service == service && token == Client(id, flags) && count == 0 && Agrees()
    {
      this.service, token := service, Client(id, flags);
      count, refCounted, held := 0, true, false;
    }

    method SetReferenceCounted(value: bool)
      modifies this
      ensures refCounted == value && count == old(count) && held == old(held)
    {
      refCounted := value;
    }

    /** acquire: only the first of several nested acquires reaches the service.  After an unbalanced
        release has driven the count negative, the next acquire does not reach it either. */
    method Acquire(env: S.Env)
      requires service.Valid() && token.Client? && KindOf(token) != BadKind
      modifies this, service, service.locks, service.brightness, service.broadcastQueue, service.broadcastWhy
      ensures service.Valid() && refCounted == old(refCounted)
      ensures count == if refCounted then old(count) + 1 else old(count)
      ensures held == (old(held) || !refCounted || old(count) == 0)
      ensures S.Clients(service.locks.tokens) == S.Clients(old(service.locks.tokens)) +
        (if !refCounted || old(count) == 0 then {token} else {})
      ensures service.redundantAcquires == old(service.redundantAcquires) +
        (if (!refCounted || old(count) == 0) && KindOf(token) == ProximityScreenOff &&
          token in old(service.locks.tokens) then 1 else 0)
      ensures old(Agrees()) ==> Agrees() && held && service.redundantAcquires == old(service.redundantAcquires)
      ensures refCounted && old(held <==> count > 0) ==> (held <==> old(count) >= 0)
    {
      hide S.PowerManagerService.Valid;
      ClientsMembership(token, service.locks.tokens);
      var first := count == 0;
      if refCounted {
        count := count + 1;
      }
      if !refCounted || first {
        service.AcquireWakeLock(token, env);
        held := true;
      }
      ClientsMembership(token, service.locks.tokens);
    }

    /** release: only the one that undoes the first acquire reaches the service; underLocked is the
        case in which it throws. */
    method Release(waitForNegative: bool, env: S.Env) returns (underLocked: bool)
      requires service.Valid() && token.Client? && KindOf(token) != BadKind
      modifies this, service, service.locks, service.timeouts, service.brightness, service.broadcastQueue
      modifies service.broadcastWhy
      ensures service.Valid() && refCounted == old(refCounted)
      ensures count == if refCounted then old(count) - 1 else old(count)
      ensures underLocked <==> count < 0
      ensures held == (old(held) && refCounted && count != 0)
      ensures S.Clients(service.locks.tokens) == S.Clients(old(service.locks.tokens)) -
        (if !refCounted || count == 0 then {token} else {})
      ensures service.redundantAcquires == old(service.redundantAcquires)
      ensures old(Agrees() && count > 0) ==> Agrees() && !underLocked
    {
      hide S.PowerManagerService.Valid;
      ClientsMembership(token, service.locks.tokens);
      if refCounted {
        count := count - 1;
      }
      if !refCounted || count == 0 {
        var _ := service.ReleaseWakeLock(token, waitForNegative, env);
        held := false;
      }
      ClientsMembership(token, service.locks.tokens);
      underLocked := count < 0;
    }
  }

  /** One step of a run: a client's nested acquire or release, or any block of the service that is
      not a client's acquire or release. */
  datatype Op =
    | Acquire(index: nat)
    | Release(index: nat, waitForNegative: bool)
    | Other(block: S.Block)

  predicate Foreign(b: S.Block) {
    b.Called? ==> !b.call.Acquire? && !b.call.Release?
  }

  predicate LegalOp(op: Op, clients: nat) {
    match op
    case Acquire(i) => i < clients
    case Release(i, _) => i < clients
    case Other(b) => Foreign(b)
  }

  /** The nesting depth of each client's lock after one step. */
  function Nested(depths: seq<int>, op: Op): seq<int>
    requires LegalOp(op, |depths|)
  {
    match op
    case Acquire(i) => depths[i := depths[i] + 1]
    case Release(i, _) => depths[i := depths[i] - 1]
    case Other(_) => depths
  }

  /** No lock is released more often than it has been acquired. */
  predicate Balanced(depths: seq<int>, ops: seq<Op>)
    decreases |ops|
  {
    ops == [] || (
      && LegalOp(ops[0], |depths|)
      && (ops[0].Release? ==> depths[ops[0].index] > 0)
      && Balanced(Nested(depths, ops[0]), ops[1..]))
  }

  function Depths(depths: seq<int>, ops: seq<Op>): seq<int>
    requires Balanced(depths, ops)
    decreases |ops|
  {
    if ops == [] then depths else Depths(Nested(depths, ops[0]), ops[1..])
  }

  ghost predicate Team(locks: seq<WakeLock>, service: S.PowerManagerService) {
    && (forall i :: 0 <= i < |locks| ==>
       locks[i].service == service && locks[i].token.Client? && KindOf(locks[i].token) != BadKind)
    && (forall i, j :: 0 <= i < j < |locks| ==> locks[i].token != locks[j].token)
  }

  /** The steps of a run, without what each of them reads from outside. */
  function OpsOf(run: seq<(Op, S.Env)>): (ops: seq<Op>)
    ensures |ops| == |run| && forall i :: 0 <= i < |run| ==> ops[i] == run[i].0
  {
    seq(|run|, i requires 0 <= i < |run| => run[i].0)
  }

  /** Client and server agree: however balanced nested acquires and releases of any number of clients
      interleave with everything else the service does, while the clock, the battery, the settings and
      the driver do what they like, each lock is held exactly while it is nested, exactly while the
      service lists it, and no proximity lock is ever counted twice. */
  method RunClients(locks: seq<WakeLock>, service: S.PowerManagerService, run: seq<(Op, S.Env)>, depths: seq<int>)
    requires service.Valid() && Team(locks, service) && |depths| == |locks|
    requires forall i :: 0 <= i < |locks| ==> locks[i].Agrees() && locks[i].count == depths[i]
    requires Balanced(depths, OpsOf(run))
    modifies locks, service, service.locks, service.timeouts, service.brightness, service.broadcastQueue
    modifies service.broadcastWhy
    ensures service.Valid()
    ensures |Depths(depths, OpsOf(run))| == |locks|
    ensures forall i :: 0 <= i < |locks| ==> locks[i].Agrees() && locks[i].count == Depths(depths, OpsOf(run))[i]
    ensures service.redundantAcquires == old(service.redundantAcquires)
    decreases |run|
  {
    hide S.PowerManagerService.Valid;
    if run == [] {
      return;
    }
    assert OpsOf(run)[1..] == OpsOf(run[1..]);
    Step(locks, service, run[0].0, depths, run[0].1);
    RunClients(locks, service, run[1..], Nested(depths, run[0].0));
  }

  lemma OthersListed(locks: seq<WakeLock>, before: set<Token>, after: set<Token>, t: Token)
    requires forall i :: 0 <= i < |locks| ==> locks[i].token.Client?
    requires S.Clients(after) - {t} == S.Clients(before) - {t}
    ensures forall i :: 0 <= i < |locks| && locks[i].token != t ==>
      (locks[i].token in after <==> locks[i].token in before)
  {
    forall i | 0 <= i < |locks| && locks[i].token != t
      ensures locks[i].token in after <==> locks[i].token in before
    {
      ClientsMembership(locks[i].token, before);
      ClientsMembership(locks[i].token, after);
      assert locks[i].token in S.Clients(after) - {t} <==> locks[i].token in S.Clients(before) - {t};
    }
  }

  method Step(locks: seq<WakeLock>, service: S.PowerManagerService, op: Op, depths: seq<int>, env: S.Env)
    requires service.Valid() && Team(locks, service) && |depths| == |locks|
    requires forall i :: 0 <= i < |locks| ==> locks[i].Agrees() && locks[i].count == depths[i]
    requires LegalOp(op, |depths|) && (op.Release? ==> depths[op.index] > 0)
    modifies locks, service, service.locks, service.timeouts, service.brightness, service.broadcastQueue
    modifies service.broadcastWhy
    ensures service.Valid()
    ensures forall i :: 0 <= i < |locks| ==> locks[i].Agrees() && locks[i].count == Nested(depths, op)[i]
    ensures service.redundantAcquires == old(service.redundantAcquires)
  {
    hide S.PowerManagerService.Valid, S.Clients;
    ghost var before := service.locks.tokens;
    match op {
      case Acquire(i) =>
        locks[i].Acquire(env);
        OthersListed(locks, before, service.locks.tokens, locks[i].token);
      case Release(i, wait) =>
        var underLocked := locks[i].Release(wait, env);
        assert !underLocked;
        OthersListed(locks, before, service.locks.tokens, locks[i].token);
      case Other(b) =>
        service.HandleForeign(b, env);
        OthersListed(locks, before, service.locks.tokens, SleepBroadcast);
    }
  }

  /** In such a run the proximity count is exactly the number of proximity locks listed, the partial
      count that of the partial locks, and the kernel lock is held while there are any. */
  lemma CountsAreExact(service: S.PowerManagerService)
    requires service.Valid() && service.redundantAcquires == 0
    ensures service.proximityCount == |L.OfKind(service.locks.tokens, ProximityScreenOff)|
    ensures service.partialCount == |L.OfKind(service.locks.tokens, Partial)|
    ensures service.kernelLockHeld <==> L.OfKind(service.locks.tokens, Partial) != {}
    ensures L.OfKind(service.locks.tokens, ProximityScreenOff) != {} ==> service.proximityEnabled
  {
  }
}
