/**
`send_transaction` as the client writes it, a loop over three attempts with
its locals, run by one thread or task while others act between its steps. It
decides every branch and computes every nonce from its locals, the client's
shared dictionaries and the answers to its POSTs; each time it acts, its call
in the step system is proved to be at the same point with the same values. So
every guarantee about runs is a guarantee about this method.
*/
module Client {
  import opened Wrappers
  import opened World
  import opened Invariants
  import Effort
  import Guarantees

  /** What one POST brings back. */
  datatype Answer =
    | NoReply                                   // a retryable failure
    | Error                                     // an error that leaves the transport at once
    | Nonce(nonce: nat)                         // a query's result
    | Result                                    // the transaction's result
    | Refused(akNonce: Option<nat>)             // InvalidNonceError

  /** The answer the node gives to call i's current request under a reply. */
  function AnswerTo(s: Shared, i: nat, c: Call, reply: Reply): Answer
    requires c.pc.Rpc? && (reply.Handled? ==> c.pc.request.SendTx?)
  {
    match reply
    case Lost(_) => NoReply
    case Fatal(_) => Error
    case Value(v) => Nonce(v)
    case Handled(report) =>
      var (s', c') := Process(s, i, c);
      if Stored(s', c') then Result else Refused(if report then Some(s'.chain) else None)
  }

  /** What a transport call comes back with: an exception other than InvalidNonceError, an answer, or a verdict. */
  datatype Response = Raised | Answered(nonce: nat) | Accepted | Rejected(reported: Option<nat>)

  /** One `send_transaction` call of a client, in strict mode or not, and what its surroundings will do. */
  class Session {
    const env: Env
    const me: nat
    const client: nat
    const strict: bool
    var world: World              // the node and what the client's calls share; other calls are its surroundings
    var others: seq<seq<Event>>   // between my steps: what other calls and wallets do; impossible events are skipped
    var replies: seq<Reply>       // how my POSTs are answered; impossible replies become lost ones
    ghost var start: World
    ghost var trace: seq<Event>

    /** The world is where a run from its beginning has led, and my call is the one I was asked to make. */
    ghost predicate Valid()
      reads this
    {
      && me < |world.calls|
      && Mine().client == client && Mine().mode.Strict? == strict
      && Initial(start) && Runs(env, start, trace) && After(env, start, trace) == world
    }

    /** Where the step system has my call. */
    ghost function Mine(): Call
      requires me < |world.calls|
      reads this
    {
      world.calls[me]
    }

    constructor (env: Env, start: World, me: nat, others: seq<seq<Event>>, replies: seq<Reply>)
      requires Initial(start) && me < |start.calls|
      ensures Valid() && this.me == me && this.env == env && world == start && trace == []
    {
      this.env, this.me, this.world, this.others, this.replies := env, me, start, others, replies;
      this.client, this.strict := start.calls[me].client, start.calls[me].mode.Strict?;
      this.start, this.trace := start, [];
    }

    /** My call's own step was the last of the trace, and it was taken in this world. */
    ghost predicate SteppedFrom(before: World)
      reads this
    {
      && |trace| > 0 && trace[|trace| - 1] == Go(me)
      && Leads(env, start, trace[..|trace| - 1], before)
    }

    method Take(e: Event)
      requires Valid() && Enabled(env, world, e)
      modifies this`world, this`trace
      ensures Valid() && world == Apply(env, old(world), e) && trace == old(trace) + [e]
    {
      RunsSnoc(env, start, trace, e);
      if !e.ForeignLand? {
        StepExtends(env, world.shared, e.call, world.calls[e.call], Uncovered(world.shared, world.calls), e);
      }
      world := Apply(env, world, e);
      trace := trace + [e];
    }

    /** The scheduler runs others; my call does not move, and my lock stays mine. */
    method Yield()
      requires Valid()
      modifies this`world, this`trace, this`others
      ensures Valid() && Mine() == old(Mine()) && old(trace) <= trace
      ensures others == if old(others) == [] then [] else old(others)[1..]
    {
      if others == [] {
        return;
      }
      var batch := others[0];
      others := others[1..];
      for n := 0 to |batch|
        invariant Valid() && Mine() == old(Mine()) && old(trace) <= trace
        invariant others == old(others)[1..]
      {
        var e := batch[n];
        if Enabled(env, world, e) && (e.ForeignLand? || e.call != me) {
          Take(e);
        }
      }
    }

    // ---------- The nonce cache ----------

    /**
     `NonceCache.reserve` on the key: the least positive nonce above the
     fetched one and whatever the client has cached at that moment.
     */
    method Reserve(onChain: Option<nat>) returns (nonce: nat, ghost before: World)
      requires Valid() && Mine().pc == Reserving(onChain)
      modifies this`world, this`trace, this`others
      ensures Valid() && old(trace) <= trace
      ensures Mine() == old(Mine()).(pc := Rpc(FetchBlock(nonce), 0))
      ensures SteppedFrom(before) && LeastAbove(Cached(before.shared, client), onChain, nonce)
      ensures Cached(world.shared, client) == Some(nonce) && OnlyClient(before.shared, world.shared, client)
    {
      Yield();
      before := world;
      var base := 0;
      if client in world.shared.caches {
        base := world.shared.caches[client];
      }
      if onChain.Some? && onChain.value > base {
        base := onChain.value;
      }
      nonce := base + 1;
      ghost var events := trace;
      Take(Go(me));
      assert trace[..|trace| - 1] == events;
    }

    /**
     `NonceCache.sync_to` on the key, after a rejection or a landing: the
     larger of the nonce and whatever the client has cached at that moment.
     */
    method SyncTo(nonce: nat) returns (cached: nat, ghost before: World)
      requires Valid() && (Mine().pc == SyncRejected(nonce) || Mine().pc == SyncLanded(nonce))
      modifies this`world, this`trace, this`others
      ensures Valid() && old(trace) <= trace
      ensures Mine() == if old(Mine()).pc.SyncLanded? then old(Mine()).(pc := Leaving(Landed))
                        else Continue(old(Mine()).(base := Some(nonce)))
      ensures SteppedFrom(before) && IsLarger(Cached(before.shared, client), nonce, cached)
      ensures Cached(world.shared, client) == Some(cached) && OnlyClient(before.shared, world.shared, client)
    {
      Yield();
      before := world;
      cached := nonce;
      if client in world.shared.caches && world.shared.caches[client] > nonce {
        cached := world.shared.caches[client];
      }
      ghost var events := trace;
      Take(Go(me));
      assert trace[..|trace| - 1] == events;
    }

    // ---------- The transport ----------

    /** A reply my current request may get. */
    method NextReply() returns (reply: Reply)
      requires Valid() && Mine().pc.Rpc?
      modifies this`replies
      ensures CanPost(env, world.shared, Mine(), reply)
    {
      reply := Lost(false);
      if replies != [] {
        if CanPost(env, world.shared, world.calls[me], replies[0]) {
          reply := replies[0];
        }
        replies := replies[1..];
      }
    }

    /** Where one POST leaves my call, going by its answer. */
    ghost predicate Consumed(c: Call, c': Call, request: Request, attempt: nat, answer: Answer) {
      && c'.lock == c.lock
      && match answer
         case NoReply =>
           && c' == c.(pc := c'.pc, landed := c'.landed, posts := c'.posts)
           && c'.pc == if attempt < env.retries then Rpc(request, attempt + 1) else Leaving(Failed)
         case Error => c'.pc == Leaving(Failed)
         case Nonce(v) => !request.SendTx? && Finished(c, c', request, Answered(v))
         case Result => request.SendTx? && Finished(c, c', request, Accepted)
         case Refused(akNonce) => request.SendTx? && Finished(c, c', request, Rejected(akNonce))
    }

    /** Where a finished transport call leaves my call, going by its response. */
    ghost predicate Finished(c: Call, c': Call, request: Request, response: Response) {
      && c'.lock == c.lock
      && match response
         case Raised => c'.pc == Leaving(Failed)
         case Answered(v) =>
           && !request.SendTx? && c'.attempt == c.attempt
           && c'.base == (if request.FetchNonce? && strict then Some(v) else c.base)
           && c'.pc == (if request.FetchBlock? then Rpc(SendTx(request.nonce), 0)
                        else if strict then Rpc(FetchBlock(v + 1), 0) else Reserving(Some(v)))
         case Accepted => request.SendTx? && c'.pc == SyncLanded(request.nonce)
         case Rejected(reported) =>
           && request.SendTx?
           && if reported.Some? then c'.pc == SyncRejected(reported.value) && c'.attempt == c.attempt
              else if c.attempt < 2 then c'.pc == Top && c'.attempt == c.attempt + 1 && c'.base == None
              else c'.pc == Leaving(InvalidNonce)
    }

    /** One POST of the request, and its answer. */
    method Exchange(request: Request, attempt: nat) returns (answer: Answer)
      requires Valid() && Mine().pc == Rpc(request, attempt) && Mine().attempt <= 2
      modifies this`world, this`trace, this`others, this`replies
      ensures Valid() && old(trace) <= trace && Consumed(old(Mine()), Mine(), request, attempt, answer)
    {
      Yield();
      var reply := NextReply();
      answer := AnswerTo(world.shared, me, world.calls[me], reply);
      Take(Post(me, reply));
    }

    /** `RpcTransport.call`: POST, and on a retryable failure POST again, up to `retries` times more. */
    method Transport(request: Request) returns (response: Response)
      requires Valid() && Mine().pc == Rpc(request, 0) && Mine().attempt <= 2
      modifies this`world, this`trace, this`others, this`replies
      ensures Valid() && old(trace) <= trace && Finished(old(Mine()), Mine(), request, response)
    {
      for attempt := 0 to env.retries + 1
        invariant Valid() && old(trace) <= trace
        invariant Mine().pc == if attempt <= env.retries then Rpc(request, attempt) else Leaving(Failed)
        invariant Mine() == old(Mine()).(pc := Mine().pc, landed := Mine().landed, posts := Mine().posts)
      {
        var answer := Exchange(request, attempt);
        match answer {
          case NoReply =>
          case Error => return Raised;
          case Nonce(v) => return Answered(v);
          case Result => return Accepted;
          case Refused(akNonce) => return Rejected(akNonce);
        }
      }
      return Raised;
    }

    // ---------- The strict lock ----------

    /** `_strict_lock`: the dictionary's lock, or else the one `setdefault` leaves there. */
    method StrictLock() returns (lock: nat)
      requires Valid() && Mine().pc.FindLock?
      modifies this`world, this`trace, this`others
      ensures Valid() && old(trace) <= trace && Mine() == old(Mine()).(pc := AwaitLock(lock))
    {
      Yield();
      if client in world.shared.locks {
        lock := world.shared.locks[client];
        Take(Go(me));
        return;
      }
      Take(Go(me));
      Yield();
      lock := me;                     // a fresh lock, named after the call that makes it
      if client in world.shared.locks {
        lock := world.shared.locks[client];
      }
      Take(Go(me));
    }

    /** The start of `with guard`: false when the schedule ends before the lock is free. */
    method Enter(lock: nat) returns (entered: bool)
      requires Valid() && Mine().pc == AwaitLock(lock)
      modifies this`world, this`trace, this`others
      ensures Valid() && old(trace) <= trace
      ensures Mine() == if entered then old(Mine()).(pc := Top, lock := Some(lock)) else old(Mine())
    {
      while lock in world.shared.held
        invariant Valid() && old(trace) <= trace && Mine() == old(Mine())
        decreases |others|
      {
        if others == [] {
          return false;
        }
        Yield();
      }
      Take(Go(me));
      return true;
    }

    /** The end of the `with` block: the lock, if any, is free again. */
    method Leave(guard: Option<nat>, outcome: Outcome)
      requires Valid() && Mine().pc == Leaving(outcome) && Mine().lock == guard
      modifies this`world, this`trace, this`others
      ensures Valid() && old(trace) <= trace && Mine().pc == Done(outcome)
      ensures guard.Some? ==> guard.value !in world.shared.held
    {
      Yield();
      Take(Go(me));
    }

    // ---------- send_transaction ----------

    /** The nonce of an attempt: the strict base plus one, or a reservation; None when the fetch raised. */
    method ChooseNonce(attempt: nat, strictBase: Option<nat>) returns (nonce: Option<nat>)
      requires Valid() && Mine().pc.Top? && Mine().attempt == attempt <= 2
      requires strict ==> Mine().base == strictBase
      modifies this`world, this`trace, this`others, this`replies
      ensures Valid() && old(trace) <= trace && Mine().lock == old(Mine()).lock
      ensures if nonce.None? then Mine().pc == Leaving(Failed)
              else Mine().pc == Rpc(FetchBlock(nonce.value), 0) && Mine().attempt == attempt
      ensures strict && strictBase.Some? ==> nonce == Some(strictBase.value + 1)
    {
      Yield();
      if strict {
        Take(Go(me));
        var base := strictBase;
        if base.None? {
          var fetched := Transport(FetchNonce);
          if fetched.Raised? {
            return None;
          }
          base := Some(fetched.nonce);
        }
        return Some(base.value + 1);
      }
      var known := client in world.shared.caches;
      Take(Go(me));
      var onChain := None;
      if attempt > 0 || !known {
        var fetched := Transport(FetchNonce);
        if fetched.Raised? {
          return None;
        }
        onChain := Some(fetched.nonce);
      }
      var reserved, _ := Reserve(onChain);
      return Some(reserved);
    }

    /** One attempt: it ends the call, or says what the next one starts from. */
    method Attempt(attempt: nat, strictBase: Option<nat>) returns (sent: Response)
      requires Valid() && Mine().pc.Top? && Mine().attempt == attempt <= 2
      requires strict ==> Mine().base == strictBase
      modifies this`world, this`trace, this`others, this`replies
      ensures Valid() && old(trace) <= trace && Mine().lock == old(Mine()).lock && !sent.Answered?
      ensures sent.Raised? ==> Mine().pc == Leaving(Failed)
      ensures sent.Accepted? ==> Mine().pc == Leaving(Landed)
      ensures sent.Rejected? ==>
                if attempt == 2 then Mine().pc == Leaving(InvalidNonce)
                else Mine().pc.Top? && Mine().attempt == attempt + 1 && Mine().base == sent.reported
    {
      var nonce := ChooseNonce(attempt, strictBase);
      if nonce.None? {
        return Raised;
      }
      var block := Transport(FetchBlock(nonce.value));
      if block.Raised? {
        return Raised;
      }
      sent := Transport(SendTx(nonce.value));
      if sent.Rejected? && sent.reported.Some? {
        var _, _ := SyncTo(sent.reported.value);
      } else if sent.Accepted? {
        var _, _ := SyncTo(nonce.value);
      }
    }

    /** The loop over three attempts, inside the lock when the mode is strict. */
    method Attempts() returns (outcome: Option<Outcome>)
      requires Valid() && Fresh(Mine())
      modifies this`world, this`trace, this`others, this`replies
      ensures Valid() && old(trace) <= trace
      ensures if outcome.None? then Mine().pc.AwaitLock? else Mine().pc == Done(outcome.value)
    {
      Yield();
      Take(Go(me));
      var guard: Option<nat> := None;
      if strict {
        var lock := StrictLock();
        var entered := Enter(lock);
        if !entered {
          return None;
        }
        guard := Some(lock);
      }
      var strictBase: Option<nat> := None;
      var end := InvalidNonce;        // `raise last_error`, unless an attempt ends the call
      for attempt := 0 to 3
        invariant Valid() && old(trace) <= trace && end == InvalidNonce && Mine().lock == guard
        invariant if attempt < 3 then Mine().pc.Top? && Mine().attempt == attempt else Mine().pc == Leaving(end)
        invariant attempt < 3 && strict ==> Mine().base == strictBase
      {
        var sent := Attempt(attempt, strictBase);
        if !sent.Rejected? {
          end := if sent.Accepted? then Landed else Failed;
          break;
        }
        strictBase := sent.reported;
      }
      Leave(guard, end);
      return Some(end);
    }

    /**
     `send_transaction`. The outcome is None only when the schedule ends while
     the call waits for its lock. Otherwise it says what became of the call's
     transactions on chain, and the work was bounded.
     */
    method SendTransaction() returns (outcome: Option<Outcome>)
      requires Valid() && Fresh(Mine())
      modifies this`world, this`trace, this`others, this`replies
      ensures Valid() && old(trace) <= trace
      ensures if outcome.None? then Mine().pc.AwaitLock? else Mine().pc == Done(outcome.value)
      ensures outcome == Some(Landed) ==> exists k :: Guarantees.LandedBy(world, k, me)
      ensures outcome == Some(InvalidNonce) ==> forall k :: !Guarantees.LandedBy(world, k, me)
      ensures Mine().posts <= 9 * (env.retries + 1)
    {
      outcome := Attempts();
      assert Reachable(env, world);
      Guarantees.OutcomeMatchesChain(env, world, me);
      Effort.PostsBounded(env, world, me);
    }
  }
}
