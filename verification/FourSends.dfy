/**
How many other transactions it takes to exhaust a monotonic send, and runs
that show the numbers are sharp. Three overlapping monotonic sends always
land; four may not, even with current reads, nonces in every rejection and
nobody else about. A send that gives up saw three others land while it ran if
its cache was level with the chain when it began, and may have seen only two
if it was not. With stale reads and a node that never names its nonce, it may
have seen none.
*/
module FourSends {
  import opened Wrappers
  import opened World
  import opened Invariants
  import opened SoleClient
  import opened Contention
  import opened Sequential

  // ---------- One send overtaken by another ----------

  /** Call i, monotonic, at the given point with nothing landed. */
  ghost predicate Victim(x: World, i: nat, client: nat, attempt: nat, pc: Pc) {
    && i < |x.calls| && x.shared.start <= x.shared.chain
    && var c := x.calls[i];
       c.client == client && c.mode.Monotonic? && c.landed.None? && c.attempt == attempt && c.pc == pc
  }

  ghost predicate Waiting(x: World, b: nat, client: nat) {
    b < |x.calls| && x.calls[b] == FreshCall(client, Monotonic)
  }

  /** Only call b moved, and the given number of transactions landed. */
  ghost predicate StepsAlone(x: World, x': World, b: nat, landings: nat) {
    Moved(x, x', b) && |x'.shared.log| == |x.shared.log| + landings && x'.shared.start == x.shared.start
  }

  /** The victim fetches and reserves a nonce, and is about to send. */
  lemma VictimSigns(env: Env, w: World, events: seq<Event>, x: World, i: nat, client: nat, attempt: nat)
    returns (longer: seq<Event>, x': World)
    requires Leads(env, w, events, x) && Victim(x, i, client, attempt, Top)
    requires attempt > 0 || client !in x.shared.caches
    ensures Leads(env, w, longer, x') && events <= longer && StepsAlone(x, x', i, 0)
    ensures x'.shared.chain == x.shared.chain && x'.calls[i].startLog == x.calls[i].startLog
    ensures client in x'.shared.caches && x'.shared.caches[client] > x'.shared.chain
    ensures x'.shared.caches == x.shared.caches[client := x'.shared.caches[client]]
    ensures client !in x.shared.caches ==> x'.shared.caches[client] == x.shared.chain + 1
    ensures Victim(x', i, client, attempt, Rpc(SendTx(x'.shared.caches[client]), 0))
  {
    longer, x' := Follow(env, w, events, x, Go(i));
    longer, x' := Follow(env, w, longer, x', Post(i, Value(x.shared.chain)));
    longer, x' := Follow(env, w, longer, x', Go(i));
    longer, x' := Follow(env, w, longer, x', Post(i, Value(0)));
  }

  /** Another send runs from its start to its landing, on the next cached nonce. */
  lemma OvertakerLands(env: Env, w: World, events: seq<Event>, x: World, b: nat, client: nat)
    returns (longer: seq<Event>, x': World)
    requires Leads(env, w, events, x) && Waiting(x, b, client)
    requires client in x.shared.caches && x.shared.caches[client] >= x.shared.chain
    ensures Leads(env, w, longer, x') && events <= longer && StepsAlone(x, x', b, 1)
    ensures x'.shared.chain == x.shared.caches[client] + 1 && x'.shared.caches == x.shared.caches[client := x'.shared.chain]
  {
    longer, x' := OvertakerReserves(env, w, events, x, b, client);
    longer, x' := Follow(env, w, longer, x', Post(b, Value(0)));
    longer, x' := Follow(env, w, longer, x', Post(b, Handled(true)));
  }

  lemma OvertakerReserves(env: Env, w: World, events: seq<Event>, x: World, b: nat, client: nat)
    returns (longer: seq<Event>, x': World)
    requires Leads(env, w, events, x) && Waiting(x, b, client) && client in x.shared.caches
    ensures Leads(env, w, longer, x') && events <= longer && StepsAlone(x, x', b, 0)
    ensures x'.shared == x.shared.(caches := x.shared.caches[client := x.shared.caches[client] + 1])
    ensures x'.calls[b].pc == Rpc(FetchBlock(x.shared.caches[client] + 1), 0) && x'.calls[b].landed.None?
  {
    longer, x' := Follow(env, w, events, x, Go(b));
    longer, x' := Follow(env, w, longer, x', Go(b));
    longer, x' := Follow(env, w, longer, x', Go(b));
  }

  /** The victim's nonce is not above the chain: it is rejected and moves on. */
  lemma VictimRejected(env: Env, w: World, events: seq<Event>, x: World, i: nat, client: nat, attempt: nat, nonce: nat)
    returns (longer: seq<Event>, x': World)
    requires Leads(env, w, events, x) && Victim(x, i, client, attempt, Rpc(SendTx(nonce), 0))
    requires nonce <= x.shared.chain
    ensures Leads(env, w, longer, x') && events <= longer && StepsAlone(x, x', i, 0)
    ensures x'.calls[i].startLog == x.calls[i].startLog && client in x'.shared.caches
    ensures if attempt < 2 then Victim(x', i, client, attempt + 1, Top)
            else Victim(x', i, client, attempt, Leaving(InvalidNonce))
  {
    longer, x' := Follow(env, w, events, x, Post(i, Handled(true)));
    longer, x' := Follow(env, w, longer, x', Go(i));
  }

  /** One attempt of the victim, overtaken by call b. */
  lemma Round(env: Env, w: World, events: seq<Event>, x: World, i: nat, client: nat, attempt: nat, b: nat)
    returns (longer: seq<Event>, x': World)
    requires Leads(env, w, events, x) && Victim(x, i, client, attempt, Top) && b != i && Waiting(x, b, client)
    requires attempt > 0 || client !in x.shared.caches
    ensures Leads(env, w, longer, x') && events <= longer
    ensures |x'.calls| == |x.calls| && x'.calls[i].startLog == x.calls[i].startLog
    ensures if attempt < 2 then Victim(x', i, client, attempt + 1, Top)
            else Victim(x', i, client, attempt, Leaving(InvalidNonce))
    ensures forall j :: 0 <= j < |x.calls| && j != i && j != b ==> x'.calls[j] == x.calls[j]
    ensures x'.calls[b].client == x.calls[b].client && x'.calls[b].mode == x.calls[b].mode
    ensures |x'.shared.log| == |x.shared.log| + 1
  {
    longer, x' := VictimSigns(env, w, events, x, i, client, attempt);
    var nonce := x'.shared.caches[client];
    longer, x' := OvertakerLands(env, w, longer, x', b, client);
    longer, x' := VictimRejected(env, w, longer, x', i, client, attempt, nonce);
  }

  // ---------- Four monotonic sends ----------

  lemma FourStart(env: Env) returns (w: World)
    ensures Reachable(env, w) && w.shared == Shared(0, 0, [], map[], map[], map[], {})
    ensures w.calls == [FreshCall(0, Monotonic)] + Three()
  {
    w := World(Shared(0, 0, [], map[], map[], map[], {}), [FreshCall(0, Monotonic)] + Three());
    assert Initial(w) && Runs(env, w, []) && After(env, w, []) == w;
  }

  /** In every environment, some run of four monotonic sends of a sole client ends with one giving up. */
  lemma FourMonotonicSendsCanFail(env: Env) returns (x: World)
    requires env.soleWriter
    ensures Reachable(env, x) && Sole(env, x, 0) && |x.calls| == 4 && AllMonotonic(x.calls)
    ensures x.calls[0].pc == Done(InvalidNonce)
  {
    var w := FourStart(env);
    var events;
    events, x := Follow(env, w, [], w, Go(0));
    events, x := Round(env, w, events, x, 0, 0, 0, 1);
    events, x := Round(env, w, events, x, 0, 0, 1, 2);
    events, x := Round(env, w, events, x, 0, 0, 2, 3);
    events, x := Follow(env, w, events, x, Go(0));
    ReachableAfter(env, w, events);
  }

  // ---------- From a cache that is behind, two landings are enough ----------

  /** The run begins with call i, which gives up in it. */
  ghost predicate GivesUp(env: Env, w: World, events: seq<Event>, i: nat)
    requires Runs(env, w, events)
  {
    && events != [] && events[0] == Go(i)
    && i < |After(env, w, events).calls| && After(env, w, events).calls[i].pc == Done(InvalidNonce)
  }

  /** The victim reserves a nonce that has landed before, and then two others overtake it. */
  lemma BehindNeedsOnlyTwo(env: Env, w: World, client: nat, i: nat, b: nat, c: nat) returns (events: seq<Event>)
    requires client in w.shared.caches && !Level(w.shared, client) && w.shared.start <= w.shared.chain
    requires Waiting(w, i, client) && Waiting(w, b, client) && Waiting(w, c, client) && i != b && b != c && i != c
    ensures Runs(env, w, events) && GivesUp(env, w, events, i)
    ensures |After(env, w, events).shared.log| == |w.shared.log| + 2
    ensures After(env, w, events).calls[i].startLog == |w.shared.log|
  {
    var x;
    events, x := BehindSigns(env, w, client, i);
    var first := events[0];
    events, x := VictimRejected(env, w, events, x, i, client, 0, w.shared.caches[client] + 1);
    events, x := Round(env, w, events, x, i, client, 1, b);
    events, x := Round(env, w, events, x, i, client, 2, c);
    assert events[0] == first;
    events, x := Follow(env, w, events, x, Go(i));
  }

  /**
   In every environment with one writing client, current reads included, some
   run has a send give up though only two transactions landed while it ran.
   */
  lemma TwoLandingsDuringCanBeEnough(env: Env) returns (x: World)
    requires env.soleWriter
    ensures Reachable(env, x) && Sole(env, x, 0) && |x.calls| == 5
    ensures x.calls[2].mode.Monotonic? && x.calls[2].pc == Done(InvalidNonce)
    ensures |x.shared.log| == x.calls[2].startLog + 2
  {
    var w, _ := StrictFailureLeavesCacheBehind(env);
    assert w.calls[2] == w.calls[2..][0] && w.calls[3] == w.calls[2..][1] && w.calls[4] == w.calls[2..][2];
    var events := BehindNeedsOnlyTwo(env, w, 0, 2, 3, 4);
    x := After(env, w, events);
    ReachableAfter(env, w, events);
    SameOwners(env, w, events);
  }

  // ---------- From a level cache, it takes three ----------

  /** A call's start does not change once it has begun. */
  lemma {:induction false} StartStays(env: Env, w: World, events: seq<Event>, i: nat)
    requires Runs(env, w, events) && i < |w.calls| && !w.calls[i].pc.Idle?
    ensures i < |After(env, w, events).calls|
    ensures var c := After(env, w, events).calls[i];
            !c.pc.Idle? && c.startLog == w.calls[i].startLog && c.pending == w.calls[i].pending
    decreases |events|
  {
    if events != [] {
      StartStays(env, Apply(env, w, events[0]), events[1..], i);
    }
  }

  /** Starting level, a send that gives up sees three others land. */
  lemma LevelNeedsThree(env: Env, w: World, client: nat, i: nat, events: seq<Event>)
    requires Reachable(env, w) && Sole(env, w, client) && Informed(env, w)
    requires Level(w.shared, client) && w.shared.log != []
    requires i < |w.calls| && w.calls[i].mode.Monotonic? && w.calls[i].pc.Idle?
    requires Runs(env, w, events) && GivesUp(env, w, events, i)
    ensures |After(env, w, events).shared.log| >= |w.shared.log| + 3
  {
    LevelCoversAll(env, w, client);
    StartStays(env, Apply(env, w, Go(i)), events[1..], i);
    ReachableAfter(env, w, events);
    SameOwners(env, w, events);
    var w' := After(env, w, events);
    RejectionsRise(env, w', client, i);
    var rejections := w'.calls[i].rejections;
    assert w'.calls[i].startLog == |w.shared.log| && Anchored(env, w'.calls[i].startLog, {});
    assert rejections[0].at - 1 >= |w.shared.log|;
    assert rejections[0].at < rejections[1].at < rejections[2].at;
  }

  /**
   A monotonic send that gives up is sure to have seen three others land while
   it ran exactly when its cache was level with the chain as it began, whatever
   the modes of the others: the client need only compare the two. (Whoever
   waits, two more sends must be about to run the shorter way.)
   */
  lemma GivingUpNeedsThreeWhenLevel(env: Env, w: World, client: nat, i: nat, b: nat, c: nat)
    requires Reachable(env, w) && Sole(env, w, client) && Informed(env, w)
    requires client in w.shared.caches && w.shared.log != []
    requires i < |w.calls| && b < |w.calls| && c < |w.calls| && i != b && b != c && i != c
    requires forall j :: j in {i, b, c} ==> w.calls[j].mode.Monotonic? && w.calls[j].pc.Idle?
    ensures Level(w.shared, client) <==>
            forall events :: Runs(env, w, events) && GivesUp(env, w, events, i) ==>
              |After(env, w, events).shared.log| >= |w.shared.log| + 3
  {
    if Level(w.shared, client) {
      forall events | Runs(env, w, events) && GivesUp(env, w, events, i)
        ensures |After(env, w, events).shared.log| >= |w.shared.log| + 3
      {
        LevelNeedsThree(env, w, client, i, events);
      }
    } else {
      ReachableInv(env, w);
      assert CallOk(w.shared, i, w.calls[i]) && CallOk(w.shared, b, w.calls[b]) && CallOk(w.shared, c, w.calls[c]);
      assert ChainAt(w.shared.start, w.shared.log, 0) <= ChainAt(w.shared.start, w.shared.log, |w.shared.log|);
      var events := BehindNeedsOnlyTwo(env, w, client, i, b, c);
      assert GivesUp(env, w, events, i);
    }
  }

  // ---------- Stale reads and rejections that name no nonce ----------

  /** Call 0 of client 0, having reserved a number of nonces from stale reads; nothing lands any more. */
  ghost predicate Lone(x: World, reserved: nat, pc: Pc) {
    && |x.calls| == 4 && x.shared.start == 0 && x.shared.chain == 3 && |x.shared.log| == 3
    && (if reserved == 0 then 0 !in x.shared.caches else 0 in x.shared.caches && x.shared.caches[0] == reserved)
    && var c := x.calls[0];
       c.client == 0 && c.mode.Monotonic? && c.landed.None? && c.pc == pc && c.startLog == 3
  }

  lemma LoneSigns(env: Env, w: World, events: seq<Event>, x: World, attempt: nat)
    returns (longer: seq<Event>, x': World)
    requires Leads(env, w, events, x) && Lone(x, attempt, Top) && x.calls[0].attempt == attempt && !env.currentReads
    ensures Leads(env, w, longer, x') && Lone(x', attempt + 1, Rpc(FetchBlock(attempt + 1), 0))
    ensures x'.calls[0].attempt == attempt
  {
    longer, x' := Follow(env, w, events, x, Go(0));
    longer, x' := Follow(env, w, longer, x', Post(0, Value(0)));
    longer, x' := Follow(env, w, longer, x', Go(0));
  }

  lemma LoneIsRejected(env: Env, w: World, events: seq<Event>, x: World, attempt: nat)
    returns (longer: seq<Event>, x': World)
    requires Leads(env, w, events, x) && Lone(x, attempt, Top) && x.calls[0].attempt == attempt <= 2
    requires !env.currentReads && !env.reports
    ensures Leads(env, w, longer, x') && Lone(x', attempt + 1, if attempt < 2 then Top else Leaving(InvalidNonce))
    ensures attempt < 2 ==> x'.calls[0].attempt == attempt + 1
  {
    longer, x' := LoneSigns(env, w, events, x, attempt);
    longer, x' := Follow(env, w, longer, x', Post(0, Value(0)));
    longer, x' := Follow(env, w, longer, x', Post(0, Handled(false)));
  }

  function ThreeOfAnother(): seq<Call> {
    [FreshCall(1, Monotonic), FreshCall(1, Monotonic), FreshCall(1, Monotonic)]
  }

  /** Another client's three sends land, and then ours starts. */
  lemma ThreeLand(env: Env, w: World) returns (events: seq<Event>, x: World)
    requires Initial(w) && w.shared.start == 0 && w.calls == [FreshCall(0, Monotonic)] + ThreeOfAnother()
    ensures Leads(env, w, events, x) && Lone(x, 0, Top) && x.calls[0].attempt == 0
  {
    events, x := Follow(env, w, [], w, Go(1));
    events, x := VictimSigns(env, w, events, x, 1, 1, 0);
    events, x := Follow(env, w, events, x, Post(1, Handled(true)));
    events, x := OvertakerLands(env, w, events, x, 2, 1);
    events, x := OvertakerLands(env, w, events, x, 3, 1);
    events, x := Follow(env, w, events, x, Go(0));
  }

  /** Whenever neither reads nor rejections tell where the chain is, a send can give up though nobody lands while it runs. */
  lemma SilentRejectionsCanExhaust(env: Env) returns (x: World)
    requires !Guided(env)
    ensures Reachable(env, x) && |x.calls| > 0 && x.calls[0].mode.Monotonic? && x.calls[0].pc == Done(InvalidNonce)
    ensures |x.shared.log| == x.calls[0].startLog
  {
    var w := World(Shared(0, 0, [], map[], map[], map[], {}), [FreshCall(0, Monotonic)] + ThreeOfAnother());
    assert Runs(env, w, []) && After(env, w, []) == w;
    var events;
    events, x := ThreeLand(env, w);
    events, x := LoneIsRejected(env, w, events, x, 0);
    events, x := LoneIsRejected(env, w, events, x, 1);
    events, x := LoneIsRejected(env, w, events, x, 2);
    events, x := Follow(env, w, events, x, Go(0));
    ReachableAfter(env, w, events);
  }
}
