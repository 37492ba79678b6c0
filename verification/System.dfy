/**
All keys and lanes together. Every client has one cache dictionary and one
lock dictionary, indexed by key strings; the node keeps one nonce per key or
lane. Whatever runs on the whole system, each key sees a run of its own world,
so what is proved of one world holds of every key at once.
*/
module System {
  import opened World
  import opened Invariants
  import opened NonceCache
  import Guarantees

  /** The node's side of one key or lane, and the calls that sign with it. */
  datatype KeyState = KeyState(
    start: nat, chain: nat, log: seq<Landing>, held: map<nat, nat>, told: set<(nat, nat)>, calls: seq<Call>)

  type Dicts = map<nat, map<string, nat>>

  datatype System = System(keys: map<Target, KeyState>, caches: Dicts, locks: Dicts)

  ghost predicate Proper(sys: System) {
    forall t :: t in sys.keys ==> WellFormed(t)
  }

  // ---------- One key's view ----------

  /** What each client's dictionary holds under the key. */
  function Entries(dicts: Dicts, key: string): map<nat, nat> {
    map c | c in dicts && key in dicts[c] :: dicts[c][key]
  }

  function Dict(dicts: Dicts, c: nat): map<string, nat> {
    if c in dicts then dicts[c] else map[]
  }

  function Store(dicts: Dicts, key: string, entries: map<nat, nat>): Dicts {
    map c | c in dicts.Keys + entries.Keys ::
      if c in entries then Dict(dicts, c)[key := entries[c]] else Dict(dicts, c)
  }

  function Project(sys: System, t: Target): World
    requires t in sys.keys
  {
    var k := sys.keys[t];
    World(Shared(k.start, k.chain, k.log, Entries(sys.caches, CacheKey(t)), Entries(sys.locks, CacheKey(t)), k.held, k.told),
          k.calls)
  }

  function Put(sys: System, t: Target, w: World): System {
    System(sys.keys[t := KeyState(w.shared.start, w.shared.chain, w.shared.log, w.shared.held, w.shared.told, w.calls)],
           Store(sys.caches, CacheKey(t), w.shared.caches),
           Store(sys.locks, CacheKey(t), w.shared.locks))
  }

  lemma EntriesOfStore(dicts: Dicts, key: string, entries: map<nat, nat>)
    requires Entries(dicts, key).Keys <= entries.Keys
    ensures Entries(Store(dicts, key, entries), key) == entries
  {
    var dicts' := Store(dicts, key, entries);
    forall c ensures c in Entries(dicts', key) <==> c in entries {
      if c in dicts && key in dicts[c] {
        assert c in Entries(dicts, key);
      }
    }
  }

  lemma OtherEntriesOfStore(dicts: Dicts, key: string, entries: map<nat, nat>, other: string)
    requires other != key
    ensures Entries(Store(dicts, key, entries), other) == Entries(dicts, other)
  {
  }

  // ---------- Steps ----------

  predicate CanDo(env: Env, sys: System, t: Target, e: Event) {
    t in sys.keys && Enabled(env, Project(sys, t), e)
  }

  function Do(env: Env, sys: System, t: Target, e: Event): System
    requires CanDo(env, sys, t, e)
  {
    Put(sys, t, Apply(env, Project(sys, t), e))
  }

  /** A step on one key is that key's world's step, and no other key's. */
  lemma StepProjects(env: Env, sys: System, t: Target, e: Event, t': Target)
    requires Proper(sys) && CanDo(env, sys, t, e) && t' in sys.keys
    ensures Proper(Do(env, sys, t, e)) && t' in Do(env, sys, t, e).keys
    ensures Project(Do(env, sys, t, e), t') == if t' == t then Apply(env, Project(sys, t), e) else Project(sys, t')
  {
    var w' := Apply(env, Project(sys, t), e);
    if t' == t {
      ApplyExtends(env, Project(sys, t), e);
      EntriesOfStore(sys.caches, CacheKey(t), w'.shared.caches);
      EntriesOfStore(sys.locks, CacheKey(t), w'.shared.locks);
    } else {
      if CacheKey(t') == CacheKey(t) {
        CacheKeyInjective(t, t');
      }
      OtherEntriesOfStore(sys.caches, CacheKey(t), w'.shared.caches, CacheKey(t'));
      OtherEntriesOfStore(sys.locks, CacheKey(t), w'.shared.locks, CacheKey(t'));
    }
  }

  // ---------- Runs ----------

  ghost predicate SystemRuns(env: Env, sys: System, steps: seq<(Target, Event)>)
    decreases |steps|
  {
    steps == [] || (CanDo(env, sys, steps[0].0, steps[0].1)
                    && SystemRuns(env, Do(env, sys, steps[0].0, steps[0].1), steps[1..]))
  }

  ghost function SystemAfter(env: Env, sys: System, steps: seq<(Target, Event)>): System
    requires SystemRuns(env, sys, steps)
    decreases |steps|
  {
    if steps == [] then sys else SystemAfter(env, Do(env, sys, steps[0].0, steps[0].1), steps[1..])
  }

  ghost function StepsOn(steps: seq<(Target, Event)>, t: Target): seq<Event> {
    if steps == [] then []
    else (if steps[0].0 == t then [steps[0].1] else []) + StepsOn(steps[1..], t)
  }

  /** Every run of the system, seen from one key, is a run of that key's world. */
  lemma {:induction false} RunsProject(env: Env, sys: System, steps: seq<(Target, Event)>, t: Target)
    requires Proper(sys) && SystemRuns(env, sys, steps) && t in sys.keys
    ensures Proper(SystemAfter(env, sys, steps)) && t in SystemAfter(env, sys, steps).keys
    ensures Runs(env, Project(sys, t), StepsOn(steps, t))
    ensures Project(SystemAfter(env, sys, steps), t) == After(env, Project(sys, t), StepsOn(steps, t))
    decreases |steps|
  {
    if steps != [] {
      var (t0, e) := steps[0];
      StepProjects(env, sys, t0, e, t);
      RunsProject(env, Do(env, sys, t0, e), steps[1..], t);
      if t0 == t {
        assert StepsOn(steps, t)[1..] == StepsOn(steps[1..], t);
      } else {
        assert StepsOn(steps, t) == StepsOn(steps[1..], t);
      }
    }
  }

  /** Before any call: empty dictionaries, nothing landed. */
  ghost predicate Pristine(sys: System) {
    && Proper(sys) && sys.caches == map[] && sys.locks == map[]
    && forall t :: t in sys.keys ==> Initial(Project(sys, t))
  }

  /** So each key's world is reachable on its own, and all that holds of reachable worlds holds here. */
  lemma EachKeyReachable(env: Env, sys: System, steps: seq<(Target, Event)>, t: Target)
    requires Pristine(sys) && SystemRuns(env, sys, steps) && t in sys.keys
    ensures t in SystemAfter(env, sys, steps).keys
    ensures Reachable(env, Project(SystemAfter(env, sys, steps), t))
  {
    RunsProject(env, sys, steps, t);
  }

  /** For instance, strict sends of one client on one key or lane take turns however other keys are used. */
  lemma StrictSendsExcludeEverywhere(env: Env, sys: System, steps: seq<(Target, Event)>, t: Target, i: nat, j: nat)
    requires Pristine(sys) && SystemRuns(env, sys, steps) && t in sys.keys && t in SystemAfter(env, sys, steps).keys
    requires var calls := SystemAfter(env, sys, steps).keys[t].calls;
             && i < |calls| && j < |calls| && calls[i].client == calls[j].client
             && calls[i].mode.Strict? && calls[j].mode.Strict? && Inside(calls[i]) && Inside(calls[j])
    ensures i == j
  {
    EachKeyReachable(env, sys, steps, t);
    Guarantees.StrictSendsExclude(env, Project(SystemAfter(env, sys, steps), t), i, j);
  }
}
