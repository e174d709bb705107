/** The tool-schema cache: a dictionary filled under double-checked locking
    (ai_knowledge/tool_registry.py:28-45), stepped through by any number of threads. */
module ToolSchemas {
  import opened Wrappers

  type Thread = nat
  type Params = map<string, string>

  // The parameters of a tool: its JSON schema without the title.
  function Strip(json: Params): Params {
    json - {"title"}
  }

  // ---------- the function as one caller runs it ----------

  // What a call returns, given what is cached and what the builder would give.
  function ParamsFor(entries: map<string, Params>, name: string, json: Params): Params {
    if name in entries then entries[name] else Strip(json)
  }

  class SchemaCache {
    var entries: map<string, Params>

    constructor ()
      ensures entries == map[]
    {
      entries := map[];
    }

    method CachedToolParams(name: string, json: Params) returns (params: Params)
      modifies this
      ensures params == ParamsFor(old(entries), name, json)
      ensures entries == old(entries)[name := params]
    {
      if name in entries {
        params := entries[name];
      } else {
        params := json;
        params := params - {"title"};
        entries := entries[name := params];
      }
    }
  }

  // ---------- many threads ----------

  datatype Pc =
    | Idle
    | Missed(name: string)
    | Locked(name: string)
    | Building(name: string)
    | Built(name: string, params: Params)
    | Popped(name: string, params: Params)
    | Holding(name: string, params: Params)

  datatype State = State(
    entries: map<string, Params>, lock: Option<Thread>, pcs: map<Thread, Pc>,
    built: seq<string>, returned: seq<(string, Params)>)

  const START := State(map[], None, map[], [], [])

  // Fail is an exception out of the schema builder; the with-block gives the lock back.
  datatype Action =
    | Call(t: Thread, name: string)
    | Acquire(t: Thread)
    | Recheck(t: Thread)
    | Build(t: Thread)
    | Fail(t: Thread)
    | PopTitle(t: Thread)
    | Store(t: Thread)
    | Release(t: Thread)

  function PcOf(s: State, t: Thread): Pc {
    if t in s.pcs then s.pcs[t] else Idle
  }

  function Goto(s: State, t: Thread, pc: Pc): State {
    s.(pcs := s.pcs[t := pc])
  }

  // schemas gives each tool's JSON schema; the same name always comes with the same schema.
  function Step(schemas: map<string, Params>, s: State, a: Action): State {
    var pc := PcOf(s, a.t);
    match a
    case Call(t, name) =>
      if !pc.Idle? || name !in schemas then s
      else if name in s.entries then s.(returned := s.returned + [(name, s.entries[name])])
      else Goto(s, t, Missed(name))
    case Acquire(t) =>
      if pc.Missed? && s.lock.None? then Goto(s.(lock := Some(t)), t, Locked(pc.name)) else s
    case Recheck(t) =>
      if !pc.Locked? then s
      else if pc.name in s.entries then Goto(s, t, Holding(pc.name, s.entries[pc.name]))
      else Goto(s, t, Building(pc.name))
    case Build(t) =>
      if pc.Building? && pc.name in schemas
      then Goto(s.(built := s.built + [pc.name]), t, Built(pc.name, schemas[pc.name])) else s
    case Fail(t) =>
      if pc.Building? then Goto(s.(lock := None), t, Idle) else s
    case PopTitle(t) =>
      if pc.Built? then Goto(s, t, Popped(pc.name, Strip(pc.params))) else s
    case Store(t) =>
      if pc.Popped? then Goto(s.(entries := s.entries[pc.name := pc.params]), t, Holding(pc.name, pc.params)) else s
    case Release(t) =>
      if pc.Holding?
      then Goto(s.(lock := None, returned := s.returned + [(pc.name, pc.params)]), t, Idle) else s
  }

  function Run(schemas: map<string, Params>, actions: seq<Action>): State {
    if actions == [] then START
    else Step(schemas, Run(schemas, actions[..|actions| - 1]), actions[|actions| - 1])
  }

  // One whole call by t, with no other thread in between.
  function WholeCall(schemas: map<string, Params>, s: State, t: Thread, name: string): State {
    var locked := Step(schemas, Step(schemas, Step(schemas, s, Call(t, name)), Acquire(t)), Recheck(t));
    var popped := Step(schemas, Step(schemas, locked, Build(t)), PopTitle(t));
    Step(schemas, Step(schemas, popped, Store(t)), Release(t))
  }

  // Left to itself, a call returns and caches what the method does, and builds only what was not cached.
  lemma CallAlone(schemas: map<string, Params>, s: State, t: Thread, name: string)
    requires PcOf(s, t).Idle? && s.lock.None? && name in schemas
    ensures var params := ParamsFor(s.entries, name, schemas[name]);
            var after := WholeCall(schemas, s, t, name);
            && after.entries == s.entries[name := params] && after.returned == s.returned + [(name, params)]
            && after.built == (if name in s.entries then s.built else s.built + [name])
            && PcOf(after, t).Idle? && after.lock.None?
  {
    var called := Step(schemas, s, Call(t, name));
    if name !in s.entries {
      var building := Step(schemas, Step(schemas, called, Acquire(t)), Recheck(t));
      assert PcOf(building, t) == Building(name);
    }
  }

  predicate Critical(pc: Pc) {
    !pc.Idle? && !pc.Missed?
  }

  // A schema has been built and is on its way into the cache.
  predicate InFlight(pc: Pc) {
    pc.Built? || pc.Popped?
  }

  ghost predicate PcSound(schemas: map<string, Params>, s: State, t: Thread) {
    var pc := PcOf(s, t);
    && (Critical(pc) ==> s.lock == Some(t))
    && (!pc.Idle? ==> pc.name in schemas)
    && (pc.Building? || InFlight(pc) ==> pc.name !in s.entries)
    && (pc.Built? ==> pc.params == schemas[pc.name])
    && (pc.Popped? || pc.Holding? ==> pc.params == Strip(schemas[pc.name]))
  }

  // Each name built so far is in the cache, or in the hands of the thread that holds the lock; none twice.
  ghost predicate BuiltOnce(s: State) {
    && Distinct(s.built)
    && forall name | name in s.built ::
         name in s.entries || (s.lock.Some? && InFlight(PcOf(s, s.lock.value)) && PcOf(s, s.lock.value).name == name)
  }

  ghost predicate CacheSound(schemas: map<string, Params>, s: State) {
    && (forall name | name in s.entries :: name in schemas && s.entries[name] == Strip(schemas[name]))
    && (forall r | r in s.returned :: r.0 in schemas && r.1 == Strip(schemas[r.0]))
  }

  ghost predicate Sound(schemas: map<string, Params>, s: State) {
    && (forall t: Thread :: PcSound(schemas, s, t))
    && (s.lock.Some? ==> Critical(PcOf(s, s.lock.value)))
    && CacheSound(schemas, s)
    && BuiltOnce(s)
  }

  lemma ActorSound(schemas: map<string, Params>, s: State, a: Action)
    requires PcSound(schemas, s, a.t) && CacheSound(schemas, s)
    ensures PcSound(schemas, Step(schemas, s, a), a.t) && CacheSound(schemas, Step(schemas, s, a))
  {
  }

  lemma BystanderSound(schemas: map<string, Params>, s: State, a: Action, t: Thread)
    requires PcSound(schemas, s, t) && PcSound(schemas, s, a.t) && t != a.t
    ensures PcSound(schemas, Step(schemas, s, a), t)
  {
    assert PcOf(Step(schemas, s, a), t) == PcOf(s, t);
  }

  lemma StepBuiltOnce(schemas: map<string, Params>, s: State, a: Action)
    requires PcSound(schemas, s, a.t) && BuiltOnce(s)
    ensures BuiltOnce(Step(schemas, s, a))
  {
    var after, pc := Step(schemas, s, a), PcOf(s, a.t);
    assert s.lock.Some? && s.lock.value != a.t ==> PcOf(after, s.lock.value) == PcOf(s, s.lock.value);
    if a.Build? && pc.Building? {
      assert pc.name !in s.built;
    }
  }

  lemma StepSound(schemas: map<string, Params>, s: State, a: Action)
    requires Sound(schemas, s)
    ensures Sound(schemas, Step(schemas, s, a))
  {
    var after := Step(schemas, s, a);
    assert PcSound(schemas, s, a.t);
    ActorSound(schemas, s, a);
    forall t: Thread ensures PcSound(schemas, after, t) {
      if t != a.t {
        assert PcSound(schemas, s, t);
        BystanderSound(schemas, s, a, t);
      }
    }
    StepBuiltOnce(schemas, s, a);
  }

  lemma {:induction false} RunSound(schemas: map<string, Params>, actions: seq<Action>)
    ensures Sound(schemas, Run(schemas, actions))
  {
    if actions != [] {
      RunSound(schemas, actions[..|actions| - 1]);
      StepSound(schemas, Run(schemas, actions[..|actions| - 1]), actions[|actions| - 1]);
    }
  }

  // In every interleaving, also one in which builds fail and are tried again: no schema is built twice, and
  // every call that returns gets the tool's own schema without its title.
  lemma BuiltOnceAndRight(schemas: map<string, Params>, actions: seq<Action>)
    ensures var s := Run(schemas, actions);
            && Distinct(s.built)
            && (forall r | r in s.returned :: r.0 in schemas && r.1 == schemas[r.0] - {"title"})
            && (forall t: Thread, u: Thread | Critical(PcOf(s, t)) && Critical(PcOf(s, u)) :: t == u)
  {
    RunSound(schemas, actions);
    var s := Run(schemas, actions);
    forall t: Thread, u: Thread | Critical(PcOf(s, t)) && Critical(PcOf(s, u)) ensures t == u {
      assert PcSound(schemas, s, t) && PcSound(schemas, s, u);
    }
  }

  lemma NextMove(schemas: map<string, Params>, s: State, u: Thread) returns (a: Action)
    requires PcSound(schemas, s, u) && !PcOf(s, u).Idle? && (PcOf(s, u).Missed? ==> s.lock.None?)
    ensures a.t == u && Step(schemas, s, a) != s
  {
    a := match PcOf(s, u)
      case Locked(_) => Recheck(u)
      case Building(_) => Build(u)
      case Built(_, _) => PopTitle(u)
      case Popped(_, _) => Store(u)
      case Holding(_, _) => Release(u)
      case Missed(_) => Acquire(u);
    assert PcOf(Step(schemas, s, a), u) != PcOf(s, u);
  }

  // A thread inside a call is never stuck: it can move, or the thread that holds the lock can.
  lemma NeverStuck(schemas: map<string, Params>, actions: seq<Action>, t: Thread)
    requires !PcOf(Run(schemas, actions), t).Idle?
    ensures var s := Run(schemas, actions);
            exists a: Action :: (a.t == t || s.lock == Some(a.t)) && Step(schemas, s, a) != s
  {
    RunSound(schemas, actions);
    var s := Run(schemas, actions);
    var u := if s.lock.Some? then s.lock.value else t;
    assert PcSound(schemas, s, t) && PcSound(schemas, s, u);
    var a := NextMove(schemas, s, u);
  }
}
