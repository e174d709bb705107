/** Lazy registration of the action packs, once, under double-checked locking
    (ai_knowledge/action_dispatcher.py:160-185, 950-977), stepped through by any number of threads. */
module ActionRegistry {
  import opened Wrappers

  type Thread = nat

  datatype Meta = Meta(permission: string, description: string, confirmRequired: bool)

  type Registry = map<string, Meta>

  // One register call of an action pack.
  type Registration = (string, Meta)

  function Names(packs: seq<Registration>): set<string> {
    set p | p in packs :: p.0
  }

  lemma NamesOfLast(packs: seq<Registration>)
    requires packs != []
    ensures Names(packs) == Names(packs[..|packs| - 1]) + {packs[|packs| - 1].0}
  {
  }

  // Registrations applied in order; a later one overwrites an earlier one of the same name.
  function Overlay(base: Registry, packs: seq<Registration>): (r: Registry)
    ensures r.Keys == base.Keys + Names(packs)
  {
    if packs == [] then base
    else
      var n := |packs| - 1;
      NamesOfLast(packs);
      Overlay(base, packs[..n])[packs[n].0 := packs[n].1]
  }

  // The order of the dictionary's keys: an overwritten name keeps its place.
  function Ordered(order: seq<string>, packs: seq<Registration>): seq<string> {
    if packs == [] then order
    else
      var before := Ordered(order, packs[..|packs| - 1]);
      if packs[|packs| - 1].0 in before then before else before + [packs[|packs| - 1].0]
  }

  // What ensuring the action packs leaves of the registry and of its order.
  function Ensured(flag: bool, r: Registry, packs: seq<Registration>): Registry {
    if flag then r else Overlay(r, packs)
  }

  function EnsuredOrder(flag: bool, order: seq<string>, packs: seq<Registration>): seq<string> {
    if flag then order else Ordered(order, packs)
  }

  // ---------- the dispatcher as one caller runs it ----------

  class ActionDispatcher {
    var registry: Registry
    // the keys of registry, in the order in which they were first registered
    var order: seq<string>
    var packsRegistered: bool

    ghost predicate Valid()
      reads this
    {
      Distinct(order) && forall name :: name in order <==> name in registry
    }

    constructor (core: seq<Registration>)
      ensures Valid() && !packsRegistered
      ensures registry == Overlay(map[], core) && order == Ordered([], core)
    {
      registry, order, packsRegistered := map[], [], false;
      new;
      for i := 0 to |core|
        invariant Valid() && !packsRegistered
        invariant registry == Overlay(map[], core[..i]) && order == Ordered([], core[..i])
      {
        assert core[..i + 1][..i] == core[..i];
        Register(core[i]);
      }
      assert core[..|core|] == core;
    }

    method Register(r: Registration)
      requires Valid()
      modifies this`registry, this`order
      ensures Valid() && registry == old(registry)[r.0 := r.1]
      ensures order == if r.0 in old(order) then old(order) else old(order) + [r.0]
    {
      if r.0 !in registry {
        order := order + [r.0];
      }
      registry := registry[r.0 := r.1];
    }

    method EnsurePacks(packs: seq<Registration>)
      requires Valid()
      modifies this
      ensures Valid() && packsRegistered
      ensures registry == Ensured(old(packsRegistered), old(registry), packs)
      ensures order == EnsuredOrder(old(packsRegistered), old(order), packs)
    {
      if packsRegistered {
        return;
      }
      for i := 0 to |packs|
        invariant Valid()
        invariant registry == Overlay(old(registry), packs[..i]) && order == Ordered(old(order), packs[..i])
      {
        assert packs[..i + 1][..i] == packs[..i];
        Register(packs[i]);
      }
      assert packs[..|packs|] == packs;
      packsRegistered := true;
    }

    method GetRegisteredActions(packs: seq<Registration>) returns (names: seq<string>)
      requires Valid()
      modifies this
      ensures Valid() && packsRegistered
      ensures registry == Ensured(old(packsRegistered), old(registry), packs)
      ensures names == order == EnsuredOrder(old(packsRegistered), old(order), packs)
      ensures Distinct(names) && forall name :: name in names <==> name in registry
    {
      EnsurePacks(packs);
      names := order;
    }

    method GetActionMetadata(packs: seq<Registration>, action: string) returns (meta: Option<Meta>)
      requires Valid()
      modifies this
      ensures Valid() && packsRegistered
      ensures meta == (if action in registry then Some(registry[action]) else None)
      ensures registry == Ensured(old(packsRegistered), old(registry), packs)
      ensures order == EnsuredOrder(old(packsRegistered), old(order), packs)
    {
      EnsurePacks(packs);
      meta := if action in registry then Some(registry[action]) else None;
    }
  }

  // ---------- many threads ----------

  // Registering(k): k of the action packs' registrations are done. Ready: _ensure_packs has returned.
  datatype Pc = Idle | Missed | Locked | Registering(done: nat) | Holding | Ready

  datatype State = State(
    registry: Registry, flag: bool, lock: Option<Thread>, pcs: map<Thread, Pc>,
    completed: nat, observed: seq<Registry>)

  // Fail is an exception out of an action pack's registration; whatever it registered stays in the dictionary.
  datatype Action =
    | Enter(t: Thread)
    | Acquire(t: Thread)
    | Recheck(t: Thread)
    | RegisterNext(t: Thread)
    | Fail(t: Thread)
    | SetFlag(t: Thread)
    | Release(t: Thread)
    | Look(t: Thread)

  function PcOf(s: State, t: Thread): Pc {
    if t in s.pcs then s.pcs[t] else Idle
  }

  function Goto(s: State, t: Thread, pc: Pc): State {
    s.(pcs := s.pcs[t := pc])
  }

  function Start(core: Registry): State {
    State(core, false, None, map[], 0, [])
  }

  function Step(packs: seq<Registration>, s: State, a: Action): State {
    var pc := PcOf(s, a.t);
    match a
    case Enter(t) =>
      if !pc.Idle? then s else Goto(s, t, if s.flag then Ready else Missed)
    case Acquire(t) =>
      if pc.Missed? && s.lock.None? then Goto(s.(lock := Some(t)), t, Locked) else s
    case Recheck(t) =>
      if pc.Locked? then Goto(s, t, if s.flag then Holding else Registering(0)) else s
    case RegisterNext(t) =>
      if pc.Registering? && pc.done < |packs|
      then Goto(s.(registry := s.registry[packs[pc.done].0 := packs[pc.done].1]), t, Registering(pc.done + 1))
      else s
    case Fail(t) =>
      if pc.Registering? then Goto(s.(lock := None), t, Idle) else s
    case SetFlag(t) =>
      if pc.Registering? && pc.done >= |packs|
      then Goto(s.(flag := true, completed := s.completed + 1), t, Holding) else s
    case Release(t) =>
      if pc.Holding? then Goto(s.(lock := None), t, Ready) else s
    case Look(t) =>
      if pc.Ready? then Goto(s.(observed := s.observed + [s.registry]), t, Idle) else s
  }

  function Run(core: Registry, packs: seq<Registration>, actions: seq<Action>): State {
    if actions == [] then Start(core)
    else Step(packs, Run(core, packs, actions[..|actions| - 1]), actions[|actions| - 1])
  }

  // ---------- one caller of the protocol does what the methods do ----------

  function Steps(packs: seq<Registration>, s: State, actions: seq<Action>): State {
    if actions == [] then s
    else Step(packs, Steps(packs, s, actions[..|actions| - 1]), actions[|actions| - 1])
  }

  function RegisterAll(t: Thread, n: nat): seq<Action> {
    seq(n, i => RegisterNext(t))
  }

  // One whole call by t, from entering to looking, with no other thread in between.
  function WholeCall(packs: seq<Registration>, s: State, t: Thread): State {
    var locked := Step(packs, Step(packs, Step(packs, s, Enter(t)), Acquire(t)), Recheck(t));
    var filled := Steps(packs, locked, RegisterAll(t, |packs|));
    Step(packs, Step(packs, Step(packs, filled, SetFlag(t)), Release(t)), Look(t))
  }

  lemma {:induction false} RegisterAllOverlays(packs: seq<Registration>, s: State, t: Thread, n: nat)
    requires n <= |packs| && PcOf(s, t) == Registering(0)
    ensures Steps(packs, s, RegisterAll(t, n)) ==
            s.(registry := Overlay(s.registry, packs[..n]),
               pcs := if n == 0 then s.pcs else s.pcs[t := Registering(n)])
  {
    if n > 0 {
      RegisterAllOverlays(packs, s, t, n - 1);
      assert RegisterAll(t, n)[..n - 1] == RegisterAll(t, n - 1);
      assert packs[..n][..n - 1] == packs[..n - 1];
    }
  }

  lemma {:induction false} NothingToRegister(packs: seq<Registration>, s: State, t: Thread, n: nat)
    requires !PcOf(s, t).Registering?
    ensures Steps(packs, s, RegisterAll(t, n)) == s
  {
    if n > 0 {
      NothingToRegister(packs, s, t, n - 1);
      assert RegisterAll(t, n)[..n - 1] == RegisterAll(t, n - 1);
    }
  }

  // From the check under the lock to the release and the look.
  lemma FillAlone(packs: seq<Registration>, s: State, t: Thread)
    requires PcOf(s, t) == Registering(0)
    ensures var filled := Steps(packs, s, RegisterAll(t, |packs|));
            var flagged := Step(packs, filled, SetFlag(t));
            && flagged.registry == Overlay(s.registry, packs) && flagged.flag && PcOf(flagged, t) == Holding
            && flagged.observed == s.observed
  {
    RegisterAllOverlays(packs, s, t, |packs|);
    assert packs[..|packs|] == packs;
  }

  lemma EnterAlone(packs: seq<Registration>, s: State, t: Thread)
    requires PcOf(s, t).Idle? && s.lock.None?
    ensures var locked := Step(packs, Step(packs, Step(packs, s, Enter(t)), Acquire(t)), Recheck(t));
            && locked.registry == s.registry && locked.flag == s.flag && locked.observed == s.observed
            && (if s.flag then PcOf(locked, t) == Ready && locked.lock.None?
                else PcOf(locked, t) == Registering(0))
  {
  }

  // Left to itself, a call takes the registry and the flag where EnsurePacks takes them, and then sees the
  // registry GetRegisteredActions and GetActionMetadata read.
  lemma CallAlone(packs: seq<Registration>, s: State, t: Thread)
    requires PcOf(s, t).Idle? && s.lock.None?
    ensures var after := WholeCall(packs, s, t);
            && after.registry == Ensured(s.flag, s.registry, packs) && after.flag
            && after.observed == s.observed + [after.registry]
            && PcOf(after, t).Idle? && after.lock.None?
  {
    var locked := Step(packs, Step(packs, Step(packs, s, Enter(t)), Acquire(t)), Recheck(t));
    EnterAlone(packs, s, t);
    if s.flag {
      NothingToRegister(packs, locked, t, |packs|);
    } else {
      FillAlone(packs, locked, t);
    }
  }

  // ---------- every interleaving ----------

  predicate Critical(pc: Pc) {
    pc.Locked? || pc.Registering? || pc.Holding?
  }

  // Outside the action packs' names the registry is the core one; a running registration has put its first k
  // in place.
  ghost predicate Outside(core: Registry, packs: seq<Registration>, r: Registry) {
    forall name | name !in Names(packs) :: (name in r <==> name in core) && (name in r ==> r[name] == core[name])
  }

  ghost predicate InPlace(packs: seq<Registration>, k: nat, r: Registry)
    requires k <= |packs|
  {
    forall name | name in Names(packs[..k]) :: name in r && r[name] == Overlay(map[], packs[..k])[name]
  }

  lemma {:induction false} OverlayValues(base: Registry, packs: seq<Registration>)
    ensures forall name | name in Names(packs) :: Overlay(base, packs)[name] == Overlay(map[], packs)[name]
    ensures forall name | name in base && name !in Names(packs) :: Overlay(base, packs)[name] == base[name]
  {
    if packs != [] {
      OverlayValues(base, packs[..|packs| - 1]);
      NamesOfLast(packs);
    }
  }

  ghost predicate PcSound(packs: seq<Registration>, s: State, t: Thread) {
    var pc := PcOf(s, t);
    && (Critical(pc) ==> s.lock == Some(t))
    && (pc.Ready? || pc.Holding? ==> s.flag)
    && (pc.Registering? ==> !s.flag && pc.done <= |packs| && InPlace(packs, pc.done, s.registry))
  }

  ghost predicate RegistrySound(core: Registry, packs: seq<Registration>, s: State) {
    && Outside(core, packs, s.registry)
    && (s.flag ==> s.registry == Overlay(core, packs))
    && s.completed == (if s.flag then 1 else 0)
    && (forall r | r in s.observed :: r == Overlay(core, packs))
  }

  ghost predicate Sound(core: Registry, packs: seq<Registration>, s: State) {
    && RegistrySound(core, packs, s)
    && (forall t: Thread :: PcSound(packs, s, t))
    && (s.lock.Some? ==> Critical(PcOf(s, s.lock.value)))
  }

  // Once all registrations are in place, whatever failed attempts left behind has been overwritten.
  lemma AllInPlace(core: Registry, packs: seq<Registration>, r: Registry)
    requires Outside(core, packs, r) && InPlace(packs, |packs|, r)
    ensures r == Overlay(core, packs)
  {
    assert packs[..|packs|] == packs;
    OverlayValues(core, packs);
    var full := Overlay(core, packs);
    forall name ensures name in r <==> name in full {
    }
    assert r.Keys == full.Keys;
    forall name | name in r ensures r[name] == full[name] {
    }
  }

  lemma NextInPlace(core: Registry, packs: seq<Registration>, k: nat, r: Registry)
    requires k < |packs| && Outside(core, packs, r) && InPlace(packs, k, r)
    ensures Outside(core, packs, r[packs[k].0 := packs[k].1])
    ensures InPlace(packs, k + 1, r[packs[k].0 := packs[k].1])
  {
    assert packs[k] in packs;
    assert packs[..k + 1][..k] == packs[..k];
    NamesOfLast(packs[..k + 1]);
  }

  lemma ActorSound(core: Registry, packs: seq<Registration>, s: State, a: Action)
    requires Sound(core, packs, s)
    ensures PcSound(packs, Step(packs, s, a), a.t)
  {
    var pc := PcOf(s, a.t);
    assert PcSound(packs, s, a.t);
    match a
    case Recheck(t) => assert packs[..0] == [];
    case RegisterNext(t) =>
      if pc.Registering? && pc.done < |packs| {
        NextInPlace(core, packs, pc.done, s.registry);
      }
    case _ =>
  }

  lemma BystanderSound(core: Registry, packs: seq<Registration>, s: State, a: Action, t: Thread)
    requires Sound(core, packs, s) && t != a.t
    ensures PcSound(packs, Step(packs, s, a), t)
  {
    assert PcSound(packs, s, t) && PcSound(packs, s, a.t);
    assert PcOf(Step(packs, s, a), t) == PcOf(s, t);
  }

  // Every step but these two leaves the registry and the flag alone.
  lemma RegisterNextRegistry(core: Registry, packs: seq<Registration>, s: State, t: Thread)
    requires RegistrySound(core, packs, s) && PcSound(packs, s, t)
    ensures RegistrySound(core, packs, Step(packs, s, RegisterNext(t)))
  {
  }

  lemma SetFlagRegistry(core: Registry, packs: seq<Registration>, s: State, t: Thread)
    requires RegistrySound(core, packs, s) && PcSound(packs, s, t)
    ensures RegistrySound(core, packs, Step(packs, s, SetFlag(t)))
  {
    var pc := PcOf(s, t);
    if pc.Registering? && pc.done >= |packs| {
      assert pc.done == |packs| && !s.flag;
      AllInPlace(core, packs, s.registry);
      assert Step(packs, s, SetFlag(t)).registry == s.registry;
    }
  }

  lemma OtherRegistry(core: Registry, packs: seq<Registration>, s: State, a: Action)
    requires RegistrySound(core, packs, s) && PcSound(packs, s, a.t)
    requires !a.RegisterNext? && !a.SetFlag?
    ensures RegistrySound(core, packs, Step(packs, s, a))
  {
  }

  lemma StepSound(core: Registry, packs: seq<Registration>, s: State, a: Action)
    requires Sound(core, packs, s)
    ensures Sound(core, packs, Step(packs, s, a))
  {
    assert PcSound(packs, s, a.t);
    match a {
      case RegisterNext(t) => RegisterNextRegistry(core, packs, s, t);
      case SetFlag(t) => SetFlagRegistry(core, packs, s, t);
      case _ => OtherRegistry(core, packs, s, a);
    }
    forall t: Thread ensures PcSound(packs, Step(packs, s, a), t) {
      if t == a.t {
        ActorSound(core, packs, s, a);
      } else {
        BystanderSound(core, packs, s, a, t);
      }
    }
  }

  lemma {:induction false} RunSound(core: Registry, packs: seq<Registration>, actions: seq<Action>)
    ensures Sound(core, packs, Run(core, packs, actions))
  {
    if actions != [] {
      RunSound(core, packs, actions[..|actions| - 1]);
      StepSound(core, packs, Run(core, packs, actions[..|actions| - 1]), actions[|actions| - 1]);
    }
  }

  // In every interleaving, also after failed and repeated attempts: registration completes at most once, and
  // every reader sees the core actions with all the action packs over them, never a half-filled registry.
  lemma RegisteredOnce(core: Registry, packs: seq<Registration>, actions: seq<Action>)
    ensures var s := Run(core, packs, actions);
            && s.completed <= 1
            && (forall r | r in s.observed :: r == Overlay(core, packs) && r.Keys == core.Keys + Names(packs))
  {
    RunSound(core, packs, actions);
  }

  // A thread inside a call is never stuck: it can move, or the thread that holds the lock can.
  lemma NeverStuck(core: Registry, packs: seq<Registration>, actions: seq<Action>, t: Thread)
    requires !PcOf(Run(core, packs, actions), t).Idle?
    ensures var s := Run(core, packs, actions);
            exists a: Action :: (a.t == t || s.lock == Some(a.t)) && Step(packs, s, a) != s
  {
    RunSound(core, packs, actions);
    var s := Run(core, packs, actions);
    var u := if s.lock.Some? then s.lock.value else t;
    assert PcSound(packs, s, t) && PcSound(packs, s, u);
    var a := match PcOf(s, u)
      case Locked => Recheck(u)
      case Registering(k) => if k < |packs| then RegisterNext(u) else SetFlag(u)
      case Holding => Release(u)
      case Ready => Look(u)
      case Missed => Acquire(u);
    assert PcOf(Step(packs, s, a), u) != PcOf(s, u);
  }
}
