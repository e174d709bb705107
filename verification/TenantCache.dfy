/** The cache wrapper that prefixes every key with the active tenant (extensions.py:82-124): one shared map
    standing for one independent map per tenant, and one for calls made outside any tenant. */
module TenantCache {
  import opened Wrappers
  import opened Text

  // The request the call is made in, if any; an absent or zero active_tenant_id falls back to tenant_id.
  datatype Context = NoRequest | Request(active: Option<nat>, tenant: Option<nat>)

  type Space = Option<nat>

  function SpaceOf(c: Context): Space {
    match c
    case NoRequest => None
    case Request(active, tenant) => if active.Some? && active.value != 0 then active else tenant
  }

  function PhysicalKey(sp: Space, key: string): string {
    match sp
    case Some(t) => "t:" + Digits(t) + ":" + key
    case None => key
  }

  // _tenant_key
  function TenantKey(c: Context, key: string): string {
    PhysicalKey(SpaceOf(c), key)
  }

  // A request acts for its active tenant, or for its own tenant if it has no active one, or a zero.
  predicate ActsFor(c: Context, t: nat) {
    && c.Request?
    && (if c.active.None? || c.active == Some(0) then c.tenant == Some(t) else c.active == Some(t))
  }

  // Inside a tenant the key is prefixed; outside any, and with neither tenant set, it is bare.
  lemma TenantKeyExactly(c: Context, key: string)
    ensures forall t: nat | ActsFor(c, t) :: TenantKey(c, key) == "t:" + Digits(t) + ":" + key
    ensures (forall t: nat :: !ActsFor(c, t)) ==> TenantKey(c, key) == key
    ensures c == NoRequest || c == Request(None, None) || c == Request(Some(0), None) ==> TenantKey(c, key) == key
  {
    if c.Request? && (c.active.None? || c.active == Some(0)) && c.tenant.Some? {
      assert ActsFor(c, c.tenant.value);
    } else if c.Request? && c.active.Some? && c.active.value != 0 {
      assert ActsFor(c, c.active.value);
    }
  }

  function Lookup<V>(m: map<string, V>, k: string): Option<V> {
    if k in m then Some(m[k]) else None
  }

  // ---------- keys ----------

  lemma ShorterDigits(d: string, e: string, k: string, l: string)
    requires AllDigits(d) && AllDigits(e) && |d| <= |e| && d + ":" + k == e + ":" + l
    ensures d == e && k == l
  {
    var s := d + ":" + k;
    assert s[|d|] == ':';
    assert forall i | 0 <= i < |e| :: s[i] == e[i] && IsDigit(e[i]);
    assert |d| == |e|;
    assert d == s[..|d|] && k == s[|d| + 1..];
    assert e == s[..|e|] && l == s[|e| + 1..];
  }

  lemma TenantKeys(t: nat, u: nat, k: string, l: string)
    ensures PhysicalKey(Some(t), k) == PhysicalKey(Some(u), l) <==> t == u && k == l
  {
    var p, q := PhysicalKey(Some(t), k), PhysicalKey(Some(u), l);
    if p == q {
      assert p[2..] == Digits(t) + ":" + k && q[2..] == Digits(u) + ":" + l;
      if |Digits(t)| <= |Digits(u)| {
        ShorterDigits(Digits(t), Digits(u), k, l);
      } else {
        ShorterDigits(Digits(u), Digits(t), l, k);
      }
      ValueOfDigits(t);
      ValueOfDigits(u);
    }
  }

  // The key already carries some tenant's prefix.
  ghost predicate LooksTenanted(key: string) {
    exists t: nat, rest: string :: key == PhysicalKey(Some(t), rest)
  }

  // The keys a space may use: any inside a tenant, and outside one those that carry no tenant prefix.
  ghost predicate Usable(sp: Space, key: string) {
    sp.Some? || !LooksTenanted(key)
  }

  // Two calls reach the same physical key exactly when they are the same space and key, or one of them is an
  // untenanted call spelling out the other's prefixed key.
  lemma Collisions(a: Space, b: Space, k: string, l: string)
    ensures PhysicalKey(a, k) == PhysicalKey(b, l) <==>
            || (a == b && k == l)
            || (a.None? && b.Some? && k == PhysicalKey(b, l))
            || (b.None? && a.Some? && l == PhysicalKey(a, k))
    ensures Usable(a, k) && Usable(b, l) ==> (PhysicalKey(a, k) == PhysicalKey(b, l) <==> a == b && k == l)
  {
    if a.Some? && b.Some? {
      TenantKeys(a.value, b.value, k, l);
    }
  }

  // ---------- operations, on the shared map and on a map of one's own ----------

  datatype Op<V> =
    | Get(key: string)
    | Set(key: string, value: V)
    | Delete(key: string)
    | GetMany(keys: seq<string>)
    | SetMany(entries: map<string, V>)
    | DeleteMany(keys: seq<string>)

  datatype Answer<V> = Done | One(found: Option<V>) | Many(values: map<string, Option<V>>)

  ghost function Prefixed<V>(sp: Space, m: map<string, V>): (r: map<string, V>)
    ensures forall k | k in m :: Lookup(r, PhysicalKey(sp, k)) == Some(m[k])
    ensures forall p | p in r :: exists k :: k in m && p == PhysicalKey(sp, k)
  {
    var keys := set k | k in m :: PhysicalKey(sp, k);
    forall k, l | k in m && l in m && PhysicalKey(sp, k) == PhysicalKey(sp, l) ensures k == l {
      Collisions(sp, sp, k, l);
    }
    map p | p in keys :: (var k :| k in m && p == PhysicalKey(sp, k); m[k])
  }

  // The physical map holds the entries of m under their prefixed keys, and nothing else.
  ghost predicate Holds<V>(sp: Space, m: map<string, V>, r: map<string, V>) {
    && (forall k | k in m :: Lookup(r, PhysicalKey(sp, k)) == Some(m[k]))
    && (forall p | p in r :: exists k :: k in m && p == PhysicalKey(sp, k))
  }

  lemma HoldsAdd<V>(sp: Space, m: map<string, V>, r: map<string, V>, k: string, v: V)
    requires Holds(sp, m, r) && k !in m
    ensures Holds(sp, m[k := v], r[PhysicalKey(sp, k) := v])
  {
    forall l | l in m ensures PhysicalKey(sp, l) != PhysicalKey(sp, k) {
      Collisions(sp, sp, l, k);
    }
    assert forall p | p in r :: exists l :: l in m[k := v] && p == PhysicalKey(sp, l);
  }

  lemma HoldsIsPrefixed<V>(sp: Space, m: map<string, V>, r: map<string, V>)
    requires Holds(sp, m, r)
    ensures r == Prefixed(sp, m)
  {
  }

  ghost function Apply<V>(store: map<string, V>, sp: Space, op: Op<V>): (map<string, V>, Answer<V>) {
    match op
    case Get(k) => (store, One(Lookup(store, PhysicalKey(sp, k))))
    case Set(k, v) => (store[PhysicalKey(sp, k) := v], Done)
    case Delete(k) => (store - {PhysicalKey(sp, k)}, Done)
    case GetMany(ks) => (store, Many(map k | k in ks :: Lookup(store, PhysicalKey(sp, k))))
    case SetMany(m) => (store + Prefixed(sp, m), Done)
    case DeleteMany(ks) => (store - (set k | k in ks :: PhysicalKey(sp, k)), Done)
  }

  function ApplyOwn<V>(own: map<string, V>, op: Op<V>): (map<string, V>, Answer<V>) {
    match op
    case Get(k) => (own, One(Lookup(own, k)))
    case Set(k, v) => (own[k := v], Done)
    case Delete(k) => (own - {k}, Done)
    case GetMany(ks) => (own, Many(map k | k in ks :: Lookup(own, k)))
    case SetMany(m) => (own + m, Done)
    case DeleteMany(ks) => (own - (set k | k in ks), Done)
  }

  // ---------- the wrapper ----------

  class Backing<V> {
    var store: map<string, V>

    constructor ()
      ensures store == map[]
    {
      store := map[];
    }
  }

  class TenantAwareCache<V> {
    const cache: Backing<V>

    constructor (c: Backing<V>)
      ensures cache == c
    {
      cache := c;
    }

    method Read(c: Context, key: string) returns (r: Option<V>)
      ensures One(r) == Apply(cache.store, SpaceOf(c), Get(key)).1
    {
      r := Lookup(cache.store, TenantKey(c, key));
    }

    method Write(c: Context, key: string, value: V)
      modifies cache
      ensures cache.store == Apply(old(cache.store), SpaceOf(c), Set(key, value)).0
    {
      cache.store := cache.store[TenantKey(c, key) := value];
    }

    method Remove(c: Context, key: string)
      modifies cache
      ensures cache.store == Apply(old(cache.store), SpaceOf(c), Delete(key)).0
    {
      cache.store := cache.store - {TenantKey(c, key)};
    }

    method RemoveMany(c: Context, keys: seq<string>)
      modifies cache
      ensures cache.store == Apply(old(cache.store), SpaceOf(c), DeleteMany(keys)).0
    {
      var mapped: seq<string> := [];
      for i := 0 to |keys|
        invariant |mapped| == i && forall j | 0 <= j < i :: mapped[j] == TenantKey(c, keys[j])
      {
        mapped := mapped + [TenantKey(c, keys[i])];
      }
      var gone := set p | p in mapped;
      ghost var named := set k | k in keys :: TenantKey(c, k);
      forall p ensures p in gone <==> p in named {
        if p in named {
          var k :| k in keys && p == TenantKey(c, k);
          var j :| 0 <= j < |keys| && keys[j] == k;
          assert mapped[j] == p;
        }
      }
      assert gone == named;
      cache.store := cache.store - gone;
    }

    // The dictionary from physical keys back to the caller's, in order of first use, then the backing
    // cache's answers in that order, then the two zipped together.
    method ReadMany(c: Context, keys: seq<string>) returns (r: map<string, Option<V>>)
      ensures Many(r) == Apply(cache.store, SpaceOf(c), GetMany(keys)).1
    {
      var sp := SpaceOf(c);
      var physical, logical: seq<string> := [], [];
      for i := 0 to |keys|
        invariant |physical| == |logical|
        invariant forall j | 0 <= j < |physical| :: physical[j] == PhysicalKey(sp, logical[j]) && logical[j] in keys
        invariant forall j | 0 <= j < i :: keys[j] in logical
      {
        var p := PhysicalKey(sp, keys[i]);
        if p in physical {
          var j :| 0 <= j < |physical| && physical[j] == p;
          Collisions(sp, sp, logical[j], keys[i]);
        } else {
          physical, logical := physical + [p], logical + [keys[i]];
        }
      }
      var values: seq<Option<V>> := [];
      for i := 0 to |physical|
        invariant |values| == i && forall j | 0 <= j < i :: values[j] == Lookup(cache.store, physical[j])
      {
        values := values + [Lookup(cache.store, physical[i])];
      }
      r := map[];
      for i := 0 to |logical|
        invariant forall k | k in r :: k in keys && r[k] == Lookup(cache.store, PhysicalKey(sp, k))
        invariant forall j | 0 <= j < i :: logical[j] in r
      {
        r := r[logical[i] := values[i]];
      }
      assert forall k | k in keys :: k in r;
    }

    method WriteMany(c: Context, entries: map<string, V>)
      modifies cache
      ensures cache.store == Apply(old(cache.store), SpaceOf(c), SetMany(entries)).0
    {
      var sp := SpaceOf(c);
      var mapped: map<string, V> := map[];
      var left := entries.Keys;
      while left != {}
        invariant left <= entries.Keys
        invariant Holds(sp, entries - left, mapped)
        invariant cache.store == old(cache.store)
      {
        var k :| k in left;
        HoldsAdd(sp, entries - left, mapped, k, entries[k]);
        assert entries - (left - {k}) == (entries - left)[k := entries[k]];
        mapped := mapped[PhysicalKey(sp, k) := entries[k]];
        left := left - {k};
      }
      assert entries - left == entries;
      HoldsIsPrefixed(sp, entries, mapped);
      cache.store := cache.store + mapped;
    }
  }

  // ---------- refinement ----------

  // The map one space could have had to itself.
  ghost predicate Agrees<V>(store: map<string, V>, sp: Space, own: map<string, V>) {
    forall k: string | Usable(sp, k) :: Lookup(own, k) == Lookup(store, PhysicalKey(sp, k))
  }

  // What an operation does to one key.
  datatype Change<V> = Keep | Drop | Put(value: V)

  function ChangeAt<V>(op: Op<V>, k: string): Change<V> {
    match op
    case Get(_) => Keep
    case GetMany(_) => Keep
    case Set(l, v) => if k == l then Put(v) else Keep
    case Delete(l) => if k == l then Drop else Keep
    case SetMany(m) => if k in m then Put(m[k]) else Keep
    case DeleteMany(ks) => if k in ks then Drop else Keep
  }

  function Changed<V>(before: Option<V>, c: Change<V>): Option<V> {
    match c
    case Keep => before
    case Drop => None
    case Put(v) => Some(v)
  }

  function KeysOf<V>(op: Op<V>): set<string> {
    match op
    case Get(k) => {k}
    case Set(k, _) => {k}
    case Delete(k) => {k}
    case GetMany(ks) => set k | k in ks
    case SetMany(m) => m.Keys
    case DeleteMany(ks) => set k | k in ks
  }

  ghost predicate OpUsable<V>(sp: Space, op: Op<V>) {
    forall k | k in KeysOf(op) :: Usable(sp, k)
  }

  datatype Call<V> = Call(space: Space, op: Op<V>)

  lemma OwnChange<V>(own: map<string, V>, op: Op<V>, k: string)
    ensures Lookup(ApplyOwn(own, op).0, k) == Changed(Lookup(own, k), ChangeAt(op, k))
  {
  }

  // The shared map changes at the physical keys of the operation's own keys, and nowhere else.
  lemma SharedChange<V>(store: map<string, V>, caller: Space, op: Op<V>, k: string)
    ensures Lookup(Apply(store, caller, op).0, PhysicalKey(caller, k)) ==
            Changed(Lookup(store, PhysicalKey(caller, k)), ChangeAt(op, k))
  {
    forall l | l in KeysOf(op) ensures PhysicalKey(caller, l) == PhysicalKey(caller, k) <==> l == k {
      Collisions(caller, caller, l, k);
    }
    match op
    case SetMany(m) =>
      if k !in m {
        assert PhysicalKey(caller, k) !in Prefixed(caller, m);
      }
    case _ =>
  }

  lemma SharedUnchanged<V>(store: map<string, V>, caller: Space, op: Op<V>, p: string)
    requires forall k | k in KeysOf(op) :: PhysicalKey(caller, k) != p
    ensures Lookup(Apply(store, caller, op).0, p) == Lookup(store, p)
  {
  }

  // One call by any space: its own view moves as its own map would, and no other view moves.
  lemma ViewsMove<V>(store: map<string, V>, caller: Space, op: Op<V>, sp: Space, own: map<string, V>)
    requires OpUsable(caller, op) && Agrees(store, sp, own)
    ensures Agrees(Apply(store, caller, op).0, sp, if caller == sp then ApplyOwn(own, op).0 else own)
  {
    var after := Apply(store, caller, op).0;
    forall k: string | Usable(sp, k)
      ensures Lookup(if caller == sp then ApplyOwn(own, op).0 else own, k) == Lookup(after, PhysicalKey(sp, k))
    {
      assert Lookup(own, k) == Lookup(store, PhysicalKey(sp, k));
      if caller == sp {
        OwnChange(own, op, k);
        SharedChange(store, sp, op, k);
      } else {
        forall l | l in KeysOf(op) ensures PhysicalKey(caller, l) != PhysicalKey(sp, k) {
          Collisions(caller, sp, l, k);
        }
        SharedUnchanged(store, caller, op, PhysicalKey(sp, k));
      }
    }
  }

  // A call answers what the caller's own map would.
  lemma AnswersAgree<V>(store: map<string, V>, op: Op<V>, sp: Space, own: map<string, V>)
    requires OpUsable(sp, op) && Agrees(store, sp, own)
    ensures Apply(store, sp, op).1 == ApplyOwn(own, op).1
  {
  }

  ghost function Mine<V>(sp: Space, calls: seq<Call<V>>): seq<Op<V>> {
    if calls == [] then []
    else (if calls[0].space == sp then [calls[0].op] else []) + Mine(sp, calls[1..])
  }

  // The answers a space gets in the shared run, and those it would get running alone.
  ghost function Heard<V>(store: map<string, V>, sp: Space, calls: seq<Call<V>>): seq<Answer<V>>
    decreases |calls|
  {
    if calls == [] then []
    else
      var (after, answer) := Apply(store, calls[0].space, calls[0].op);
      (if calls[0].space == sp then [answer] else []) + Heard(after, sp, calls[1..])
  }

  function Alone<V>(own: map<string, V>, ops: seq<Op<V>>): seq<Answer<V>>
    decreases |ops|
  {
    if ops == [] then []
    else [ApplyOwn(own, ops[0]).1] + Alone(ApplyOwn(own, ops[0]).0, ops[1..])
  }

  // Any interleaving of calls by any spaces: each space hears exactly what it would hear alone.
  lemma {:induction false} SharedRefinesAlone<V>(
    store: map<string, V>, calls: seq<Call<V>>, sp: Space, own: map<string, V>)
    requires forall c | c in calls :: OpUsable(c.space, c.op)
    requires Agrees(store, sp, own)
    ensures Heard(store, sp, calls) == Alone(own, Mine(sp, calls))
    decreases |calls|
  {
    if calls != [] {
      var c := calls[0];
      ViewsMove(store, c.space, c.op, sp, own);
      assert forall d | d in calls[1..] :: d in calls;
      SharedRefinesAlone(Apply(store, c.space, c.op).0, calls[1..], sp,
                         if c.space == sp then ApplyOwn(own, c.op).0 else own);
      var mine := Mine(sp, calls[1..]);
      if c.space == sp {
        AnswersAgree(store, c.op, sp, own);
        assert Mine(sp, calls) == [c.op] + mine && Mine(sp, calls)[1..] == mine;
      } else {
        assert Mine(sp, calls) == mine;
      }
    }
  }

  // The premise on untenanted keys is needed: such a key written outside any tenant is read by that tenant.
  lemma UntenantedKeyLeaks<V>(store: map<string, V>, t: nat, key: string, value: V)
    ensures var after := Apply(store, None, Set(PhysicalKey(Some(t), key), value)).0;
            Apply(after, Some(t), Get(key)).1 == One(Some(value))
  {
  }

  // ---------- requests ----------

  datatype Called<V> = Called(context: Context, op: Op<V>)

  // What the requests of tenant t hear, the calls being made one after the other on the shared map.
  ghost function HeardBy<V>(store: map<string, V>, t: nat, calls: seq<Called<V>>): seq<Answer<V>>
    decreases |calls|
  {
    if calls == [] then []
    else
      var (after, answer) := Apply(store, SpaceOf(calls[0].context), calls[0].op);
      (if ActsFor(calls[0].context, t) then [answer] else []) + HeardBy(after, t, calls[1..])
  }

  ghost function OpsOf<V>(t: nat, calls: seq<Called<V>>): seq<Op<V>> {
    if calls == [] then []
    else (if ActsFor(calls[0].context, t) then [calls[0].op] else []) + OpsOf(t, calls[1..])
  }

  lemma ActsForSpace(c: Context, t: nat)
    ensures ActsFor(c, t) <==> SpaceOf(c) == Some(t)
  {
  }

  // Outside a tenant, no key carries a tenant's prefix.
  ghost predicate CalledUsably<V>(c: Called<V>) {
    (forall t: nat :: !ActsFor(c.context, t)) ==> forall k | k in KeysOf(c.op) :: !LooksTenanted(k)
  }

  lemma CalledUsable<V>(c: Called<V>)
    requires CalledUsably(c)
    ensures OpUsable(SpaceOf(c.context), c.op)
  {
    forall t: nat ensures ActsFor(c.context, t) <==> SpaceOf(c.context) == Some(t) {
      ActsForSpace(c.context, t);
    }
  }

  lemma OwnView<V>(store: map<string, V>, t: nat, own: map<string, V>)
    ensures Agrees(store, Some(t), own) <==>
            forall k: string :: Lookup(own, k) == Lookup(store, "t:" + Digits(t) + ":" + k)
  {
    assert forall k: string :: PhysicalKey(Some(t), k) == "t:" + Digits(t) + ":" + k;
  }

  // In any interleaving of requests, those of one tenant hear what they would hear with a cache of their own:
  // nothing another tenant's requests do reaches them.
  lemma {:induction false} TenantsIsolated<V>(
    store: map<string, V>, calls: seq<Called<V>>, t: nat, own: map<string, V>)
    requires forall c | c in calls :: CalledUsably(c)
    requires forall k: string :: Lookup(own, k) == Lookup(store, "t:" + Digits(t) + ":" + k)
    ensures HeardBy(store, t, calls) == Alone(own, OpsOf(t, calls))
    decreases |calls|
  {
    if calls != [] {
      var c := calls[0];
      var sp := SpaceOf(c.context);
      assert c in calls && forall d | d in calls[1..] :: d in calls;
      CalledUsable(c);
      ActsForSpace(c.context, t);
      OwnView(store, t, own);
      ViewsMove(store, sp, c.op, Some(t), own);
      var after := Apply(store, sp, c.op).0;
      var mine := if sp == Some(t) then ApplyOwn(own, c.op).0 else own;
      OwnView(after, t, mine);
      TenantsIsolated(after, calls[1..], t, mine);
      var later := OpsOf(t, calls[1..]);
      if sp == Some(t) {
        AnswersAgree(store, c.op, sp, own);
        assert ([c.op] + later)[1..] == later;
      } else {
        assert [] + later == later;
      }
    }
  }
}
