/** Depth-first traversal of a table of parent pointers, with a depth cap and a shared visited set.
    Both recursive walks of the chart of accounts (models/gl.py:115-189) are instances of `Visit`. */
module Forests {
  import opened Wrappers

  type Id = nat

  // The table seen from both ends: each row's parent pointer, and each row's list of children.
  datatype Forest = Forest(parent: map<Id, Option<Id>>, kids: map<Id, seq<Id>>)

  datatype WalkError = TooDeep | Circular

  type Walk = Result<(seq<Id>, set<Id>), WalkError>

  function Parent(f: Forest, y: Id): Option<Id> {
    if y in f.parent then f.parent[y] else None
  }

  function Kids(f: Forest, x: Id): seq<Id> {
    if x in f.kids then f.kids[x] else []
  }

  // The child lists are exactly the inverse of the parent pointers, in some order.
  ghost predicate Valid(f: Forest) {
    && (forall p | p in f.kids :: Distinct(f.kids[p]))
    && (forall p: Id, c: Id :: c in Kids(f, p) <==> Parent(f, c) == Some(p))
  }

  // The ancestor of y that is k parent pointers up.
  function Up(f: Forest, y: Id, k: nat): Option<Id> {
    if k == 0 then Some(y)
    else
      match Up(f, y, k - 1)
      case None => None
      case Some(p) => Parent(f, p)
  }

  // y is a proper descendant of x.
  ghost predicate Below(f: Forest, x: Id, y: Id) {
    exists k: nat :: k >= 1 && Up(f, y, k) == Some(x)
  }

  ghost predicate Within(f: Forest, x: Id, y: Id) {
    y == x || Below(f, x, y)
  }

  // No parent path of more than h steps ends in x.
  ghost predicate Bounded(f: Forest, x: Id, h: int) {
    forall y: Id, k: nat :: Up(f, y, k) == Some(x) ==> k <= h
  }

  // x is not its own ancestor.
  ghost predicate Acyclic(f: Forest, x: Id) {
    !Below(f, x, x)
  }

  // ---------- the traversal ----------

  function Fuel(depth: int, maxDepth: int): nat {
    if depth > maxDepth then 0 else maxDepth - depth + 1
  }

  function Visit(f: Forest, x: Id, depth: int, maxDepth: int, visited: set<Id>): Walk
    decreases Fuel(depth, maxDepth), 0
  {
    if depth > maxDepth then Err(TooDeep)
    else if x in visited then Err(Circular)
    else VisitAll(f, Kids(f, x), depth + 1, maxDepth, visited + {x})
  }

  function Prepend(s: seq<Id>, r: Walk): Walk {
    match r
    case Err(e) => Err(e)
    case Ok(w) => Ok((s + w.0, w.1))
  }

  function VisitAll(f: Forest, cs: seq<Id>, depth: int, maxDepth: int, visited: set<Id>): Walk
    decreases Fuel(depth, maxDepth), |cs| + 1
  {
    if cs == [] then Ok(([], visited))
    else
      match Visit(f, cs[0], depth, maxDepth, visited)
      case Err(e) => Err(e)
      case Ok(head) => Prepend([cs[0]] + head.0, VisitAll(f, cs[1..], depth, maxDepth, head.1))
  }

  lemma PrependTwice(s: seq<Id>, t: seq<Id>, r: Walk)
    ensures Prepend(s, Prepend(t, r)) == Prepend(s + t, r)
    ensures Prepend([], r) == r
  {
    if r.Ok? {
      assert s + (t + r.value.0) == s + t + r.value.0;
      assert [] + r.value.0 == r.value.0;
    }
  }

  // ---------- reference definition: the preorder listing, with no visited set and no error ----------

  function Preorder(f: Forest, x: Id, levels: nat): seq<Id>
    decreases levels, 0
  {
    if levels == 0 then [] else PreorderAll(f, Kids(f, x), levels - 1)
  }

  function PreorderAll(f: Forest, cs: seq<Id>, levels: nat): seq<Id>
    decreases levels, |cs| + 1
  {
    if cs == [] then [] else [cs[0]] + Preorder(f, cs[0], levels) + PreorderAll(f, cs[1..], levels)
  }

  // ---------- parent paths ----------

  lemma {:induction false} UpAdd(f: Forest, y: Id, a: nat, b: nat)
    requires Up(f, y, a).Some?
    ensures Up(f, y, a + b) == Up(f, Up(f, y, a).value, b)
  {
    if b > 0 {
      UpAdd(f, y, a, b - 1);
      assert a + b - 1 == a + (b - 1);
    }
  }

  lemma {:induction false} UpDefined(f: Forest, y: Id, a: nat, b: nat)
    requires a <= b && Up(f, y, b).Some?
    ensures Up(f, y, a).Some?
  {
    if a < b {
      UpDefined(f, y, a, b - 1);
    }
  }

  lemma {:induction false} CycleRepeats(f: Forest, x: Id, n: nat, t: nat)
    requires Up(f, x, n) == Some(x)
    ensures Up(f, x, n * t) == Some(x)
  {
    if t > 0 {
      CycleRepeats(f, x, n, t - 1);
      UpAdd(f, x, n * (t - 1), n);
      assert n * t == n * (t - 1) + n;
    }
  }

  // A row on a cycle has parent paths of every length, so a bounded row is on none.
  lemma CycleIsUnbounded(f: Forest, x: Id, h: int)
    requires Below(f, x, x)
    ensures !Bounded(f, x, h)
  {
    if h < 0 {
      assert Up(f, x, 0) == Some(x);
    } else {
      var n: nat :| n >= 1 && Up(f, x, n) == Some(x);
      CycleRepeats(f, x, n, h + 1);
      assert n * (h + 1) >= h + 1;
    }
  }

  lemma KidBounded(f: Forest, x: Id, c: Id, h: int)
    requires Valid(f) && Bounded(f, x, h) && c in Kids(f, x)
    ensures Bounded(f, c, h - 1)
  {
    forall y: Id, k: nat | Up(f, y, k) == Some(c) ensures k <= h - 1 {
      assert Up(f, y, k + 1) == Some(x);
    }
  }

  lemma KidsBound(f: Forest, x: Id, h: int)
    requires Valid(f) && h >= 0
    requires forall c | c in Kids(f, x) :: Bounded(f, c, h - 1)
    ensures Bounded(f, x, h)
  {
  }

  lemma KidOnCycle(f: Forest, x: Id, c: Id)
    requires Valid(f) && c in Kids(f, x) && Below(f, c, c)
    ensures Below(f, x, x)
  {
    var n: nat :| n >= 1 && Up(f, c, n) == Some(c);
    assert Up(f, c, 0) == Some(c);
    assert Up(f, c, 1) == Some(x);
    UpAdd(f, c, 1, n);
    assert Up(f, c, n + 1) == Some(x);
    assert Up(f, x, n) == Some(x);
  }

  // The descendants of x are its children and their descendants.
  lemma WithinKid(f: Forest, x: Id, y: Id)
    requires Valid(f)
    ensures Below(f, x, y) <==> exists c :: c in Kids(f, x) && Within(f, c, y)
  {
    if Below(f, x, y) {
      var k: nat :| k >= 1 && Up(f, y, k) == Some(x);
      UpDefined(f, y, k - 1, k);
      var c := Up(f, y, k - 1).value;
      assert c in Kids(f, x);
      assert Within(f, c, y);
    }
    if c :| c in Kids(f, x) && Within(f, c, y) {
      assert Up(f, c, 0) == Some(c);
      var k: nat :| Up(f, y, k) == Some(c);
      assert Up(f, y, k + 1) == Some(x);
    }
  }

  // From the other end: below x is what has its parent at x or below it.
  lemma WithinParent(f: Forest, x: Id, y: Id)
    ensures Below(f, x, y) <==> Parent(f, y).Some? && Within(f, x, Parent(f, y).value)
  {
    assert Up(f, y, 0) == Some(y) && Up(f, y, 1) == Parent(f, y);
    if Below(f, x, y) {
      var k: nat :| k >= 1 && Up(f, y, k) == Some(x);
      UpDefined(f, y, 1, k);
      UpAdd(f, y, 1, k - 1);
      assert Up(f, Parent(f, y).value, k - 1) == Some(x);
      assert k > 1 ==> Below(f, x, Parent(f, y).value);
    }
    if Parent(f, y).Some? && Within(f, x, Parent(f, y).value) {
      var p := Parent(f, y).value;
      assert Up(f, p, 0) == Some(p);
      var k: nat :| Up(f, p, k) == Some(x);
      UpAdd(f, y, 1, k);
      assert Up(f, y, 1 + k) == Some(x);
    }
  }

  lemma Loop(f: Forest, x: Id, y: Id, j: nat, k: nat)
    requires j < k && Up(f, y, j).Some? && Up(f, y, k).Some?
    requires Parent(f, Up(f, y, j).value) == Some(x) && Parent(f, Up(f, y, k).value) == Some(x)
    ensures Below(f, x, x)
  {
    assert Up(f, y, j + 1) == Some(x) && Up(f, y, k + 1) == Some(x);
    UpAdd(f, y, j + 1, k - j);
    assert Up(f, x, k - j) == Some(x);
  }

  // Because every row has one parent, two siblings share no descendant unless their parent is on a cycle.
  lemma SiblingsDisjoint(f: Forest, x: Id, c: Id, d: Id, y: Id)
    requires Valid(f) && Acyclic(f, x)
    requires c in Kids(f, x) && d in Kids(f, x) && c != d
    requires Within(f, c, y)
    ensures !Within(f, d, y)
  {
    if Within(f, d, y) {
      assert Up(f, y, 0) == Some(y);
      var j: nat :| Up(f, y, j) == Some(c);
      var k: nat :| Up(f, y, k) == Some(d);
      if j < k {
        Loop(f, x, y, j, k);
      } else {
        Loop(f, x, y, k, j);
      }
    }
  }

  // ---------- what the traversal computes ----------

  ghost predicate Listing(f: Forest, s: seq<Id>, roots: seq<Id>) {
    forall y :: y in s <==> exists c :: c in roots && Within(f, c, y)
  }

  lemma {:induction false} VisitSound(f: Forest, x: Id, depth: int, maxDepth: int, visited: set<Id>)
    requires Valid(f)
    requires Visit(f, x, depth, maxDepth, visited).Ok?
    ensures var (s, seen) := Visit(f, x, depth, maxDepth, visited).value;
            && depth <= maxDepth && x !in visited
            && seen == visited + {x} + (set y | y in s)
            && (forall y | y in s :: y !in visited && y != x)
            && Distinct(s)
            && (forall y :: y in s <==> Below(f, x, y))
            && Bounded(f, x, maxDepth - depth)
    decreases Fuel(depth, maxDepth), 0
  {
    VisitAllSound(f, Kids(f, x), depth + 1, maxDepth, visited + {x});
    KidsBound(f, x, maxDepth - depth);
    forall y ensures y in Visit(f, x, depth, maxDepth, visited).value.0 <==> Below(f, x, y) {
      WithinKid(f, x, y);
    }
  }

  lemma ListingCons(f: Forest, cs: seq<Id>, s0: seq<Id>, s1: seq<Id>)
    requires cs != [] && Listing(f, s1, cs[1..])
    requires forall y :: y in s0 <==> Below(f, cs[0], y)
    ensures Listing(f, [cs[0]] + s0 + s1, cs)
  {
    var s := [cs[0]] + s0 + s1;
    forall y ensures y in s <==> exists c :: c in cs && Within(f, c, y) {
      assert y in s <==> y == cs[0] || y in s0 || y in s1;
      if y == cs[0] || y in s0 {
        assert cs[0] in cs && Within(f, cs[0], y);
      }
      if c :| c in cs[1..] && Within(f, c, y) {
        assert c in cs;
      }
      if c :| c in cs && Within(f, c, y) {
        assert c == cs[0] || c in cs[1..];
      }
    }
  }

  lemma {:induction false} VisitAllSound(f: Forest, cs: seq<Id>, depth: int, maxDepth: int, visited: set<Id>)
    requires Valid(f)
    requires VisitAll(f, cs, depth, maxDepth, visited).Ok?
    ensures var (s, seen) := VisitAll(f, cs, depth, maxDepth, visited).value;
            && (cs != [] ==> depth <= maxDepth)
            && seen == visited + (set y | y in s)
            && (forall y | y in s :: y !in visited)
            && Distinct(s)
            && Listing(f, s, cs)
            && (forall c | c in cs :: Bounded(f, c, maxDepth - depth))
    decreases Fuel(depth, maxDepth), |cs| + 1
  {
    if cs != [] {
      VisitSound(f, cs[0], depth, maxDepth, visited);
      var (s0, v0) := Visit(f, cs[0], depth, maxDepth, visited).value;
      VisitAllSound(f, cs[1..], depth, maxDepth, v0);
      var (s1, v1) := VisitAll(f, cs[1..], depth, maxDepth, v0).value;
      DistinctConcat([cs[0]], s0);
      assert forall y :: y in [cs[0]] + s0 <==> y == cs[0] || y in s0;
      DistinctConcat([cs[0]] + s0, s1);
      ListingCons(f, cs, s0, s1);
      forall c | c in cs ensures Bounded(f, c, maxDepth - depth) {
        assert c == cs[0] || c in cs[1..];
      }
    }
  }

  // The visited set and the depth test change nothing in the listing itself.
  lemma {:induction false} VisitIsPreorder(f: Forest, x: Id, depth: int, maxDepth: int, visited: set<Id>)
    requires Visit(f, x, depth, maxDepth, visited).Ok?
    ensures depth <= maxDepth
    ensures Visit(f, x, depth, maxDepth, visited).value.0 == Preorder(f, x, maxDepth - depth + 1)
    decreases Fuel(depth, maxDepth), 0
  {
    VisitAllIsPreorder(f, Kids(f, x), depth + 1, maxDepth, visited + {x});
  }

  lemma {:induction false} VisitAllIsPreorder(f: Forest, cs: seq<Id>, depth: int, maxDepth: int, visited: set<Id>)
    requires depth <= maxDepth + 1 && VisitAll(f, cs, depth, maxDepth, visited).Ok?
    ensures VisitAll(f, cs, depth, maxDepth, visited).value.0 == PreorderAll(f, cs, maxDepth - depth + 1)
    decreases Fuel(depth, maxDepth), |cs| + 1
  {
    if cs != [] {
      VisitIsPreorder(f, cs[0], depth, maxDepth, visited);
      VisitAllIsPreorder(f, cs[1..], depth, maxDepth, Visit(f, cs[0], depth, maxDepth, visited).value.1);
    }
  }

  // A genuine tree is never rejected by the shared visited set.
  lemma {:induction false} NeverCircular(f: Forest, x: Id, depth: int, maxDepth: int, visited: set<Id>)
    requires Valid(f) && Acyclic(f, x)
    requires forall y | y in visited :: !Within(f, x, y)
    ensures Visit(f, x, depth, maxDepth, visited) != Err(Circular)
    decreases Fuel(depth, maxDepth), 0
  {
    if depth <= maxDepth {
      forall y, c | y in visited + {x} && c in Kids(f, x) ensures !Within(f, c, y) {
        WithinKid(f, x, y);
      }
      NeverCircularAll(f, x, Kids(f, x), depth + 1, maxDepth, visited + {x});
    }
  }

  lemma {:induction false} NeverCircularAll(
    f: Forest, x: Id, cs: seq<Id>, depth: int, maxDepth: int, visited: set<Id>)
    requires Valid(f) && Acyclic(f, x)
    requires Distinct(cs) && forall c | c in cs :: c in Kids(f, x)
    requires forall y, c | y in visited && c in cs :: !Within(f, c, y)
    ensures VisitAll(f, cs, depth, maxDepth, visited) != Err(Circular)
    decreases Fuel(depth, maxDepth), |cs| + 1
  {
    if cs != [] {
      assert cs[0] in cs;
      if Below(f, cs[0], cs[0]) {
        KidOnCycle(f, x, cs[0]);
      }
      NeverCircular(f, cs[0], depth, maxDepth, visited);
      if Visit(f, cs[0], depth, maxDepth, visited).Ok? {
        VisitSound(f, cs[0], depth, maxDepth, visited);
        var v0 := Visit(f, cs[0], depth, maxDepth, visited).value.1;
        forall y, c | y in v0 && c in cs[1..] ensures !Within(f, c, y) {
          if y !in visited {
            assert Within(f, cs[0], y);
            SiblingsDisjoint(f, x, cs[0], c, y);
          }
        }
        NeverCircularAll(f, x, cs[1..], depth, maxDepth, v0);
      }
    }
  }

  lemma {:induction false} NeverTooDeep(f: Forest, x: Id, depth: int, maxDepth: int, visited: set<Id>)
    requires Valid(f) && Bounded(f, x, maxDepth - depth)
    ensures Visit(f, x, depth, maxDepth, visited) != Err(TooDeep)
    decreases Fuel(depth, maxDepth), 0
  {
    assert Up(f, x, 0) == Some(x);
    forall c | c in Kids(f, x) ensures Bounded(f, c, maxDepth - (depth + 1)) {
      KidBounded(f, x, c, maxDepth - depth);
    }
    NeverTooDeepAll(f, Kids(f, x), depth + 1, maxDepth, visited + {x});
  }

  lemma {:induction false} NeverTooDeepAll(f: Forest, cs: seq<Id>, depth: int, maxDepth: int, visited: set<Id>)
    requires Valid(f) && forall c | c in cs :: Bounded(f, c, maxDepth - depth)
    ensures VisitAll(f, cs, depth, maxDepth, visited) != Err(TooDeep)
    decreases Fuel(depth, maxDepth), |cs| + 1
  {
    if cs != [] {
      assert cs[0] in cs;
      NeverTooDeep(f, cs[0], depth, maxDepth, visited);
      if Visit(f, cs[0], depth, maxDepth, visited).Ok? {
        forall c | c in cs[1..] ensures Bounded(f, c, maxDepth - depth) {
          assert c in cs;
        }
        NeverTooDeepAll(f, cs[1..], depth, maxDepth, Visit(f, cs[0], depth, maxDepth, visited).value.1);
      }
    }
  }

  // The whole behaviour of a traversal started with an empty visited set.
  lemma VisitFromRoot(f: Forest, x: Id, maxDepth: int)
    requires Valid(f)
    ensures var r := Visit(f, x, 0, maxDepth, {});
            && (r.Ok? <==> Bounded(f, x, maxDepth))
            && (r == Err(Circular) ==> Below(f, x, x))
            && (r == Err(TooDeep) ==> exists y: Id, k: nat :: Up(f, y, k) == Some(x) && k > maxDepth)
            && (r.Ok? ==>
                  && maxDepth >= 0
                  && r.value.0 == Preorder(f, x, maxDepth + 1)
                  && Distinct(r.value.0)
                  && forall y :: y in r.value.0 <==> Below(f, x, y))
  {
    var r := Visit(f, x, 0, maxDepth, {});
    assert r.Err? ==> r.error == TooDeep || r.error == Circular;
    if r.Ok? {
      VisitSound(f, x, 0, maxDepth, {});
      VisitIsPreorder(f, x, 0, maxDepth, {});
    }
    if Bounded(f, x, maxDepth) {
      NeverTooDeep(f, x, 0, maxDepth, {});
    }
    if Below(f, x, x) {
      CycleIsUnbounded(f, x, maxDepth);
    } else {
      NeverCircular(f, x, 0, maxDepth, {});
    }
  }
}
