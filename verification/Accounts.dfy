/** The chart of accounts: listing the accounts below one account, and the balance of an account
    (models/gl.py:115-189). */
module Accounts {
  import opened Wrappers
  import opened Forests
  import Journal
  import Reversals

  // `Other` is any type string the sign rules do not name.
  datatype AccountType = Asset | Liability | Equity | Revenue | Expense | Other

  datatype Account = Account(
    tenant: Id, parent: Option<Id>, kind: AccountType, isHeader: bool, isContra: bool, isActive: bool)

  // The table of accounts, and each account's `children` collection.
  datatype Chart = Chart(accounts: map<Id, Account>, children: map<Id, seq<Id>>)

  function Tree(c: Chart): Forest {
    Forest.Forest(map x | x in c.accounts :: c.accounts[x].parent, c.children)
  }

  // The children collections are the reverse of the parent_id column, in whatever order they load.
  ghost predicate ValidChart(c: Chart) {
    c.children.Keys == c.accounts.Keys && Valid(Tree(c))
  }

  // ---------- get_children_recursive ----------

  // The set object every level of one walk adds to.
  class Visited {
    var ids: set<Id>

    constructor ()
      ensures ids == {}
    {
      ids := {};
    }
  }

  method GetChildrenRecursive(c: Chart, x: Id, maxDepth: int, depth: int, visited: Visited)
    returns (r: Result<seq<Id>, WalkError>)
    modifies visited
    ensures match Visit(Tree(c), x, depth, maxDepth, old(visited.ids))
            case Err(e) => r == Err(e)
            case Ok(w) => r == Ok(w.0) && visited.ids == w.1
    decreases Fuel(depth, maxDepth)
  {
    if depth > maxDepth {
      return Err(TooDeep);
    }
    if x in visited.ids {
      return Err(Circular);
    }
    visited.ids := visited.ids + {x};
    var result := [];
    var kids := Kids(Tree(c), x);
    var i := 0;
    PrependTwice([], [], VisitAll(Tree(c), kids, depth + 1, maxDepth, visited.ids));
    assert kids[0..] == kids;
    while i < |kids|
      invariant 0 <= i <= |kids|
      invariant Visit(Tree(c), x, depth, maxDepth, old(visited.ids)) ==
                Prepend(result, VisitAll(Tree(c), kids[i..], depth + 1, maxDepth, visited.ids))
    {
      ghost var before := result;
      result := result + [kids[i]];
      var deeper := GetChildrenRecursive(c, kids[i], maxDepth, depth + 1, visited);
      assert kids[i..][0] == kids[i] && kids[i..][1..] == kids[i + 1..];
      if deeper.Err? {
        return Err(deeper.error);
      }
      result := result + deeper.value;
      assert result == before + ([kids[i]] + deeper.value);
      i := i + 1;
      PrependTwice(before, [kids[i - 1]] + deeper.value,
                   VisitAll(Tree(c), kids[i..], depth + 1, maxDepth, visited.ids));
    }
    assert result + [] == result;
    r := Ok(result);
  }

  // Every proper descendant exactly once and in preorder; an exception exactly when some descendant lies
  // deeper than the cap or the account is its own ancestor, and never 'Circular' on a genuine tree.
  lemma ChildrenRecursive(c: Chart, x: Id, maxDepth: int)
    requires ValidChart(c)
    ensures var t := Tree(c);
            var r := Visit(t, x, 0, maxDepth, {});
            && (r.Err? <==> Below(t, x, x) || exists y: Id, k: nat :: Up(t, y, k) == Some(x) && k > maxDepth)
            && (r == Err(Circular) ==> Below(t, x, x))
            && (r.Ok? ==>
                  && Distinct(r.value.0)
                  && (forall y :: y in r.value.0 <==> Below(t, x, y))
                  && r.value.0 == Preorder(t, x, maxDepth + 1))
  {
    VisitFromRoot(Tree(c), x, maxDepth);
    var r := Visit(Tree(c), x, 0, maxDepth, {});
    assert r.Err? ==> r.error == TooDeep || r.error == Circular;
    if Below(Tree(c), x, x) {
      CycleIsUnbounded(Tree(c), x, maxDepth);
    }
  }

  // ---------- get_balance ----------

  const MAX_DEPTH := 10

  function SignOf(kind: AccountType, isContra: bool): int {
    if isContra then (if kind == Asset || kind == Equity then -1 else 1)
    else if kind == Liability || kind == Equity || kind == Revenue then -1 else 1
  }

  // Marking an account contra turns its sign round for assets, liabilities and revenue, and changes
  // nothing for equity and expense accounts.
  lemma ContraFlips(kind: AccountType)
    ensures SignOf(kind, true) == -SignOf(kind, false) <==> kind in {Asset, Liability, Revenue}
    ensures kind in {Equity, Expense, Other} ==> SignOf(kind, true) == SignOf(kind, false)
    ensures SignOf(kind, false) == -1 <==> kind in {Liability, Equity, Revenue}
  {
  }

  function LeafBalance(c: Chart, j: seq<Journal.Entry>, x: Id, w: Journal.Window): int
    requires x in c.accounts
  {
    var a := c.accounts[x];
    var net := Journal.PostedNet(j, a.tenant, x, w);
    if a.isContra then
      if a.kind == Asset || a.kind == Equity then -net else net
    else if a.kind == Liability || a.kind == Equity || a.kind == Revenue then -net
    else net
  }

  function Balance(c: Chart, j: seq<Journal.Entry>, x: Id, w: Journal.Window, depth: nat, visited: set<Id>)
    : Result<(int, set<Id>), WalkError>
    decreases Fuel(depth, MAX_DEPTH), 0
  {
    if depth > MAX_DEPTH then Err(TooDeep)
    else if x in visited then Err(Circular)
    else if x !in c.accounts then Ok((0, visited + {x}))
    else if c.accounts[x].isHeader then ChildrenBalance(c, j, Kids(Tree(c), x), w, depth + 1, visited + {x})
    else Ok((LeafBalance(c, j, x, w), visited + {x}))
  }

  function ChildrenBalance(
    c: Chart, j: seq<Journal.Entry>, cs: seq<Id>, w: Journal.Window, depth: nat, visited: set<Id>)
    : Result<(int, set<Id>), WalkError>
    decreases Fuel(depth, MAX_DEPTH), |cs| + 1
  {
    if cs == [] then Ok((0, visited))
    else if cs[0] !in c.accounts || !c.accounts[cs[0]].isActive then
      ChildrenBalance(c, j, cs[1..], w, depth, visited)
    else
      match Balance(c, j, cs[0], w, depth, visited)
      case Err(e) => Err(e)
      case Ok(head) =>
        match ChildrenBalance(c, j, cs[1..], w, depth, head.1)
        case Err(e) => Err(e)
        case Ok(rest) => Ok((head.0 + rest.0, rest.1))
  }

  // The call a report makes: end_date wins over as_of_date.
  function GetBalance(
    c: Chart, j: seq<Journal.Entry>, x: Id, start: Option<int>, end: Option<int>, asOf: Option<int>)
    : Result<int, WalkError>
  {
    match Balance(c, j, x, Journal.Window(start, if end.Some? then end else asOf), 0, {})
    case Err(e) => Err(e)
    case Ok(b) => Ok(b.0)
  }

  // ---------- the accounts a balance reaches ----------

  // The parent pointers a balance follows: from active accounts to header parents.
  function ActiveParent(c: Chart, y: Id): Option<Id> {
    if y in c.accounts && c.accounts[y].isActive && c.accounts[y].parent.Some?
       && c.accounts[y].parent.value in c.accounts && c.accounts[c.accounts[y].parent.value].isHeader
    then c.accounts[y].parent else None
  }

  function ActiveOnly(c: Chart, cs: seq<Id>): (r: seq<Id>)
    ensures forall y :: y in r <==> y in cs && y in c.accounts && c.accounts[y].isActive
  {
    if cs == [] then []
    else (if cs[0] in c.accounts && c.accounts[cs[0]].isActive then [cs[0]] else []) + ActiveOnly(c, cs[1..])
  }

  lemma {:induction false} ActiveOnlyDistinct(c: Chart, cs: seq<Id>)
    requires Distinct(cs)
    ensures Distinct(ActiveOnly(c, cs))
  {
    if cs != [] {
      ActiveOnlyDistinct(c, cs[1..]);
    }
  }

  function Reach(c: Chart): Forest {
    Forest.Forest(
      map x | x in c.accounts :: ActiveParent(c, x),
      map x | x in c.accounts && x in c.children && c.accounts[x].isHeader :: ActiveOnly(c, c.children[x]))
  }

  // The frontier of x: the non-header accounts reached from it through active children of headers.
  ghost predicate OnFrontier(c: Chart, x: Id, y: Id) {
    y in c.accounts && !c.accounts[y].isHeader && Within(Reach(c), x, y)
  }

  function WeightOf(c: Chart, y: Id): Journal.Weight
    requires y in c.accounts
  {
    Journal.Weight(c.accounts[y].tenant, SignOf(c.accounts[y].kind, c.accounts[y].isContra))
  }

  ghost function FrontierScope(c: Chart, x: Id): Journal.Scope {
    map y | y in c.accounts && OnFrontier(c, x, y) :: WeightOf(c, y)
  }

  lemma ReachValid(c: Chart)
    requires ValidChart(c)
    ensures Valid(Reach(c))
  {
    var f := Reach(c);
    forall x | x in f.kids ensures Distinct(f.kids[x]) {
      ActiveOnlyDistinct(c, c.children[x]);
    }
    forall x: Id, y: Id ensures y in Kids(f, x) <==> Parent(f, y) == Some(x) {
      assert y in Kids(Tree(c), x) <==> Parent(Tree(c), y) == Some(x);
    }
  }

  // ---------- the recursive balance is a walk that adds up leaves ----------

  function LeafSum(c: Chart, j: seq<Journal.Entry>, w: Journal.Window, ys: seq<Id>): int {
    if ys == [] then 0
    else
      (if ys[0] in c.accounts && !c.accounts[ys[0]].isHeader then LeafBalance(c, j, ys[0], w) else 0)
      + LeafSum(c, j, w, ys[1..])
  }

  lemma {:induction false} LeafSumConcat(c: Chart, j: seq<Journal.Entry>, w: Journal.Window, s: seq<Id>, t: seq<Id>)
    ensures LeafSum(c, j, w, s + t) == LeafSum(c, j, w, s) + LeafSum(c, j, w, t)
  {
    if s == [] {
      assert s + t == t;
    } else {
      LeafSumConcat(c, j, w, s[1..], t);
      assert (s + t)[1..] == s[1..] + t;
    }
  }

  lemma LeafSumOne(c: Chart, j: seq<Journal.Entry>, w: Journal.Window, y: Id)
    ensures LeafSum(c, j, w, [y]) ==
            if y in c.accounts && !c.accounts[y].isHeader then LeafBalance(c, j, y, w) else 0
  {
  }

  // The answer a balance gives once the walk below is done.
  function Summed(c: Chart, j: seq<Journal.Entry>, w: Journal.Window, root: seq<Id>, walk: Walk)
    : Result<(int, set<Id>), WalkError>
  {
    match walk
    case Err(e) => Err(e)
    case Ok(v) => Ok((LeafSum(c, j, w, root + v.0), v.1))
  }

  lemma SummedPrepend(c: Chart, j: seq<Journal.Entry>, w: Journal.Window, s: seq<Id>, r: Walk)
    ensures Summed(c, j, w, [], Prepend(s, r)) ==
            match Summed(c, j, w, [], r)
            case Err(e) => Err(e)
            case Ok(v) => Ok((LeafSum(c, j, w, s) + v.0, v.1))
  {
    if r.Ok? {
      LeafSumConcat(c, j, w, s, r.value.0);
      assert [] + (s + r.value.0) == s + r.value.0 && [] + r.value.0 == r.value.0;
    }
  }

  lemma {:induction false} BalanceIsWalk(
    c: Chart, j: seq<Journal.Entry>, x: Id, w: Journal.Window, depth: nat, visited: set<Id>)
    ensures Balance(c, j, x, w, depth, visited) ==
            Summed(c, j, w, [x], Visit(Reach(c), x, depth, MAX_DEPTH, visited))
    decreases Fuel(depth, MAX_DEPTH), 0
  {
    if depth <= MAX_DEPTH && x !in visited {
      if x in c.accounts && c.accounts[x].isHeader {
        assert Kids(Reach(c), x) == ActiveOnly(c, Kids(Tree(c), x));
        ChildrenBalanceIsWalk(c, j, Kids(Tree(c), x), w, depth + 1, visited + {x});
        var walk := VisitAll(Reach(c), Kids(Reach(c), x), depth + 1, MAX_DEPTH, visited + {x});
        if walk.Ok? {
          LeafSumConcat(c, j, w, [x], walk.value.0);
          assert [] + walk.value.0 == walk.value.0;
        }
      } else {
        assert Kids(Reach(c), x) == [];
        assert Visit(Reach(c), x, depth, MAX_DEPTH, visited) == Ok(([], visited + {x}));
        LeafSumOne(c, j, w, x);
        var none: seq<Id> := [];
        assert [x] + none == [x];
        assert Summed(c, j, w, [x], Visit(Reach(c), x, depth, MAX_DEPTH, visited))
            == Ok((LeafSum(c, j, w, [x]), visited + {x}));
      }
    }
  }

  function JoinWalks(x: Id, head: Walk, rest: Walk): Walk {
    if head.Err? then Err(head.error) else Prepend([x] + head.value.0, rest)
  }

  function JoinBalances(head: Result<(int, set<Id>), WalkError>, rest: Result<(int, set<Id>), WalkError>)
    : Result<(int, set<Id>), WalkError>
  {
    if head.Err? then head else if rest.Err? then rest else Ok((head.value.0 + rest.value.0, rest.value.1))
  }

  // On the results alone: a head and a rest that sum up one by one sum up together.
  lemma SummedJoin(c: Chart, j: seq<Journal.Entry>, w: Journal.Window, x: Id, head: Walk, rest: Walk)
    ensures Summed(c, j, w, [], JoinWalks(x, head, rest)) ==
            JoinBalances(Summed(c, j, w, [x], head), Summed(c, j, w, [], rest))
  {
    if head.Ok? {
      SummedPrepend(c, j, w, [x] + head.value.0, rest);
    }
  }

  lemma ActiveHeadWalk(c: Chart, cs: seq<Id>, depth: nat, visited: set<Id>, rest: Walk)
    requires cs != [] && cs[0] in c.accounts && c.accounts[cs[0]].isActive
    requires var head := Visit(Reach(c), cs[0], depth, MAX_DEPTH, visited);
             head.Ok? ==> rest == VisitAll(Reach(c), ActiveOnly(c, cs[1..]), depth, MAX_DEPTH, head.value.1)
    ensures VisitAll(Reach(c), ActiveOnly(c, cs), depth, MAX_DEPTH, visited) ==
            JoinWalks(cs[0], Visit(Reach(c), cs[0], depth, MAX_DEPTH, visited), rest)
  {
    var act := ActiveOnly(c, cs);
    assert act[0] == cs[0] && act[1..] == ActiveOnly(c, cs[1..]);
  }

  lemma InactiveHead(c: Chart, cs: seq<Id>)
    requires cs != [] && !(cs[0] in c.accounts && c.accounts[cs[0]].isActive)
    ensures ActiveOnly(c, cs) == ActiveOnly(c, cs[1..])
  {
  }

  lemma ActiveHeadBalance(
    c: Chart, j: seq<Journal.Entry>, cs: seq<Id>, w: Journal.Window, depth: nat, visited: set<Id>,
    rest: Result<(int, set<Id>), WalkError>)
    requires cs != [] && cs[0] in c.accounts && c.accounts[cs[0]].isActive
    requires var head := Balance(c, j, cs[0], w, depth, visited);
             head.Ok? ==> rest == ChildrenBalance(c, j, cs[1..], w, depth, head.value.1)
    ensures ChildrenBalance(c, j, cs, w, depth, visited) ==
            JoinBalances(Balance(c, j, cs[0], w, depth, visited), rest)
  {
  }

  lemma {:induction false} ChildrenBalanceIsWalk(
    c: Chart, j: seq<Journal.Entry>, cs: seq<Id>, w: Journal.Window, depth: nat, visited: set<Id>)
    ensures ChildrenBalance(c, j, cs, w, depth, visited) ==
            Summed(c, j, w, [], VisitAll(Reach(c), ActiveOnly(c, cs), depth, MAX_DEPTH, visited))
    decreases Fuel(depth, MAX_DEPTH), |cs| + 1
  {
    if cs == [] {
      assert [] + VisitAll(Reach(c), [], depth, MAX_DEPTH, visited).value.0 == [];
    } else if cs[0] in c.accounts && c.accounts[cs[0]].isActive {
      var head := Visit(Reach(c), cs[0], depth, MAX_DEPTH, visited);
      var rest: Walk := Err(Circular);
      BalanceIsWalk(c, j, cs[0], w, depth, visited);
      if head.Ok? {
        rest := VisitAll(Reach(c), ActiveOnly(c, cs[1..]), depth, MAX_DEPTH, head.value.1);
        ChildrenBalanceIsWalk(c, j, cs[1..], w, depth, head.value.1);
      }
      ActiveHeadWalk(c, cs, depth, visited, rest);
      ActiveHeadBalance(c, j, cs, w, depth, visited, Summed(c, j, w, [], rest));
      SummedJoin(c, j, w, cs[0], head, rest);
    } else {
      InactiveHead(c, cs);
      ChildrenBalanceIsWalk(c, j, cs[1..], w, depth, visited);
    }
  }

  // ---------- adding up leaves is one pass over the journal ----------

  function ScopeOf(c: Chart, ys: seq<Id>): Journal.Scope {
    map y | y in ys && y in c.accounts && !c.accounts[y].isHeader :: WeightOf(c, y)
  }

  lemma LeafIsJournalTotal(c: Chart, j: seq<Journal.Entry>, y: Id, w: Journal.Window)
    requires y in c.accounts
    ensures LeafBalance(c, j, y, w) == Journal.JournalTotal(j, w, map[y := WeightOf(c, y)])
  {
    Journal.JournalTotalOne(j, w, y, WeightOf(c, y));
  }

  lemma {:induction false} LeafSumIsJournalTotal(
    c: Chart, j: seq<Journal.Entry>, w: Journal.Window, ys: seq<Id>)
    requires Distinct(ys)
    ensures LeafSum(c, j, w, ys) == Journal.JournalTotal(j, w, ScopeOf(c, ys))
  {
    if ys == [] {
      assert ScopeOf(c, ys) == map[];
      Journal.JournalTotalEmpty(j, w);
    } else {
      LeafSumIsJournalTotal(c, j, w, ys[1..]);
      assert forall y :: y in ys <==> y == ys[0] || y in ys[1..];
      assert ys[0] !in ys[1..];
      if ys[0] in c.accounts && !c.accounts[ys[0]].isHeader {
        var one: Journal.Scope := map[ys[0] := WeightOf(c, ys[0])];
        assert ScopeOf(c, ys) == one + ScopeOf(c, ys[1..]);
        LeafIsJournalTotal(c, j, ys[0], w);
        Journal.JournalTotalUnion(j, w, one, ScopeOf(c, ys[1..]));
      } else {
        assert ScopeOf(c, ys) == ScopeOf(c, ys[1..]);
      }
    }
  }

  lemma WalkedOnce(c: Chart, x: Id)
    requires ValidChart(c) && Visit(Reach(c), x, 0, MAX_DEPTH, {}).Ok?
    ensures var ys := [x] + Visit(Reach(c), x, 0, MAX_DEPTH, {}).value.0;
            Distinct(ys) && forall y :: y in ys <==> Within(Reach(c), x, y)
  {
    ReachValid(c);
    VisitFromRoot(Reach(c), x, MAX_DEPTH);
    if Below(Reach(c), x, x) {
      CycleIsUnbounded(Reach(c), x, MAX_DEPTH);
    }
    DistinctConcat([x], Visit(Reach(c), x, 0, MAX_DEPTH, {}).value.0);
  }

  lemma ScopeIsFrontier(c: Chart, x: Id, ys: seq<Id>)
    requires forall y :: y in ys <==> Within(Reach(c), x, y)
    ensures ScopeOf(c, ys) == FrontierScope(c, x)
  {
  }

  // A walk that succeeds passes each frontier account once.
  lemma WalkedScope(c: Chart, j: seq<Journal.Entry>, x: Id, w: Journal.Window)
    requires ValidChart(c) && Visit(Reach(c), x, 0, MAX_DEPTH, {}).Ok?
    ensures LeafSum(c, j, w, [x] + Visit(Reach(c), x, 0, MAX_DEPTH, {}).value.0) ==
            Journal.JournalTotal(j, w, FrontierScope(c, x))
  {
    var ys := [x] + Visit(Reach(c), x, 0, MAX_DEPTH, {}).value.0;
    WalkedOnce(c, x);
    LeafSumIsJournalTotal(c, j, w, ys);
    assert ScopeOf(c, ys) == FrontierScope(c, x) by {
      ScopeIsFrontier(c, x, ys);
    }
  }

  // A balance succeeds exactly when nothing reached lies below depth 10 (so the account is on no cycle of
  // active headers), and it is then the flat signed sum of the posted lines of the frontier accounts,
  // each counted once.
  lemma BalanceIsFlatSum(
    c: Chart, j: seq<Journal.Entry>, x: Id, start: Option<int>, end: Option<int>, asOf: Option<int>)
    requires ValidChart(c)
    ensures var b := GetBalance(c, j, x, start, end, asOf);
            var w := Journal.Window(start, if end.Some? then end else asOf);
            && (b.Ok? <==> Bounded(Reach(c), x, 10))
            && (Below(Reach(c), x, x) ==> b.Err?)
            && (b == Err(Circular) ==> Below(Reach(c), x, x))
            && (b.Ok? ==> b.value == Journal.JournalTotal(j, w, FrontierScope(c, x)))
  {
    var w := Journal.Window(start, if end.Some? then end else asOf);
    var f := Reach(c);
    ReachValid(c);
    BalanceIsWalk(c, j, x, w, 0, {});
    VisitFromRoot(f, x, MAX_DEPTH);
    if Below(f, x, x) {
      CycleIsUnbounded(f, x, MAX_DEPTH);
    }
    if Visit(f, x, 0, MAX_DEPTH, {}).Ok? {
      WalkedScope(c, j, x, w);
    }
  }

  // Balances over two adjacent windows add up to the balance over both.
  lemma BalanceAdditive(
    c: Chart, j: seq<Journal.Entry>, x: Id, start: Option<int>, m: int, end: Option<int>)
    requires ValidChart(c)
    requires (start.Some? ==> start.value <= m + 1) && (end.Some? ==> m <= end.value)
    ensures var whole := GetBalance(c, j, x, start, end, None);
            var left := GetBalance(c, j, x, start, Some(m), None);
            var right := GetBalance(c, j, x, Some(m + 1), end, None);
            && (whole.Ok? <==> left.Ok?) && (whole.Ok? <==> right.Ok?)
            && (whole.Ok? ==> whole.value == left.value + right.value)
  {
    BalanceIsFlatSum(c, j, x, start, end, None);
    BalanceIsFlatSum(c, j, x, start, Some(m), None);
    BalanceIsFlatSum(c, j, x, Some(m + 1), end, None);
    Journal.JournalTotalSplit(j, Journal.Window(start, end), m, FrontierScope(c, x));
  }

  // After any run of postings and reversals, every undated balance, of a leaf or a header, is the sum over
  // the reversal chains: a chain with a posted root counts its root's effect if its length is odd and
  // nothing if it is even.
  lemma BalanceAfterRun(c: Chart, ops: seq<Reversals.Op>, x: Id)
    requires ValidChart(c)
    ensures var j := Reversals.Run(ops);
            var b := GetBalance(c, j, x, None, None, None);
            var chains := Reversals.ChainsOf(Reversals.Links(j));
            && Reversals.Partition(Reversals.Links(j), chains) && Reversals.Rooted(j, chains)
            && (b.Ok? ==> b.value == Reversals.ChainsEffect(j, FrontierScope(c, x), chains))
  {
    BalanceIsFlatSum(c, Reversals.Run(ops), x, None, None, None);
    Reversals.UndatedBalance(ops, FrontierScope(c, x));
  }

  // An account is reached if it is the one asked for, or an active child of a header that is reached.
  lemma ReachedExactly(c: Chart, x: Id, y: Id)
    ensures Within(Reach(c), x, y) <==>
            || y == x
            || (&& y in c.accounts && c.accounts[y].isActive
                && c.accounts[y].parent.Some? && c.accounts[y].parent.value in c.accounts
                && c.accounts[c.accounts[y].parent.value].isHeader
                && Within(Reach(c), x, c.accounts[y].parent.value))
  {
    WithinParent(Reach(c), x, y);
  }

  // ---------- what one entry does to a balance ----------

  // A posted entry dated within the bounds, both of them included, moves a balance by its lines on the
  // frontier; end_date wins over as_of_date; any other entry leaves the balance alone.
  lemma OneEntryMoves(
    c: Chart, j: seq<Journal.Entry>, e: Journal.Entry, x: Id,
    start: Option<int>, end: Option<int>, asOf: Option<int>)
    requires ValidChart(c) && GetBalance(c, j, x, start, end, asOf).Ok?
    ensures GetBalance(c, j + [e], x, start, end, asOf) ==
            Ok(GetBalance(c, j, x, start, end, asOf).value +
               if && e.status == Journal.Posted
                  && (start.Some? ==> start.value <= e.date)
                  && (end.Some? ==> e.date <= end.value)
                  && (end.None? && asOf.Some? ==> e.date <= asOf.value)
               then Journal.LinesTotal(e.lines, e.tenant, FrontierScope(c, x)) else 0)
  {
    BalanceIsFlatSum(c, j, x, start, end, asOf);
    BalanceIsFlatSum(c, j + [e], x, start, end, asOf);
    assert (j + [e])[..|j|] == j;
  }

  // One line: nothing if its account is off the frontier or another tenant's; else debit less credit for
  // assets, expenses and unnamed types, and credit less debit for the rest, with the contra flag turning
  // assets, liabilities and revenue round.
  lemma OneLineMoves(c: Chart, x: Id, l: Journal.Line, tenant: Id)
    ensures Journal.LinesTotal([l], tenant, FrontierScope(c, x)) ==
            if l.account !in c.accounts || c.accounts[l.account].isHeader || c.accounts[l.account].tenant != tenant
               || !Within(Reach(c), x, l.account) then 0
            else
              match c.accounts[l.account].kind
              case Asset => if c.accounts[l.account].isContra then l.credit - l.debit else l.debit - l.credit
              case Liability => if c.accounts[l.account].isContra then l.debit - l.credit else l.credit - l.debit
              case Equity => l.credit - l.debit
              case Revenue => if c.accounts[l.account].isContra then l.debit - l.credit else l.credit - l.debit
              case Expense => l.debit - l.credit
              case Other => l.debit - l.credit
  {
    assert [l][1..] == [];
  }

  // A reversal moves the balances whose window holds the moment it is made, by the opposite of the entry
  // reversed, whenever that one was dated; a balance up to an earlier date does not change.
  lemma ReversalMoves(
    c: Chart, j: seq<Journal.Entry>, id: Id, now: int, x: Id,
    start: Option<int>, end: Option<int>, asOf: Option<int>)
    requires ValidChart(c) && GetBalance(c, j, x, start, end, asOf).Ok?
    requires Journal.ReverseIn(j, id, now).Ok?
    ensures GetBalance(c, Journal.ReverseIn(j, id, now).value, x, start, end, asOf) ==
            Ok(GetBalance(c, j, x, start, end, asOf).value -
               if && (start.Some? ==> start.value <= now)
                  && (end.Some? ==> now <= end.value)
                  && (end.None? && asOf.Some? ==> now <= asOf.value)
               then Journal.LinesTotal(j[id].lines, j[id].tenant, FrontierScope(c, x)) else 0)
  {
    Journal.ReverseExactly(j, id, now);
    var after, scope := Journal.ReverseIn(j, id, now).value, FrontierScope(c, x);
    var before, m := after[..|j|], after[|j|];
    var w := Journal.Window(start, if end.Some? then end else asOf);
    assert after == before + [m];
    BalanceIsFlatSum(c, j, x, start, end, asOf);
    BalanceIsFlatSum(c, before, x, start, end, asOf);
    Journal.JournalTotalSame(before, j, w, scope);
    OneEntryMoves(c, before, m, x, start, end, asOf);
    Journal.MirroredLinesTotal(m.lines, j[id].lines, m.tenant, scope);
  }
}
