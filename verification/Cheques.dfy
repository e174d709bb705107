/** Cheques: refreshing the due-date warnings, the lists built on them, and the rule of one source document
    (models/cheque.py:133-185, 284-325). Dates are day numbers. */
module Cheques {
  import opened Wrappers

  datatype Status = Pending | Deposited | UnderCollection | Cleared | Bounced | Cancelled

  datatype Cheque = Cheque(
    id: nat, tenant: nat, branch: Option<nat>, status: Status, isActive: bool, dueDate: int,
    daysUntilDue: Option<int>, isOverdue: bool)

  // The optional filters every list takes.
  datatype Scope = Scope(tenant: Option<nat>, branch: Option<nat>)

  predicate InScope(c: Cheque, s: Scope) {
    && (s.tenant.Some? ==> c.tenant == s.tenant.value)
    && (s.branch.Some? ==> c.branch == s.branch)
  }

  function UpdateStatus(c: Cheque, today: int): Cheque {
    if c.status == Cleared || c.status == Cancelled || c.status == Bounced then c
    else c.(daysUntilDue := Some(c.dueDate - today), isOverdue := today > c.dueDate)
  }

  predicate Refreshes(c: Cheque, s: Scope) {
    c.status == Pending && c.isActive && InScope(c, s)
  }

  function UpdateAll(rows: seq<Cheque>, s: Scope, today: int): (r: seq<Cheque>)
    ensures |r| == |rows|
    ensures forall i | 0 <= i < |r| :: r[i] == if Refreshes(rows[i], s) then UpdateStatus(rows[i], today) else rows[i]
  {
    seq(|rows|, i requires 0 <= i < |rows| => if Refreshes(rows[i], s) then UpdateStatus(rows[i], today) else rows[i])
  }

  // The two lists test the stored warnings, not the dates.
  datatype View = DueSoon | Overdue

  predicate Listed(c: Cheque, v: View, s: Scope) {
    && c.isActive && c.status == Pending && InScope(c, s)
    && match v
       case DueSoon => c.daysUntilDue.Some? && 0 <= c.daysUntilDue.value <= 7
       case Overdue => c.isOverdue
  }

  function Select(rows: seq<Cheque>, v: View, s: Scope): seq<Cheque> {
    if rows == [] then []
    else Select(rows[..|rows| - 1], v, s) + if Listed(rows[|rows| - 1], v, s) then [rows[|rows| - 1]] else []
  }

  // Into a list ordered by due date, after the rows due no later.
  function Insert(sorted: seq<Cheque>, c: Cheque): seq<Cheque> {
    if sorted == [] || sorted[|sorted| - 1].dueDate <= c.dueDate then sorted + [c]
    else Insert(sorted[..|sorted| - 1], c) + [sorted[|sorted| - 1]]
  }

  function OrderByDue(rows: seq<Cheque>): seq<Cheque> {
    if rows == [] then [] else Insert(OrderByDue(rows[..|rows| - 1]), rows[|rows| - 1])
  }

  function ListOf(rows: seq<Cheque>, v: View, s: Scope, today: int): seq<Cheque> {
    OrderByDue(Select(UpdateAll(rows, s, today), v, s))
  }

  lemma OrderSelectStep(t: seq<Cheque>, c: Cheque, v: View, s: Scope)
    ensures OrderByDue(Select(t + [c], v, s)) ==
            if Listed(c, v, s) then Insert(OrderByDue(Select(t, v, s)), c) else OrderByDue(Select(t, v, s))
  {
    assert (t + [c])[..|t|] == t;
    var done := Select(t, v, s);
    assert (done + [c])[..|done|] == done && done + [] == done;
  }

  class ChequeTable {
    var rows: seq<Cheque>

    constructor (cs: seq<Cheque>)
      ensures rows == cs
    {
      rows := cs;
    }

    method UpdateAllStatuses(s: Scope, today: int)
      modifies this
      ensures rows == UpdateAll(old(rows), s, today)
    {
      for i := 0 to |rows|
        invariant |rows| == |old(rows)|
        invariant forall k | 0 <= k < |rows| ::
          rows[k] == if k < i then UpdateAll(old(rows), s, today)[k] else old(rows)[k]
      {
        if Refreshes(rows[i], s) {
          rows := rows[i := UpdateStatus(rows[i], today)];
        }
      }
    }

    // get_due_soon_cheques and get_overdue_cheques: refresh, then filter and order.
    method GetCheques(v: View, s: Scope, today: int) returns (r: seq<Cheque>)
      modifies this
      ensures rows == UpdateAll(old(rows), s, today)
      ensures r == ListOf(old(rows), v, s, today)
    {
      UpdateAllStatuses(s, today);
      r := [];
      for i := 0 to |rows|
        invariant rows == UpdateAll(old(rows), s, today)
        invariant r == OrderByDue(Select(rows[..i], v, s))
      {
        OrderSelectStep(rows[..i], rows[i], v, s);
        assert rows[..i + 1] == rows[..i] + [rows[i]];
        if Listed(rows[i], v, s) {
          r := Insert(r, rows[i]);
        }
      }
      assert rows[..|rows|] == rows;
    }
  }

  // ---------- the lists, in terms of dates ----------

  predicate DueIn(c: Cheque, v: View, today: int) {
    match v
    case DueSoon => today <= c.dueDate <= today + 7
    case Overdue => c.dueDate < today
  }

  predicate Wanted(c: Cheque, v: View, s: Scope, today: int) {
    c.isActive && c.status == Pending && InScope(c, s) && DueIn(c, v, today)
  }

  // The wanted rows in table order, each with its warnings brought up to date.
  function Expected(rows: seq<Cheque>, v: View, s: Scope, today: int): seq<Cheque> {
    if rows == [] then []
    else
      var c := rows[|rows| - 1];
      Expected(rows[..|rows| - 1], v, s, today) + if Wanted(c, v, s, today) then [UpdateStatus(c, today)] else []
  }

  ghost predicate SortedByDue(cs: seq<Cheque>) {
    forall i, k | 0 <= i < k < |cs| :: cs[i].dueDate <= cs[k].dueDate
  }

  lemma {:induction false} SelectIsExpected(rows: seq<Cheque>, v: View, s: Scope, today: int)
    ensures Select(UpdateAll(rows, s, today), v, s) == Expected(rows, v, s, today)
  {
    if rows != [] {
      var n := |rows| - 1;
      SelectIsExpected(rows[..n], v, s, today);
      assert UpdateAll(rows, s, today)[..n] == UpdateAll(rows[..n], s, today);
    }
  }

  lemma {:induction false} InsertAdds(sorted: seq<Cheque>, c: Cheque)
    ensures multiset(Insert(sorted, c)) == multiset(sorted) + multiset{c}
  {
    if sorted != [] && sorted[|sorted| - 1].dueDate > c.dueDate {
      InsertAdds(sorted[..|sorted| - 1], c);
      assert sorted == sorted[..|sorted| - 1] + [sorted[|sorted| - 1]];
    }
  }

  lemma {:induction false} InsertSorts(sorted: seq<Cheque>, c: Cheque, bound: int)
    requires SortedByDue(sorted) && c.dueDate <= bound && forall i | 0 <= i < |sorted| :: sorted[i].dueDate <= bound
    ensures SortedByDue(Insert(sorted, c))
    ensures forall i | 0 <= i < |Insert(sorted, c)| :: Insert(sorted, c)[i].dueDate <= bound
  {
    if sorted != [] && sorted[|sorted| - 1].dueDate > c.dueDate {
      InsertSorts(sorted[..|sorted| - 1], c, sorted[|sorted| - 1].dueDate);
    }
  }

  function Latest(sorted: seq<Cheque>, c: Cheque): int {
    if sorted == [] || sorted[|sorted| - 1].dueDate <= c.dueDate then c.dueDate else sorted[|sorted| - 1].dueDate
  }

  lemma {:induction false} OrderByDueSorts(rows: seq<Cheque>)
    ensures SortedByDue(OrderByDue(rows)) && multiset(OrderByDue(rows)) == multiset(rows)
  {
    if rows != [] {
      var n := |rows| - 1;
      OrderByDueSorts(rows[..n]);
      var done := OrderByDue(rows[..n]);
      InsertAdds(done, rows[n]);
      InsertSorts(done, rows[n], Latest(done, rows[n]));
      assert rows == rows[..n] + [rows[n]];
    }
  }

  // Each list is exactly the in-scope, active, pending cheques of its span of due dates, as often as they
  // stand in the table and ordered by due date, whatever warnings were stored before.
  lemma ListExactly(rows: seq<Cheque>, v: View, s: Scope, today: int)
    ensures var r := ListOf(rows, v, s, today);
            && SortedByDue(r)
            && multiset(r) == multiset(Expected(rows, v, s, today))
  {
    SelectIsExpected(rows, v, s, today);
    OrderByDueSorts(Expected(rows, v, s, today));
  }

  lemma {:induction false} ExpectedDates(rows: seq<Cheque>, v: View, s: Scope, today: int)
    ensures forall c | c in Expected(rows, v, s, today) :: DueIn(c, v, today)
  {
    if rows != [] {
      ExpectedDates(rows[..|rows| - 1], v, s, today);
    }
  }

  lemma ListDates(rows: seq<Cheque>, v: View, s: Scope, today: int)
    ensures forall c | c in ListOf(rows, v, s, today) :: DueIn(c, v, today)
  {
    ListExactly(rows, v, s, today);
    ExpectedDates(rows, v, s, today);
    forall c | c in ListOf(rows, v, s, today) ensures DueIn(c, v, today) {
      assert c in multiset(ListOf(rows, v, s, today));
      assert c in Expected(rows, v, s, today);
    }
  }

  // No cheque is in both lists of one day.
  lemma ListsDisjoint(rows: seq<Cheque>, s: Scope, today: int)
    ensures Disjoint(ListOf(rows, DueSoon, s, today), ListOf(rows, Overdue, s, today))
  {
    ListDates(rows, DueSoon, s, today);
    ListDates(rows, Overdue, s, today);
    var soon, late := ListOf(rows, DueSoon, s, today), ListOf(rows, Overdue, s, today);
    forall c | c in soon ensures c !in late {
      assert DueIn(c, DueSoon, today) && !DueIn(c, Overdue, today);
    }
  }

  function Unwarned(c: Cheque): Cheque {
    c.(daysUntilDue := None, isOverdue := false)
  }

  // Two tables that differ only in stored warnings give the same lists, warnings included.
  lemma {:induction false} StaleWarningsIgnored(a: seq<Cheque>, b: seq<Cheque>, v: View, s: Scope, today: int)
    requires |a| == |b| && forall i | 0 <= i < |a| :: Unwarned(a[i]) == Unwarned(b[i])
    ensures Expected(a, v, s, today) == Expected(b, v, s, today)
    ensures ListOf(a, v, s, today) == ListOf(b, v, s, today)
  {
    if a != [] {
      var n := |a| - 1;
      StaleWarningsIgnored(a[..n], b[..n], v, s, today);
      assert Unwarned(a[n]) == Unwarned(b[n]);
      assert UpdateStatus(Unwarned(a[n]), today) == UpdateStatus(Unwarned(b[n]), today);
      assert Wanted(a[n], v, s, today) ==> UpdateStatus(a[n], today) == UpdateStatus(b[n], today);
    }
    SelectIsExpected(a, v, s, today);
    SelectIsExpected(b, v, s, today);
  }

  // What a refresh makes of one cheque: the days left and whether it is late, unless the cheque is settled.
  lemma StatusExactly(c: Cheque, today: int)
    ensures c.status == Cleared || c.status == Cancelled || c.status == Bounced ==> UpdateStatus(c, today) == c
    ensures c.status == Pending || c.status == Deposited || c.status == UnderCollection ==>
              && Unwarned(UpdateStatus(c, today)) == Unwarned(c)
              && UpdateStatus(c, today).daysUntilDue == Some(c.dueDate - today)
              && (UpdateStatus(c, today).isOverdue <==> c.dueDate < today)
  {
  }

  // A refresh reaches the pending, active rows of the tenant and the branch asked for, and no other.
  lemma RefreshExactly(rows: seq<Cheque>, tenant: Option<nat>, branch: Option<nat>, today: int, i: nat)
    requires i < |rows|
    ensures |UpdateAll(rows, Scope(tenant, branch), today)| == |rows|
    ensures UpdateAll(rows, Scope(tenant, branch), today)[i] ==
            if && rows[i].status == Pending && rows[i].isActive
               && (tenant.None? || rows[i].tenant == tenant.value)
               && (branch.None? || rows[i].branch == Some(branch.value))
            then UpdateStatus(rows[i], today) else rows[i]
  {
  }

  // The row belongs in the list: pending and active, of the tenant and the branch asked for, and due in time.
  predicate Belongs(c: Cheque, v: View, tenant: Option<nat>, branch: Option<nat>, today: int) {
    && c.status == Pending && c.isActive
    && (tenant.Some? ==> c.tenant == tenant.value)
    && (branch.Some? ==> c.branch.Some? && c.branch.value == branch.value)
    && match v
       case DueSoon => today <= c.dueDate <= today + 7
       case Overdue => c.dueDate < today
  }

  // How many of the rows up to n belong in the list and look like x once refreshed.
  function CountOf(
    rows: seq<Cheque>, x: Cheque, v: View, tenant: Option<nat>, branch: Option<nat>, today: int): nat
  {
    if rows == [] then 0
    else
      var c := rows[|rows| - 1];
      CountOf(rows[..|rows| - 1], x, v, tenant, branch, today)
      + if Belongs(c, v, tenant, branch, today) && UpdateStatus(c, today) == x then 1 else 0
  }

  lemma {:induction false} ExpectedCounts(
    rows: seq<Cheque>, x: Cheque, v: View, tenant: Option<nat>, branch: Option<nat>, today: int)
    ensures multiset(Expected(rows, v, Scope(tenant, branch), today))[x] ==
            CountOf(rows, x, v, tenant, branch, today)
  {
    if rows != [] {
      ExpectedCounts(rows[..|rows| - 1], x, v, tenant, branch, today);
    }
  }

  // Each list holds a cheque exactly as often as it stands among the rows that belong there.
  lemma ListCounts(rows: seq<Cheque>, x: Cheque, v: View, tenant: Option<nat>, branch: Option<nat>, today: int)
    ensures multiset(ListOf(rows, v, Scope(tenant, branch), today))[x] ==
            CountOf(rows, x, v, tenant, branch, today)
  {
    ListExactly(rows, v, Scope(tenant, branch), today);
    ExpectedCounts(rows, x, v, tenant, branch, today);
  }

  // ---------- one source document ----------

  datatype Source = SaleId | PurchaseId | PaymentId | ReceiptId | ExpenseId

  // The source fields that are not null.
  type Sources = map<Source, nat>

  datatype SourceError = TwoSources

  function Assign(s: Sources, field: Source, value: Option<nat>): Result<Sources, SourceError> {
    if value.Some? && s.Keys - {field} != {} then Err(TwoSources)
    else if value.None? then Ok(s - {field})
    else Ok(s[field := value.value])
  }

  function AssignAll(s: Sources, writes: seq<(Source, Option<nat>)>): Sources {
    if writes == [] then s
    else
      var before := AssignAll(s, writes[..|writes| - 1]);
      var r := Assign(before, writes[|writes| - 1].0, writes[|writes| - 1].1);
      if r.Ok? then r.value else before
  }

  // An assignment is refused exactly when it would give the cheque a second source document; else it changes
  // the one field.
  lemma AssignExactly(s: Sources, field: Source, value: Option<nat>)
    requires |s| <= 1
    ensures Assign(s, field, value).Err? <==> value.Some? && |s.Keys + {field}| == 2
    ensures Assign(s, field, value).Ok? ==>
              var after := Assign(s, field, value).value;
              && |after| <= 1
              && (field in after <==> value.Some?) && (field in after ==> value == Some(after[field]))
              && (forall other: Source | other != field ::
                    (other in after <==> other in s) && (other in after ==> after[other] == s[other]))
  {
  }

  lemma {:induction false} OneSource(s: Sources, writes: seq<(Source, Option<nat>)>)
    requires |s| <= 1
    ensures |AssignAll(s, writes)| <= 1
  {
    if writes != [] {
      var before, w := AssignAll(s, writes[..|writes| - 1]), writes[|writes| - 1];
      OneSource(s, writes[..|writes| - 1]);
      AssignExactly(before, w.0, w.1);
    }
  }
}
