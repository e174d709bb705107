/** Journal entries, their sums, validation and reversal (models/gl.py:192-566).
    Money is in thousandths (the columns are Numeric(18,3)); dates are ticks of a clock. */
module Journal {
  import opened Wrappers
  import Rounding

  type Id = nat

  datatype Line = Line(account: Id, debit: int, credit: int, amount: Option<int>, amountBase: int)

  datatype Status = Draft | Validated | Error | Posted | Reversed | Cancelled

  datatype Entry = Entry(
    tenant: Id, date: int, branch: Option<Id>, status: Status,
    totalDebit: int, totalCredit: int, isPosted: bool, isReversed: bool,
    reversedEntry: Option<Id>, lines: seq<Line>)

  datatype JournalError = AlreadyReversed | Unbalanced | NoSuchEntry

  // Both bounds are inclusive; None is "no bound".
  datatype Window = Window(start: Option<int>, end: Option<int>)

  const ALL_DATES := Window(None, None)
  const TOLERANCE := 1

  predicate InWindow(date: int, w: Window) {
    && (w.start.Some? ==> date >= w.start.value)
    && (w.end.Some? ==> date <= w.end.value)
  }

  predicate IsBalanced(e: Entry) {
    Rounding.Abs(e.totalDebit - e.totalCredit) <= TOLERANCE
  }

  // ---------- the balance of one account: debits minus credits on its posted lines ----------

  function AccountNet(lines: seq<Line>, account: Id): int {
    if lines == [] then 0
    else
      (if lines[0].account == account then lines[0].debit - lines[0].credit else 0) + AccountNet(lines[1..], account)
  }

  function PostedNet(j: seq<Entry>, tenant: Id, account: Id, w: Window): int {
    if j == [] then 0
    else
      var e := j[|j| - 1];
      PostedNet(j[..|j| - 1], tenant, account, w) +
      if e.status == Posted && e.tenant == tenant && InWindow(e.date, w) then AccountNet(e.lines, account) else 0
  }

  // ---------- one pass over the journal for a whole set of accounts ----------

  // A set of accounts, each with its tenant and the sign its balance is shown with.
  datatype Weight = Weight(tenant: Id, sign: int)
  type Scope = map<Id, Weight>

  function Apply(sign: int, n: int): int {
    if sign > 0 then n else if sign < 0 then -n else 0
  }

  function LinesTotal(lines: seq<Line>, tenant: Id, scope: Scope): int {
    if lines == [] then 0
    else
      var l := lines[0];
      LinesTotal(lines[1..], tenant, scope) +
      if l.account in scope && scope[l.account].tenant == tenant
      then Apply(scope[l.account].sign, l.debit - l.credit) else 0
  }

  function EntryTotal(e: Entry, w: Window, scope: Scope): int {
    if e.status == Posted && InWindow(e.date, w) then LinesTotal(e.lines, e.tenant, scope) else 0
  }

  function JournalTotal(j: seq<Entry>, w: Window, scope: Scope): int {
    if j == [] then 0
    else JournalTotal(j[..|j| - 1], w, scope) + EntryTotal(j[|j| - 1], w, scope)
  }

  lemma {:induction false} LinesTotalEmpty(lines: seq<Line>, tenant: Id)
    ensures LinesTotal(lines, tenant, map[]) == 0
  {
    if lines != [] {
      LinesTotalEmpty(lines[1..], tenant);
    }
  }

  lemma {:induction false} JournalTotalEmpty(j: seq<Entry>, w: Window)
    ensures JournalTotal(j, w, map[]) == 0
  {
    if j != [] {
      JournalTotalEmpty(j[..|j| - 1], w);
      LinesTotalEmpty(j[|j| - 1].lines, j[|j| - 1].tenant);
    }
  }

  lemma {:induction false} LinesTotalUnion(lines: seq<Line>, tenant: Id, a: Scope, b: Scope)
    requires a.Keys !! b.Keys
    ensures LinesTotal(lines, tenant, a + b) == LinesTotal(lines, tenant, a) + LinesTotal(lines, tenant, b)
  {
    if lines != [] {
      LinesTotalUnion(lines[1..], tenant, a, b);
    }
  }

  lemma {:induction false} JournalTotalUnion(j: seq<Entry>, w: Window, a: Scope, b: Scope)
    requires a.Keys !! b.Keys
    ensures JournalTotal(j, w, a + b) == JournalTotal(j, w, a) + JournalTotal(j, w, b)
  {
    if j != [] {
      JournalTotalUnion(j[..|j| - 1], w, a, b);
      LinesTotalUnion(j[|j| - 1].lines, j[|j| - 1].tenant, a, b);
    }
  }

  lemma {:induction false} LinesTotalOne(lines: seq<Line>, tenant: Id, account: Id, wt: Weight)
    ensures LinesTotal(lines, tenant, map[account := wt]) ==
            if wt.tenant == tenant then Apply(wt.sign, AccountNet(lines, account)) else 0
  {
    if lines != [] {
      LinesTotalOne(lines[1..], tenant, account, wt);
    }
  }

  lemma {:induction false} JournalTotalOne(j: seq<Entry>, w: Window, account: Id, wt: Weight)
    ensures JournalTotal(j, w, map[account := wt]) == Apply(wt.sign, PostedNet(j, wt.tenant, account, w))
  {
    if j != [] {
      JournalTotalOne(j[..|j| - 1], w, account, wt);
      LinesTotalOne(j[|j| - 1].lines, j[|j| - 1].tenant, account, wt);
    }
  }

  // [a, m] followed by [m+1, b] is [a, b], provided m lies within one tick of the window.
  lemma {:induction false} JournalTotalSplit(j: seq<Entry>, w: Window, m: int, scope: Scope)
    requires w.start.Some? ==> w.start.value <= m + 1
    requires w.end.Some? ==> m <= w.end.value
    ensures JournalTotal(j, w, scope) ==
            JournalTotal(j, w.(end := Some(m)), scope) + JournalTotal(j, w.(start := Some(m + 1)), scope)
  {
    if j != [] {
      JournalTotalSplit(j[..|j| - 1], w, m, scope);
    }
  }

  // ---------- validation and reversal ----------

  // The before_insert / before_update hook: refuse, or bring the flags in line with the status.
  function Validate(e: Entry): Result<Entry, JournalError> {
    if !IsBalanced(e) then Err(Unbalanced)
    else
      Ok(e.(isPosted := e.status == Posted || e.status == Reversed,
            isReversed := e.isReversed || e.status == Reversed))
  }

  function SwapLine(l: Line): Line {
    Line(l.account, l.credit, l.debit, Some(if l.amount.Some? then -l.amount.value else 0), -l.amountBase)
  }

  function SwapLines(lines: seq<Line>): (r: seq<Line>)
    ensures |r| == |lines|
    ensures forall k | 0 <= k < |r| :: r[k] == SwapLine(lines[k])
  {
    seq(|lines|, k requires 0 <= k < |lines| => SwapLine(lines[k]))
  }

  function Mirror(e: Entry, id: Id, now: int): Entry {
    Entry(e.tenant, now, e.branch, Posted, e.totalCredit, e.totalDebit, false, false, Some(id), SwapLines(e.lines))
  }

  // What one reverse_entry call leaves in the table, or the error it raises.
  function ReverseIn(j: seq<Entry>, id: Id, now: int): Result<seq<Entry>, JournalError> {
    if id >= |j| then Err(NoSuchEntry)
    else if j[id].isReversed then Err(AlreadyReversed)
    else
      match (Validate(Mirror(j[id], id, now)), Validate(j[id].(isReversed := true)))
      case (Ok(mirror), Ok(original)) => Ok(j[id := original] + [mirror])
      case _ => Err(Unbalanced)
  }

  function InsertIn(j: seq<Entry>, e: Entry): Result<seq<Entry>, JournalError> {
    match Validate(e.(isReversed := false, reversedEntry := None))
    case Ok(row) => Ok(j + [row])
    case Err(x) => Err(x)
  }

  // The journal table. A method that returns an error has raised, and its transaction leaves the table as it was.
  class Ledger {
    var entries: seq<Entry>

    constructor ()
      ensures entries == []
    {
      entries := [];
    }

    method Insert(e: Entry) returns (r: Result<Id, JournalError>)
      modifies this
      ensures match InsertIn(old(entries), e)
              case Ok(after) => r == Ok(|old(entries)|) && entries == after
              case Err(x) => r == Err(x) && entries == old(entries)
    {
      var row := Validate(e.(isReversed := false, reversedEntry := None));
      if row.Err? {
        return Err(row.error);
      }
      r := Ok(|entries|);
      entries := entries + [row.value];
    }

    method ReverseEntry(id: Id, now: int) returns (r: Result<Id, JournalError>)
      modifies this
      ensures match ReverseIn(old(entries), id, now)
              case Ok(after) => r == Ok(|old(entries)|) && entries == after
              case Err(x) => r == Err(x) && entries == old(entries)
    {
      if id >= |entries| {
        return Err(NoSuchEntry);
      }
      var original := entries[id];
      if original.isReversed {
        return Err(AlreadyReversed);
      }
      var header := Validate(Entry(original.tenant, now, original.branch, Posted, original.totalCredit,
                                   original.totalDebit, false, false, Some(id), []));
      if header.Err? {
        return Err(header.error);
      }
      var lines := [];
      var k := 0;
      while k < |original.lines|
        invariant 0 <= k <= |original.lines|
        invariant lines == SwapLines(original.lines)[..k]
      {
        var l := original.lines[k];
        lines := lines + [Line(l.account, l.credit, l.debit,
                               Some(if l.amount.Some? then -l.amount.value else 0), -l.amountBase)];
        k := k + 1;
      }
      assert lines == SwapLines(original.lines);
      // The hook runs on the update too; it cannot refuse here, having just accepted the mirrored totals.
      var updated := Validate(original.(isReversed := true));
      r := Ok(|entries|);
      entries := entries[id := updated.value] + [header.value.(lines := lines)];
    }
  }

  // ---------- what a reversal does to sums ----------

  // A mirror entry has the opposite effect on every set of accounts.
  lemma {:induction false} SwappedLinesNegate(lines: seq<Line>, tenant: Id, scope: Scope)
    ensures LinesTotal(SwapLines(lines), tenant, scope) == -LinesTotal(lines, tenant, scope)
  {
    if lines != [] {
      assert SwapLines(lines)[1..] == SwapLines(lines[1..]);
      SwappedLinesNegate(lines[1..], tenant, scope);
    }
  }

  function DebitSum(lines: seq<Line>): int {
    if lines == [] then 0 else lines[0].debit + DebitSum(lines[1..])
  }

  function CreditSum(lines: seq<Line>): int {
    if lines == [] then 0 else lines[0].credit + CreditSum(lines[1..])
  }

  lemma {:induction false} SwappedSums(lines: seq<Line>)
    ensures DebitSum(SwapLines(lines)) == CreditSum(lines)
    ensures CreditSum(SwapLines(lines)) == DebitSum(lines)
  {
    if lines != [] {
      assert SwapLines(lines)[1..] == SwapLines(lines[1..]);
      SwappedSums(lines[1..]);
    }
  }

  // ---------- exact outcomes, field by field ----------

  // All but the flags and the link.
  predicate SameDocument(a: Entry, b: Entry) {
    && a.tenant == b.tenant && a.date == b.date && a.branch == b.branch && a.status == b.status
    && a.totalDebit == b.totalDebit && a.totalCredit == b.totalCredit && a.lines == b.lines
  }

  // The tolerance is one thousandth either way; a row is stored as given, but for its flags and its link.
  lemma InsertExactly(j: seq<Entry>, e: Entry)
    ensures InsertIn(j, e).Ok? <==> -1 <= e.totalDebit - e.totalCredit <= 1
    ensures InsertIn(j, e).Err? ==> InsertIn(j, e).error == Unbalanced
    ensures InsertIn(j, e).Ok? ==>
              var after := InsertIn(j, e).value;
              && |after| == |j| + 1 && after[..|j|] == j
              && SameDocument(after[|j|], e) && after[|j|].reversedEntry == None
              && (after[|j|].isPosted <==> e.status == Posted || e.status == Reversed)
              && (after[|j|].isReversed <==> e.status == Reversed)
  {
  }

  ghost predicate Reverses(m: Entry, e: Entry, id: Id, now: int) {
    && m.tenant == e.tenant && m.date == now && m.branch == e.branch && m.status == Posted
    && m.totalDebit == e.totalCredit && m.totalCredit == e.totalDebit
    && m.isPosted && !m.isReversed && m.reversedEntry == Some(id)
    && |m.lines| == |e.lines|
    && forall k | 0 <= k < |e.lines| ::
         && m.lines[k].account == e.lines[k].account
         && m.lines[k].debit == e.lines[k].credit && m.lines[k].credit == e.lines[k].debit
         && m.lines[k].amount == Some(if e.lines[k].amount.Some? then -e.lines[k].amount.value else 0)
         && m.lines[k].amountBase == -e.lines[k].amountBase
  }

  // When a reversal is refused; and what it leaves: the new entry, dated now, with every amount turned round,
  // and the original marked as reversed.
  lemma ReverseExactly(j: seq<Entry>, id: Id, now: int)
    ensures ReverseIn(j, id, now) == Err(NoSuchEntry) <==> id >= |j|
    ensures ReverseIn(j, id, now) == Err(AlreadyReversed) <==> id < |j| && j[id].isReversed
    ensures ReverseIn(j, id, now) == Err(Unbalanced) <==>
            id < |j| && !j[id].isReversed && !(-1 <= j[id].totalDebit - j[id].totalCredit <= 1)
    ensures ReverseIn(j, id, now).Ok? ==>
              var after := ReverseIn(j, id, now).value;
              && |after| == |j| + 1 && id < |j|
              && (forall i | 0 <= i < |j| && i != id :: after[i] == j[i])
              && SameDocument(after[id], j[id]) && after[id].reversedEntry == j[id].reversedEntry
              && after[id].isReversed
              && Reverses(after[|j|], j[id], id, now)
  {
  }

  // Totals do not look at flags or links.
  lemma {:induction false} JournalTotalSame(j: seq<Entry>, k: seq<Entry>, w: Window, scope: Scope)
    requires |j| == |k| && forall i | 0 <= i < |j| :: SameDocument(j[i], k[i])
    ensures JournalTotal(j, w, scope) == JournalTotal(k, w, scope)
  {
    if j != [] {
      JournalTotalSame(j[..|j| - 1], k[..|k| - 1], w, scope);
    }
  }

  lemma {:induction false} MirroredLinesTotal(m: seq<Line>, lines: seq<Line>, tenant: Id, scope: Scope)
    requires |m| == |lines|
    requires forall k | 0 <= k < |m| ::
               m[k].account == lines[k].account && m[k].debit == lines[k].credit && m[k].credit == lines[k].debit
    ensures LinesTotal(m, tenant, scope) == -LinesTotal(lines, tenant, scope)
  {
    if m != [] {
      MirroredLinesTotal(m[1..], lines[1..], tenant, scope);
    }
  }
}
