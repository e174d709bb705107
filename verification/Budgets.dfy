/** Budgets: checking a proposed posting, refreshing the actual figures, and the life of a budget
    (models/budget.py:92-264). */
module Budgets {
  import opened Wrappers
  import opened Journal
  import opened Accounts

  datatype BudgetStatus = DraftBudget | ActiveBudget | ClosedBudget
  datatype Enforcement = Off | Warn | Hard
  datatype BudgetError = NotDraft | NotActive

  datatype BudgetLine = BudgetLine(account: Id, budgeted: int, actual: int, variance: int)

  // Which entries a budget looks at: one tenant, a span of days, and one branch if it has one.
  datatype Scope = Scope(tenant: Id, firstDay: int, lastDay: int, branch: Option<Id>)

  datatype Budget = Budget(
    scope: Scope, kinds: map<Id, AccountType>, status: BudgetStatus, enforcement: Enforcement,
    lines: seq<BudgetLine>, totalActual: int, totalVariance: int)

  const TICKS_A_DAY := 86_400_000_000

  predicate InScope(e: Entry, s: Scope) {
    && e.tenant == s.tenant
    && s.firstDay <= e.date / TICKS_A_DAY <= s.lastDay
    && (s.branch.Some? ==> e.branch == s.branch)
  }

  function LineDebits(lines: seq<Line>, account: Id): int {
    if lines == [] then 0
    else (if lines[0].account == account then lines[0].debit else 0) + LineDebits(lines[1..], account)
  }

  function LineCredits(lines: seq<Line>, account: Id): int {
    if lines == [] then 0
    else (if lines[0].account == account then lines[0].credit else 0) + LineCredits(lines[1..], account)
  }

  // Entries count whatever their status.
  function Debits(j: seq<Entry>, s: Scope, account: Id): int {
    if j == [] then 0
    else
      var e := j[|j| - 1];
      Debits(j[..|j| - 1], s, account) + if InScope(e, s) then LineDebits(e.lines, account) else 0
  }

  function Credits(j: seq<Entry>, s: Scope, account: Id): int {
    if j == [] then 0
    else
      var e := j[|j| - 1];
      Credits(j[..|j| - 1], s, account) + if InScope(e, s) then LineCredits(e.lines, account) else 0
  }

  predicate DebitNormal(b: Budget, account: Id) {
    account in b.kinds && (b.kinds[account] == Asset || b.kinds[account] == Expense)
  }

  function Actual(b: Budget, j: seq<Entry>, account: Id): int {
    var (d, c) := (Debits(j, b.scope, account), Credits(j, b.scope, account));
    if DebitNormal(b, account) then d - c else c - d
  }

  // ---------- check_budget ----------

  datatype Check = Check(allowed: bool, budgeted: int, actual: int, remaining: int, enforcement: Enforcement)

  function FirstLine(lines: seq<BudgetLine>, account: Id): Option<BudgetLine> {
    if lines == [] then None
    else if lines[0].account == account then Some(lines[0])
    else FirstLine(lines[1..], account)
  }

  function CheckBudget(b: Budget, j: seq<Entry>, account: Id, amount: int): Check {
    if b.status != ActiveBudget then Check(true, 0, 0, 0, Off)
    else if b.enforcement == Off then Check(true, 0, 0, 0, Off)
    else
      match FirstLine(b.lines, account)
      case None => Check(true, 0, 0, 0, b.enforcement)
      case Some(line) =>
        var actual := Actual(b, j, account);
        var remaining := line.budgeted - actual - amount;
        Check(!(remaining < 0 && b.enforcement == Hard), line.budgeted, actual, remaining, b.enforcement)
  }

  // ---------- update_actuals ----------

  function Refreshed(b: Budget, j: seq<Entry>, line: BudgetLine): BudgetLine {
    var actual := Actual(b, j, line.account);
    line.(actual := actual, variance := actual - line.budgeted)
  }

  function SumActual(lines: seq<BudgetLine>): int {
    if lines == [] then 0 else SumActual(lines[..|lines| - 1]) + lines[|lines| - 1].actual
  }

  function SumVariance(lines: seq<BudgetLine>): int {
    if lines == [] then 0 else SumVariance(lines[..|lines| - 1]) + lines[|lines| - 1].variance
  }

  function SumBudgeted(lines: seq<BudgetLine>): int {
    if lines == [] then 0 else SumBudgeted(lines[..|lines| - 1]) + lines[|lines| - 1].budgeted
  }

  function RefreshedLines(b: Budget, j: seq<Entry>): (r: seq<BudgetLine>)
    ensures |r| == |b.lines| && forall i | 0 <= i < |r| :: r[i] == Refreshed(b, j, b.lines[i])
  {
    seq(|b.lines|, i requires 0 <= i < |b.lines| => Refreshed(b, j, b.lines[i]))
  }

  function UpdateActuals(b: Budget, j: seq<Entry>): Budget {
    var lines := RefreshedLines(b, j);
    b.(lines := lines, totalActual := SumActual(lines), totalVariance := SumVariance(lines))
  }

  class BudgetRecord {
    const scope: Scope
    const kinds: map<Id, AccountType>
    var status: BudgetStatus
    var enforcement: Enforcement
    var lines: seq<BudgetLine>
    var totalActual: int
    var totalVariance: int

    function View(): Budget
      reads this
    {
      Budget(scope, kinds, status, enforcement, lines, totalActual, totalVariance)
    }

    constructor (s: Scope, k: map<Id, AccountType>, e: Enforcement, ls: seq<BudgetLine>)
      ensures View() == Budget(s, k, DraftBudget, e, ls, 0, 0)
    {
      scope, kinds, status, enforcement, lines, totalActual, totalVariance := s, k, DraftBudget, e, ls, 0, 0;
    }

    method UpdateFigures(j: seq<Entry>)
      modifies this`lines, this`totalActual, this`totalVariance
      ensures View() == UpdateActuals(old(View()), j)
    {
      ghost var b := View();
      ghost var done := RefreshedLines(b, j);
      var actualSum, varianceSum := 0, 0;
      for i := 0 to |lines|
        invariant |lines| == |b.lines|
        invariant forall k | 0 <= k < |lines| :: lines[k] == if k < i then done[k] else b.lines[k]
        invariant actualSum == SumActual(done[..i]) && varianceSum == SumVariance(done[..i])
      {
        var line := lines[i];
        var d, c := Debits(j, scope, line.account), Credits(j, scope, line.account);
        var actual :=
          if line.account in kinds && (kinds[line.account] == Asset || kinds[line.account] == Expense)
          then d - c else c - d;
        line := line.(actual := actual, variance := actual - line.budgeted);
        lines := lines[i := line];
        assert line == done[i] && done[..i + 1][..i] == done[..i];
        actualSum := actualSum + line.actual;
        varianceSum := varianceSum + line.variance;
      }
      assert done[..|lines|] == done && lines == done;
      totalActual, totalVariance := actualSum, varianceSum;
    }

    // check_budget, with its own two sums and its own test of the account's side.
    method CheckProposed(j: seq<Entry>, account: Id, amount: int) returns (r: Check)
      ensures r == CheckBudget(View(), j, account, amount)
    {
      if status != ActiveBudget {
        return Check(true, 0, 0, 0, Off);
      }
      if enforcement == Off {
        return Check(true, 0, 0, 0, Off);
      }
      var line := FirstLine(lines, account);
      if line.None? {
        return Check(true, 0, 0, 0, enforcement);
      }
      var debitSum, creditSum := Debits(j, scope, account), Credits(j, scope, account);
      var actual := creditSum - debitSum;
      if account in kinds && (kinds[account] == Asset || kinds[account] == Expense) {
        actual := debitSum - creditSum;
      }
      var remaining := line.value.budgeted - actual - amount;
      var allowed := true;
      if remaining < 0 {
        if enforcement == Hard {
          allowed := false;
        }
      }
      r := Check(allowed, line.value.budgeted, actual, remaining, enforcement);
    }

    method Activate() returns (r: Result<(), BudgetError>)
      modifies this`status
      ensures if old(status) == DraftBudget then r == Ok(()) && status == ActiveBudget
              else r == Err(NotDraft) && status == old(status)
    {
      if status != DraftBudget {
        return Err(NotDraft);
      }
      status := ActiveBudget;
      r := Ok(());
    }

    method Close(j: seq<Entry>) returns (r: Result<(), BudgetError>)
      modifies this
      ensures enforcement == old(enforcement)
      ensures if old(status) == ActiveBudget
              then r == Ok(()) && View() == UpdateActuals(old(View()), j).(status := ClosedBudget)
              else r == Err(NotActive) && View() == old(View())
    {
      if status != ActiveBudget {
        return Err(NotActive);
      }
      UpdateFigures(j);
      status := ClosedBudget;
      r := Ok(());
    }
  }

  // ---------- what the figures mean ----------

  lemma {:induction false} VarianceOfLines(lines: seq<BudgetLine>)
    requires forall l | l in lines :: l.variance == l.actual - l.budgeted
    ensures SumVariance(lines) == SumActual(lines) - SumBudgeted(lines)
  {
    if lines != [] {
      VarianceOfLines(lines[..|lines| - 1]);
    }
  }

  lemma {:induction false} SameBudgets(s: seq<BudgetLine>, t: seq<BudgetLine>)
    requires |s| == |t| && forall i | 0 <= i < |s| :: s[i].budgeted == t[i].budgeted
    ensures SumBudgeted(s) == SumBudgeted(t)
  {
    if s != [] {
      SameBudgets(s[..|s| - 1], t[..|t| - 1]);
    }
  }

  // Whatever the lines held before, the refreshed total variance is the total actual less the line budgets.
  lemma TotalVariance(b: Budget, j: seq<Entry>)
    ensures var u := UpdateActuals(b, j);
            && u.totalVariance == u.totalActual - SumBudgeted(b.lines)
            && u.totalActual == SumActual(u.lines)
            && |u.lines| == |b.lines|
            && (forall i | 0 <= i < |u.lines| ::
                  && u.lines[i].account == b.lines[i].account && u.lines[i].budgeted == b.lines[i].budgeted
                  && u.lines[i].variance == u.lines[i].actual - u.lines[i].budgeted)
  {
    var lines := RefreshedLines(b, j);
    VarianceOfLines(lines);
    SameBudgets(lines, b.lines);
  }

  lemma {:induction false} FirstLineFound(lines: seq<BudgetLine>, i: nat)
    requires i < |lines|
    ensures FirstLine(lines, lines[i].account).Some?
    ensures (forall k | 0 <= k < |lines| && k != i :: lines[k].account != lines[i].account) ==>
              FirstLine(lines, lines[i].account) == Some(lines[i])
  {
    if lines[0].account != lines[i].account {
      FirstLineFound(lines[1..], i - 1);
      assert lines[1..][i - 1] == lines[i];
      assert forall k | 0 <= k < |lines| - 1 :: lines[1..][k] == lines[k + 1];
    }
  }

  // What one entry adds to the actual figure of an account.
  function Effect(b: Budget, e: Entry, account: Id): int {
    if !InScope(e, b.scope) then 0
    else
      var n := LineDebits(e.lines, account) - LineCredits(e.lines, account);
      if DebitNormal(b, account) then n else -n
  }

  // One signed pass over the journal, entry by entry.
  function EffectSum(b: Budget, j: seq<Entry>, account: Id): int {
    if j == [] then 0 else EffectSum(b, j[..|j| - 1], account) + Effect(b, j[|j| - 1], account)
  }

  // The two sums and the choice of side come to one signed pass.
  lemma {:induction false} ActualIsEffectSum(b: Budget, j: seq<Entry>, account: Id)
    ensures Actual(b, j, account) == EffectSum(b, j, account)
  {
    if j != [] {
      ActualIsEffectSum(b, j[..|j| - 1], account);
    }
  }

  // A check reports the actual figure a refresh would store on that account's line, which is one signed pass
  // over the journal, and the line's budget.
  lemma CheckReportsRefresh(b: Budget, j: seq<Entry>, i: nat, amount: int)
    requires i < |b.lines| && b.status == ActiveBudget && b.enforcement != Off
    ensures var check := CheckBudget(b, j, b.lines[i].account, amount);
            && check.actual == UpdateActuals(b, j).lines[i].actual == EffectSum(b, j, b.lines[i].account)
            && ((forall k | 0 <= k < |b.lines| && k != i :: b.lines[k].account != b.lines[i].account) ==>
                  check.budgeted == b.lines[i].budgeted)
  {
    FirstLineFound(b.lines, i);
    ActualIsEffectSum(b, j, b.lines[i].account);
  }

  lemma {:induction false} SidesAreNet(lines: seq<Line>, account: Id)
    ensures LineDebits(lines, account) - LineCredits(lines, account) == AccountNet(lines, account)
  {
    if lines != [] {
      SidesAreNet(lines[1..], account);
    }
  }

  lemma DayOf(date: int, day: int)
    ensures day <= date / TICKS_A_DAY <==> day * 86_400_000_000 <= date
  {
  }

  // One more entry moves the actual figure if it is the tenant's, dated from the first to the last day of the
  // period, and of the budget's branch if it has one: by debits less credits for assets and expenses, and by
  // credits less debits otherwise. Its status does not matter.
  lemma EntryMovesActual(b: Budget, j: seq<Entry>, e: Entry, account: Id)
    ensures Actual(b, j + [e], account) == Actual(b, j, account) +
            if e.tenant != b.scope.tenant then 0
            else if e.date < b.scope.firstDay * 86_400_000_000 then 0
            else if e.date >= (b.scope.lastDay + 1) * 86_400_000_000 then 0
            else if b.scope.branch.Some? && (e.branch.None? || e.branch.value != b.scope.branch.value) then 0
            else if account in b.kinds && b.kinds[account] in {Asset, Expense} then AccountNet(e.lines, account)
            else -AccountNet(e.lines, account)
  {
    assert (j + [e])[..|j|] == j;
    SidesAreNet(e.lines, account);
    DayOf(e.date, b.scope.firstDay);
    DayOf(e.date, b.scope.lastDay + 1);
  }

  lemma {:induction false} FirstLineIsLine(lines: seq<BudgetLine>, account: Id)
    requires FirstLine(lines, account).Some?
    ensures FirstLine(lines, account).value in lines && FirstLine(lines, account).value.account == account
  {
    if lines[0].account != account {
      FirstLineIsLine(lines[1..], account);
    }
  }

  // The verdict: only under hard enforcement, and only past the budget, is a posting refused; a warning budget
  // reports what would remain, which may be negative, and lets it through.
  lemma CheckExactly(b: Budget, j: seq<Entry>, account: Id, amount: int)
    ensures b.status != ActiveBudget || b.enforcement == Off ==>
              CheckBudget(b, j, account, amount) == Check(true, 0, 0, 0, Off)
    ensures b.status == ActiveBudget && b.enforcement != Off && (forall l | l in b.lines :: l.account != account) ==>
              CheckBudget(b, j, account, amount) == Check(true, 0, 0, 0, b.enforcement)
    ensures b.status == ActiveBudget && b.enforcement != Off && (exists l :: l in b.lines && l.account == account) ==>
              var check := CheckBudget(b, j, account, amount);
              && check.enforcement == b.enforcement
              && check.actual == EffectSum(b, j, account)
              && check.remaining + check.actual + amount == check.budgeted
              && (check.allowed <==> b.enforcement == Warn || check.actual + amount <= check.budgeted)
              && exists l :: l in b.lines && l.account == account && l.budgeted == check.budgeted
  {
    ActualIsEffectSum(b, j, account);
    if FirstLine(b.lines, account).Some? {
      FirstLineIsLine(b.lines, account);
    } else if l :| l in b.lines && l.account == account {
      var i :| 0 <= i < |b.lines| && b.lines[i] == l;
      FirstLineFound(b.lines, i);
    }
  }

  // ---------- hard enforcement over a run ----------

  // Under hard enforcement a posting is allowed exactly when the budget still holds after it.
  lemma AllowedExactly(b: Budget, j: seq<Entry>, e: Entry, account: Id)
    requires b.status == ActiveBudget && b.enforcement == Hard && FirstLine(b.lines, account).Some?
    ensures CheckBudget(b, j, account, Effect(b, e, account)).allowed <==>
            Actual(b, j + [e], account) <= FirstLine(b.lines, account).value.budgeted
  {
  }

  predicate AllAllowed(b: Budget, j: seq<Entry>, e: Entry) {
    forall l | l in b.lines :: CheckBudget(b, j, l.account, Effect(b, e, l.account)).allowed
  }

  // An entry is posted only when every budgeted account it touches allows it.
  function PostAll(b: Budget, j: seq<Entry>, es: seq<Entry>): seq<Entry> {
    if es == [] then j
    else
      var before := PostAll(b, j, es[..|es| - 1]);
      var e := es[|es| - 1];
      if AllAllowed(b, before, e) then before + [e] else before
  }

  ghost predicate WithinBudget(b: Budget, j: seq<Entry>) {
    forall account: Id | FirstLine(b.lines, account).Some? ::
      Actual(b, j, account) <= FirstLine(b.lines, account).value.budgeted
  }

  lemma {:induction false} HardBudgetHolds(b: Budget, j: seq<Entry>, es: seq<Entry>)
    requires b.status == ActiveBudget && b.enforcement == Hard && WithinBudget(b, j)
    ensures WithinBudget(b, PostAll(b, j, es))
  {
    if es != [] {
      var before, e := PostAll(b, j, es[..|es| - 1]), es[|es| - 1];
      HardBudgetHolds(b, j, es[..|es| - 1]);
      forall account: Id | AllAllowed(b, before, e) && FirstLine(b.lines, account).Some?
        ensures Actual(b, before + [e], account) <= FirstLine(b.lines, account).value.budgeted
      {
        FirstLineIsLine(b.lines, account);
        AllowedExactly(b, before, e, account);
      }
    }
  }

  // ---------- the life of a budget ----------

  datatype Op = DoUpdate(j: seq<Entry>) | DoActivate | DoClose(j: seq<Entry>)

  function Step(b: Budget, op: Op): Budget {
    match op
    case DoUpdate(j) => UpdateActuals(b, j)
    case DoActivate => if b.status == DraftBudget then b.(status := ActiveBudget) else b
    case DoClose(j) => if b.status == ActiveBudget then UpdateActuals(b, j).(status := ClosedBudget) else b
  }

  function Run(b: Budget, ops: seq<Op>): Budget {
    if ops == [] then b else Step(Run(b, ops[..|ops| - 1]), ops[|ops| - 1])
  }

  function Rank(s: BudgetStatus): nat {
    match s
    case DraftBudget => 0
    case ActiveBudget => 1
    case ClosedBudget => 2
  }

  // The status only moves on, one stage at a time, and the move to closed has just refreshed the figures.
  lemma StatusMovesOn(b: Budget, ops: seq<Op>, i: nat)
    requires i < |ops|
    ensures var (before, after) := (Run(b, ops[..i]), Run(b, ops[..i + 1]));
            && Rank(before.status) <= Rank(after.status) <= Rank(before.status) + 1
            && (before.status == ActiveBudget && after.status == ClosedBudget ==>
                  && ops[i].DoClose?
                  && (forall k | 0 <= k < |after.lines| ::
                        after.lines[k].actual == Actual(before, ops[i].j, after.lines[k].account))
                  && after.totalVariance == after.totalActual - SumBudgeted(before.lines))
  {
    assert ops[..i + 1][..i] == ops[..i];
    if ops[i].DoClose? {
      TotalVariance(Run(b, ops[..i]), ops[i].j);
    }
  }
}
