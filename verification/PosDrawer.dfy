/** The cash drawer of a point-of-sale session and its cashier shifts (models/pos_session.py:27-128,
    models/pos_shift.py:73-93). Stored amounts are in thousandths. */
module PosDrawer {
  import opened Wrappers
  import Rounding

  // What moved through a drawer.
  datatype Totals = Totals(cashSales: int, change: int, refunds: int, payIns: int, payOuts: int)

  function Add(a: Totals, b: Totals): Totals {
    Totals(a.cashSales + b.cashSales, a.change + b.change, a.refunds + b.refunds,
           a.payIns + b.payIns, a.payOuts + b.payOuts)
  }

  function Expected(opening: int, t: Totals): int {
    opening + t.cashSales - t.change - t.refunds + t.payIns - t.payOuts
  }

  // ---------- session ----------

  datatype Status = Open | Paused | Closed
  datatype SessionError = NotAllowed(from: Status, target: Status) | AlreadyClosed | NotRecording

  // An amount of cash as handed in, num/den in thousandths.
  datatype Cash = Cash(num: int, den: int)

  predicate WellFormed(c: Cash) {
    c.den > 0
  }

  function Quantize(c: Cash): int
    requires WellFormed(c)
  {
    Rounding.HalfUp(c.num, c.den)
  }

  const ALLOWED := {(Open, Paused), (Paused, Open), (Open, Closed), (Paused, Closed)}

  datatype SessionState = SessionState(
    opening: int, totals: Totals, status: Status, pausedAt: Option<int>, closedAt: Option<int>,
    closing: Option<int>, expected: Option<int>, difference: Option<int>)

  datatype Op = Pause(now: int) | Resume | Close(cash: Cash, now: int) | Record(t: Totals)

  function Begin(opening: int): SessionState {
    SessionState(opening, Totals(0, 0, 0, 0, 0), Open, None, None, None, None, None)
  }

  function Transition(s: SessionState, target: Status): Result<SessionState, SessionError> {
    if (s.status, target) !in ALLOWED then Err(NotAllowed(s.status, target)) else Ok(s.(status := target))
  }

  // What one operation leaves, or the error it raises. Sales are recorded only while the session is open.
  function Apply(s: SessionState, op: Op): Result<SessionState, SessionError>
    requires op.Close? ==> WellFormed(op.cash)
  {
    match op
    case Pause(now) =>
      (match Transition(s, Paused)
       case Err(e) => Err(e)
       case Ok(t) => Ok(t.(pausedAt := Some(now))))
    case Resume =>
      (match Transition(s, Open)
       case Err(e) => Err(e)
       case Ok(t) => Ok(t.(pausedAt := None)))
    case Close(cash, now) =>
      if s.status == Closed then Err(AlreadyClosed)
      else
        var closing, expected := Quantize(cash), Expected(s.opening, s.totals);
        Ok(s.(status := Closed, closedAt := Some(now), closing := Some(closing), expected := Some(expected),
              difference := Some(closing - expected)))
    case Record(t) => if s.status == Open then Ok(s.(totals := Add(s.totals, t))) else Err(NotRecording)
  }

  class PosSession {
    const opening: int
    var totals: Totals
    var status: Status
    var pausedAt: Option<int>
    var closedAt: Option<int>
    var closing: Option<int>
    var expected: Option<int>
    var difference: Option<int>

    function View(): SessionState
      reads this
    {
      SessionState(opening, totals, status, pausedAt, closedAt, closing, expected, difference)
    }

    constructor (cash: int)
      ensures View() == Begin(cash)
    {
      opening, totals, status, pausedAt := cash, Totals(0, 0, 0, 0, 0), Open, None;
      closedAt, closing, expected, difference := None, None, None, None;
    }

    method MoveTo(target: Status) returns (r: Result<(), SessionError>)
      modifies this`status
      ensures match Transition(old(View()), target)
              case Ok(s) => r == Ok(()) && View() == s
              case Err(e) => r == Err(e) && View() == old(View())
    {
      if (status, target) !in ALLOWED {
        return Err(NotAllowed(status, target));
      }
      status := target;
      r := Ok(());
    }

    method PauseSession(now: int) returns (r: Result<(), SessionError>)
      modifies this`status, this`pausedAt
      ensures match Apply(old(View()), Pause(now))
              case Ok(s) => r == Ok(()) && View() == s
              case Err(e) => r == Err(e) && View() == old(View())
    {
      r := MoveTo(Paused);
      if r.Ok? {
        pausedAt := Some(now);
      }
    }

    method ResumeSession() returns (r: Result<(), SessionError>)
      modifies this`status, this`pausedAt
      ensures match Apply(old(View()), Resume)
              case Ok(s) => r == Ok(()) && View() == s
              case Err(e) => r == Err(e) && View() == old(View())
    {
      r := MoveTo(Open);
      if r.Ok? {
        pausedAt := None;
      }
    }

    method CloseSession(cash: Cash, now: int) returns (r: Result<(), SessionError>)
      requires WellFormed(cash)
      modifies this
      ensures match Apply(old(View()), Close(cash, now))
              case Ok(s) => r == Ok(()) && View() == s
              case Err(e) => r == Err(e) && View() == old(View())
    {
      if status == Closed {
        return Err(AlreadyClosed);
      }
      closing := Some(Quantize(cash));
      expected := Some(Expected(opening, totals));
      difference := Some(closing.value - expected.value);
      r := MoveTo(Closed);
      closedAt := Some(now);
    }
  }

  // ---------- shift ----------

  datatype ShiftStatus = ShiftOpen | ShiftReconciled | ShiftClosed

  datatype ShiftState = ShiftState(
    starting: int, totals: Totals, counted: Option<int>, expected: int, discrepancy: Option<int>, status: ShiftStatus)

  function Reconciled(s: ShiftState, cash: int): ShiftState {
    var e := Expected(s.starting, s.totals);
    s.(counted := Some(cash), expected := e, discrepancy := Some(cash - e), status := ShiftReconciled)
  }

  // What happens to one shift. Movements reach it only while it is open; reconciling and closing are not guarded.
  datatype ShiftOp = RecordShift(t: Totals) | ReconcileShift(cash: int) | EndShift

  function BeginShift(cash: int): ShiftState {
    ShiftState(cash, Totals(0, 0, 0, 0, 0), None, 0, None, ShiftOpen)
  }

  function ApplyShift(s: ShiftState, op: ShiftOp): ShiftState {
    match op
    case RecordShift(t) => if s.status == ShiftOpen then s.(totals := Add(s.totals, t)) else s
    case ReconcileShift(cash) => Reconciled(s, cash)
    case EndShift => s.(status := ShiftClosed)
  }

  class PosShift {
    const starting: int
    var totals: Totals
    var counted: Option<int>
    var expected: int
    var discrepancy: Option<int>
    var status: ShiftStatus

    function View(): ShiftState
      reads this
    {
      ShiftState(starting, totals, counted, expected, discrepancy, status)
    }

    constructor (cash: int)
      ensures View() == BeginShift(cash)
    {
      starting, totals := cash, Totals(0, 0, 0, 0, 0);
      counted, expected, discrepancy, status := None, 0, None, ShiftOpen;
    }

    method Reconcile(cash: int)
      modifies this
      ensures View() == ApplyShift(old(View()), ReconcileShift(cash))
    {
      counted := Some(cash);
      expected := Expected(starting, totals);
      discrepancy := Some(cash - expected);
      status := ShiftReconciled;
    }

    method CloseShift()
      modifies this`status
      ensures View() == ApplyShift(old(View()), EndShift)
    {
      status := ShiftClosed;
    }
  }

  // ---------- the state machine ----------

  predicate OpsWellFormed(ops: seq<Op>) {
    forall op | op in ops :: op.Close? ==> WellFormed(op.cash)
  }

  function Run(opening: int, ops: seq<Op>): SessionState
    requires OpsWellFormed(ops)
  {
    if ops == [] then Begin(opening)
    else
      var s := Run(opening, ops[..|ops| - 1]);
      var r := Apply(s, ops[|ops| - 1]);
      if r.Ok? then r.value else s
  }

  ghost predicate SessionSound(s: SessionState) {
    && (s.status == Open ==> s.pausedAt == None)
    && (s.status == Paused ==> s.pausedAt.Some?)
    && (if s.status == Closed then
          && s.closedAt.Some? && s.closing.Some? && s.difference.Some?
          && s.expected == Some(Expected(s.opening, s.totals))
          && s.closing.value == s.expected.value + s.difference.value
        else s.closedAt == None && s.closing == None && s.expected == None && s.difference == None)
  }

  // In every reachable state the closing figures are there exactly when the session is closed, they agree
  // with the recorded movements, and closing = expected + difference.
  lemma {:induction false} RunSound(opening: int, ops: seq<Op>)
    requires OpsWellFormed(ops)
    ensures SessionSound(Run(opening, ops)) && Run(opening, ops).opening == opening
  {
    if ops != [] {
      RunSound(opening, ops[..|ops| - 1]);
    }
  }

  // Closed is terminal: no later operation changes anything.
  lemma {:induction false} ClosedIsTerminal(opening: int, ops: seq<Op>, more: seq<Op>)
    requires OpsWellFormed(ops) && OpsWellFormed(more) && Run(opening, ops).status == Closed
    ensures OpsWellFormed(ops + more) && Run(opening, ops + more) == Run(opening, ops)
  {
    if more == [] {
      assert ops + more == ops;
    } else {
      var front := more[..|more| - 1];
      ClosedIsTerminal(opening, ops, front);
      assert (ops + more)[..|ops + more| - 1] == ops + front;
    }
  }

  // ---------- session and shifts ----------

  function ShiftRun(cash: int, ops: seq<ShiftOp>): ShiftState {
    if ops == [] then BeginShift(cash) else ApplyShift(ShiftRun(cash, ops[..|ops| - 1]), ops[|ops| - 1])
  }

  // The latest count, with its discrepancy against everything the shift recorded.
  ghost predicate CountedRight(s: ShiftState) {
    && s.counted.Some?
    && s.expected == Expected(s.starting, s.totals)
    && s.discrepancy == Some(s.counted.value - s.expected)
  }

  // In every reachable state of a shift, the count and the discrepancy are there together and agree with all
  // its recorded movements, also after it was closed; an open shift has neither, a reconciled one both.
  lemma {:induction false} ShiftRunSound(cash: int, ops: seq<ShiftOp>)
    ensures var s := ShiftRun(cash, ops);
            && s.starting == cash
            && (if s.counted.Some? then CountedRight(s) else s.discrepancy == None)
            && (s.status == ShiftOpen ==> s.counted == None)
            && (s.status == ShiftReconciled ==> s.counted.Some?)
  {
    if ops != [] {
      ShiftRunSound(cash, ops[..|ops| - 1]);
    }
  }

  // The cash the next shift starts from: what was counted last, or the session's opening cash.
  function HandedOn(opening: int, shifts: seq<ShiftState>): int {
    if shifts == [] then opening
    else
      var c := shifts[|shifts| - 1].counted;
      if c.Some? then c.value else 0
  }

  // The shifts of one session, each run starting from the cash counted in the one before.
  function Day(opening: int, runs: seq<seq<ShiftOp>>): (r: seq<ShiftState>)
    ensures |r| == |runs|
  {
    if runs == [] then []
    else
      var before := Day(opening, runs[..|runs| - 1]);
      before + [ShiftRun(HandedOn(opening, before), runs[|runs| - 1])]
  }

  // Every shift has been reconciled, whether or not it was closed afterwards.
  predicate AllCounted(shifts: seq<ShiftState>) {
    forall s | s in shifts :: s.counted.Some?
  }

  function ShiftTotals(shifts: seq<ShiftState>): Totals {
    if shifts == [] then Totals(0, 0, 0, 0, 0)
    else Add(ShiftTotals(shifts[..|shifts| - 1]), shifts[|shifts| - 1].totals)
  }

  function DiscrepancySum(shifts: seq<ShiftState>): int {
    if shifts == [] then 0
    else
      var d := shifts[|shifts| - 1].discrepancy;
      DiscrepancySum(shifts[..|shifts| - 1]) + if d.Some? then d.value else 0
  }

  lemma {:induction false} DrawerTelescopes(opening: int, runs: seq<seq<ShiftOp>>)
    requires AllCounted(Day(opening, runs))
    ensures var shifts := Day(opening, runs);
            HandedOn(opening, shifts) - Expected(opening, ShiftTotals(shifts)) == DiscrepancySum(shifts)
  {
    if runs != [] {
      var n := |runs| - 1;
      var shifts, before := Day(opening, runs), Day(opening, runs[..n]);
      assert shifts[..n] == before;
      assert forall s | s in before :: s in shifts;
      DrawerTelescopes(opening, runs[..n]);
      assert shifts[n] in shifts;
      ShiftRunSound(HandedOn(opening, before), runs[n]);
    }
  }

  // For any number of shifts, however they ran, each reconciled and perhaps closed: a session whose recorded
  // movements are those of its shifts, closed with the cash counted last, shows a difference equal to the sum
  // of the shifts' discrepancies.
  lemma SessionDifference(opening: int, ops: seq<Op>, runs: seq<seq<ShiftOp>>, now: int)
    requires OpsWellFormed(ops) && Run(opening, ops).status != Closed
    requires AllCounted(Day(opening, runs)) && Run(opening, ops).totals == ShiftTotals(Day(opening, runs))
    ensures var shifts := Day(opening, runs);
            var r := Apply(Run(opening, ops), Close(Cash(HandedOn(opening, shifts), 1), now));
            r.Ok? && r.value.difference == Some(DiscrepancySum(shifts))
  {
    RunSound(opening, ops);
    DrawerTelescopes(opening, runs);
    Rounding.HalfUpOfMultiple(HandedOn(opening, Day(opening, runs)), 1);
  }

  // ---------- exact outcomes ----------

  // Which operation goes through in which status, and what it changes; the closing cash is rounded half up.
  lemma OpExactly(s: SessionState, op: Op)
    requires op.Close? ==> WellFormed(op.cash)
    ensures Apply(s, op).Ok? <==>
            match op
            case Pause(_) => s.status == Open
            case Resume => s.status == Paused
            case Close(_, _) => s.status != Closed
            case Record(_) => s.status == Open
    ensures op.Pause? && Apply(s, op).Ok? ==>
              Apply(s, op).value == s.(status := Paused, pausedAt := Some(op.now))
    ensures op.Resume? && Apply(s, op).Ok? ==> Apply(s, op).value == s.(status := Open, pausedAt := None)
    ensures op.Close? && Apply(s, op).Ok? ==>
              var t := Apply(s, op).value;
              && t.status == Closed && t.closedAt == Some(op.now) && t.closing.Some?
              && Rounding.RoundsTo(op.cash.num, op.cash.den, t.closing.value)
              && t.opening == s.opening && t.totals == s.totals && t.pausedAt == s.pausedAt
  {
    if op.Close? {
      Rounding.HalfUpSpec(op.cash.num, op.cash.den, Quantize(op.cash));
    }
  }

  function CashFlow(t: Totals): int {
    (t.cashSales + t.payIns) - (t.change + t.refunds + t.payOuts)
  }

  // The cash that came in less the cash that went out, movement by movement, while the session was open.
  function NetFlow(opening: int, ops: seq<Op>): int
    requires OpsWellFormed(ops)
  {
    if ops == [] then 0
    else
      var front, op := ops[..|ops| - 1], ops[|ops| - 1];
      NetFlow(opening, front) + if op.Record? && Run(opening, front).status == Open then CashFlow(op.t) else 0
  }

  // A closed session's expected cash is its opening cash and every unit of cash that moved since.
  lemma {:induction false} ExpectedIsNetFlow(opening: int, ops: seq<Op>)
    requires OpsWellFormed(ops)
    ensures Expected(opening, Run(opening, ops).totals) == opening + NetFlow(opening, ops)
    ensures Run(opening, ops).status == Closed ==> Run(opening, ops).expected == Some(opening + NetFlow(opening, ops))
  {
    RunSound(opening, ops);
    if ops != [] {
      ExpectedIsNetFlow(opening, ops[..|ops| - 1]);
    }
  }

  function ShiftFlow(cash: int, ops: seq<ShiftOp>): int {
    if ops == [] then 0
    else
      var front, op := ops[..|ops| - 1], ops[|ops| - 1];
      var open := ShiftRun(cash, front).status == ShiftOpen;
      ShiftFlow(cash, front) + if op.RecordShift? && open then CashFlow(op.t) else 0
  }

  // The status the latest reconcile or close left.
  function ShiftStage(ops: seq<ShiftOp>): ShiftStatus {
    if ops == [] then ShiftOpen
    else
      match ops[|ops| - 1]
      case RecordShift(_) => ShiftStage(ops[..|ops| - 1])
      case ReconcileShift(_) => ShiftReconciled
      case EndShift => ShiftClosed
  }

  function LastCount(ops: seq<ShiftOp>): Option<int> {
    if ops == [] then None
    else if ops[|ops| - 1].ReconcileShift? then Some(ops[|ops| - 1].cash)
    else LastCount(ops[..|ops| - 1])
  }

  // The same of a shift: its count is the latest one, and its discrepancy that count less the starting cash and
  // every unit of cash that moved.
  lemma {:induction false} ShiftExactly(cash: int, ops: seq<ShiftOp>)
    ensures var s := ShiftRun(cash, ops);
            && s.status == ShiftStage(ops) && s.counted == LastCount(ops)
            && Expected(cash, s.totals) == cash + ShiftFlow(cash, ops)
            && (s.counted.Some? ==> s.discrepancy == Some(s.counted.value - (cash + ShiftFlow(cash, ops))))
  {
    ShiftRunSound(cash, ops);
    if ops != [] {
      ShiftExactly(cash, ops[..|ops| - 1]);
    }
  }
}
