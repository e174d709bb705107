/** The customer sub-ledger: read-modify-write on one balance under a row lock (models/customer.py:82-133). */
module CustomerBalance {
  import opened Wrappers

  type Txn = nat

  // One balance movement; a missing amount counts as zero.
  datatype Op =
    | Sale(amount: Option<int>)
    | Receipt(amount: Option<int>)
    | Return(amount: Option<int>)
    | Adjust(amount: Option<int>)
    | SetTo(amount: Option<int>)

  function Effect(op: Op, balance: int): int {
    match op
    case Sale(a) => balance - OrZero(a)
    case Receipt(a) => balance + OrZero(a)
    case Return(a) => balance + OrZero(a)
    case Adjust(a) => balance + OrZero(a)
    case SetTo(a) => OrZero(a)
  }

  // ---------- many transactions, step by step ----------

  datatype Pc = Idle | HasLock(op: Op) | HasRead(op: Op, seen: int)

  // Where a transaction stands, what it has written, and the movements it has made.
  datatype Session = Session(pc: Pc, written: Option<int>, made: seq<Op>)

  const FRESH := Session(Idle, None, [])

  // history lists the movements of committed transactions in the order they were committed.
  datatype Db = Db(committed: int, holder: Option<Txn>, sessions: map<Txn, Session>, history: seq<Op>)

  datatype Action = Lock(t: Txn, op: Op) | Read(t: Txn) | Write(t: Txn) | Commit(t: Txn) | Rollback(t: Txn)

  function SessionOf(db: Db, t: Txn): Session {
    if t in db.sessions then db.sessions[t] else FRESH
  }

  function Release(db: Db, t: Txn): Db {
    db.(holder := if db.holder == Some(t) then None else db.holder, sessions := db.sessions[t := FRESH])
  }

  // An action that is not enabled changes nothing. Without locking, anyone may go on as if holding the lock.
  function Step(db: Db, locking: bool, a: Action): Db {
    var s := SessionOf(db, a.t);
    match a
    case Lock(t, op) =>
      if s.pc.Idle? && (!locking || db.holder == None || db.holder == Some(t)) then
        db.(holder := Some(t), sessions := db.sessions[t := s.(pc := HasLock(op))])
      else db
    case Read(t) =>
      if s.pc.HasLock? then
        var seen := if s.written.Some? then s.written.value else db.committed;
        db.(sessions := db.sessions[t := s.(pc := HasRead(s.pc.op, seen))])
      else db
    case Write(t) =>
      if s.pc.HasRead? then
        db.(sessions := db.sessions[t := Session(Idle, Some(Effect(s.pc.op, s.pc.seen)), s.made + [s.pc.op])])
      else db
    case Commit(t) =>
      if s.pc.Idle? then
        Release(db.(committed := if s.written.Some? then s.written.value else db.committed,
                    history := db.history + s.made), t)
      else db
    case Rollback(t) => Release(db, t)
  }

  // The balance t sees between two movements.
  function SeenBy(db: Db, t: Txn): int {
    var s := SessionOf(db, t);
    if db.holder == Some(t) && s.written.Some? then s.written.value else db.committed
  }

  // One movement in three steps.
  function Moved(db: Db, t: Txn, op: Op): Db {
    Step(Step(Step(db, true, Lock(t, op)), true, Read(t)), true, Write(t))
  }

  // A movement under a free lock, or its own, takes the balance seen to its effect; otherwise nothing happens.
  lemma MovedShows(db: Db, t: Txn, op: Op)
    requires SessionOf(db, t).pc.Idle? && (SessionOf(db, t) != FRESH ==> db.holder == Some(t))
    ensures var after := Moved(db, t, op);
            && after.committed == db.committed && SessionOf(after, t).pc.Idle?
            && (if db.holder == None || db.holder == Some(t)
                then after.holder == Some(t) && SeenBy(after, t) == Effect(op, SeenBy(db, t))
                     && SessionOf(after, t).made == SessionOf(db, t).made + [op]
                else after == db)
  {
  }

  function Opened(opening: int): Db {
    Db(opening, None, map[], [])
  }

  function Run(db: Db, locking: bool, actions: seq<Action>): Db
    decreases |actions|
  {
    if actions == [] then db else Run(Step(db, locking, actions[0]), locking, actions[1..])
  }

  // ---------- the objects: a stored row, and one session's copy of it ----------

  class Row {
    var committed: int
    var holder: Option<Txn>
    // What the holder has written and not yet committed.
    var pending: Option<int>

    constructor (opening: int)
      ensures committed == opening && holder == None && pending == None
    {
      committed, holder, pending := opening, None, None;
    }
  }

  class Customer {
    // null for an instance that has no row yet
    const row: Row?
    const txn: Txn
    var balance: int
    // balance has been assigned since it was last read or flushed
    var dirty: bool

    constructor (r: Row?, t: Txn, opening: int)
      ensures row == r && txn == t && balance == opening && !dirty
      ensures r != null && r.holder == None ==> Shows(Opened(r.committed))
    {
      row, txn, balance, dirty := r, t, opening, false;
    }

    ghost predicate Valid()
      reads this, row
    {
      row != null ==>
        && (dirty ==> row.holder == Some(txn))
        && (row.pending.Some? ==> row.holder.Some?)
    }

    // The balance as this session sees it.
    ghost function Seen(): int
      reads this, row
    {
      if row == null || dirty then balance
      else if row.holder == Some(txn) && row.pending.Some? then row.pending.value
      else row.committed
    }

    ghost predicate CanLock()
      reads this, row
    {
      row == null || row.holder == None || row.holder == Some(txn)
    }

    // The row and this session are the ones of db, between two movements.
    ghost predicate Shows(db: Db)
      reads this, row
    {
      && row != null && row.holder == db.holder && row.committed == db.committed
      && Seen() == SeenBy(db, txn) && SessionOf(db, txn).pc.Idle?
      && (SessionOf(db, txn) != FRESH ==> db.holder == Some(txn))
    }

    // Flush, lock, and re-read. Fails if another transaction holds the row.
    method Locked() returns (ok: bool)
      requires Valid()
      modifies this, row
      ensures Valid() && ok == old(CanLock())
      ensures Seen() == old(Seen()) && (ok ==> balance == Seen())
      ensures row != null ==> row.committed == old(row.committed) && (ok ==> row.holder == Some(txn))
      ensures !ok ==> row.holder == old(row.holder) && row.pending == old(row.pending)
    {
      if row == null {
        return true;
      }
      if dirty {
        row.pending, dirty := Some(balance), false;
      }
      if row.holder.Some? && row.holder != Some(txn) {
        return false;
      }
      row.holder := Some(txn);
      balance := if row.pending.Some? then row.pending.value else row.committed;
      ok := true;
    }

    method Assign(value: int)
      requires Valid() && (row != null ==> row.holder == Some(txn))
      modifies this
      ensures Valid() && Seen() == value
    {
      balance, dirty := value, true;
    }

    // Each balance method: lock, then move the balance.
    method Move(op: Op) returns (ok: bool)
      requires Valid()
      modifies this, row
      ensures Valid() && ok == old(CanLock())
      ensures Seen() == if ok then Effect(op, old(Seen())) else old(Seen())
      ensures row != null ==> row.committed == old(row.committed) && (ok ==> row.holder == Some(txn))
      ensures !ok ==> row.holder == old(row.holder) && row.pending == old(row.pending)
      ensures forall db: Db | old(Shows(db)) :: Shows(Moved(db, txn, op))
    {
      ok := Locked();
      if ok {
        match op
        case Sale(a) => Assign(balance - OrZero(a));
        case Receipt(a) => Assign(balance + OrZero(a));
        case Return(a) => Assign(balance + OrZero(a));
        case Adjust(a) => Assign(balance + OrZero(a));
        case SetTo(a) => Assign(OrZero(a));
      }
      forall db: Db | old(Shows(db)) ensures Shows(Moved(db, txn, op)) {
        MovedShows(db, txn, op);
      }
    }

    // Publishes what the session saw, and gives the lock back.
    method Commit()
      requires Valid()
      modifies this, row
      ensures Valid() && !dirty && balance == old(balance)
      ensures row != null && old(row.holder) == Some(txn) ==>
                row.committed == old(Seen()) && row.holder == None && row.pending == None
      ensures row != null && old(row.holder) != Some(txn) ==>
                row.committed == old(row.committed) && row.holder == old(row.holder) && row.pending == old(row.pending)
      ensures forall db: Db | old(Shows(db)) :: Shows(Step(db, true, Action.Commit(txn)))
    {
      if row != null && row.holder == Some(txn) {
        if dirty {
          row.pending := Some(balance);
        }
        if row.pending.Some? {
          row.committed := row.pending.value;
        }
        row.pending, row.holder := None, None;
      }
      dirty := false;
    }

    method Rollback()
      requires Valid()
      modifies this, row
      ensures Valid() && !dirty && balance == old(balance)
      ensures row != null ==> row.committed == old(row.committed)
      ensures row != null && old(row.holder) == Some(txn) ==> row.holder == None && row.pending == None
      ensures row != null && old(row.holder) != Some(txn) ==>
                row.holder == old(row.holder) && row.pending == old(row.pending)
      ensures forall db: Db | old(Shows(db)) :: Shows(Step(db, true, Action.Rollback(txn)))
    {
      if row != null && row.holder == Some(txn) {
        row.pending, row.holder := None, None;
      }
      dirty := false;
    }
  }

  // ---------- every interleaving ----------

  // The movements applied one after the other.
  function Replay(balance: int, ops: seq<Op>): int {
    if ops == [] then balance else Effect(ops[|ops| - 1], Replay(balance, ops[..|ops| - 1]))
  }

  lemma {:induction false} ReplayConcat(balance: int, s: seq<Op>, t: seq<Op>)
    ensures Replay(balance, s + t) == Replay(Replay(balance, s), t)
  {
    if t == [] {
      assert s + t == s;
    } else {
      ReplayConcat(balance, s, t[..|t| - 1]);
      assert (s + t)[..|s + t| - 1] == s + t[..|t| - 1];
    }
  }

  // The committed balance replays the history; only the holder has work in hand, and it replays on top.
  ghost predicate Consistent(opening: int, db: Db) {
    && db.committed == Replay(opening, db.history)
    && forall t: Txn ::
         var s := SessionOf(db, t);
         && (s != FRESH ==> db.holder == Some(t))
         && (if s.made == [] then s.written == None else s.written == Some(Replay(db.committed, s.made)))
         && (s.pc.HasRead? ==> s.pc.seen == Replay(db.committed, s.made))
  }

  lemma StepConsistent(opening: int, db: Db, a: Action)
    requires Consistent(opening, db)
    ensures Consistent(opening, Step(db, true, a))
  {
    var s := SessionOf(db, a.t);
    var after := Step(db, true, a);
    assert forall u: Txn | u != a.t :: SessionOf(after, u) == SessionOf(db, u);
    match a
    case Write(t) =>
      if s.pc.HasRead? {
        var made := s.made + [s.pc.op];
        assert made[..|made| - 1] == s.made;
      }
    case Commit(t) =>
      if s.pc.Idle? {
        ReplayConcat(opening, db.history, s.made);
        if s == FRESH {
          assert db.history + s.made == db.history;
        }
      }
    case _ =>
  }

  lemma {:induction false} RunConsistent(opening: int, db: Db, actions: seq<Action>)
    requires Consistent(opening, db)
    ensures Consistent(opening, Run(db, true, actions))
    decreases |actions|
  {
    if actions != [] {
      StepConsistent(opening, db, actions[0]);
      RunConsistent(opening, Step(db, true, actions[0]), actions[1..]);
    }
  }

  // ---------- what the replay amounts to ----------

  // The amount a movement was made with, nothing counting as zero.
  function Amount(op: Op): int {
    match op.amount
    case None => 0
    case Some(v) => v
  }

  function Delta(op: Op): int {
    match op
    case Sale(a) => -Amount(op)
    case Receipt(a) => Amount(op)
    case Return(a) => Amount(op)
    case Adjust(a) => Amount(op)
    case SetTo(_) => 0
  }

  function SumOf(ops: seq<Op>): int {
    if ops == [] then 0 else SumOf(ops[..|ops| - 1]) + Delta(ops[|ops| - 1])
  }

  // The number of movements up to and including the last set_balance.
  function AfterLastSet(ops: seq<Op>): (n: nat)
    ensures n <= |ops|
    ensures n > 0 ==> ops[n - 1].SetTo?
    ensures forall i | n <= i < |ops| :: !ops[i].SetTo?
  {
    if ops == [] then 0
    else if ops[|ops| - 1].SetTo? then |ops|
    else AfterLastSet(ops[..|ops| - 1])
  }

  lemma {:induction false} ReplayIsSum(balance: int, ops: seq<Op>)
    ensures var n := AfterLastSet(ops);
            Replay(balance, ops) == (if n > 0 then Amount(ops[n - 1]) else balance) + SumOf(ops[n..])
  {
    if ops != [] && !ops[|ops| - 1].SetTo? {
      var front, n := ops[..|ops| - 1], AfterLastSet(ops);
      ReplayIsSum(balance, front);
      assert ops[n..][..|ops[n..]| - 1] == front[n..];
    }
  }

  // In every interleaving the committed balance is the opening balance, or the last committed set_balance,
  // plus every movement committed after it: sales negative, receipts, returns and adjustments positive.
  lemma NoUpdateLost(opening: int, actions: seq<Action>)
    ensures var db := Run(Opened(opening), true, actions);
            var n := AfterLastSet(db.history);
            db.committed == (if n > 0 then Amount(db.history[n - 1]) else opening) + SumOf(db.history[n..])
  {
    RunConsistent(opening, Opened(opening), actions);
    ReplayIsSum(opening, Run(Opened(opening), true, actions).history);
  }

  // At most one transaction is between its lock and its commit.
  lemma OneAtATime(opening: int, actions: seq<Action>, t: Txn, u: Txn)
    ensures var db := Run(Opened(opening), true, actions);
            SessionOf(db, t) != FRESH && SessionOf(db, u) != FRESH ==> t == u
  {
    RunConsistent(opening, Opened(opening), actions);
  }

  lemma RunCons(db: Db, locking: bool, a: Action, rest: seq<Action>)
    ensures Run(db, locking, [a] + rest) == Run(Step(db, locking, a), locking, rest)
  {
  }

  lemma LateWrites(d: Db, s: Op, t: Op)
    requires s == Sale(Some(100)) && t == Sale(Some(50))
    requires d == Db(0, Some(2), map[1 := Session(HasRead(s, 0), None, []), 2 := Session(HasRead(t, 0), None, [])], [])
    ensures var db := Run(d, false, [Write(1), Write(2), Commit(1), Commit(2)]);
            db.history == [s, t] && db.committed == -50
  {
  }

  // Without the lock the same steps lose a sale: both transactions read the opening balance.
  lemma UnlockedLosesASale()
    ensures var db := Run(Opened(0), false, [Lock(1, Sale(Some(100))), Lock(2, Sale(Some(50))), Read(1), Read(2)]
                                            + [Write(1), Write(2), Commit(1), Commit(2)]);
            && db.history == [Sale(Some(100)), Sale(Some(50))]
            && db.committed == -50 && Replay(0, db.history) == -150
  {
    var s, t := Sale(Some(100)), Sale(Some(50));
    var second := [Write(1), Write(2), Commit(1), Commit(2)];
    var d := Db(0, Some(2), map[1 := Session(HasRead(s, 0), None, []), 2 := Session(HasRead(t, 0), None, [])], []);
    assert [Lock(1, s), Lock(2, t), Read(1), Read(2)] + second
        == [Lock(1, s)] + ([Lock(2, t)] + ([Read(1)] + ([Read(2)] + second)));
    RunCons(Opened(0), false, Lock(1, s), [Lock(2, t)] + ([Read(1)] + ([Read(2)] + second)));
    var d1 := Step(Opened(0), false, Lock(1, s));
    RunCons(d1, false, Lock(2, t), [Read(1)] + ([Read(2)] + second));
    var d2 := Step(d1, false, Lock(2, t));
    RunCons(d2, false, Read(1), [Read(2)] + second);
    var d3 := Step(d2, false, Read(1));
    RunCons(d3, false, Read(2), second);
    assert Step(d3, false, Read(2)) == d;
    LateWrites(d, s, t);
    assert [s, t][..1] == [s] && [s][..0] == [];
    assert Replay(0, [s]) == -100;
  }
}
