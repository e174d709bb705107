/** Fixed assets: the monthly instalment, posting it, and disposal (models/fixed_asset.py:136-370).
    Money is in thousandths; an instalment is rounded to 0.01, ten thousandths. */
module FixedAssets {
  import opened Wrappers
  import Rounding

  datatype DepreciationMethod = StraightLine | DecliningBalance | OtherMethod
  datatype AssetStatus = Active | FullyDepreciated | Disposed | Sold
  datatype AssetError = NotActive | AlreadyPosted | AlreadyDisposed | DivisionByZero | RejectedPosting

  // The columns depreciation never changes.
  datatype Terms = Terms(isLand: bool, plan: DepreciationMethod, price: int, salvage: int, years: int)

  // The accounts an asset posts to.
  datatype Role = Expense | AccumulatedDepreciation | Bank | Gain | Loss | Cost

  datatype PostLine = PostLine(role: Role, debit: int, credit: int)

  datatype Row = Row(period: int, amount: int, accumulated: int, book: int)

  datatype Asset = Asset(
    terms: Terms, accumulated: int, book: int, lastDate: Option<int>, status: AssetStatus,
    disposalDate: Option<int>, disposalPrice: Option<int>, gainLoss: Option<int>,
    rows: seq<Row>, posted: seq<seq<PostLine>>)

  function New(t: Terms): Asset {
    Asset(t, 0, t.price, None, Active, None, None, None, [], [])
  }

  function Depreciable(t: Terms): int {
    t.price - t.salvage
  }

  // n/d thousandths, rounded half up to the nearest 0.01.
  function ToCent(n: int, d: int): int
    requires d != 0
  {
    10 * Rounding.HalfUp(n, 10 * d)
  }

  // The month's instalment, given what has accumulated so far.
  function Instalment(t: Terms, accumulated: int): Result<int, AssetError> {
    if t.isLand then Ok(0)
    else
      match t.plan
      case StraightLine =>
        if t.years == 0 then Err(DivisionByZero)
        else Ok(ToCent(Depreciable(t), 12 * t.years))
      case DecliningBalance =>
        if t.years == 0 then Err(DivisionByZero)
        else
          var current := t.price - accumulated;
          if current <= t.salvage then Ok(0)
          else
            var monthly := ToCent(2 * current, 12 * t.years);
            if current - monthly < t.salvage then Ok(current - t.salvage) else Ok(monthly)
      case OtherMethod => Ok(0)
  }

  // ---------- the general ledger's door: what it refuses ----------

  function Debits(lines: seq<PostLine>): int {
    if lines == [] then 0 else lines[0].debit + Debits(lines[1..])
  }

  function Credits(lines: seq<PostLine>): int {
    if lines == [] then 0 else lines[0].credit + Credits(lines[1..])
  }

  const SIDE_TOLERANCE := 10
  const BALANCE_TOLERANCE := 1

  predicate Postable(lines: seq<PostLine>) {
    && (forall l | l in lines :: l.debit > 0 || l.credit > 0)
    && (forall l | l in lines :: l.debit <= SIDE_TOLERANCE || l.credit <= SIDE_TOLERANCE)
    && Rounding.Abs(Debits(lines) - Credits(lines)) <= BALANCE_TOLERANCE
  }

  // ---------- one posting ----------

  function DepreciationLines(m: int): seq<PostLine> {
    [PostLine(Expense, m, 0), PostLine(AccumulatedDepreciation, 0, m)]
  }

  predicate HasRow(rows: seq<Row>, date: int) {
    exists r :: r in rows && r.period == date
  }

  function Depreciated(a: Asset, date: int, m: int): Asset {
    var acc := a.accumulated + m;
    var book := a.terms.price - acc;
    a.(accumulated := acc, book := book, lastDate := Some(date),
       rows := a.rows + [Row(date, m, acc, book)],
       posted := a.posted + [DepreciationLines(m)],
       status := if book <= a.terms.salvage then FullyDepreciated else a.status)
  }

  // A month whose instalment is zero leaves the asset alone.
  function PostDepreciation(a: Asset, date: int): Result<Asset, AssetError> {
    if a.status != Active then Err(NotActive)
    else if HasRow(a.rows, date) then Err(AlreadyPosted)
    else
      match Instalment(a.terms, a.accumulated)
      case Err(e) => Err(e)
      case Ok(m) =>
        if m == 0 then Ok(a)
        else if !Postable(DepreciationLines(m)) then Err(RejectedPosting)
        else Ok(Depreciated(a, date, m))
  }

  // ---------- disposal ----------

  function DisposalFields(a: Asset, date: int, price: int): Asset {
    a.(status := if price > 0 then Sold else Disposed, disposalDate := Some(date), disposalPrice := Some(price),
       gainLoss := Some(price - a.book))
  }

  function DisposalLines(a: Asset, price: int): seq<PostLine> {
    var gain := price - a.book;
    (if a.accumulated != 0 then [PostLine(AccumulatedDepreciation, a.accumulated, 0)] else [])
    + (if price > 0 then [PostLine(Bank, price, 0)] else [])
    + (if gain > 0 then [PostLine(Gain, 0, gain)] else if gain < 0 then [PostLine(Loss, -gain, 0)] else [])
    + [PostLine(Cost, 0, a.terms.price)]
  }

  function Dispose(a: Asset, date: int, price: int): Result<Asset, AssetError> {
    if a.status == Disposed || a.status == Sold then Err(AlreadyDisposed)
    else if !Postable(DisposalLines(a, price)) then Err(RejectedPosting)
    else
      var b := DisposalFields(a, date, price);
      Ok(b.(posted := b.posted + [DisposalLines(a, price)]))
  }

  // ---------- the object ----------

  class FixedAsset {
    const terms: Terms
    var accumulated: int
    var book: int
    var lastDate: Option<int>
    var status: AssetStatus
    var disposalDate: Option<int>
    var disposalPrice: Option<int>
    var gainLoss: Option<int>
    var rows: seq<Row>
    var posted: seq<seq<PostLine>>

    function View(): Asset
      reads this
    {
      Asset(terms, accumulated, book, lastDate, status, disposalDate, disposalPrice, gainLoss, rows, posted)
    }

    constructor (t: Terms)
      ensures View() == New(t)
    {
      terms := t;
      accumulated, book, lastDate, status := 0, t.price, None, Active;
      disposalDate, disposalPrice, gainLoss, rows, posted := None, None, None, [], [];
    }

    // Returns the schedule row, or None for a month with nothing to post.
    method PostMonth(date: int) returns (r: Result<Option<Row>, AssetError>)
      modifies this
      ensures match PostDepreciation(old(View()), date)
              case Err(e) => r == Err(e) && View() == old(View())
              case Ok(after) =>
                && View() == after
                && r == Ok(if after.rows == old(rows) then None else Some(after.rows[|after.rows| - 1]))
    {
      if status != Active {
        return Err(NotActive);
      }
      if HasRow(rows, date) {
        return Err(AlreadyPosted);
      }
      var amount := Instalment(terms, accumulated);
      if amount.Err? {
        return Err(amount.error);
      }
      var m := amount.value;
      if m == 0 {
        return Ok(None);
      }
      var lines := DepreciationLines(m);
      if !Postable(lines) {
        return Err(RejectedPosting);
      }
      posted := posted + [lines];
      accumulated := accumulated + m;
      book := terms.price - accumulated;
      lastDate := Some(date);
      var row := Row(date, m, accumulated, book);
      rows := rows + [row];
      if book <= terms.salvage {
        status := FullyDepreciated;
      }
      r := Ok(Some(row));
    }

    // The entry's lines for the asset as it was when the disposal began.
    method CollectDisposalLines(ghost was: Asset, price: int, gain: int) returns (lines: seq<PostLine>)
      requires was.terms == terms && was.accumulated == accumulated && was.book == book && gain == price - book
      ensures lines == DisposalLines(was, price)
    {
      lines := [];
      if accumulated != 0 {
        lines := lines + [PostLine(AccumulatedDepreciation, accumulated, 0)];
      }
      if price > 0 {
        lines := lines + [PostLine(Bank, price, 0)];
      }
      if gain > 0 {
        lines := lines + [PostLine(Gain, 0, gain)];
      } else if gain < 0 {
        lines := lines + [PostLine(Loss, -gain, 0)];
      }
      lines := lines + [PostLine(Cost, 0, terms.price)];
    }

    // A refused posting is raised after the fields have been set; the caller's transaction undoes them.
    method DisposeOf(date: int, price: int) returns (r: Result<(), AssetError>)
      modifies this
      ensures match Dispose(old(View()), date, price)
              case Ok(after) => r == Ok(()) && View() == after
              case Err(e) =>
                && r == Err(e)
                && View() == if e == AlreadyDisposed then old(View()) else DisposalFields(old(View()), date, price)
    {
      if status == Disposed || status == Sold {
        return Err(AlreadyDisposed);
      }
      status := if price > 0 then Sold else Disposed;
      disposalDate := Some(date);
      disposalPrice := Some(price);
      var gain := price - book;
      gainLoss := Some(gain);
      var lines := CollectDisposalLines(old(View()), price, gain);
      if !Postable(lines) {
        return Err(RejectedPosting);
      }
      posted := posted + [lines];
      r := Ok(());
    }
  }
}
