/** A fixed asset over its whole life: any sequence of depreciation postings and disposals, where a call
    that raises leaves the asset as it was. */
module AssetLife {
  import opened Wrappers
  import opened FixedAssets
  import Rounding

  datatype Event = Depreciate(date: int) | Discard(date: int, price: int)

  function Step(a: Asset, e: Event): Asset {
    var r := match e
      case Depreciate(date) => PostDepreciation(a, date)
      case Discard(date, price) => Dispose(a, date, price);
    if r.Ok? then r.value else a
  }

  function Run(t: Terms, es: seq<Event>): Asset {
    if es == [] then New(t) else Step(Run(t, es[..|es| - 1]), es[|es| - 1])
  }

  // ---------- the schedule rows ----------

  function RowSum(rows: seq<Row>): int {
    if rows == [] then 0 else RowSum(rows[..|rows| - 1]) + rows[|rows| - 1].amount
  }

  ghost predicate RowSound(t: Terms, rows: seq<Row>, k: nat)
    requires k < |rows|
  {
    && rows[k].amount > 0
    && Instalment(t, RowSum(rows[..k])) == Ok(rows[k].amount)
    && rows[k].accumulated == RowSum(rows[..k]) + rows[k].amount
    && rows[k].book + rows[k].accumulated == t.price
  }

  // Distinct months; each row is the instalment due on what had accumulated before it, and carries the
  // running total and the book value it leaves.
  ghost predicate RowsSound(t: Terms, rows: seq<Row>) {
    && (forall i, k | 0 <= i < k < |rows| :: rows[i].period != rows[k].period)
    && (forall k | 0 <= k < |rows| :: RowSound(t, rows, k))
  }

  // The asset's own fields are those of the last row.
  ghost predicate ScheduleSound(a: Asset) {
    && RowsSound(a.terms, a.rows)
    && a.accumulated == RowSum(a.rows) && a.book + a.accumulated == a.terms.price
    && (if a.rows == [] then a.lastDate == None
        else
          var last := a.rows[|a.rows| - 1];
          a.lastDate == Some(last.period) && a.accumulated == last.accumulated && a.book == last.book)
    && (a.status == Active && a.rows != [] ==> a.book > a.terms.salvage)
    && (a.status == FullyDepreciated ==> a.rows != [] && a.book <= a.terms.salvage)
  }

  lemma RowsAppend(t: Terms, rows: seq<Row>, row: Row)
    requires RowsSound(t, rows) && !HasRow(rows, row.period)
    requires row.amount > 0 && Instalment(t, RowSum(rows)) == Ok(row.amount)
    requires row.accumulated == RowSum(rows) + row.amount && row.book + row.accumulated == t.price
    ensures RowsSound(t, rows + [row]) && RowSum(rows + [row]) == RowSum(rows) + row.amount
  {
    var more := rows + [row];
    assert more[..|rows|] == rows;
    forall k | 0 <= k < |more| ensures RowSound(t, more, k) {
      if k < |rows| {
        assert RowSound(t, rows, k);
        assert more[..k] == rows[..k];
      }
    }
    forall i, k | 0 <= i < k < |more| ensures more[i].period != more[k].period {
      assert rows[i] in rows;
    }
  }

  lemma DepreciatedSound(a: Asset, date: int, m: int)
    requires ScheduleSound(a) && a.status == Active && !HasRow(a.rows, date)
    requires Instalment(a.terms, a.accumulated) == Ok(m) && m > 0
    ensures ScheduleSound(Depreciated(a, date, m))
  {
    var b := Depreciated(a, date, m);
    RowsAppend(a.terms, a.rows, b.rows[|a.rows|]);
  }

  lemma StepSound(a: Asset, e: Event)
    requires ScheduleSound(a)
    ensures ScheduleSound(Step(a, e)) && Step(a, e).terms == a.terms
    ensures e.Depreciate? && a.status == Active && PostDepreciation(a, e.date).Ok? && Step(a, e) != a ==>
              && Step(a, e).rows == a.rows + [Step(a, e).rows[|a.rows|]]
              && Step(a, e).rows[|a.rows|].amount > 0 && Step(a, e).rows[|a.rows|].period == e.date
  {
    if e.Depreciate? && PostDepreciation(a, e.date).Ok? {
      var m := Instalment(a.terms, a.accumulated).value;
      if m != 0 {
        assert DepreciationLines(m)[0] in DepreciationLines(m);
        DepreciatedSound(a, e.date, m);
      }
    }
  }

  function NetOf(lines: seq<PostLine>, role: Role): int {
    if lines == [] then 0
    else (if lines[0].role == role then lines[0].debit - lines[0].credit else 0) + NetOf(lines[1..], role)
  }

  lemma {:induction false} NetConcat(s: seq<PostLine>, t: seq<PostLine>, role: Role)
    ensures NetOf(s + t, role) == NetOf(s, role) + NetOf(t, role)
    ensures Debits(s + t) == Debits(s) + Debits(t)
    ensures Credits(s + t) == Credits(s) + Credits(t)
  {
    if s == [] {
      assert s + t == t;
    } else {
      NetConcat(s[1..], t, role);
      assert (s + t)[1..] == s[1..] + t;
    }
  }

  lemma NetOne(l: PostLine, role: Role)
    ensures NetOf([l], role) == if l.role == role then l.debit - l.credit else 0
    ensures Debits([l]) == l.debit && Credits([l]) == l.credit
  {
  }

  lemma DepreciationNet(m: int, role: Role)
    ensures NetOf(DepreciationLines(m), role) ==
            match role
            case Expense => m
            case AccumulatedDepreciation => -m
            case _ => 0
    ensures Debits(DepreciationLines(m)) == m && Credits(DepreciationLines(m)) == m
  {
    NetOne(PostLine(Expense, m, 0), role);
    NetOne(PostLine(AccumulatedDepreciation, 0, m), role);
    NetConcat([PostLine(Expense, m, 0)], [PostLine(AccumulatedDepreciation, 0, m)], role);
    assert DepreciationLines(m) == [PostLine(Expense, m, 0)] + [PostLine(AccumulatedDepreciation, 0, m)];
  }

  // What a month not yet posted does to an active asset.
  lemma FreshMonth(a: Asset, date: int, m: int)
    requires a.status == Active && !HasRow(a.rows, date) && Instalment(a.terms, a.accumulated) == Ok(m) && m >= 0
    ensures Step(a, Depreciate(date)) == if m == 0 then a else Depreciated(a, date, m)
  {
    DepreciationNet(m, Expense);
  }

  lemma {:induction false} ScheduleInvariant(t: Terms, es: seq<Event>)
    ensures ScheduleSound(Run(t, es)) && Run(t, es).terms == t
  {
    if es != [] {
      ScheduleInvariant(t, es[..|es| - 1]);
      StepSound(Run(t, es[..|es| - 1]), es[|es| - 1]);
    }
  }

  // ---------- conservation over a lifetime ----------

  // Debits minus credits of one account over every entry the asset has posted.
  function Net(posted: seq<seq<PostLine>>, role: Role): int {
    if posted == [] then 0 else Net(posted[..|posted| - 1], role) + NetOf(posted[|posted| - 1], role)
  }

  ghost predicate OneSided(l: PostLine) {
    (l.debit > 0 && l.credit == 0) || (l.debit == 0 && l.credit > 0)
  }

  ghost predicate Exact(lines: seq<PostLine>) {
    Debits(lines) == Credits(lines) && forall l | l in lines :: OneSided(l)
  }

  ghost predicate PricesNotNegative(es: seq<Event>) {
    forall e | e in es :: e.Discard? ==> e.price >= 0
  }

  ghost predicate Conserved(a: Asset) {
    && (forall p | p in a.posted :: Exact(p))
    && (if a.status == Active || a.status == FullyDepreciated then
          && Net(a.posted, Expense) == a.accumulated && Net(a.posted, AccumulatedDepreciation) == -a.accumulated
          && Net(a.posted, Bank) == 0 && Net(a.posted, Gain) == 0 && Net(a.posted, Loss) == 0
          && Net(a.posted, Cost) == 0
        else
          && a.disposalPrice.Some? && a.disposalPrice.value >= 0
          && a.gainLoss == Some(a.disposalPrice.value - a.book)
          && (a.status == Sold <==> a.disposalPrice.value > 0)
          && Net(a.posted, Expense) == a.accumulated && Net(a.posted, AccumulatedDepreciation) == 0
          && Net(a.posted, Bank) == a.disposalPrice.value && Net(a.posted, Cost) == -a.terms.price
          && Net(a.posted, Loss) + Net(a.posted, Gain) == -a.gainLoss.value
          && Net(a.posted, Loss) >= 0 && Net(a.posted, Gain) <= 0
          && (Net(a.posted, Loss) == 0 || Net(a.posted, Gain) == 0))
  }

  lemma DisposalNet(a: Asset, price: int, role: Role)
    requires price >= 0
    ensures var gain := price - a.book;
            NetOf(DisposalLines(a, price), role) ==
            match role
            case Expense => 0
            case AccumulatedDepreciation => a.accumulated
            case Bank => price
            case Gain => if gain > 0 then -gain else 0
            case Loss => if gain < 0 then -gain else 0
            case Cost => -a.terms.price
    ensures Debits(DisposalLines(a, price)) - Credits(DisposalLines(a, price)) ==
            a.accumulated + a.book - a.terms.price
  {
    var gain := price - a.book;
    var acc, bank, result, cost :=
      PostLine(AccumulatedDepreciation, a.accumulated, 0), PostLine(Bank, price, 0),
      if gain > 0 then PostLine(Gain, 0, gain) else PostLine(Loss, -gain, 0), PostLine(Cost, 0, a.terms.price);
    NetOne(acc, role); NetOne(bank, role); NetOne(result, role); NetOne(cost, role);
    var s := if a.accumulated != 0 then [acc] else [];
    var u := if price > 0 then [bank] else [];
    var v := if gain != 0 then [result] else [];
    assert DisposalLines(a, price) == s + u + v + [cost];
    NetConcat(s, u, role);
    NetConcat(s + u, v, role);
    NetConcat(s + u + v, [cost], role);
  }

  lemma NetStep(posted: seq<seq<PostLine>>, lines: seq<PostLine>)
    ensures forall role :: Net(posted + [lines], role) == Net(posted, role) + NetOf(lines, role)
  {
  }

  // With a cost above zero and a price not below zero, a disposal is refused only to an asset already
  // disposed of; with a cost of zero or less the ledger refuses its closing line.
  lemma DisposalAccepted(a: Asset, date: int, price: int)
    requires ScheduleSound(a) && price >= 0 && a.accumulated >= 0
    ensures Dispose(a, date, price).Ok? <==>
            (a.status == Active || a.status == FullyDepreciated) && a.terms.price > 0
    ensures a.terms.price > 0 ==> Exact(DisposalLines(a, price))
  {
    DisposalNet(a, price, Cost);
    var lines := DisposalLines(a, price);
    assert lines[|lines| - 1] == PostLine(Cost, 0, a.terms.price) && lines[|lines| - 1] in lines;
  }

  // What an accepted disposal records; the schedule and the amounts stay.
  lemma DisposalRecords(a: Asset, date: int, price: int)
    requires Dispose(a, date, price).Ok?
    ensures var b := Dispose(a, date, price).value;
            && a.status in {Active, FullyDepreciated} && b.status == (if price > 0 then Sold else Disposed)
            && b.disposalDate == Some(date) && b.disposalPrice == Some(price) && b.gainLoss == Some(price - a.book)
            && b.terms == a.terms && b.accumulated == a.accumulated && b.book == a.book && b.rows == a.rows
            && b.lastDate == a.lastDate && |b.posted| == |a.posted| + 1 && b.posted[..|a.posted|] == a.posted
  {
  }

  // What the ledger's door lets through: two sides up to one thousandth apart, and both sides of one line
  // only up to a cent.
  lemma DoorExactly(r: Role, q: Role, d: int, k: int)
    requires d > 0 && k > 0
    ensures Postable([PostLine(r, d, 0), PostLine(q, 0, k)]) <==> -1 <= d - k <= 1
    ensures Postable([PostLine(r, d, k)]) <==> -1 <= d - k <= 1 && (d <= 10 || k <= 10)
    ensures !Postable([PostLine(r, 0, 0)])
  {
    var left, right := [PostLine(r, d, 0)], [PostLine(q, 0, k)];
    var two, one := left + right, [PostLine(r, d, k)];
    NetConcat(left, right, r);
    NetOne(left[0], r);
    NetOne(right[0], r);
    NetOne(one[0], r);
    assert two == [PostLine(r, d, 0), PostLine(q, 0, k)];
    assert two[0] in two && two[1] in two && one[0] in one;
    assert PostLine(r, 0, 0) in [PostLine(r, 0, 0)];
  }

  lemma {:induction false} RowSumPositive(t: Terms, rows: seq<Row>, n: nat)
    requires RowsSound(t, rows) && n <= |rows|
    ensures RowSum(rows[..n]) >= n
  {
    if n > 0 {
      RowSumPositive(t, rows, n - 1);
      assert RowSound(t, rows, n - 1);
      assert rows[..n][..n - 1] == rows[..n - 1];
    }
  }

  lemma AccumulatedNotNegative(a: Asset)
    requires ScheduleSound(a)
    ensures a.accumulated >= |a.rows|
  {
    RowSumPositive(a.terms, a.rows, |a.rows|);
    assert a.rows[..|a.rows|] == a.rows;
  }

  lemma DepreciationConserves(a: Asset, date: int)
    requires Conserved(a) && ScheduleSound(a)
    ensures Conserved(Step(a, Depreciate(date)))
  {
    if PostDepreciation(a, date).Ok? {
      var m := Instalment(a.terms, a.accumulated).value;
      if m != 0 {
        var lines := DepreciationLines(m);
        assert lines[0] in lines;
        DepreciationNet(m, Expense);
        DepreciationNet(m, AccumulatedDepreciation);
        DepreciationNet(m, Bank);
        DepreciationNet(m, Gain);
        DepreciationNet(m, Loss);
        DepreciationNet(m, Cost);
        NetStep(a.posted, lines);
        var b := Depreciated(a, date, m);
        assert b.posted == a.posted + [lines] && Exact(lines);
      }
    }
  }

  lemma DisposalConserves(a: Asset, date: int, price: int)
    requires Conserved(a) && ScheduleSound(a) && price >= 0
    ensures Conserved(Step(a, Discard(date, price)))
  {
    if Dispose(a, date, price).Ok? {
      var lines := DisposalLines(a, price);
      AccumulatedNotNegative(a);
      DisposalAccepted(a, date, price);
      DisposalNet(a, price, Expense);
      DisposalNet(a, price, AccumulatedDepreciation);
      DisposalNet(a, price, Bank);
      DisposalNet(a, price, Gain);
      DisposalNet(a, price, Loss);
      DisposalNet(a, price, Cost);
      NetStep(a.posted, lines);
      var b := Dispose(a, date, price).value;
      assert b.posted == a.posted + [lines] && Exact(lines);
    }
  }

  lemma {:induction false} ConservedInvariant(t: Terms, es: seq<Event>)
    requires PricesNotNegative(es)
    ensures Conserved(Run(t, es))
  {
    if es != [] {
      var before, e := es[..|es| - 1], es[|es| - 1];
      assert forall x | x in before :: x in es;
      assert e in es;
      ConservedInvariant(t, before);
      ScheduleInvariant(t, before);
      var a := Run(t, before);
      match e
      case Depreciate(date) => DepreciationConserves(a, date);
      case Discard(date, price) => DisposalConserves(a, date, price);
    }
  }

  // Whatever was posted before, a disposal leaves expense plus loss minus gain (a credit, so its net is
  // negative) equal to cost minus proceeds, clears accumulated depreciation, and takes the whole cost out of
  // the asset account. Every entry posted on the way balances exactly, each line with one positive side.
  lemma LifetimeConservation(t: Terms, es: seq<Event>)
    requires PricesNotNegative(es)
    ensures var a := Run(t, es);
            && (forall p | p in a.posted :: Exact(p))
            && (a.status == Disposed || a.status == Sold ==>
                  && a.disposalPrice.Some?
                  && Net(a.posted, Expense) + Net(a.posted, Loss) + Net(a.posted, Gain)
                     == t.price - a.disposalPrice.value
                  && Net(a.posted, AccumulatedDepreciation) == 0
                  && Net(a.posted, Cost) == -t.price
                  && Net(a.posted, Bank) == a.disposalPrice.value)
  {
    ConservedInvariant(t, es);
    ScheduleInvariant(t, es);
  }
}
