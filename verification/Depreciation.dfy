/** How far the two depreciation methods go: how many instalments, how large, and where they stop. */
module Depreciation {
  import opened Wrappers
  import opened FixedAssets
  import opened AssetLife
  import Rounding

  // ---------- the instalment ----------

  // Land and an unknown method have no instalment. Straight line: price less salvage over the months of life,
  // rounded to the cent. Declining balance: a twelfth of twice the book value over the years, rounded to the
  // cent, but no more than what is left above salvage. A life of zero years cannot be divided by.
  lemma InstalmentExactly(t: Terms, accumulated: int, cents: int)
    ensures t.isLand || t.plan == OtherMethod ==> Instalment(t, accumulated) == Ok(0)
    ensures !t.isLand && t.plan != OtherMethod && t.years == 0 ==> Instalment(t, accumulated) == Err(DivisionByZero)
    ensures !t.isLand && t.plan == StraightLine && t.years != 0
            && Rounding.RoundsTo(t.price - t.salvage, 120 * t.years, cents) ==>
              Instalment(t, accumulated) == Ok(10 * cents)
    ensures !t.isLand && t.plan == DecliningBalance && t.years != 0
            && Rounding.RoundsTo(2 * (t.price - accumulated), 120 * t.years, cents) ==>
              var left := t.price - accumulated - t.salvage;
              Instalment(t, accumulated) == Ok(if left <= 0 then 0 else if 10 * cents > left then left else 10 * cents)
  {
    if t.years != 0 {
      Rounding.HalfUpSpec(t.price - t.salvage, 120 * t.years, cents);
      Rounding.HalfUpSpec(2 * (t.price - accumulated), 120 * t.years, cents);
    }
  }

  // Whatever is posted, land keeps its price, and so does an asset with an unknown method.
  lemma {:induction false} NeverWrittenDown(t: Terms, es: seq<Event>)
    requires t.isLand || t.plan == OtherMethod
    ensures var a := Run(t, es);
            a.rows == [] && a.accumulated == 0 && a.book == t.price && a.status != FullyDepreciated
  {
    if es != [] {
      var before := es[..|es| - 1];
      NeverWrittenDown(t, before);
      ScheduleInvariant(t, before);
      InstalmentExactly(t, Run(t, before).accumulated, 0);
    }
  }

  // ---------- straight line ----------

  ghost predicate IsStraightLine(t: Terms) {
    !t.isLand && t.plan == StraightLine && t.years > 0
  }

  function Monthly(t: Terms): int
    requires t.years != 0
  {
    ToCent(Depreciable(t), 12 * t.years)
  }

  lemma CeilBounds(d: int, m: int)
    requires m > 0
    ensures var n := (d + m - 1) / m; n * m >= d > (n - 1) * m
  {
    var n := (d + m - 1) / m;
    assert d + m - 1 == n * m + (d + m - 1) % m;
    assert (n - 1) * m == n * m - m;
  }

  // The least number of instalments that covers the depreciable amount.
  function Instalments(t: Terms): (n: int)
    requires IsStraightLine(t) && Monthly(t) > 0
    ensures n * Monthly(t) >= Depreciable(t) > (n - 1) * Monthly(t)
  {
    var m := Monthly(t);
    var n := (Depreciable(t) + m - 1) / m;
    assert n * m >= Depreciable(t) > (n - 1) * m by { CeilBounds(Depreciable(t), m); }
    n
  }

  lemma HalfYearBounds(d: int, years: int, p: int)
    requires p >= years > 0 && Rounding.Nearest(d, 120 * years, 120 * p)
    ensures 60 * p <= d <= 180 * p
  {
  }

  lemma CentsOfShare(d: int, years: int, cents: int)
    requires years > 0 && cents > 0 && Rounding.RoundsTo(d, 120 * years, cents)
    ensures 6 * (years * (10 * cents)) <= d <= 18 * (years * (10 * cents))
  {
    var p := cents * years;
    assert cents * (120 * years) == 120 * p;
    assert years * (10 * cents) == 10 * p;
    Rounding.MulAtLeast(cents, 1, years);
    HalfYearBounds(d, years, p);
  }

  // A positive instalment is at least one cent, so the depreciable amount lies between six and eighteen
  // instalments a year.
  lemma InstalmentBounds(t: Terms)
    requires IsStraightLine(t) && Monthly(t) > 0
    ensures 6 * (t.years * Monthly(t)) <= Depreciable(t) <= 18 * (t.years * Monthly(t))
  {
    var cents := Rounding.HalfUp(Depreciable(t), 120 * t.years);
    Rounding.HalfUpSpec(Depreciable(t), 120 * t.years, cents);
    CentsOfShare(Depreciable(t), t.years, cents);
  }

  lemma InstalmentsRange(t: Terms)
    requires IsStraightLine(t) && Monthly(t) > 0
    ensures 6 * t.years <= Instalments(t) <= 18 * t.years
  {
    var m, n, y := Monthly(t), Instalments(t), t.years;
    InstalmentBounds(t);
    assert 6 * (y * m) == (6 * y) * m && 18 * (y * m) == (18 * y) * m;
    assert (6 * y - 1) * m == (6 * y) * m - m;
    if n < 6 * y {
      Rounding.MulAtLeast(6 * y - 1, n, m);
    }
    if n > 18 * y {
      Rounding.MulAtLeast(n - 1, 18 * y, m);
    }
  }

  lemma {:induction false} StraightLineSum(t: Terms, rows: seq<Row>, n: nat)
    requires IsStraightLine(t) && RowsSound(t, rows) && n <= |rows|
    ensures RowSum(rows[..n]) == n * Monthly(t)
  {
    if n > 0 {
      StraightLineSum(t, rows, n - 1);
      assert RowSound(t, rows, n - 1);
      assert rows[..n][..n - 1] == rows[..n - 1];
      assert n * Monthly(t) == (n - 1) * Monthly(t) + Monthly(t);
    }
  }

  // No instalment is posted once the book value has come down to salvage.
  lemma {:induction false} StraightLineLastStep(t: Terms, es: seq<Event>)
    requires IsStraightLine(t) && Monthly(t) > 0 && Run(t, es).rows != []
    ensures (|Run(t, es).rows| - 1) * Monthly(t) < Depreciable(t)
  {
    if es != [] {
      var before, e := es[..|es| - 1], es[|es| - 1];
      var a := Run(t, before);
      ScheduleInvariant(t, before);
      StepSound(a, e);
      if Run(t, es).rows == a.rows {
        StraightLineLastStep(t, before);
      } else {
        StraightLineSum(t, a.rows, |a.rows|);
        assert a.rows[..|a.rows|] == a.rows;
        InstalmentBounds(t);
        Rounding.MulAtLeast(t.years, 1, Monthly(t));
      }
    }
  }

  lemma StraightLineBook(t: Terms, es: seq<Event>)
    requires IsStraightLine(t) && Monthly(t) > 0
    ensures var a := Run(t, es);
            && a.book == t.price - |a.rows| * Monthly(t)
            && (a.rows != [] ==> (|a.rows| - 1) * Monthly(t) < Depreciable(t))
            && (a.status == Active && a.rows != [] ==> a.book > t.salvage)
            && (a.status == FullyDepreciated ==> a.book <= t.salvage)
  {
    var a := Run(t, es);
    ScheduleInvariant(t, es);
    StraightLineSum(t, a.rows, |a.rows|);
    assert a.rows[..|a.rows|] == a.rows;
    if a.rows != [] {
      StraightLineLastStep(t, es);
    }
  }

  lemma SomethingToDepreciate(t: Terms)
    requires IsStraightLine(t) && Monthly(t) > 0
    ensures Depreciable(t) > 0
  {
    InstalmentBounds(t);
    Rounding.MulAtLeast(t.years, 1, Monthly(t));
  }

  // k instalments of which the last was still due, against the least number n that covers d.
  lemma CountPinned(d: int, m: int, k: nat, n: int)
    requires d > 0 && m > 0 && (n - 1) * m < d <= n * m && (k > 0 ==> (k - 1) * m < d)
    ensures k <= n && (k * m < d <==> k < n)
    ensures n * m < d + m
  {
    assert (n - 1) * m == n * m - m;
    if k > n {
      Rounding.MulAtLeast(k - 1, n, m);
    } else if k < n {
      Rounding.MulAtLeast(n - 1, k, m);
    }
  }

  // In every reachable state: all instalments are equal, there are never more of them than it takes to
  // cover the depreciable amount, and the asset is fully depreciated exactly when there are that many,
  // leaving salvage - m < book <= salvage. The number lies between six and eighteen a year.
  lemma StraightLineStops(t: Terms, es: seq<Event>)
    requires IsStraightLine(t) && Monthly(t) > 0
    ensures var a := Run(t, es);
            var (m, n) := (Monthly(t), Instalments(t));
            && 6 * t.years <= n <= 18 * t.years
            && a.book == t.price - |a.rows| * m
            && |a.rows| <= n
            && (a.status == Active ==> |a.rows| < n)
            && (a.status == FullyDepreciated ==> |a.rows| == n)
            && (|a.rows| == n ==> t.salvage - m < a.book <= t.salvage)
  {
    InstalmentsRange(t);
    SomethingToDepreciate(t);
    StraightLineBook(t, es);
    CountPinned(Depreciable(t), Monthly(t), |Run(t, es).rows|, Instalments(t));
  }

  // ---------- posting month after month ----------

  function Months(dates: seq<int>): (es: seq<Event>)
    ensures |es| == |dates|
    ensures forall i | 0 <= i < |dates| :: es[i] == Depreciate(dates[i])
  {
    seq(|dates|, i requires 0 <= i < |dates| => Depreciate(dates[i]))
  }

  ghost predicate FromMonths(a: Asset, dates: seq<int>) {
    && (a.status == Active || a.status == FullyDepreciated)
    && (forall r | r in a.rows :: r.period in dates)
    && |a.rows| <= |dates|
  }

  // An asset posted once for each of several months.
  lemma {:induction false} MonthsRun(t: Terms, dates: seq<int>)
    ensures FromMonths(Run(t, Months(dates)), dates)
  {
    if dates != [] {
      var n := |dates| - 1;
      MonthsRun(t, dates[..n]);
      assert Months(dates)[..n] == Months(dates[..n]);
      var a := Run(t, Months(dates[..n]));
      ScheduleInvariant(t, Months(dates[..n]));
      StepSound(a, Depreciate(dates[n]));
      forall d | d in dates[..n] ensures d in dates {
      }
    }
  }

  lemma LastMonthIsNew(t: Terms, dates: seq<int>)
    requires dates != [] && Distinct(dates)
    ensures var n := |dates| - 1;
            && Run(t, Months(dates)) == Step(Run(t, Months(dates[..n])), Depreciate(dates[n]))
            && !HasRow(Run(t, Months(dates[..n])).rows, dates[n])
  {
    var n := |dates| - 1;
    assert Months(dates)[..n] == Months(dates[..n]);
    MonthsRun(t, dates[..n]);
  }

  // Posting n distinct months gives n instalments until the last one is reached, and stops there: the asset
  // does become fully depreciated, after exactly Instalments(t) postings.
  lemma {:induction false} StraightLineCompletes(t: Terms, dates: seq<int>)
    requires IsStraightLine(t) && Monthly(t) > 0 && Distinct(dates)
    ensures var a := Run(t, Months(dates));
            && |a.rows| == (if |dates| <= Instalments(t) then |dates| else Instalments(t))
            && a.status == (if |dates| < Instalments(t) then Active else FullyDepreciated)
  {
    MonthsRun(t, dates);
    StraightLineStops(t, Months(dates));
    InstalmentsRange(t);
    if dates != [] {
      var n := |dates| - 1;
      StraightLineCompletes(t, dates[..n]);
      LastMonthIsNew(t, dates);
      var a := Run(t, Months(dates[..n]));
      ScheduleInvariant(t, Months(dates[..n]));
      if a.status == Active {
        FreshMonth(a, dates[n], Monthly(t));
      }
    }
  }

  // The instalment rounds to something exactly if there is at least half a cent a month to depreciate.
  lemma PositiveInstalment(t: Terms)
    requires IsStraightLine(t)
    ensures Monthly(t) > 0 <==> Depreciable(t) >= 60 * t.years
  {
    var d, cents := 120 * t.years, Rounding.HalfUp(Depreciable(t), 120 * t.years);
    Rounding.HalfUpSpec(Depreciable(t), d, cents);
    if cents > 0 {
      Rounding.MulAtLeast(cents, 1, d);
    } else {
      Rounding.MulAtLeast(0, cents, d);
    }
  }

  lemma NothingPosted(a: Asset, e: Event)
    requires IsStraightLine(a.terms) && Monthly(a.terms) <= 0
    ensures Step(a, e).rows == a.rows && Step(a, e).book == a.book
    ensures Step(a, e).status == FullyDepreciated ==> a.status == FullyDepreciated
  {
    var lines := DepreciationLines(Monthly(a.terms));
    assert lines[0] in lines;
  }

  // Otherwise no posting ever depreciates the asset: nothing is due, or the ledger refuses a negative amount.
  lemma {:induction false} NothingDepreciates(t: Terms, es: seq<Event>)
    requires IsStraightLine(t) && Depreciable(t) < 60 * t.years
    ensures var a := Run(t, es);
            a.rows == [] && a.book == t.price && a.status != FullyDepreciated
  {
    if es != [] {
      var before := es[..|es| - 1];
      NothingDepreciates(t, before);
      ScheduleInvariant(t, before);
      PositiveInstalment(t);
      NothingPosted(Run(t, before), es[|es| - 1]);
    }
  }

  // So enough distinct months make the asset fully depreciated exactly if there is that much to depreciate.
  lemma StraightLineReaches(t: Terms, dates: seq<int>)
    requires IsStraightLine(t) && Distinct(dates) && |dates| >= 18 * t.years
    ensures Run(t, Months(dates)).status == FullyDepreciated <==> Depreciable(t) >= 60 * t.years
  {
    PositiveInstalment(t);
    if Depreciable(t) >= 60 * t.years {
      StraightLineCompletes(t, dates);
      InstalmentsRange(t);
    } else {
      NothingDepreciates(t, Months(dates));
    }
  }

  lemma Overrun(d: int, m: int, n: int, k: int)
    requires m > 0 && (n - 1) * m < d <= n * m
    ensures n > k <==> k * m < d
  {
    if n > k {
      Rounding.MulAtLeast(n - 1, k, m);
    } else {
      Rounding.MulAtLeast(k, n, m);
    }
  }

  lemma MultipleModulo(n: int, m: int)
    requires m > 0
    ensures (n * m) % m == 0
  {
    var q, r := n * m / m, (n * m) % m;
    assert n * m == q * m + r;
    assert (n - q) * m == r;
    if n > q {
      Rounding.MulAtLeast(n - q, 1, m);
    } else if n < q {
      Rounding.MulAtLeast(-1, n - q, m);
    }
  }

  lemma ExactCover(d: int, m: int, n: int)
    requires m > 0 && (n - 1) * m < d <= n * m
    ensures n * m == d <==> d % m == 0
  {
    if d % m == 0 {
      var q := d / m;
      assert d == q * m;
      Overrun(d, m, n, q);
      Overrun(d, m, n, q - 1);
      assert (q - 1) * m == q * m - m;
    } else if n * m == d {
      MultipleModulo(n, m);
    }
  }

  // Nothing clamps the last instalment. Posting distinct months, the asset is still active when its stated
  // life is over exactly if the rounded instalments fall short of the depreciable amount; and in the end it
  // stands below salvage exactly if they do not divide it.
  lemma StraightLineOverrun(t: Terms, dates: seq<int>)
    requires IsStraightLine(t) && Monthly(t) > 0 && Distinct(dates)
    ensures var a := Run(t, Months(dates));
            && (|dates| == 12 * t.years ==> (a.status == Active <==> 12 * t.years * Monthly(t) < Depreciable(t)))
            && (|dates| >= Instalments(t) ==> (a.book < t.salvage <==> Depreciable(t) % Monthly(t) != 0))
  {
    StraightLineCompletes(t, dates);
    StraightLineStops(t, Months(dates));
    Overrun(Depreciable(t), Monthly(t), Instalments(t), 12 * t.years);
    ExactCover(Depreciable(t), Monthly(t), Instalments(t));
  }

  lemma HundredOverOneYear(t: Terms)
    requires t == Terms(false, StraightLine, 100_000, 0, 1)
    ensures Monthly(t) == 8_330 && Instalments(t) == 13
  {
    assert Monthly(t) == 8_330;
    var n := Instalments(t);
    assert n * 8_330 >= 100_000 > (n - 1) * 8_330;
  }

  // An asset of 100.000 with no salvage and a one-year life: the instalment is 8.33, so the twelve months of
  // its life leave it active at 0.04, and the thirteenth takes it to -8.29.
  lemma OneYearTakesThirteenMonths(dates: seq<int>)
    requires Distinct(dates) && |dates| == 13
    ensures var t := Terms(false, StraightLine, 100_000, 0, 1);
            var (year, a) := (Run(t, Months(dates[..12])), Run(t, Months(dates)));
            && year.status == Active && year.book == 40
            && a.status == FullyDepreciated && |a.rows| == 13 && a.book == -8_290
  {
    var t := Terms(false, StraightLine, 100_000, 0, 1);
    HundredOverOneYear(t);
    StraightLineCompletes(t, dates[..12]);
    StraightLineStops(t, Months(dates[..12]));
    StraightLineCompletes(t, dates);
    StraightLineStops(t, Months(dates));
  }

  // ---------- declining balance ----------

  ghost predicate IsDeclining(t: Terms) {
    !t.isLand && t.plan == DecliningBalance && t.years > 0
  }

  // The instalment before the salvage clamp, and the instalment, as functions of the book value.
  function Doubled(t: Terms, book: int): int
    requires t.years > 0
  {
    ToCent(2 * book, 12 * t.years)
  }

  function Due(t: Terms, book: int): int
    requires t.years > 0
  {
    if book <= t.salvage then 0
    else if book - Doubled(t, book) < t.salvage then book - t.salvage
    else Doubled(t, book)
  }

  lemma CentBounds(book: nat, years: int, r: nat, p: int)
    requires years > 0 && (r == 0 ==> p == 0) && (r >= 1 ==> p >= years)
    requires Rounding.Nearest(2 * book, 120 * years, 120 * p)
    ensures r == 0 <==> book < 30 * years
    ensures 30 * p <= book
  {
  }

  lemma CentsOfBook(book: nat, years: int, r: nat)
    requires years > 0 && Rounding.RoundsTo(2 * book, 120 * years, r)
    ensures r == 0 <==> book < 30 * years
    ensures 3 * years * (10 * r) <= book
  {
    var p := r * years;
    assert r * (120 * years) == 120 * p;
    assert 3 * years * (10 * r) == 30 * p;
    if r >= 1 {
      Rounding.MulAtLeast(r, 1, years);
    }
    CentBounds(book, years, r, p);
  }

  // A twelfth of twice the book value over the life, rounded to a cent, is zero exactly below 0.03 a year,
  // and never takes more than a third of a year's share of the book value.
  lemma DoubledBounds(t: Terms, book: int)
    requires t.years > 0 && book >= 0
    ensures Doubled(t, book) >= 0
    ensures Doubled(t, book) == 0 <==> book < 30 * t.years
    ensures 3 * t.years * Doubled(t, book) <= book
  {
    var d := 120 * t.years;
    var r := Rounding.HalfUp(2 * book, d);
    Rounding.HalfUpSpec(2 * book, d, r);
    Rounding.HalfUpMonotone(0, 2 * book, d);
    Rounding.HalfUpOfMultiple(0, d);
    CentsOfBook(book, t.years, r);
  }

  lemma DueMonotone(t: Terms, low: int, high: int)
    requires t.years > 0 && t.salvage <= low <= high && low >= 0
    ensures Due(t, low) <= Due(t, high)
  {
    Rounding.HalfUpMonotone(2 * low, 2 * high, 120 * t.years);
    DoubledBounds(t, high);
  }

  lemma DueBounds(t: Terms, book: int)
    requires t.years > 0 && book >= t.salvage && book >= 0
    ensures 0 <= Due(t, book) <= book - t.salvage
    ensures Due(t, book) == 0 <==> book == t.salvage || book < 30 * t.years
    ensures book - Due(t, book) >= 0
  {
    DoubledBounds(t, book);
    Rounding.MulAtLeast(3 * t.years, 1, if Doubled(t, book) > 0 then Doubled(t, book) else 1);
    assert 3 * t.years * Doubled(t, book) >= Doubled(t, book);
  }

  lemma DueIsInstalment(t: Terms, accumulated: int)
    requires IsDeclining(t)
    ensures Instalment(t, accumulated) == Ok(Due(t, t.price - accumulated))
  {
  }

  // The book value after n instalments never drops below salvage or zero. Until it reaches salvage, every
  // instalment has been at least a cent and a whole number of cents.
  ghost predicate BookAfter(t: Terms, book: int, n: nat) {
    && book >= t.salvage && book >= 0
    && (book > t.salvage ==> book <= t.price - 10 * n && (t.price - book) % 10 == 0)
    && (n > 0 && book == t.salvage ==> book < t.price - 10 * (n - 1))
  }

  lemma NextBook(t: Terms, book: int, n: nat)
    requires IsDeclining(t) && BookAfter(t, book, n) && Due(t, book) > 0
    ensures BookAfter(t, book - Due(t, book), n + 1)
  {
    DueBounds(t, book);
  }

  lemma {:induction false} DecliningBooks(t: Terms, rows: seq<Row>, n: nat)
    requires IsDeclining(t) && t.price >= t.salvage && t.price >= 0
    requires RowsSound(t, rows) && n <= |rows|
    ensures BookAfter(t, t.price - RowSum(rows[..n]), n)
  {
    if n > 0 {
      DecliningBooks(t, rows, n - 1);
      assert RowSound(t, rows, n - 1);
      assert rows[..n][..n - 1] == rows[..n - 1];
      NextBook(t, t.price - RowSum(rows[..n - 1]), n - 1);
    }
  }

  lemma DecliningRows(t: Terms, rows: seq<Row>, i: nat, k: nat)
    requires IsDeclining(t) && t.price >= t.salvage && t.price >= 0
    requires RowsSound(t, rows) && i <= k < |rows|
    ensures rows[k].amount <= rows[i].amount
    decreases k - i
  {
    if i < k {
      DecliningRows(t, rows, i, k - 1);
      assert RowSound(t, rows, k) && RowSound(t, rows, k - 1);
      assert rows[..k][..k - 1] == rows[..k - 1];
      DecliningBooks(t, rows, k);
      DueMonotone(t, t.price - RowSum(rows[..k]), t.price - RowSum(rows[..k - 1]));
    }
  }

  // The cents between price and salvage, a started one counting as whole.
  function CentsToGo(t: Terms): int {
    (t.price - t.salvage + 9) / 10
  }

  // In every reachable state of an asset bought for no less than its salvage value: book >= salvage, no
  // instalment is larger than an earlier one, and there are never more of them than cents from price to salvage.
  // A fully depreciated one stands exactly at salvage.
  lemma DecliningStops(t: Terms, es: seq<Event>)
    requires IsDeclining(t) && t.price >= t.salvage && t.price >= 0
    ensures var a := Run(t, es);
            && a.book >= t.salvage && a.book >= 0
            && (forall i, k | 0 <= i <= k < |a.rows| :: a.rows[k].amount <= a.rows[i].amount)
            && |a.rows| <= CentsToGo(t)
            && (a.status == FullyDepreciated ==> a.book == t.salvage)
  {
    var a := Run(t, es);
    ScheduleInvariant(t, es);
    DecliningBooks(t, a.rows, |a.rows|);
    assert a.rows[..|a.rows|] == a.rows;
    forall i, k | 0 <= i <= k < |a.rows| ensures a.rows[k].amount <= a.rows[i].amount {
      DecliningRows(t, a.rows, i, k);
    }
  }

  // The floor needs the premise: below it from the start, an asset is never depreciated at all.
  lemma {:induction false} DecliningBelowSalvage(t: Terms, es: seq<Event>)
    requires IsDeclining(t) && t.price < t.salvage
    ensures Run(t, es).rows == [] && Run(t, es).book == t.price < t.salvage
  {
    if es != [] {
      var before := es[..|es| - 1];
      DecliningBelowSalvage(t, before);
      ScheduleInvariant(t, before);
      DueIsInstalment(t, Run(t, before).accumulated);
    }
  }

  // The asset is done: exactly at salvage, or stuck on a zero instalment with a book value below 0.03 a year.
  ghost predicate Settled(a: Asset) {
    || a.book == a.terms.salvage
    || (a.status == Active && Instalment(a.terms, a.accumulated) == Ok(0)
        && a.terms.salvage < a.book < 30 * a.terms.years)
  }

  // A new month leaves a settled asset alone, and any other gets an instalment.
  lemma DecliningStep(a: Asset, date: int)
    requires IsDeclining(a.terms) && a.book >= a.terms.salvage && a.book >= 0
    requires a.book == a.terms.price - a.accumulated && !HasRow(a.rows, date)
    requires a.status == Active || (a.status == FullyDepreciated && a.book == a.terms.salvage)
    ensures var b := Step(a, Depreciate(date));
            if Settled(a) then b == a else |b.rows| == |a.rows| + 1
  {
    DueIsInstalment(a.terms, a.accumulated);
    DueBounds(a.terms, a.book);
    if a.status == Active {
      FreshMonth(a, date, Due(a.terms, a.book));
    }
  }

  lemma DecliningProgress(t: Terms, dates: seq<int>)
    requires IsDeclining(t) && t.price >= t.salvage && t.price >= 0
    requires dates != [] && Distinct(dates)
    ensures var a, b := Run(t, Months(dates[..|dates| - 1])), Run(t, Months(dates));
            if Settled(a) then b == a else |b.rows| == |a.rows| + 1
  {
    var before := dates[..|dates| - 1];
    LastMonthIsNew(t, dates);
    MonthsRun(t, before);
    ScheduleInvariant(t, Months(before));
    DecliningStops(t, Months(before));
    DecliningStep(Run(t, Months(before)), dates[|dates| - 1]);
  }

  // Posting distinct months settles a declining-balance asset after at most CentsToGo(t) instalments.
  lemma {:induction false} DecliningSettles(t: Terms, dates: seq<int>)
    requires IsDeclining(t) && t.price >= t.salvage && t.price >= 0 && Distinct(dates)
    ensures var a := Run(t, Months(dates));
            && (!Settled(a) ==> |a.rows| == |dates|)
            && (|dates| > CentsToGo(t) ==> Settled(a))
  {
    DecliningStops(t, Months(dates));
    if dates != [] {
      DecliningSettles(t, dates[..|dates| - 1]);
      DecliningProgress(t, dates);
    }
  }

  // The lowest book value an unclamped instalment can leave, if the price is at least 0.03 a year: a whole
  // number of cents below the price, and no lower than 0.03 a year less a cent.
  function LowestOpen(t: Terms): int {
    30 * t.years - 10 + t.price % 10
  }

  predicate ReachesSalvage(t: Terms) {
    t.salvage == t.price || (t.price >= 30 * t.years && t.salvage >= LowestOpen(t))
  }

  lemma RowsOfRun(t: Terms, es: seq<Event>)
    ensures var a := Run(t, es);
            && a.terms == t && RowsSound(t, a.rows) && a.book == t.price - RowSum(a.rows[..|a.rows|])
            && (a.status == FullyDepreciated ==> a.book <= t.salvage)
  {
    var a := Run(t, es);
    ScheduleInvariant(t, es);
    assert a.rows[..|a.rows|] == a.rows;
  }

  // A book value above salvage has stayed at the price, or has not come below LowestOpen(t); if salvage lies
  // below that, it is always above salvage.
  ghost predicate Open(t: Terms, book: int) {
    && (t.price < 30 * t.years ==> book == t.price)
    && (book > t.salvage && t.price >= 30 * t.years ==> book >= LowestOpen(t))
    && (!ReachesSalvage(t) ==> book > t.salvage)
  }

  // The places a whole number of cents below the price, from 0.03 a year less a cent up to 0.03 a year.
  lemma LowestPlace(price: int, years: int, book: int)
    requires (price - book) % 10 == 0 && book >= 30 * years - 10
    ensures book >= 30 * years - 10 + price % 10
  {
  }

  // A positive whole number of cents, at most a third of a year's share of the book value, leaves at least
  // 0.03 a year less a cent.
  lemma NoClamp(years: int, doubled: int, book: int)
    requires years > 0 && doubled >= 10 && 3 * years * doubled <= book
    ensures book - doubled >= 30 * years - 10
  {
    Rounding.MulAtLeast(doubled, 10, 3 * years - 1);
    assert doubled * (3 * years - 1) == 3 * years * doubled - doubled;
  }

  lemma StillOpen(t: Terms, book: int)
    requires IsDeclining(t) && t.price > t.salvage && book >= t.salvage && book >= 0
    requires Open(t, book) && (book > t.salvage ==> (t.price - book) % 10 == 0)
    requires Due(t, book) > 0
    ensures Open(t, book - Due(t, book))
  {
    DueBounds(t, book);
    DoubledBounds(t, book);
    NoClamp(t.years, Doubled(t, book), book);
    LowestPlace(t.price, t.years, book - Doubled(t, book));
  }

  lemma {:induction false} OpenBooks(t: Terms, rows: seq<Row>, n: nat)
    requires IsDeclining(t) && t.price > t.salvage && t.price >= 0
    requires RowsSound(t, rows) && n <= |rows|
    ensures Open(t, t.price - RowSum(rows[..n]))
  {
    if n > 0 {
      OpenBooks(t, rows, n - 1);
      DecliningBooks(t, rows, n - 1);
      assert RowSound(t, rows, n - 1);
      assert rows[..n][..n - 1] == rows[..n - 1];
      StillOpen(t, t.price - RowSum(rows[..n - 1]));
    }
  }

  lemma BookOfRun(t: Terms, es: seq<Event>)
    requires IsDeclining(t) && t.price >= t.salvage && t.price >= 0
    ensures var a := Run(t, es);
            && a.terms == t && BookAfter(t, a.book, |a.rows|) && (t.price > t.salvage ==> Open(t, a.book))
            && (a.status == FullyDepreciated ==> a.book <= t.salvage)
  {
    var rows := Run(t, es).rows;
    RowsOfRun(t, es);
    DecliningBooks(t, rows, |rows|);
    if t.price > t.salvage {
      OpenBooks(t, rows, |rows|);
    }
  }

  lemma OnePlaceLeft(price: int, years: int, book: int)
    ensures (price - book) % 10 == 0 && 30 * years - 10 + price % 10 <= book < 30 * years ==>
              book == 30 * years - 10 + price % 10
  {
  }

  lemma EndOfBook(t: Terms, book: int, n: nat)
    requires IsDeclining(t) && t.price >= t.salvage && BookAfter(t, book, n) && (t.price > t.salvage ==> Open(t, book))
    ensures book == t.salvage || book < 30 * t.years ==> (book == t.salvage <==> ReachesSalvage(t))
    ensures !ReachesSalvage(t) ==> book > t.salvage
  {
    OnePlaceLeft(t.price, t.years, book);
  }

  // Which of the two ends it is, exactly: an asset that has settled stands at salvage if ReachesSalvage, and one
  // without it never comes down to salvage in any run, so it stays short of fully depreciated for ever.
  lemma DecliningEnds(t: Terms, es: seq<Event>)
    requires IsDeclining(t) && t.price >= t.salvage && t.price >= 0
    ensures var a := Run(t, es);
            && (Settled(a) ==> (a.book == t.salvage <==> ReachesSalvage(t)))
            && (!ReachesSalvage(t) ==> a.book > t.salvage && a.status != FullyDepreciated)
  {
    BookOfRun(t, es);
    EndOfBook(t, Run(t, es).book, |Run(t, es).rows|);
  }

  lemma DoneAtSalvage(t: Terms, dates: seq<int>)
    requires IsDeclining(t) && t.price >= t.salvage && t.price >= 0
    ensures var a := Run(t, Months(dates));
            a.status == FullyDepreciated <==> a.book == t.salvage < t.price
  {
    var a := Run(t, Months(dates));
    ScheduleInvariant(t, Months(dates));
    MonthsRun(t, dates);
    DecliningBooks(t, a.rows, |a.rows|);
    assert a.rows[..|a.rows|] == a.rows;
  }

  // So enough distinct months make the asset fully depreciated exactly when it has some way to go to salvage
  // and ReachesSalvage.
  lemma DecliningCompletes(t: Terms, dates: seq<int>)
    requires IsDeclining(t) && t.price >= t.salvage && t.price >= 0
    requires Distinct(dates) && |dates| > CentsToGo(t)
    ensures Run(t, Months(dates)).status == FullyDepreciated <==> t.salvage < t.price && ReachesSalvage(t)
  {
    DecliningSettles(t, dates);
    DecliningEnds(t, Months(dates));
    DoneAtSalvage(t, dates);
  }

  // An asset without salvage value is never fully depreciated: 100.000 over five years stays above zero.
  lemma NoSalvageNeverDone(es: seq<Event>)
    ensures var a := Run(Terms(false, DecliningBalance, 100_000, 0, 5), es);
            a.book > 0 && a.status != FullyDepreciated
  {
    DecliningEnds(Terms(false, DecliningBalance, 100_000, 0, 5), es);
  }

  // The last digit of the price decides: with a salvage value of 0.020 over one year, a price of 1.000 is
  // written down to it, and one of 1.005 never is.
  lemma LastDigitDecides(dates: seq<int>)
    requires Distinct(dates) && |dates| > 100
    ensures Run(Terms(false, DecliningBalance, 1_000, 20, 1), Months(dates)).status == FullyDepreciated
    ensures Run(Terms(false, DecliningBalance, 1_005, 20, 1), Months(dates)).status == Active
  {
    DecliningCompletes(Terms(false, DecliningBalance, 1_000, 20, 1), dates);
    DecliningCompletes(Terms(false, DecliningBalance, 1_005, 20, 1), dates);
    MonthsRun(Terms(false, DecliningBalance, 1_005, 20, 1), dates);
  }
}
