/** All the numbers one sequence issues over a run: when they are distinct, and when they are not. */
module NumberRuns {
  import opened Wrappers
  import opened Text
  import opened Templates
  import opened DocumentSequences

  // A number is issued at one moment and the row written at a later one; or some other edit writes the row.
  datatype Event = Issue(at: Instant, written: Instant) | Touch(at: Instant)

  function End(e: Event): Instant {
    match e
    case Issue(_, written) => written
    case Touch(at) => at
  }

  datatype Issued = Issued(number: string, at: Instant, counter: nat)

  function Step(c: Config, branch: string, st: SeqState, issued: seq<Issued>, e: Event): (SeqState, seq<Issued>) {
    match e
    case Touch(at) => (Written(st, at), issued)
    case Issue(at, written) =>
      var (number, next) := Next(c, st, branch, at);
      (Written(next, written), issued + [Issued(number, at, CounterFor(c.reset, st, at))])
  }

  function Run(c: Config, branch: string, st: SeqState, es: seq<Event>): (SeqState, seq<Issued>) {
    if es == [] then (st, [])
    else
      var before := Run(c, branch, st, es[..|es| - 1]);
      Step(c, branch, before.0, before.1, es[|es| - 1])
  }

  function Numbers(c: Config, branch: string, st: SeqState, es: seq<Event>): (r: seq<string>)
    ensures |r| == |Run(c, branch, st, es).1|
    ensures forall i | 0 <= i < |r| :: r[i] == Run(c, branch, st, es).1[i].number
  {
    var issued := Run(c, branch, st, es).1;
    seq(|issued|, i requires 0 <= i < |issued| => issued[i].number)
  }

  // ---------- periods ----------

  predicate SamePeriod(reset: Reset, s: Instant, t: Instant) {
    && (Year in PeriodParts(reset) ==> s.year == t.year)
    && (Month in PeriodParts(reset) ==> s.month == t.month)
    && (Day in PeriodParts(reset) ==> s.day == t.day)
  }

  lemma YearKey(s: Instant, t: Instant)
    ensures |Pad(4, s.year)| == 4 && (Pad(4, s.year) == Pad(4, t.year) <==> s.year == t.year)
  {
    PadWidth(s.year);
    PadInjective(4, s.year, t.year);
  }

  lemma MonthKey(s: Instant, t: Instant)
    ensures |Pad(2, s.month)| == 2 && (Pad(2, s.month) == Pad(2, t.month) <==> s.month == t.month)
  {
    PadWidth(s.month);
    PadInjective(2, s.month, t.month);
  }

  lemma DayKey(s: Instant, t: Instant)
    ensures |Pad(2, s.day)| == 2 && (Pad(2, s.day) == Pad(2, t.day) <==> s.day == t.day)
  {
    PadWidth(s.day);
    PadInjective(2, s.day, t.day);
  }

  lemma KeyParts(a: string, b: string, c: string, d: string)
    requires |a| == |b|
    ensures a + "-" + c == b + "-" + d <==> a == b && c == d
  {
    var k, l := a + "-" + c, b + "-" + d;
    assert k[..|a|] == a && k[|a| + 1..] == c;
    assert l[..|b|] == b && l[|b| + 1..] == d;
  }

  lemma KeyIsPeriod(reset: Reset, s: Instant, t: Instant)
    ensures PeriodKey(reset, s) == PeriodKey(reset, t) <==> SamePeriod(reset, s, t)
  {
    YearKey(s, t); YearKey(t, s);
    MonthKey(s, t); MonthKey(t, s);
    DayKey(s, t);
    KeyParts(Pad(4, s.year), Pad(4, t.year), Pad(2, s.month), Pad(2, t.month));
    KeyParts(Pad(4, s.year) + "-" + Pad(2, s.month), Pad(4, t.year) + "-" + Pad(2, t.month),
             Pad(2, s.day), Pad(2, t.day));
  }

  // The counter of the next number, from the row's columns: a row written before keeps its counter within the
  // period of its last write, and one never written within that of its creation; outside it starts again at 1.
  lemma CounterExactly(reset: Reset, st: SeqState, date: Instant, last: Instant)
    ensures reset == Never ==> CounterFor(reset, st, date) == st.counter
    ensures reset == Unrecognised ==> CounterFor(reset, st, date) == st.counter
    ensures st.updatedAt == Some(last) || (st.updatedAt.None? && st.createdAt == Some(last)) ==>
              CounterFor(reset, st, date) ==
              match reset
              case Yearly => if last.year == date.year then st.counter else 1
              case Monthly => if last.year == date.year && last.month == date.month then st.counter else 1
              case Daily =>
                if last.year == date.year && last.month == date.month && last.day == date.day then st.counter else 1
              case Never => st.counter
              case Unrecognised => st.counter
    ensures st.updatedAt.None? && st.createdAt.None? && (reset == Yearly || reset == Monthly || reset == Daily) ==>
              CounterFor(reset, st, date) == 1
  {
    KeyIsPeriod(reset, last, date);
  }

  // Within the period in which the row was written there are no gaps: the next counter is one more.
  lemma NoGaps(c: Config, branch: string, st: SeqState, date: Instant, written: Instant, later: Instant)
    requires SamePeriod(c.reset, written, later)
    ensures CounterFor(c.reset, Written(Next(c, st, branch, date).1, written), later) ==
            CounterFor(c.reset, st, date) + 1
  {
    KeyIsPeriod(c.reset, written, later);
  }

  // The period of s is the period of t, or an earlier one.
  predicate PeriodLe(reset: Reset, s: Instant, t: Instant) {
    NotAfter(s, t) || SamePeriod(reset, s, t)
  }

  // Periods are stretches of time, one after the other.
  lemma PeriodOrder(reset: Reset, s: Instant, t: Instant, u: Instant)
    requires PeriodLe(reset, s, t) && PeriodLe(reset, t, u)
    ensures PeriodLe(reset, s, u)
    ensures SamePeriod(reset, s, u) ==> SamePeriod(reset, s, t) && SamePeriod(reset, t, u)
  {
  }

  // ---------- runs ----------

  // The clock never goes back, starting from the moment the row was last written, and every number is issued
  // for the date the clock shows.
  ghost predicate Clocked(st: SeqState, es: seq<Event>) {
    && (forall i | 0 <= i < |es| :: NotAfter(es[i].at, End(es[i])))
    && (forall i, k | 0 <= i < k < |es| :: NotAfter(End(es[i]), es[k].at))
    && (forall i | 0 <= i < |es| && LastChange(st).Some? :: NotAfter(LastChange(st).value, es[i].at))
  }

  // The clock never goes back between writes of the row, whatever dates numbers are issued for.
  ghost predicate WritesInOrder(st: SeqState, es: seq<Event>) {
    && (forall i, k | 0 <= i < k < |es| :: NotAfter(End(es[i]), End(es[k])))
    && (forall i | 0 <= i < |es| && LastChange(st).Some? :: NotAfter(LastChange(st).value, End(es[i])))
  }

  function LastBefore(st: SeqState, es: seq<Event>, i: nat): Option<Instant>
    requires i <= |es|
  {
    if i == 0 then LastChange(st) else Some(End(es[i - 1]))
  }

  // A number is issued for a date no earlier than the period of the last write, and no later than the period
  // in which it is itself written.
  predicate InSpan(reset: Reset, last: Option<Instant>, e: Event) {
    match e
    case Touch(_) => true
    case Issue(at, written) =>
      (last.Some? ==> PeriodLe(reset, last.value, at)) && PeriodLe(reset, at, written)
  }

  ghost predicate AllInSpan(reset: Reset, st: SeqState, es: seq<Event>) {
    forall i | 0 <= i < |es| :: InSpan(reset, LastBefore(st, es, i), es[i])
  }

  // The clock's own dates are in span.
  lemma ClockedInSpan(reset: Reset, st: SeqState, es: seq<Event>)
    requires Clocked(st, es)
    ensures WritesInOrder(st, es) && AllInSpan(reset, st, es)
  {
    forall i, k | 0 <= i < k < |es| ensures NotAfter(End(es[i]), End(es[k])) {
      assert NotAfter(End(es[i]), es[k].at) && NotAfter(es[k].at, End(es[k]));
    }
    forall i | 0 <= i < |es| ensures InSpan(reset, LastBefore(st, es, i), es[i]) {
      assert NotAfter(es[i].at, End(es[i]));
      assert i > 0 ==> NotAfter(End(es[i - 1]), es[i].at);
    }
  }

  // ---------- the invariant ----------

  // Within one period the counters of the issued numbers rise, and stay below the row's counter.
  ghost predicate Rising(c: Config, branch: string, st: SeqState, issued: seq<Issued>) {
    && (issued != [] ==> LastChange(st).Some?)
    && (forall r | r in issued ::
          && r.number == Render(c, branch, r.at, r.counter)
          && PeriodLe(c.reset, r.at, LastChange(st).value)
          && (SamePeriod(c.reset, r.at, LastChange(st).value) ==> r.counter < st.counter))
    && (forall i, k | 0 <= i < k < |issued| && SamePeriod(c.reset, issued[i].at, issued[k].at) ::
          issued[i].counter < issued[k].counter)
  }

  lemma TouchKeepsRising(c: Config, branch: string, st: SeqState, issued: seq<Issued>, at: Instant)
    requires Rising(c, branch, st, issued)
    requires LastChange(st).Some? ==> NotAfter(LastChange(st).value, at)
    ensures Rising(c, branch, Written(st, at), issued)
  {
    forall r | r in issued
      ensures PeriodLe(c.reset, r.at, at) && (SamePeriod(c.reset, r.at, at) ==> r.counter < st.counter)
    {
      PeriodOrder(c.reset, r.at, LastChange(st).value, at);
    }
  }

  // The number about to be issued has a counter above every one issued in its period.
  lemma IssueIsAbove(c: Config, branch: string, st: SeqState, issued: seq<Issued>, at: Instant, r: Issued)
    requires Rising(c, branch, st, issued) && r in issued
    requires PeriodLe(c.reset, LastChange(st).value, at)
    ensures PeriodLe(c.reset, r.at, at)
    ensures SamePeriod(c.reset, r.at, at) ==> r.counter < CounterFor(c.reset, st, at)
  {
    PeriodOrder(c.reset, r.at, LastChange(st).value, at);
    KeyIsPeriod(c.reset, LastChange(st).value, at);
  }

  lemma IssueKeepsRising(
    c: Config, branch: string, st: SeqState, issued: seq<Issued>, at: Instant, written: Instant)
    requires Rising(c, branch, st, issued) && InSpan(c.reset, LastChange(st), Issue(at, written))
    ensures var (after, more) := Step(c, branch, st, issued, Issue(at, written));
            Rising(c, branch, after, more)
  {
    var (after, more) := Step(c, branch, st, issued, Issue(at, written));
    var n := CounterFor(c.reset, st, at);
    forall r | r in issued
      ensures PeriodLe(c.reset, r.at, written)
      ensures SamePeriod(c.reset, r.at, at) ==> r.counter < n
      ensures SamePeriod(c.reset, r.at, written) ==> r.counter < n + 1
    {
      IssueIsAbove(c, branch, st, issued, at, r);
      PeriodOrder(c.reset, r.at, at, written);
    }
    forall r | r in more
      ensures r.number == Render(c, branch, r.at, r.counter) && PeriodLe(c.reset, r.at, written)
      ensures SamePeriod(c.reset, r.at, written) ==> r.counter < n + 1
    {
      if r !in issued {
        assert r == more[|issued|];
      }
    }
    forall i, k | 0 <= i < k < |more| && SamePeriod(c.reset, more[i].at, more[k].at)
      ensures more[i].counter < more[k].counter
    {
      assert more[i] in issued;
    }
  }

  lemma StepKeepsRising(c: Config, branch: string, st: SeqState, issued: seq<Issued>, e: Event)
    requires Rising(c, branch, st, issued) && InSpan(c.reset, LastChange(st), e)
    requires LastChange(st).Some? ==> NotAfter(LastChange(st).value, End(e))
    ensures var (after, more) := Step(c, branch, st, issued, e);
            Rising(c, branch, after, more) && LastChange(after) == Some(End(e))
  {
    match e
    case Touch(at) => TouchKeepsRising(c, branch, st, issued, at);
    case Issue(at, written) => IssueKeepsRising(c, branch, st, issued, at, written);
  }

  lemma SpanAt(reset: Reset, st: SeqState, es: seq<Event>, i: nat)
    requires i < |es| && WritesInOrder(st, es) && AllInSpan(reset, st, es)
    ensures var last := LastBefore(st, es, i);
            InSpan(reset, last, es[i]) && (last.Some? ==> NotAfter(last.value, End(es[i])))
  {
  }

  lemma RunPrefix(c: Config, branch: string, st: SeqState, es: seq<Event>, n: nat)
    requires 0 < n <= |es|
    ensures var before := Run(c, branch, st, es[..n - 1]);
            Run(c, branch, st, es[..n]) == Step(c, branch, before.0, before.1, es[n - 1])
  {
    assert es[..n][..n - 1] == es[..n - 1];
  }

  lemma {:induction false} RunRising(c: Config, branch: string, st: SeqState, es: seq<Event>, n: nat)
    requires n <= |es| && WritesInOrder(st, es) && AllInSpan(c.reset, st, es)
    ensures var (after, issued) := Run(c, branch, st, es[..n]);
            Rising(c, branch, after, issued) && LastChange(after) == LastBefore(st, es, n)
  {
    if n > 0 {
      RunRising(c, branch, st, es, n - 1);
      SpanAt(c.reset, st, es, n - 1);
      var before := Run(c, branch, st, es[..n - 1]);
      StepKeepsRising(c, branch, before.0, before.1, es[n - 1]);
      RunPrefix(c, branch, st, es, n);
    }
  }

  // ---------- distinct numbers ----------

  ghost predicate AlwaysDistinct(c: Config, branch: string) {
    forall st: SeqState, es: seq<Event> | Clocked(st, es) :: Distinct(Numbers(c, branch, st, es))
  }

  // If the template shows the counter and every part of its reset period, no run whose issues are in span
  // repeats a number, however the row is edited in between: also not for a date passed in within the period.
  lemma SpannedDistinct(c: Config, branch: string, st: SeqState, es: seq<Event>)
    requires Distinguishing(c, branch) && WritesInOrder(st, es) && AllInSpan(c.reset, st, es)
    ensures Distinct(Numbers(c, branch, st, es))
  {
    RunRising(c, branch, st, es, |es|);
    assert es[..|es|] == es;
    var issued := Run(c, branch, st, es).1;
    forall i, k | 0 <= i < k < |issued| ensures issued[i].number != issued[k].number {
      var r, s := issued[i], issued[k];
      assert r in issued && s in issued;
      RenderEqual(c, branch, r.at, s.at, r.counter, s.counter);
    }
  }

  // So no run under a clock that never goes back and with the default date repeats one.
  lemma NumbersDistinct(c: Config, branch: string, st: SeqState, es: seq<Event>)
    requires Distinguishing(c, branch) && Clocked(st, es)
    ensures Distinct(Numbers(c, branch, st, es))
  {
    ClockedInSpan(c.reset, st, es);
    SpannedDistinct(c, branch, st, es);
  }

  // The placeholders a pattern must spell out: a supported counter, and each date part of the reset period.
  predicate Spells(c: Config) {
    && Contains(c.pattern, CounterHole(c.pattern, 2).0)
    && forall p: Part | HoleOf(p) in PeriodParts(c.reset) :: Contains(c.pattern, Token(p))
  }

  lemma SpelledPartShows(c: Config, branch: string, x: Sym)
    requires Spells(c) && x in PeriodParts(c.reset)
    ensures x in Template(c, branch)
  {
    var p := if x == Year then YearPart else if x == Month then MonthPart else DayPart;
    assert HoleOf(p) == x;
    DateInTemplate(c, branch, p);
  }

  lemma SpelledDistinguishes(c: Config, branch: string)
    requires Spells(c)
    ensures Distinguishing(c, branch)
  {
    CounterInTemplate(c, branch);
    forall x | x in PeriodParts(c.reset) ensures x in Template(c, branch) {
      SpelledPartShows(c, branch, x);
    }
  }

  // The same promise under a condition that can be read off the pattern.
  lemma SpelledOutDistinct(c: Config, branch: string, st: SeqState, es: seq<Event>)
    requires Spells(c) && Clocked(st, es)
    ensures Distinct(Numbers(c, branch, st, es))
  {
    SpelledDistinguishes(c, branch);
    NumbersDistinct(c, branch, st, es);
  }

  // What one more event adds to a run.
  lemma NumbersAppend(c: Config, branch: string, st: SeqState, es: seq<Event>, e: Event)
    ensures e.Touch? ==>
              && Numbers(c, branch, st, es + [e]) == Numbers(c, branch, st, es)
              && Run(c, branch, st, es + [e]).0 == Written(Run(c, branch, st, es).0, e.at)
    ensures e.Issue? ==>
              var (number, next) := Next(c, Run(c, branch, st, es).0, branch, e.at);
              && Numbers(c, branch, st, es + [e]) == Numbers(c, branch, st, es) + [number]
              && Run(c, branch, st, es + [e]).0 == Written(next, e.written)
  {
    assert (es + [e])[..|es|] == es;
  }

  lemma OneIssue(c: Config, branch: string, st: SeqState, s: Instant, w: Instant)
    ensures var (first, after) := Next(c, st, branch, s);
            && Numbers(c, branch, st, [Issue(s, w)]) == [first]
            && Run(c, branch, st, [Issue(s, w)]).0 == Written(after, w)
  {
    NumbersAppend(c, branch, st, [], Issue(s, w));
    assert [] + [Issue(s, w)] == [Issue(s, w)];
  }

  lemma TwoIssues(c: Config, branch: string, st: SeqState, s: Instant, w: Instant, t: Instant, x: Instant)
    ensures var (first, after) := Next(c, st, branch, s);
            var (second, later) := Next(c, Written(after, w), branch, t);
            && Numbers(c, branch, st, [Issue(s, w), Issue(t, x)]) == [first, second]
            && Run(c, branch, st, [Issue(s, w), Issue(t, x)]).0 == Written(later, x)
  {
    OneIssue(c, branch, st, s, w);
    NumbersAppend(c, branch, st, [Issue(s, w)], Issue(t, x));
    assert [Issue(s, w)] + [Issue(t, x)] == [Issue(s, w), Issue(t, x)];
  }

  // The counter of the second number of a row that is issued and written at s, and issued again at t.
  function Second(c: Config, s: Instant, t: Instant): nat {
    if c.reset == Never || SamePeriod(c.reset, s, t) then 2 else 1
  }

  lemma SecondCounter(c: Config, s: Instant, t: Instant)
    ensures CounterFor(c.reset, SeqState(1, Some(s), Some(s)), s) == 1
    ensures CounterFor(c.reset, Written(SeqState(2, Some(s), Some(s)), s), t) == Second(c, s, t)
  {
    KeyIsPeriod(c.reset, s, t);
  }

  lemma ClockedPair(s: Instant, t: Instant)
    requires NotAfter(s, t)
    ensures Clocked(SeqState(1, Some(s), Some(s)), [Issue(s, s), Issue(t, t)])
  {
  }

  lemma FirstTwo(c: Config, branch: string, s: Instant, t: Instant) returns (st: SeqState, es: seq<Event>)
    requires NotAfter(s, t)
    ensures Clocked(st, es)
    ensures Numbers(c, branch, st, es) == [Render(c, branch, s, 1), Render(c, branch, t, Second(c, s, t))]
  {
    st, es := SeqState(1, Some(s), Some(s)), [Issue(s, s), Issue(t, t)];
    SecondCounter(c, s, t);
    TwoIssues(c, branch, st, s, s, t, t);
    ClockedPair(s, t);
  }

  // Two issues on a new row that come out the same.
  lemma RepeatedPair(c: Config, branch: string, s: Instant, t: Instant)
    requires NotAfter(s, t)
    requires Render(c, branch, s, 1) == Render(c, branch, t, Second(c, s, t))
    ensures !AlwaysDistinct(c, branch)
  {
    var st, es := FirstTwo(c, branch, s, t);
    assert Numbers(c, branch, st, es)[0] == Numbers(c, branch, st, es)[1];
  }

  // A moment after the start of 2025 that differs from it in the part x of the date, and as little else as may be.
  function Later(x: Sym): Instant {
    if x == Month then Instant(2025, 2, 1, 0) else if x == Day then Instant(2025, 1, 2, 0) else Instant(2026, 1, 1, 0)
  }

  lemma LaterPeriod(reset: Reset, x: Sym)
    requires x in PeriodParts(reset)
    ensures reset != Never && !SamePeriod(reset, Instant(2025, 1, 1, 0), Later(x))
  {
  }

  // A template without x does not tell the two moments apart.
  lemma LaterLooksSame(c: Config, branch: string, x: Sym)
    requires x in {Year, Month, Day} && x !in Template(c, branch)
    ensures Render(c, branch, Instant(2025, 1, 1, 0), 1) == Render(c, branch, Later(x), 1)
  {
    RenderEqual(c, branch, Instant(2025, 1, 1, 0), Later(x), 1, 1);
  }

  lemma LaterSecond(c: Config, x: Sym)
    requires x in PeriodParts(c.reset)
    ensures Second(c, Instant(2025, 1, 1, 0), Later(x)) == 1
  {
    LaterPeriod(c.reset, x);
  }

  lemma MissingPart(c: Config, branch: string, x: Sym)
    requires x in PeriodParts(c.reset) && x !in Template(c, branch)
    ensures !AlwaysDistinct(c, branch)
  {
    LaterLooksSame(c, branch, x);
    LaterSecond(c, x);
    RepeatedPair(c, branch, Instant(2025, 1, 1, 0), Later(x));
  }

  lemma MissingCounter(c: Config, branch: string)
    requires Counter !in Template(c, branch)
    ensures !AlwaysDistinct(c, branch)
  {
    var s: Instant := Instant(2025, 1, 1, 0);
    RenderEqual(c, branch, s, s, 1, 2);
    RepeatedPair(c, branch, s, s);
  }

  // Exactly the distinguishing configurations issue distinct numbers in every run.
  lemma DistinctExactly(c: Config, branch: string)
    ensures AlwaysDistinct(c, branch) <==> Distinguishing(c, branch)
  {
    if Distinguishing(c, branch) {
      forall st: SeqState, es: seq<Event> | Clocked(st, es) ensures Distinct(Numbers(c, branch, st, es)) {
        NumbersDistinct(c, branch, st, es);
      }
    } else if Counter !in Template(c, branch) {
      MissingCounter(c, branch);
    } else {
      var x :| x in PeriodParts(c.reset) && x !in Template(c, branch);
      MissingPart(c, branch, x);
    }
  }

  // ---------- where the promise stops ----------

  // A call and the next one for the same date give the same number exactly when the row was written in another
  // period than that date's, and the first call restarted the counter or found it at 1.
  lemma ExplicitDateRepeats(
    c: Config, branch: string, st: SeqState, last: Instant, date: Instant, written: Instant)
    requires Distinguishing(c, branch) && LastChange(st) == Some(last)
    ensures var (first, after) := Next(c, st, branch, date);
            var (second, _) := Next(c, Written(after, written), branch, date);
            first == second <==>
            !SamePeriod(c.reset, date, written) && (SamePeriod(c.reset, date, last) ==> st.counter == 1)
  {
    KeyIsPeriod(c.reset, last, date);
    KeyIsPeriod(c.reset, written, date);
    var m := CounterFor(c.reset, st, date);
    var after := Written(Next(c, st, branch, date).1, written);
    RenderEqual(c, branch, date, date, m, CounterFor(c.reset, after, date));
  }

  ghost predicate OthersInSpan(reset: Reset, st: SeqState, es: seq<Event>, m: nat) {
    forall i | 0 <= i < |es| && i != m :: InSpan(reset, LastBefore(st, es, i), es[i])
  }

  // A number may be issued for this date, on a row last written at last and written again at written, in every
  // run in which all other issues are in span.
  ghost predicate DateSafe(c: Config, branch: string, last: Instant, date: Instant, written: Instant) {
    forall st: SeqState, es: seq<Event>, m: nat |
      && OthersInSpan(c.reset, st, es, m) && WritesInOrder(st, es)
      && m < |es| && es[m] == Issue(date, written) && LastBefore(st, es, m) == Some(last) ::
      Distinct(Numbers(c, branch, st, es))
  }

  lemma TooLateCounters(c: Config, last: Instant, date: Instant, written: Instant)
    requires !SamePeriod(c.reset, written, date)
    ensures CounterFor(c.reset, SeqState(1, Some(last), Some(last)), date) == 1
    ensures CounterFor(c.reset, SeqState(2, Some(written), Some(last)), date) == 1
  {
    KeyIsPeriod(c.reset, written, date);
  }

  lemma TooLateInOrder(c: Config, last: Instant, date: Instant, written: Instant)
    requires NotAfter(last, written) && !PeriodLe(c.reset, date, written)
    ensures var st, es := SeqState(1, Some(last), Some(last)), [Issue(date, written), Issue(date, date)];
            OthersInSpan(c.reset, st, es, 0) && WritesInOrder(st, es) && LastBefore(st, es, 0) == Some(last)
  {
  }

  lemma TooLateRun(c: Config, branch: string, last: Instant, date: Instant, written: Instant)
    returns (st: SeqState, es: seq<Event>)
    requires NotAfter(last, written) && !PeriodLe(c.reset, date, written)
    ensures OthersInSpan(c.reset, st, es, 0) && WritesInOrder(st, es) && LastBefore(st, es, 0) == Some(last)
    ensures es != [] && es[0] == Issue(date, written)
    ensures Numbers(c, branch, st, es) == [Render(c, branch, date, 1), Render(c, branch, date, 1)]
  {
    st, es := SeqState(1, Some(last), Some(last)), [Issue(date, written), Issue(date, date)];
    TooLateCounters(c, last, date, written);
    TooLateInOrder(c, last, date, written);
    TwoIssues(c, branch, st, date, written, date, date);
  }

  // A number for a later period than it is written in comes again when that period begins.
  lemma TooLateRepeats(c: Config, branch: string, last: Instant, date: Instant, written: Instant)
    requires NotAfter(last, written) && !PeriodLe(c.reset, date, written)
    ensures !DateSafe(c, branch, last, date, written)
  {
    var st, es := TooLateRun(c, branch, last, date, written);
    assert Numbers(c, branch, st, es)[0] == Numbers(c, branch, st, es)[1];
  }

  lemma TooEarlyCounters(c: Config, last: Instant, date: Instant)
    requires !SamePeriod(c.reset, last, date)
    ensures CounterFor(c.reset, SeqState(1, Some(date), Some(date)), date) == 1
    ensures CounterFor(c.reset, SeqState(2, Some(last), Some(date)), date) == 1
  {
    KeyIsPeriod(c.reset, last, date);
  }

  lemma TooEarlyInOrder(c: Config, last: Instant, date: Instant, written: Instant)
    requires NotAfter(last, written) && !PeriodLe(c.reset, last, date)
    ensures var st, es := SeqState(1, Some(date), Some(date)), [Issue(date, date), Touch(last), Issue(date, written)];
            OthersInSpan(c.reset, st, es, 2) && WritesInOrder(st, es) && LastBefore(st, es, 2) == Some(last)
  {
  }

  lemma IssueTouchIssue(
    c: Config, branch: string, st: SeqState, s: Instant, w: Instant, u: Instant, t: Instant, x: Instant)
    ensures var (first, after) := Next(c, st, branch, s);
            Numbers(c, branch, st, [Issue(s, w), Touch(u), Issue(t, x)]) ==
            [first, Next(c, Written(Written(after, w), u), branch, t).0]
  {
    OneIssue(c, branch, st, s, w);
    NumbersAppend(c, branch, st, [Issue(s, w)], Touch(u));
    NumbersAppend(c, branch, st, [Issue(s, w)] + [Touch(u)], Issue(t, x));
    assert [Issue(s, w)] + [Touch(u)] + [Issue(t, x)] == [Issue(s, w), Touch(u), Issue(t, x)];
  }

  lemma TooEarlyRun(c: Config, branch: string, last: Instant, date: Instant, written: Instant)
    returns (st: SeqState, es: seq<Event>)
    requires NotAfter(last, written) && !PeriodLe(c.reset, last, date)
    ensures |es| == 3 && es[2] == Issue(date, written)
    ensures OthersInSpan(c.reset, st, es, 2) && WritesInOrder(st, es) && LastBefore(st, es, 2) == Some(last)
    ensures Numbers(c, branch, st, es) == [Render(c, branch, date, 1), Render(c, branch, date, 1)]
  {
    st, es := SeqState(1, Some(date), Some(date)), [Issue(date, date), Touch(last), Issue(date, written)];
    TooEarlyCounters(c, last, date);
    TooEarlyInOrder(c, last, date, written);
    IssueTouchIssue(c, branch, st, date, date, last, date, written);
  }

  // A number for an earlier period than the last write's may have been issued in its time.
  lemma TooEarlyRepeats(c: Config, branch: string, last: Instant, date: Instant, written: Instant)
    requires NotAfter(last, written) && !PeriodLe(c.reset, last, date)
    ensures !DateSafe(c, branch, last, date, written)
  {
    var st, es := TooEarlyRun(c, branch, last, date, written);
    assert Numbers(c, branch, st, es)[0] == Numbers(c, branch, st, es)[1];
  }

  // The dates that may be passed in are exactly those in span.
  lemma DateSafeExactly(c: Config, branch: string, last: Instant, date: Instant, written: Instant)
    requires Distinguishing(c, branch) && NotAfter(last, written)
    ensures DateSafe(c, branch, last, date, written) <==> InSpan(c.reset, Some(last), Issue(date, written))
  {
    if InSpan(c.reset, Some(last), Issue(date, written)) {
      forall st: SeqState, es: seq<Event>, m: nat |
        && OthersInSpan(c.reset, st, es, m) && WritesInOrder(st, es)
        && m < |es| && es[m] == Issue(date, written) && LastBefore(st, es, m) == Some(last)
        ensures Distinct(Numbers(c, branch, st, es))
      {
        assert AllInSpan(c.reset, st, es);
        SpannedDistinct(c, branch, st, es);
      }
    } else if PeriodLe(c.reset, last, date) {
      TooLateRepeats(c, branch, last, date, written);
    } else {
      TooEarlyRepeats(c, branch, last, date, written);
    }
  }

  lemma OutOfSpanElsewhere(reset: Reset, last: Instant, date: Instant, written: Instant)
    requires NotAfter(last, written) && !InSpan(reset, Some(last), Issue(date, written))
    ensures !SamePeriod(reset, last, date) && !SamePeriod(reset, written, date)
  {
  }

  // Out of span, the number comes again at once if the next call has the same date: both calls restart.
  lemma OutOfSpanRepeats(
    c: Config, branch: string, st: SeqState, last: Instant, date: Instant, written: Instant)
    requires LastChange(st) == Some(last) && NotAfter(last, written)
    requires !InSpan(c.reset, Some(last), Issue(date, written))
    ensures var (first, after) := Next(c, st, branch, date);
            first == Next(c, Written(after, written), branch, date).0 == Render(c, branch, date, 1)
  {
    KeyIsPeriod(c.reset, last, date);
    KeyIsPeriod(c.reset, written, date);
    OutOfSpanElsewhere(c.reset, last, date, written);
  }

  lemma ThreeIssues(c: Config, branch: string, st: SeqState, now: Instant, date: Instant)
    ensures var (first, one) := Next(c, st, branch, now);
            var (second, two) := Next(c, Written(one, now), branch, date);
            Numbers(c, branch, st, [Issue(now, now), Issue(date, now), Issue(now, now)]) ==
            [first, second] + [Next(c, Written(two, now), branch, now).0]
  {
    var es := [Issue(now, now), Issue(date, now)];
    TwoIssues(c, branch, st, now, now, date, now);
    NumbersAppend(c, branch, st, es, Issue(now, now));
    assert es + [Issue(now, now)] == [Issue(now, now), Issue(date, now), Issue(now, now)];
  }

  lemma RestartCounters(c: Config, st: SeqState, now: Instant, date: Instant)
    requires LastChange(st) == Some(now) && st.counter == 2 && !SamePeriod(c.reset, date, now)
    ensures CounterFor(c.reset, st, now) == 2
    ensures CounterFor(c.reset, Written(st.(counter := 3), now), date) == 1
    ensures CounterFor(c.reset, Written(Written(st.(counter := 3), now).(counter := 2), now), now) == 2
  {
    KeyIsPeriod(c.reset, now, date);
  }

  // One number for another period restarts the counter, and then the number 2 of the current period comes again,
  // although both of its calls have the default date.
  lemma RestartRepeats(c: Config, branch: string, st: SeqState, now: Instant, date: Instant)
    requires LastChange(st) == Some(now) && st.counter == 2 && !SamePeriod(c.reset, date, now)
    ensures Numbers(c, branch, st, [Issue(now, now), Issue(date, now), Issue(now, now)]) ==
            [Render(c, branch, now, 2), Render(c, branch, date, 1), Render(c, branch, now, 2)]
  {
    RestartCounters(c, st, now, date);
    ThreeIssues(c, branch, st, now, date);
  }

  // For example a yearly sequence in March 2025, asked in between for a number of the last day of 2024.
  lemma BackdatingRepeats(c: Config, branch: string)
    requires c.reset == Yearly
    ensures var now: Instant, old_: Instant := Instant(2025, 3, 1, 0), Instant(2024, 12, 31, 0);
            !Distinct(Numbers(c, branch, SeqState(2, Some(now), Some(now)),
                              [Issue(now, now), Issue(old_, now), Issue(now, now)]))
  {
    var now: Instant, old_: Instant := Instant(2025, 3, 1, 0), Instant(2024, 12, 31, 0);
    var st := SeqState(2, Some(now), Some(now));
    RestartRepeats(c, branch, st, now, old_);
    var numbers := Numbers(c, branch, st, [Issue(now, now), Issue(old_, now), Issue(now, now)]);
    assert numbers[0] == numbers[2];
  }

  predicate LookAlike(u: seq<Sym>, s: Instant, t: Instant) {
    (Year in u ==> s.year == t.year) && (Month in u ==> s.month == t.month) && (Day in u ==> s.day == t.day)
  }

  // Two numbers taken without writing the row in between are equal exactly when the first one restarted, and
  // the two moments agree on every date part the template shows.
  lemma UnwrittenRowRepeats(c: Config, branch: string, st: SeqState, s: Instant, t: Instant)
    requires Distinguishing(c, branch)
    ensures var (first, after) := Next(c, st, branch, s);
            var (second, _) := Next(c, after, branch, t);
            first == second <==> MustReset(c.reset, st, s) && LookAlike(Template(c, branch), s, t)
  {
    var m, n := CounterFor(c.reset, st, s), CounterFor(c.reset, Next(c, st, branch, s).1, t);
    if LookAlike(Template(c, branch), s, t) {
      KeyIsPeriod(c.reset, s, t);
    }
    RenderEqual(c, branch, s, t, m, n);
  }
}
