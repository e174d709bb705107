/** Document numbers: a counter that restarts with each period, rendered into a pattern
    (models/document_sequence.py:55-111). */
module DocumentSequences {
  import opened Wrappers
  import opened Text
  import opened Templates

  // A moment as the clock shows it; ticks order the moments of one day.
  datatype RawInstant = Instant(year: nat, month: nat, day: nat, tick: nat)
  type Instant = t: RawInstant | 1000 <= t.year < 10000 && 1 <= t.month <= 12 && 1 <= t.day <= 31
    witness Instant(2025, 1, 1, 0)

  predicate NotAfter(s: Instant, t: Instant) {
    || s.year < t.year
    || (s.year == t.year && s.month < t.month)
    || (s.year == t.year && s.month == t.month && s.day < t.day)
    || (s.year == t.year && s.month == t.month && s.day == t.day && s.tick <= t.tick)
  }

  // The values of the counter_reset column that the code tells apart.
  datatype Reset = Yearly | Monthly | Daily | Never | Unrecognised

  datatype Config = Config(pattern: string, prefix: string, reset: Reset, tenantId: nat)

  datatype SeqState = SeqState(counter: nat, updatedAt: Option<Instant>, createdAt: Option<Instant>)

  function PeriodKey(reset: Reset, t: Instant): string {
    match reset
    case Yearly => Pad(4, t.year)
    case Monthly => Pad(4, t.year) + "-" + Pad(2, t.month)
    case Daily => Pad(4, t.year) + "-" + Pad(2, t.month) + "-" + Pad(2, t.day)
    case _ => ""
  }

  function LastChange(st: SeqState): Option<Instant> {
    if st.updatedAt.Some? then st.updatedAt else st.createdAt
  }

  function LastResetKey(reset: Reset, st: SeqState): string {
    match LastChange(st)
    case None => ""
    case Some(t) => PeriodKey(reset, t)
  }

  predicate MustReset(reset: Reset, st: SeqState, date: Instant) {
    LastResetKey(reset, st) != PeriodKey(reset, date) && reset != Never
  }

  // The counter the next number will carry.
  function CounterFor(reset: Reset, st: SeqState, date: Instant): nat {
    if MustReset(reset, st, date) then 1 else st.counter
  }

  // ---------- rendering ----------

  function PaddedPlaceholder(pad: nat): (t: string)
    requires 2 <= pad <= 6
    ensures IsPlaceholder(t) && t[1] == 'c'
  {
    var ds := Digits(pad);
    assert |ds| == 1 && ds[0] == DigitChar(pad);
    "{counter:0" + ds + "d}"
  }

  function PlainPlaceholder(): (t: string)
    ensures IsPlaceholder(t) && t[1] == 'c'
  {
    "{counter}"
  }

  // The first padded placeholder in the pattern, tried from two digits to six, or else the plain one.
  function CounterHole(pattern: string, pad: nat): (r: (string, nat))
    requires 2 <= pad <= 7
    ensures IsPlaceholder(r.0) && r.0[1] == 'c'
    decreases 7 - pad
  {
    if pad == 7 then (PlainPlaceholder(), 1)
    else if Contains(pattern, PaddedPlaceholder(pad)) then (PaddedPlaceholder(pad), pad)
    else CounterHole(pattern, pad + 1)
  }

  function TenantText(id: nat): string {
    if id == 0 then "" else Digits(id)
  }

  // The substitutions that follow the counter's.
  datatype Part = PrefixPart | YearPart | MonthPart | DayPart | BranchPart | TenantPart

  const ORDER := [PrefixPart, YearPart, MonthPart, DayPart, BranchPart, TenantPart]

  function Initial(p: Part): (c: char)
    ensures c != 'c'
  {
    match p
    case PrefixPart => 'p'
    case YearPart => 'y'
    case MonthPart => 'm'
    case DayPart => 'd'
    case BranchPart => 'b'
    case TenantPart => 't'
  }

  function Token(p: Part): (t: string)
    ensures IsPlaceholder(t) && NoDigits(t) && t[1] == Initial(p)
  {
    match p
    case PrefixPart => "{prefix}"
    case YearPart => "{year}"
    case MonthPart => "{month}"
    case DayPart => "{day}"
    case BranchPart => "{branch}"
    case TenantPart => "{tenant}"
  }

  function TextOf(c: Config, branch: string, date: Instant, p: Part): string {
    match p
    case PrefixPart => c.prefix
    case YearPart => Pad(4, date.year)
    case MonthPart => Pad(2, date.month)
    case DayPart => Pad(2, date.day)
    case BranchPart => branch
    case TenantPart => TenantText(c.tenantId)
  }

  function ReplaceParts(s: string, parts: seq<Part>, c: Config, branch: string, date: Instant): string {
    if parts == [] then s
    else
      var n := |parts| - 1;
      Replace(ReplaceParts(s, parts[..n], c, branch, date), Token(parts[n]), TextOf(c, branch, date, parts[n]))
  }

  function Render(c: Config, branch: string, date: Instant, counter: nat): string {
    var (hole, width) := CounterHole(c.pattern, 2);
    ReplaceParts(Replace(c.pattern, hole, Pad(width, counter)), ORDER, c, branch, date)
  }

  // One call: the number, and the row it leaves (the timestamp moves when the row is written).
  function Next(c: Config, st: SeqState, branch: string, date: Instant): (string, SeqState) {
    var n := CounterFor(c.reset, st, date);
    (Render(c, branch, date, n), st.(counter := n + 1))
  }

  function Written(st: SeqState, now: Instant): SeqState {
    st.(updatedAt := Some(now))
  }

  // The loop over pad widths, with its for-else.
  method SubstituteCounter(pattern: string, counter: nat) returns (text: string)
    ensures text == Replace(pattern, CounterHole(pattern, 2).0, Pad(CounterHole(pattern, 2).1, counter))
  {
    var pad := 2;
    while pad <= 6
      invariant 2 <= pad <= 7
      invariant CounterHole(pattern, 2) == CounterHole(pattern, pad)
    {
      if Contains(pattern, PaddedPlaceholder(pad)) {
        return Replace(pattern, PaddedPlaceholder(pad), Pad(pad, counter));
      }
      pad := pad + 1;
    }
    text := Replace(pattern, PlainPlaceholder(), Pad(1, counter));
  }

  // The loop over the remaining substitutions.
  method SubstituteParts(start: string, c: Config, branch: string, date: Instant) returns (text: string)
    ensures text == ReplaceParts(start, ORDER, c, branch, date)
  {
    text := start;
    var i := 0;
    while i < |ORDER|
      invariant 0 <= i <= |ORDER|
      invariant text == ReplaceParts(start, ORDER[..i], c, branch, date)
    {
      assert ORDER[..i + 1][..i] == ORDER[..i];
      text := Replace(text, Token(ORDER[i]), TextOf(c, branch, date, ORDER[i]));
      i := i + 1;
    }
    assert ORDER[..i] == ORDER;
  }

  class DocumentSequence {
    const config: Config
    var counter: nat
    var updatedAt: Option<Instant>
    var createdAt: Option<Instant>

    function State(): SeqState
      reads this
    {
      SeqState(counter, updatedAt, createdAt)
    }

    constructor (c: Config, start: nat, created: Instant)
      ensures config == c && State() == SeqState(start, Some(created), Some(created))
    {
      config, counter, updatedAt, createdAt := c, start, Some(created), Some(created);
    }

    method GetNextNumber(branchCode: Option<string>, date: Option<Instant>, now: Instant) returns (number: string)
      modifies this`counter
      ensures (number, State()) ==
              Next(config, old(State()), if branchCode.Some? then branchCode.value else "",
                   if date.Some? then date.value else now)
    {
      var at := if date.Some? then date.value else now;
      var branch := if branchCode.Some? then branchCode.value else "";
      if LastResetKey(config.reset, State()) != PeriodKey(config.reset, at) && config.reset != Never {
        counter := 1;
      }
      number := SubstituteCounter(config.pattern, counter);
      number := SubstituteParts(number, config, branch, at);
      counter := counter + 1;
    }

    // Any write of the row moves its timestamp.
    method Flush(now: Instant)
      modifies this`updatedAt
      ensures State() == Written(old(State()), now)
    {
      updatedAt := Some(now);
    }
  }

  // ---------- the template behind a pattern ----------

  function SymsOf(c: Config, branch: string, p: Part): seq<Sym> {
    match p
    case PrefixPart => Lift(c.prefix)
    case YearPart => [Year]
    case MonthPart => [Month]
    case DayPart => [Day]
    case BranchPart => Lift(branch)
    case TenantPart => Lift(TenantText(c.tenantId))
  }

  function ReplacePartsSym(u: seq<Sym>, parts: seq<Part>, c: Config, branch: string): seq<Sym> {
    if parts == [] then u
    else
      var n := |parts| - 1;
      ReplaceSym(ReplacePartsSym(u, parts[..n], c, branch), Token(parts[n]), SymsOf(c, branch, parts[n]))
  }

  function Template(c: Config, branch: string): seq<Sym> {
    ReplacePartsSym(ReplaceSym(Lift(c.pattern), CounterHole(c.pattern, 2).0, [Counter]), ORDER, c, branch)
  }

  function EnvFor(c: Config, date: Instant, counter: nat): Env {
    Env(Pad(4, date.year), Pad(2, date.month), Pad(2, date.day), Pad(CounterHole(c.pattern, 2).1, counter))
  }

  lemma {:induction false} FillReplaceLift(s: string, old_: string, e: Env)
    requires old_ != []
    ensures Fill(ReplaceSym(Lift(s), old_, [Counter]), e) == Replace(s, old_, e.counter)
    decreases |s|
  {
    FrontOfLift(s, old_);
    if old_ <= s {
      assert Lift(s)[|old_|..] == Lift(s[|old_|..]);
      FillReplaceLift(s[|old_|..], old_, e);
      FillConcat([Counter], ReplaceSym(Lift(s[|old_|..]), old_, [Counter]), e);
      assert Fill([Counter], e) == e.counter;
    } else if s != [] {
      assert Lift(s)[1..] == Lift(s[1..]);
      FillReplaceLift(s[1..], old_, e);
    }
  }

  lemma PartFills(c: Config, branch: string, date: Instant, counter: nat, p: Part)
    ensures Fill(SymsOf(c, branch, p), EnvFor(c, date, counter)) == TextOf(c, branch, date, p)
  {
    var e := EnvFor(c, date, counter);
    FillLift(c.prefix, e);
    FillLift(branch, e);
    FillLift(TenantText(c.tenantId), e);
    FillOne(Year, e);
    FillOne(Month, e);
    FillOne(Day, e);
  }

  lemma {:induction false} FillReplaceParts(
    u: seq<Sym>, parts: seq<Part>, c: Config, branch: string, date: Instant, counter: nat)
    ensures var e := EnvFor(c, date, counter);
            Fill(ReplacePartsSym(u, parts, c, branch), e) == ReplaceParts(Fill(u, e), parts, c, branch, date)
  {
    if parts != [] {
      var n := |parts| - 1;
      FillReplaceParts(u, parts[..n], c, branch, date, counter);
      FillReplace(ReplacePartsSym(u, parts[..n], c, branch), Token(parts[n]), SymsOf(c, branch, parts[n]),
                  EnvFor(c, date, counter));
      PartFills(c, branch, date, counter, parts[n]);
    }
  }

  // The chain of string replacements fills one template, the same for every call.
  lemma RenderFillsTemplate(c: Config, branch: string, date: Instant, counter: nat)
    ensures Render(c, branch, date, counter) == Fill(Template(c, branch), EnvFor(c, date, counter))
  {
    var e := EnvFor(c, date, counter);
    var hole := CounterHole(c.pattern, 2).0;
    FillReplaceLift(c.pattern, hole, e);
    FillReplaceParts(ReplaceSym(Lift(c.pattern), hole, [Counter]), ORDER, c, branch, date, counter);
  }

  // The date parts a pattern must show if its counter restarts with the period.
  function PeriodParts(reset: Reset): set<Sym> {
    match reset
    case Yearly => {Year}
    case Monthly => {Year, Month}
    case Daily => {Year, Month, Day}
    case _ => {}
  }

  predicate Distinguishing(c: Config, branch: string) {
    Counter in Template(c, branch) && forall x | x in PeriodParts(c.reset) :: x in Template(c, branch)
  }

  lemma EnvWidths(c: Config, s: Instant, t: Instant, m: nat, n: nat)
    ensures SameWidths(EnvFor(c, s, m), EnvFor(c, t, n))
  {
    PadWidth(s.year); PadWidth(s.month); PadWidth(s.day);
    PadWidth(t.year); PadWidth(t.month); PadWidth(t.day);
  }

  // Two numbers of one sequence are equal exactly when they agree on every part the template shows.
  lemma RenderEqual(c: Config, branch: string, s: Instant, t: Instant, m: nat, n: nat)
    ensures Render(c, branch, s, m) == Render(c, branch, t, n) <==>
            var u := Template(c, branch);
            && (Year in u ==> s.year == t.year) && (Month in u ==> s.month == t.month)
            && (Day in u ==> s.day == t.day) && (Counter in u ==> m == n)
  {
    RenderFillsTemplate(c, branch, s, m);
    RenderFillsTemplate(c, branch, t, n);
    EnvWidths(c, s, t, m, n);
    FillEqual(Template(c, branch), EnvFor(c, s, m), EnvFor(c, t, n));
    PadInjective(4, s.year, t.year);
    PadInjective(2, s.month, t.month);
    PadInjective(2, s.day, t.day);
    PadInjective(CounterHole(c.pattern, 2).1, m, n);
  }

  // ---------- the pattern's own placeholders are enough ----------

  function HoleOf(p: Part): Sym {
    match p
    case YearPart => Year
    case MonthPart => Month
    case DayPart => Day
    case _ => Ch(' ')
  }

  lemma {:induction false} HoleThrough(u: seq<Sym>, parts: seq<Part>, c: Config, branch: string, x: Sym)
    requires !x.Ch? && forall p | p in parts :: x !in SymsOf(c, branch, p)
    ensures x in ReplacePartsSym(u, parts, c, branch) <==> x in u
  {
    if parts != [] {
      var n := |parts| - 1;
      HoleThrough(u, parts[..n], c, branch, x);
      HolesKept(ReplacePartsSym(u, parts[..n], c, branch), Token(parts[n]), SymsOf(c, branch, parts[n]), x);
    }
  }

  // The counter hole is there exactly when the pattern has a supported placeholder.
  lemma CounterInTemplate(c: Config, branch: string)
    ensures Counter in Template(c, branch) <==> Contains(c.pattern, CounterHole(c.pattern, 2).0)
  {
    var hole := CounterHole(c.pattern, 2).0;
    var v := ReplaceSym(Lift(c.pattern), hole, [Counter]);
    HoleMade(Lift(c.pattern), hole, Counter);
    LiftOccurs(c.pattern, hole);
    HoleThrough(v, ORDER, c, branch, Counter);
  }

  lemma TokensDiffer(p: Part, q: Part)
    requires p != q
    ensures Token(p) != Token(q)
  {
  }

  lemma {:induction false} OccursThrough(u: seq<Sym>, parts: seq<Part>, c: Config, branch: string, t: string)
    requires IsPlaceholder(t) && Occurs(u, t) && forall p | p in parts :: Token(p) != t
    ensures Occurs(ReplacePartsSym(u, parts, c, branch), t)
  {
    if parts != [] {
      var n := |parts| - 1;
      OccursThrough(u, parts[..n], c, branch, t);
      assert parts[n] in parts;
      OtherPlaceholderKept(ReplacePartsSym(u, parts[..n], c, branch), Token(parts[n]),
                           SymsOf(c, branch, parts[n]), t);
    }
  }

  lemma {:induction false} HoleAppears(
    u: seq<Sym>, parts: seq<Part>, c: Config, branch: string, p: Part, x: Sym, t: string)
    requires t == Token(p) && SymsOf(c, branch, p) == [x] && !x.Ch?
    requires Occurs(u, t) && p in parts && Distinct(parts) && x !in u
    requires forall q | q != p :: Token(q) != t && x !in SymsOf(c, branch, q)
    ensures x in ReplacePartsSym(u, parts, c, branch)
  {
    var n := |parts| - 1;
    var front := parts[..n];
    var v := ReplacePartsSym(u, front, c, branch);
    assert parts == front + [parts[n]];
    if parts[n] == p {
      assert p !in front;
      OccursThrough(u, front, c, branch, t);
      HoleThrough(u, front, c, branch, x);
      HoleMade(v, t, x);
    } else {
      HoleAppears(u, front, c, branch, p, x, t);
      HolesKept(v, Token(parts[n]), SymsOf(c, branch, parts[n]), x);
    }
  }

  // A date part is there if the pattern names it: no earlier substitution can destroy its placeholder.
  lemma DateInTemplate(c: Config, branch: string, p: Part)
    requires !HoleOf(p).Ch?
    ensures Contains(c.pattern, Token(p)) ==> HoleOf(p) in Template(c, branch)
  {
    if Contains(c.pattern, Token(p)) {
      var hole := CounterHole(c.pattern, 2).0;
      LiftOccurs(c.pattern, Token(p));
      OtherPlaceholderKept(Lift(c.pattern), hole, [Counter], Token(p));
      HolesKept(Lift(c.pattern), hole, [Counter], HoleOf(p));
      forall q | q != p ensures Token(q) != Token(p) {
        TokensDiffer(p, q);
      }
      assert p in ORDER && Distinct(ORDER);
      HoleAppears(ReplaceSym(Lift(c.pattern), hole, [Counter]), ORDER, c, branch, p, HoleOf(p), Token(p));
    }
  }
}
