/** A document pattern seen as a template: literal characters and holes for the date parts and the counter.
    Filling the holes is what the source does by a chain of str.replace calls on the pattern. */
module Templates {
  import opened Text

  datatype Sym = Ch(c: char) | Year | Month | Day | Counter

  // What goes into the holes.
  datatype Env = Env(year: string, month: string, day: string, counter: string)

  predicate Digital(e: Env) {
    && AllDigits(e.year) && AllDigits(e.month) && AllDigits(e.day) && AllDigits(e.counter)
    && e.year != [] && e.month != [] && e.day != [] && e.counter != []
  }

  function FillSym(x: Sym, e: Env): string {
    match x
    case Ch(c) => [c]
    case Year => e.year
    case Month => e.month
    case Day => e.day
    case Counter => e.counter
  }

  function Fill(u: seq<Sym>, e: Env): string {
    if u == [] then [] else FillSym(u[0], e) + Fill(u[1..], e)
  }

  function Lift(s: string): (u: seq<Sym>)
    ensures |u| == |s| && forall i | 0 <= i < |s| :: u[i] == Ch(s[i])
  {
    seq(|s|, i requires 0 <= i < |s| => Ch(s[i]))
  }

  // The literal text t stands at the front of u.
  predicate Front(u: seq<Sym>, t: string) {
    |t| <= |u| && forall i | 0 <= i < |t| :: u[i] == Ch(t[i])
  }

  // str.replace on a template: holes match no text.
  function ReplaceSym(u: seq<Sym>, old_: string, new_: seq<Sym>): seq<Sym>
    requires old_ != []
  {
    if Front(u, old_) then new_ + ReplaceSym(u[|old_|..], old_, new_)
    else if u == [] then []
    else [u[0]] + ReplaceSym(u[1..], old_, new_)
  }

  // ---------- replacing and filling commute ----------

  lemma FillHead(u: seq<Sym>, v: seq<Sym>, e: Env)
    requires u != []
    ensures Fill(u + v, e) == FillSym(u[0], e) + Fill(u[1..] + v, e)
  {
    assert (u + v)[0] == u[0] && (u + v)[1..] == u[1..] + v;
  }

  lemma {:induction false} FillConcat(u: seq<Sym>, v: seq<Sym>, e: Env)
    ensures Fill(u + v, e) == Fill(u, e) + Fill(v, e)
  {
    if u == [] {
      assert u + v == v;
    } else {
      FillConcat(u[1..], v, e);
      FillHead(u, v, e);
    }
  }

  lemma {:induction false} FillLift(s: string, e: Env)
    ensures Fill(Lift(s), e) == s
  {
    if s != [] {
      assert Lift(s)[1..] == Lift(s[1..]);
      FillLift(s[1..], e);
    }
  }

  lemma {:induction false} FrontFills(u: seq<Sym>, t: string, e: Env)
    requires Front(u, t)
    ensures t <= Fill(u, e) && Fill(u, e)[|t|..] == Fill(u[|t|..], e)
  {
    FillConcat(u[..|t|], u[|t|..], e);
    assert u == u[..|t|] + u[|t|..];
    assert u[..|t|] == Lift(t);
    FillLift(t, e);
  }

  // Text without digits can only match text.
  lemma {:induction false} MatchIsFront(u: seq<Sym>, t: string, e: Env)
    requires Digital(e) && NoDigits(t) && t <= Fill(u, e)
    ensures Front(u, t)
  {
    if t != [] {
      assert t[0] in t && t[0] == Fill(u, e)[0] == FillSym(u[0], e)[0];
      assert FillSym(u[0], e)[0] in FillSym(u[0], e);
      assert u[0] == Ch(t[0]);
      assert Fill(u, e)[1..] == Fill(u[1..], e);
      assert forall c | c in t[1..] :: c in t;
      MatchIsFront(u[1..], t[1..], e);
      forall i | 0 <= i < |t| ensures u[i] == Ch(t[i]) {
        if i > 0 {
          assert u[1..][i - 1] == Ch(t[1..][i - 1]);
        }
      }
    }
  }

  lemma {:induction false} ReplaceSkipsDigits(ds: string, s: string, old_: string, new_: string)
    requires AllDigits(ds) && old_ != [] && NoDigits(old_)
    ensures Replace(ds + s, old_, new_) == ds + Replace(s, old_, new_)
  {
    if ds == [] {
      assert ds + s == s;
    } else {
      assert ds[0] in ds && old_[0] in old_;
      assert (ds + s)[0] == ds[0];
      assert forall c | c in ds[1..] :: c in ds;
      ReplaceSkipsDigits(ds[1..], s, old_, new_);
      assert (ds + s)[1..] == ds[1..] + s;
    }
  }

  lemma {:induction false} FillReplace(u: seq<Sym>, old_: string, new_: seq<Sym>, e: Env)
    requires Digital(e) && old_ != [] && NoDigits(old_)
    ensures Fill(ReplaceSym(u, old_, new_), e) == Replace(Fill(u, e), old_, Fill(new_, e))
    decreases |u|
  {
    if Front(u, old_) {
      FrontFills(u, old_, e);
      FillReplace(u[|old_|..], old_, new_, e);
      FillConcat(new_, ReplaceSym(u[|old_|..], old_, new_), e);
    } else if u != [] {
      if old_ <= Fill(u, e) {
        MatchIsFront(u, old_, e);
      }
      FillReplace(u[1..], old_, new_, e);
      FillConcat([u[0]], ReplaceSym(u[1..], old_, new_), e);
      assert Fill([u[0]], e) == FillSym(u[0], e);
      if u[0].Ch? {
        assert Fill(u, e)[1..] == Fill(u[1..], e);
      } else {
        ReplaceSkipsDigits(FillSym(u[0], e), Fill(u[1..], e), old_, Fill(new_, e));
      }
    }
  }

  // ---------- what a filled template determines ----------

  predicate SameWidths(e: Env, f: Env) {
    |e.year| == |f.year| && |e.month| == |f.month| && |e.day| == |f.day|
  }

  // A longer counter makes a longer number.
  lemma {:induction false} LongerCounter(u: seq<Sym>, e: Env, f: Env)
    requires SameWidths(e, f) && |e.counter| < |f.counter|
    ensures |Fill(u, e)| <= |Fill(u, f)|
    ensures Counter in u ==> |Fill(u, e)| < |Fill(u, f)|
  {
    if u != [] {
      LongerCounter(u[1..], e, f);
    }
  }

  lemma {:induction false} AlignedFill(u: seq<Sym>, e: Env, f: Env)
    requires SameWidths(e, f) && (|e.counter| == |f.counter| || Counter !in u)
    requires Fill(u, e) == Fill(u, f)
    ensures forall x | x in u :: FillSym(x, e) == FillSym(x, f)
  {
    if u != [] {
      assert |FillSym(u[0], e)| == |FillSym(u[0], f)|;
      var k := |FillSym(u[0], e)|;
      assert FillSym(u[0], e) == Fill(u, e)[..k] && Fill(u[1..], e) == Fill(u, e)[k..];
      assert FillSym(u[0], f) == Fill(u, f)[..k] && Fill(u[1..], f) == Fill(u, f)[k..];
      AlignedFill(u[1..], e, f);
      forall x | x in u ensures FillSym(x, e) == FillSym(x, f) {
        assert x == u[0] || x in u[1..];
      }
    }
  }

  lemma {:induction false} FillAgrees(u: seq<Sym>, e: Env, f: Env)
    requires forall x | x in u :: FillSym(x, e) == FillSym(x, f)
    ensures Fill(u, e) == Fill(u, f)
  {
    if u != [] {
      assert forall x | x in u[1..] :: x in u;
      assert u[0] in u;
      FillAgrees(u[1..], e, f);
    }
  }

  // Two fillings with date parts of fixed width give the same number exactly when they agree on every hole
  // the template has: nothing in the literal text can be mistaken for part of a counter.
  lemma FillInjective(u: seq<Sym>, e: Env, f: Env)
    requires SameWidths(e, f)
    ensures Fill(u, e) == Fill(u, f) <==> forall x | x in u :: FillSym(x, e) == FillSym(x, f)
  {
    if Fill(u, e) == Fill(u, f) {
      if |e.counter| < |f.counter| {
        LongerCounter(u, e, f);
      } else if |f.counter| < |e.counter| {
        LongerCounter(u, f, e);
      }
      AlignedFill(u, e, f);
    }
    if forall x | x in u :: FillSym(x, e) == FillSym(x, f) {
      FillAgrees(u, e, f);
    }
  }

  lemma FillEqual(u: seq<Sym>, e: Env, f: Env)
    requires SameWidths(e, f)
    ensures Fill(u, e) == Fill(u, f) <==>
            && (Year in u ==> e.year == f.year) && (Month in u ==> e.month == f.month)
            && (Day in u ==> e.day == f.day) && (Counter in u ==> e.counter == f.counter)
  {
    FillInjective(u, e, f);
    if Fill(u, e) == Fill(u, f) {
      assert forall x | x in [Year, Month, Day, Counter] && x in u :: FillSym(x, e) == FillSym(x, f);
      assert Year in [Year, Month, Day, Counter] && Month in [Year, Month, Day, Counter];
      assert Day in [Year, Month, Day, Counter] && Counter in [Year, Month, Day, Counter];
    }
  }

  lemma FillOne(x: Sym, e: Env)
    ensures Fill([x], e) == FillSym(x, e)
  {
  }

  // ---------- which holes a chain of replacements leaves ----------

  // Replacing never removes a hole, and adds only those of the replacement.
  lemma {:induction false} HolesKept(u: seq<Sym>, old_: string, new_: seq<Sym>, x: Sym)
    requires old_ != [] && !x.Ch? && x !in new_
    ensures x in ReplaceSym(u, old_, new_) <==> x in u
    decreases |u|
  {
    if Front(u, old_) {
      HolesKept(u[|old_|..], old_, new_, x);
      assert u == u[..|old_|] + u[|old_|..];
    } else if u != [] {
      HolesKept(u[1..], old_, new_, x);
      assert x in u <==> x == u[0] || x in u[1..];
    }
  }

  predicate Occurs(u: seq<Sym>, t: string) {
    Front(u, t) || (u != [] && Occurs(u[1..], t))
  }

  // A hole is put in exactly where the placeholder occurs.
  lemma {:induction false} HoleMade(u: seq<Sym>, old_: string, x: Sym)
    requires old_ != [] && !x.Ch? && x !in u
    ensures x in ReplaceSym(u, old_, [x]) <==> Occurs(u, old_)
    decreases |u|
  {
    if Front(u, old_) {
      assert ReplaceSym(u, old_, [x])[0] == x;
    } else if u != [] {
      assert forall y | y in u[1..] :: y in u;
      assert u[0] in u;
      HoleMade(u[1..], old_, x);
    }
  }

  // A name in braces.
  predicate IsPlaceholder(t: string) {
    && |t| >= 2 && t[0] == '{' && t[|t| - 1] == '}'
    && forall i | 0 < i < |t| - 1 :: t[i] != '{' && t[i] != '}'
  }

  lemma {:induction false} PlainPrefixKept(u: seq<Sym>, n: nat, old_: string, new_: seq<Sym>)
    requires IsPlaceholder(old_) && n <= |u|
    requires forall i | 0 <= i < n :: u[i] != Ch('{')
    ensures ReplaceSym(u, old_, new_) == u[..n] + ReplaceSym(u[n..], old_, new_)
  {
    if n == 0 {
      assert u[0..] == u;
    } else {
      assert !Front(u, old_) by {
        assert u[0] != Ch(old_[0]);
      }
      PlainPrefixKept(u[1..], n - 1, old_, new_);
      var rest := ReplaceSym(u[n..], old_, new_);
      assert u[1..][n - 1..] == u[n..];
      assert [u[0]] + (u[1..][..n - 1] + rest) == u[..n] + rest;
    }
  }

  lemma {:induction false} OccursAfter(v: seq<Sym>, u: seq<Sym>, t: string)
    requires Occurs(u, t)
    ensures Occurs(v + u, t)
  {
    if v == [] {
      assert v + u == u;
    } else {
      OccursAfter(v[1..], u, t);
      assert (v + u)[1..] == v[1..] + u;
    }
  }

  lemma {:induction false} OccursBeyond(u: seq<Sym>, n: nat, t: string)
    requires IsPlaceholder(t) && n <= |u| && Occurs(u, t)
    requires forall i | 0 <= i < n :: u[i] != Ch('{')
    ensures Occurs(u[n..], t)
  {
    if n == 0 {
      assert u[0..] == u;
    } else {
      assert u[0] != Ch(t[0]);
      OccursBeyond(u[1..], n - 1, t);
      assert u[1..][n - 1..] == u[n..];
    }
  }

  lemma OnePlaceholderAtFront(u: seq<Sym>, s: string, t: string)
    requires IsPlaceholder(s) && IsPlaceholder(t) && Front(u, s) && Front(u, t)
    ensures s == t
  {
  }

  // Replacing one placeholder destroys no occurrence of another.
  lemma {:induction false} OtherPlaceholderKept(u: seq<Sym>, old_: string, new_: seq<Sym>, t: string)
    requires IsPlaceholder(old_) && IsPlaceholder(t) && old_ != t && Occurs(u, t)
    ensures Occurs(ReplaceSym(u, old_, new_), t)
    decreases |u|
  {
    if Front(u, old_) {
      if Front(u, t) {
        OnePlaceholderAtFront(u, old_, t);
      } else {
        var n := |old_| - 1;
        forall i | 0 <= i < n ensures u[1..][i] != Ch('{') {
          assert u[i + 1] == Ch(old_[i + 1]);
        }
        OccursBeyond(u[1..], n, t);
        assert u[1..][n..] == u[|old_|..];
        OtherPlaceholderKept(u[|old_|..], old_, new_, t);
        OccursAfter(new_, ReplaceSym(u[|old_|..], old_, new_), t);
      }
    } else if Front(u, t) {
      var n := |t| - 1;
      forall i | 0 <= i < n ensures u[1..][i] != Ch('{') {
        assert u[i + 1] == Ch(t[i + 1]);
      }
      PlainPrefixKept(u[1..], n, old_, new_);
      var r := ReplaceSym(u, old_, new_);
      assert r == [u[0]] + (u[1..][..n] + ReplaceSym(u[1..][n..], old_, new_));
      assert forall i | 0 <= i < |t| :: r[i] == u[i];
      assert Front(r, t);
    } else {
      OtherPlaceholderKept(u[1..], old_, new_, t);
      OccursAfter([u[0]], ReplaceSym(u[1..], old_, new_), t);
    }
  }

  lemma FrontOfLift(s: string, t: string)
    ensures Front(Lift(s), t) <==> t <= s
  {
  }

  lemma {:induction false} LiftOccurs(s: string, t: string)
    ensures Occurs(Lift(s), t) <==> Contains(s, t)
  {
    FrontOfLift(s, t);
    if s != [] {
      assert Lift(s)[1..] == Lift(s[1..]);
      LiftOccurs(s[1..], t);
    }
  }
}
