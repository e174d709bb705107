/** Decimal numerals and the string operations that document patterns use. */
module Text {
  predicate IsDigit(c: char) {
    '0' <= c <= '9'
  }

  predicate AllDigits(s: string) {
    forall c | c in s :: IsDigit(c)
  }

  predicate NoDigits(s: string) {
    forall c | c in s :: !IsDigit(c)
  }

  function DigitChar(d: nat): (c: char)
    requires d < 10
    ensures IsDigit(c)
  {
    '0' + d as char
  }

  // str(n)
  function Digits(n: nat): (s: string)
    ensures s != [] && AllDigits(s)
  {
    if n < 10 then [DigitChar(n)] else Digits(n / 10) + [DigitChar(n % 10)]
  }

  function Zeros(w: nat): (s: string)
    ensures |s| == w && AllDigits(s)
    ensures forall i | 0 <= i < w :: s[i] == '0'
  {
    if w == 0 then [] else ['0'] + Zeros(w - 1)
  }

  // The format "0{w}d": at least w digits.
  function Pad(w: nat, n: nat): (s: string)
    ensures s != [] && AllDigits(s) && |s| >= w
  {
    var ds := Digits(n);
    if |ds| >= w then ds else Zeros(w - |ds|) + ds
  }

  function Value(s: string): nat
    requires AllDigits(s)
  {
    if s == [] then 0
    else
      var c := s[|s| - 1];
      assert IsDigit(c);
      10 * Value(s[..|s| - 1]) + (c as int - '0' as int)
  }

  lemma {:induction false} ValueOfDigits(n: nat)
    ensures Value(Digits(n)) == n
  {
    if n >= 10 {
      ValueOfDigits(n / 10);
      assert Digits(n)[..|Digits(n)| - 1] == Digits(n / 10);
    } else {
      assert Digits(n)[..0] == [];
    }
  }

  lemma {:induction false} ValueAfterZeros(w: nat, s: string)
    requires AllDigits(s)
    ensures AllDigits(Zeros(w) + s) && Value(Zeros(w) + s) == Value(s)
  {
    if s != [] {
      var front := s[..|s| - 1];
      ValueAfterZeros(w, front);
      assert (Zeros(w) + s)[..|Zeros(w) + s| - 1] == Zeros(w) + front;
    } else if w > 0 {
      assert Zeros(w) + s == Zeros(w);
      assert Zeros(w)[..w - 1] == Zeros(w - 1);
      ValueAfterZeros(w - 1, s);
      assert Zeros(w - 1) + s == Zeros(w - 1);
    }
  }

  // Padding loses nothing, so two numbers padded to the same width are written the same only if equal.
  lemma ValueOfPad(w: nat, n: nat)
    ensures Value(Pad(w, n)) == n
  {
    ValueOfDigits(n);
    if |Digits(n)| < w {
      ValueAfterZeros(w - |Digits(n)|, Digits(n));
    }
  }

  // str(n) has no leading zero, and padding adds no more zeros than it must.
  lemma {:induction false} NoLeadingZero(n: nat)
    ensures n > 0 ==> Digits(n)[0] != '0'
    ensures n == 0 ==> Digits(n) == "0"
  {
    if n >= 10 {
      NoLeadingZero(n / 10);
    }
  }

  lemma PadLength(w: nat, n: nat)
    ensures |Pad(w, n)| == if |Digits(n)| >= w then |Digits(n)| else w
    ensures |Digits(n)| >= w ==> Pad(w, n) == Digits(n)
  {
  }

  lemma PadInjective(w: nat, m: nat, n: nat)
    ensures Pad(w, m) == Pad(w, n) <==> m == n
  {
    ValueOfPad(w, m);
    ValueOfPad(w, n);
  }

  lemma PadWidth(n: nat)
    ensures n < 100 ==> |Pad(2, n)| == 2
    ensures 1000 <= n < 10000 ==> |Pad(4, n)| == 4
  {
    if n < 10 {
      assert |Digits(n)| == 1;
    } else if n < 100 {
      assert |Digits(n / 10)| == 1;
    } else if 1000 <= n < 10000 {
      assert |Digits(n / 1000)| == 1;
      assert n / 100 / 10 == n / 1000 && |Digits(n / 100)| == 2;
      assert n / 10 / 10 == n / 100 && |Digits(n / 10)| == 3;
    }
  }

  // t in s
  predicate Contains(s: string, t: string) {
    t <= s || (s != [] && Contains(s[1..], t))
  }

  // s.replace(old, new): leftmost occurrences first, none overlapping.
  function Replace(s: string, old_: string, new_: string): string
    requires old_ != []
  {
    if old_ <= s then new_ + Replace(s[|old_|..], old_, new_)
    else if s == [] then []
    else [s[0]] + Replace(s[1..], old_, new_)
  }
}
