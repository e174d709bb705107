/** What a document number is: the text a pattern made of plain pieces and placeholders is rendered to
    (models/document_sequence.py:69-91). */
module Patterns {
  import opened Text
  import opened Templates
  import opened DocumentSequences

  predicate Plain(s: string) {
    forall ch | ch in s :: ch != '{' && ch != '}'
  }

  // Pieces of a pattern: plain text, or one name in braces.
  predicate Piece(s: string) {
    Plain(s) || IsPlaceholder(s)
  }

  function Join(pieces: seq<string>): string {
    if pieces == [] then "" else pieces[0] + Join(pieces[1..])
  }

  // Every piece that is the token becomes the text.
  function Substituted(pieces: seq<string>, token: string, text: string): (r: seq<string>)
    ensures |r| == |pieces|
    ensures forall i | 0 <= i < |r| :: r[i] == if pieces[i] == token then text else pieces[i]
  {
    seq(|pieces|, i requires 0 <= i < |pieces| => if pieces[i] == token then text else pieces[i])
  }

  // ---------- replacing in a pattern is replacing its pieces ----------

  lemma {:induction false} PlainKept(p: string, s: string, token: string, text: string)
    requires IsPlaceholder(token) && forall i | 0 <= i < |p| :: p[i] != '{'
    ensures Replace(p + s, token, text) == p + Replace(s, token, text)
    ensures Contains(p + s, token) <==> Contains(s, token)
  {
    if p == [] {
      assert p + s == s;
    } else {
      PlainKept(p[1..], s, token, text);
      assert (p + s)[0] == p[0] && (p + s)[1..] == p[1..] + s;
      assert [p[0]] + (p[1..] + Replace(s, token, text)) == p + Replace(s, token, text);
    }
  }

  lemma TokenTaken(s: string, token: string, text: string)
    requires IsPlaceholder(token)
    ensures Replace(token + s, token, text) == text + Replace(s, token, text) && Contains(token + s, token)
  {
    assert (token + s)[|token|..] == s;
  }

  // Two names in braces at one place are one name.
  lemma OneNameAtFront(p: string, s: string, token: string)
    requires IsPlaceholder(p) && IsPlaceholder(token) && token <= p + s
    ensures token == p
  {
    assert |token| >= |p| by {
      assert token[|token| - 1] == (p + s)[|token| - 1] == '}';
    }
    assert (p + s)[|p| - 1] == '}' && token[|p| - 1] == (p + s)[|p| - 1];
    assert |token| == |p|;
  }

  lemma NotAtFront(s: string, token: string, text: string)
    requires s != [] && token != [] && !(token <= s)
    ensures Replace(s, token, text) == [s[0]] + Replace(s[1..], token, text)
    ensures Contains(s, token) <==> Contains(s[1..], token)
  {
  }

  lemma OtherNameKept(p: string, s: string, token: string, text: string)
    requires IsPlaceholder(p) && IsPlaceholder(token) && p != token
    ensures Replace(p + s, token, text) == p + Replace(s, token, text)
    ensures Contains(p + s, token) <==> Contains(s, token)
  {
    if token <= p + s {
      OneNameAtFront(p, s, token);
    }
    NotAtFront(p + s, token, text);
    assert (p + s)[1..] == p[1..] + s;
    PlainKept(p[1..], s, token, text);
    assert [p[0]] + (p[1..] + Replace(s, token, text)) == p + Replace(s, token, text);
  }

  lemma FrontPiece(p: string, s: string, token: string, text: string)
    requires Piece(p) && IsPlaceholder(token)
    ensures Replace(p + s, token, text) == (if p == token then text else p) + Replace(s, token, text)
    ensures Contains(p + s, token) <==> p == token || Contains(s, token)
  {
    if p == token {
      TokenTaken(s, token, text);
    } else if IsPlaceholder(p) {
      OtherNameKept(p, s, token, text);
    } else {
      assert forall i | 0 <= i < |p| :: p[i] in p;
      PlainKept(p, s, token, text);
    }
  }

  lemma SubstitutedFront(pieces: seq<string>, token: string, text: string)
    requires pieces != []
    ensures Join(Substituted(pieces, token, text)) ==
            (if pieces[0] == token then text else pieces[0]) + Join(Substituted(pieces[1..], token, text))
  {
    assert Substituted(pieces, token, text)[1..] == Substituted(pieces[1..], token, text);
  }

  lemma {:induction false} ReplaceInPieces(pieces: seq<string>, token: string, text: string)
    requires IsPlaceholder(token) && forall i | 0 <= i < |pieces| :: Piece(pieces[i])
    ensures Replace(Join(pieces), token, text) == Join(Substituted(pieces, token, text))
  {
    if pieces != [] {
      ReplaceInPieces(pieces[1..], token, text);
      FrontPiece(pieces[0], Join(pieces[1..]), token, text);
      SubstitutedFront(pieces, token, text);
    }
  }

  lemma {:induction false} ContainsPiece(pieces: seq<string>, token: string)
    requires IsPlaceholder(token) && forall i | 0 <= i < |pieces| :: Piece(pieces[i])
    ensures Contains(Join(pieces), token) <==> token in pieces
  {
    if pieces != [] {
      ContainsPiece(pieces[1..], token);
      FrontPiece(pieces[0], Join(pieces[1..]), token, "");
      assert token in pieces <==> token == pieces[0] || token in pieces[1..];
    }
  }

  // ---------- which counter placeholder counts ----------

  // The counter placeholder with a width, spelled out.
  function CounterToken(w: nat): string
    requires 2 <= w <= 6
  {
    if w == 2 then "{counter:02d}" else if w == 3 then "{counter:03d}" else if w == 4 then "{counter:04d}"
    else if w == 5 then "{counter:05d}" else "{counter:06d}"
  }

  lemma CounterTokens(w: nat)
    requires 2 <= w <= 6
    ensures CounterToken(w) == PaddedPlaceholder(w)
  {
  }

  lemma {:induction false} HoleFrom(pattern: string, w: nat, from: nat)
    requires 2 <= from <= w <= 6 && Contains(pattern, PaddedPlaceholder(w))
    requires forall v | 2 <= v < w :: !Contains(pattern, PaddedPlaceholder(v))
    ensures CounterHole(pattern, from) == (PaddedPlaceholder(w), w)
    decreases w - from
  {
    if from < w {
      HoleFrom(pattern, w, from + 1);
    }
  }

  lemma {:induction false} NoHoleFrom(pattern: string, from: nat)
    requires 2 <= from <= 7
    requires forall v | 2 <= v <= 6 :: !Contains(pattern, PaddedPlaceholder(v))
    ensures CounterHole(pattern, from) == (PlainPlaceholder(), 1)
    decreases 7 - from
  {
    if from < 7 {
      NoHoleFrom(pattern, from + 1);
    }
  }

  // The narrowest padded counter of a pattern is written with the width it names, wherever it stands; without
  // a padded one, the plain counter is written as it is.
  lemma CounterWritten(c: Config, branch: string, date: Instant, n: nat, w: nat)
    requires 2 <= w <= 7
    requires forall v | 2 <= v <= 6 && v < w :: !Contains(c.pattern, CounterToken(v))
    requires w <= 6 ==> Contains(c.pattern, CounterToken(w))
    ensures Render(c, branch, date, n) ==
            ReplaceParts(if w == 7 then Replace(c.pattern, "{counter}", Digits(n))
                         else Replace(c.pattern, CounterToken(w), Pad(w, n)), ORDER, c, branch, date)
  {
    forall v | 2 <= v <= 6 && v < w ensures !Contains(c.pattern, PaddedPlaceholder(v)) {
      CounterTokens(v);
    }
    if w == 7 {
      NoHoleFrom(c.pattern, 2);
    } else {
      CounterTokens(w);
      HoleFrom(c.pattern, w, 2);
    }
  }

  // ---------- the whole number ----------

  // What one piece says, counters aside.
  function PartSays(piece: string, c: Config, branch: string, date: Instant): string {
    if piece == "{prefix}" then c.prefix
    else if piece == "{year}" then Pad(4, date.year)
    else if piece == "{month}" then Pad(2, date.month)
    else if piece == "{day}" then Pad(2, date.day)
    else if piece == "{branch}" then branch
    else if piece == "{tenant}" then (if c.tenantId == 0 then "" else Digits(c.tenantId))
    else piece
  }

  function Said(
    pieces: seq<string>, hole: string, count: string, c: Config, branch: string, date: Instant): (r: seq<string>)
    ensures |r| == |pieces|
    ensures forall i | 0 <= i < |r| :: r[i] == if pieces[i] == hole then count else PartSays(pieces[i], c, branch, date)
  {
    seq(|pieces|, i requires 0 <= i < |pieces| =>
      if pieces[i] == hole then count else PartSays(pieces[i], c, branch, date))
  }

  lemma DigitsPlain(s: string)
    requires AllDigits(s)
    ensures Plain(s)
  {
  }

  lemma TextPlain(c: Config, branch: string, date: Instant, p: Part)
    requires Plain(c.prefix) && Plain(branch)
    ensures Plain(TextOf(c, branch, date, p))
  {
    if p == YearPart || p == MonthPart || p == DayPart || (p == TenantPart && c.tenantId != 0) {
      DigitsPlain(TextOf(c, branch, date, p));
    }
  }

  // What is left of one piece after the substitutions.
  function Left(piece: string, parts: seq<Part>, c: Config, branch: string, date: Instant): string {
    if parts == [] then piece
    else
      var last := parts[|parts| - 1];
      var before := Left(piece, parts[..|parts| - 1], c, branch, date);
      if before == Token(last) then TextOf(c, branch, date, last) else before
  }

  function AllLeft(
    pieces: seq<string>, parts: seq<Part>, c: Config, branch: string, date: Instant): (r: seq<string>)
    ensures |r| == |pieces| && forall i | 0 <= i < |r| :: r[i] == Left(pieces[i], parts, c, branch, date)
  {
    seq(|pieces|, i requires 0 <= i < |pieces| => Left(pieces[i], parts, c, branch, date))
  }

  lemma TextPiece(c: Config, branch: string, date: Instant, p: Part)
    requires Piece(c.prefix) && Piece(branch)
    ensures Piece(TextOf(c, branch, date, p))
  {
    if p == YearPart || p == MonthPart || p == DayPart || (p == TenantPart && c.tenantId != 0) {
      DigitsPlain(TextOf(c, branch, date, p));
    }
  }

  lemma {:induction false} LeftIsPiece(piece: string, parts: seq<Part>, c: Config, branch: string, date: Instant)
    requires Piece(piece) && Piece(c.prefix) && Piece(branch)
    ensures Piece(Left(piece, parts, c, branch, date))
  {
    if parts != [] {
      LeftIsPiece(piece, parts[..|parts| - 1], c, branch, date);
      TextPiece(c, branch, date, parts[|parts| - 1]);
    }
  }

  lemma {:induction false} PartsInPieces(
    pieces: seq<string>, parts: seq<Part>, c: Config, branch: string, date: Instant)
    requires (forall p | p in pieces :: Piece(p)) && Piece(c.prefix) && Piece(branch)
    ensures ReplaceParts(Join(pieces), parts, c, branch, date) == Join(AllLeft(pieces, parts, c, branch, date))
  {
    if parts == [] {
      assert AllLeft(pieces, parts, c, branch, date) == pieces;
    } else {
      var front, last := parts[..|parts| - 1], parts[|parts| - 1];
      var before := AllLeft(pieces, front, c, branch, date);
      PartsInPieces(pieces, front, c, branch, date);
      forall p | p in before ensures Piece(p) {
        var i :| 0 <= i < |before| && before[i] == p;
        LeftIsPiece(pieces[i], front, c, branch, date);
      }
      ReplaceInPieces(before, Token(last), TextOf(c, branch, date, last));
      assert Substituted(before, Token(last), TextOf(c, branch, date, last))
          == AllLeft(pieces, parts, c, branch, date);
    }
  }

  // A piece that is no token of these parts is left alone; the token of one of them becomes its text.
  lemma {:induction false} LeftExactly(piece: string, parts: seq<Part>, c: Config, branch: string, date: Instant)
    requires Plain(c.prefix) && Plain(branch)
    ensures (forall p | p in parts :: Token(p) != piece) ==> Left(piece, parts, c, branch, date) == piece
    ensures forall p | p in parts && Token(p) == piece ::
              Left(piece, parts, c, branch, date) == TextOf(c, branch, date, p)
  {
    if parts != [] {
      var front, last := parts[..|parts| - 1], parts[|parts| - 1];
      LeftExactly(piece, front, c, branch, date);
      assert forall p | p in parts :: p in front || p == last;
      forall p ensures TextOf(c, branch, date, p) != Token(last) {
        TextPlain(c, branch, date, p);
        assert Token(last)[0] in Token(last);
      }
      forall p | p != last ensures Token(p) != Token(last) {
        TokensDiffer(p, last);
      }
    }
  }

  lemma TokenText(piece: string, p: Part, c: Config, branch: string, date: Instant)
    requires Plain(c.prefix) && Plain(branch) && piece == Token(p)
    ensures Left(piece, ORDER, c, branch, date) == PartSays(piece, c, branch, date)
  {
    LeftExactly(piece, ORDER, c, branch, date);
    assert ORDER[0] == PrefixPart && ORDER[1] == YearPart && ORDER[2] == MonthPart && ORDER[3] == DayPart
        && ORDER[4] == BranchPart && ORDER[5] == TenantPart;
    assert p in ORDER;
  }

  lemma NoTokenSays(piece: string, c: Config, branch: string, date: Instant)
    requires forall p: Part :: piece != Token(p)
    ensures PartSays(piece, c, branch, date) == piece
  {
    assert piece != Token(PrefixPart) && piece != Token(YearPart) && piece != Token(MonthPart)
        && piece != Token(DayPart) && piece != Token(BranchPart) && piece != Token(TenantPart);
  }

  lemma LeftSays(piece: string, c: Config, branch: string, date: Instant)
    requires Plain(c.prefix) && Plain(branch)
    ensures Left(piece, ORDER, c, branch, date) == PartSays(piece, c, branch, date)
  {
    if p: Part :| piece == Token(p) {
      TokenText(piece, p, c, branch, date);
    } else {
      LeftExactly(piece, ORDER, c, branch, date);
      NoTokenSays(piece, c, branch, date);
    }
  }

  lemma CountLeft(count: string, c: Config, branch: string, date: Instant)
    requires AllDigits(count) && Plain(c.prefix) && Plain(branch)
    ensures Left(count, ORDER, c, branch, date) == count
  {
    forall p: Part ensures Token(p) != count {
      assert Token(p)[0] in Token(p);
    }
    LeftExactly(count, ORDER, c, branch, date);
  }

  // Once the counter is written, the other substitutions turn each piece into what it says.
  lemma RestSays(pieces: seq<string>, hole: string, count: string, c: Config, branch: string, date: Instant)
    requires (forall p | p in pieces :: Piece(p)) && Plain(c.prefix) && Plain(branch)
    requires AllDigits(count) && IsPlaceholder(hole)
    ensures ReplaceParts(Replace(Join(pieces), hole, count), ORDER, c, branch, date) ==
            Join(Said(pieces, hole, count, c, branch, date))
  {
    ReplaceInPieces(pieces, hole, count);
    var counted := Substituted(pieces, hole, count);
    DigitsPlain(count);
    forall p | p in counted ensures Piece(p) {
      var i :| 0 <= i < |counted| && counted[i] == p;
      assert pieces[i] in pieces;
    }
    PartsInPieces(counted, ORDER, c, branch, date);
    forall i | 0 <= i < |pieces|
      ensures Left(counted[i], ORDER, c, branch, date) == Said(pieces, hole, count, c, branch, date)[i]
    {
      if pieces[i] == hole {
        CountLeft(count, c, branch, date);
      } else {
        LeftSays(pieces[i], c, branch, date);
      }
    }
    assert AllLeft(counted, ORDER, c, branch, date) == Said(pieces, hole, count, c, branch, date);
  }

  // The number of a pattern made of plain text and names in braces, if prefix and branch hold no braces: each
  // name says its text, the narrowest padded counter says the counter with that width, or the plain counter
  // the bare counter if there is no padded one; all else stands as it is.
  lemma NumberSays(c: Config, branch: string, date: Instant, n: nat, pieces: seq<string>, w: nat)
    requires c.pattern == Join(pieces) && (forall p | p in pieces :: Piece(p)) && Plain(c.prefix) && Plain(branch)
    requires 2 <= w <= 7 && forall v | 2 <= v <= 6 && v < w :: CounterToken(v) !in pieces
    requires w <= 6 ==> CounterToken(w) in pieces
    ensures Render(c, branch, date, n) ==
            Join(if w == 7 then Said(pieces, "{counter}", Digits(n), c, branch, date)
                 else Said(pieces, CounterToken(w), Pad(w, n), c, branch, date))
  {
    forall v | 2 <= v <= 6 ensures Contains(c.pattern, CounterToken(v)) <==> CounterToken(v) in pieces {
      CounterTokens(v);
      ContainsPiece(pieces, CounterToken(v));
    }
    CounterWritten(c, branch, date, n, w);
    if w == 7 {
      RestSays(pieces, PlainPlaceholder(), Digits(n), c, branch, date);
    } else {
      CounterTokens(w);
      RestSays(pieces, CounterToken(w), Pad(w, n), c, branch, date);
    }
  }

  lemma JoinThree(a: string, b: string, d: string)
    ensures Join([a, b, d]) == a + b + d
  {
    assert [a, b, d][1..] == [b, d] && [b, d][1..] == [d] && [d][1..] == [];
    assert Join([d]) == d && Join([b, d]) == b + d;
    assert a + (b + d) == a + b + d;
  }

  lemma CounterTokensDiffer(v: nat, w: nat)
    requires 2 <= v <= 6 && 2 <= w <= 6 && v != w
    ensures CounterToken(v) != CounterToken(w)
  {
    assert CounterToken(v)[10] != CounterToken(w)[10];
  }

  lemma PlainIsNoName(a: string, name: string)
    requires Plain(a) && IsPlaceholder(name)
    ensures a != name
  {
    assert name[0] in name;
  }

  lemma PlainSays(a: string, c: Config, branch: string, date: Instant)
    requires Plain(a)
    ensures PartSays(a, c, branch, date) == a
  {
    forall p: Part ensures a != Token(p) {
      PlainIsNoName(a, Token(p));
    }
    NoTokenSays(a, c, branch, date);
  }

  // A counter between two plain texts.
  lemma CounterBetween(c: Config, branch: string, date: Instant, n: nat, a: string, b: string, w: nat)
    requires 2 <= w <= 6 && c.pattern == a + CounterToken(w) + b
    requires Plain(a) && Plain(b) && Plain(c.prefix) && Plain(branch)
    ensures Render(c, branch, date, n) == a + Pad(w, n) + b
  {
    var pieces := [a, CounterToken(w), b];
    CounterTokens(w);
    JoinThree(a, CounterToken(w), b);
    forall v | 2 <= v <= 6 && v < w ensures CounterToken(v) !in pieces {
      CounterTokensDiffer(v, w);
      CounterTokens(v);
      PlainIsNoName(a, CounterToken(v));
      PlainIsNoName(b, CounterToken(v));
    }
    NumberSays(c, branch, date, n, pieces, w);
    PlainSays(a, c, branch, date);
    PlainSays(b, c, branch, date);
    PlainIsNoName(a, CounterToken(w));
    PlainIsNoName(b, CounterToken(w));
    assert Said(pieces, CounterToken(w), Pad(w, n), c, branch, date) == [a, Pad(w, n), b];
    JoinThree(a, Pad(w, n), b);
  }

  lemma JoinFive(a: string, b: string, d: string, e: string, f: string)
    ensures Join([a, b, d, e, f]) == a + b + d + e + f
  {
    JoinThree(d, e, f);
    assert [a, b, d, e, f][1..] == [b, d, e, f] && [b, d, e, f][1..] == [d, e, f];
    assert Join([b, d, e, f]) == b + (d + e + f);
    assert a + (b + (d + e + f)) == a + b + d + e + f;
  }

  lemma ShortIsNoCounter(s: string, v: nat)
    requires 2 <= v <= 6 && |s| < 13
    ensures CounterToken(v) != s
  {
    assert |CounterToken(v)| == 13;
  }

  lemma DashedPieces(w: nat) returns (pieces: seq<string>)
    requires 2 <= w <= 6
    ensures pieces == [Token(PrefixPart), "-", Token(YearPart), "-", CounterToken(w)]
    ensures forall p | p in pieces :: Piece(p)
    ensures forall v | 2 <= v <= 6 && v < w :: CounterToken(v) !in pieces
    ensures forall i | 0 <= i < 4 :: pieces[i] != CounterToken(w)
  {
    pieces := [Token(PrefixPart), "-", Token(YearPart), "-", CounterToken(w)];
    CounterTokens(w);
    forall v | 2 <= v <= 6
      ensures forall i | 0 <= i < 4 :: pieces[i] != CounterToken(v)
      ensures v != w ==> CounterToken(v) != CounterToken(w)
    {
      ShortIsNoCounter(Token(PrefixPart), v);
      ShortIsNoCounter(Token(YearPart), v);
      ShortIsNoCounter("-", v);
      if v != w {
        CounterTokensDiffer(v, w);
      }
    }
  }

  lemma DashedSays(c: Config, branch: string, date: Instant)
    ensures PartSays(Token(PrefixPart), c, branch, date) == c.prefix
    ensures PartSays(Token(YearPart), c, branch, date) == Pad(4, date.year)
    ensures PartSays("-", c, branch, date) == "-"
  {
    PlainSays("-", c, branch, date);
  }

  lemma CountedLast(a: string, b: string, d: string, e: string, hole: string, count: string,
                    c: Config, branch: string, date: Instant)
    requires a != hole && b != hole && d != hole && e != hole
    ensures Join(Said([a, b, d, e, hole], hole, count, c, branch, date)) ==
            PartSays(a, c, branch, date) + PartSays(b, c, branch, date) + PartSays(d, c, branch, date)
            + PartSays(e, c, branch, date) + count
  {
    var said := Said([a, b, d, e, hole], hole, count, c, branch, date);
    assert said == [said[0], said[1], said[2], said[3], count];
    JoinFive(said[0], said[1], said[2], said[3], count);
  }

  // Prefix, year and a padded counter, with a dash between them.
  lemma DashedNumber(c: Config, branch: string, date: Instant, n: nat, w: nat)
    requires 2 <= w <= 6 && Plain(c.prefix) && Plain(branch)
    requires c.pattern == Token(PrefixPart) + "-" + Token(YearPart) + "-" + CounterToken(w)
    ensures Render(c, branch, date, n) == c.prefix + "-" + Pad(4, date.year) + "-" + Pad(w, n)
  {
    var pieces := DashedPieces(w);
    JoinFive(pieces[0], pieces[1], pieces[2], pieces[3], pieces[4]);
    NumberSays(c, branch, date, n, pieces, w);
    DashedSays(c, branch, date);
    CountedLast(pieces[0], pieces[1], pieces[2], pieces[3], CounterToken(w), Pad(w, n), c, branch, date);
  }

  lemma DefaultPattern()
    ensures "{prefix}-{year}-{counter:04d}" == Token(PrefixPart) + "-" + Token(YearPart) + "-" + CounterToken(4)
  {
    assert Token(PrefixPart) + "-" + Token(YearPart) == "{prefix}-{year}";
    assert "{prefix}-{year}" + "-" + "{counter:04d}" == "{prefix}-{year}-{counter:04d}";
  }

  // The default pattern: prefix, year and a counter of at least four digits.
  lemma DefaultNumber(c: Config, branch: string, date: Instant, n: nat)
    requires c.pattern == "{prefix}-{year}-{counter:04d}" && Plain(c.prefix) && Plain(branch)
    ensures Render(c, branch, date, n) == c.prefix + "-" + Pad(4, date.year) + "-" + Pad(4, n)
  {
    DefaultPattern();
    DashedNumber(c, branch, date, n, 4);
  }

  lemma PaddedSeven()
    ensures Pad(4, 7) == "0007"
  {
    assert Digits(7) == "7";
    assert Zeros(3) == "000";
  }

  lemma PaddedYear()
    ensures Pad(4, 2025) == "2025"
  {
    assert Digits(2) == "2" && Digits(20) == "20" && Digits(202) == "202";
  }

  lemma InvoiceText()
    ensures "INV" + "-" + Pad(4, 2025) + "-" + Pad(4, 7) == "INV-2025-0007" && Plain("INV")
  {
    PaddedSeven();
    PaddedYear();
  }

  // The seventh invoice of 2025.
  lemma SeventhInvoice(c: Config, branch: string, date: Instant)
    requires c.pattern == "{prefix}-{year}-{counter:04d}" && c.prefix == "INV" && Plain(branch) && date.year == 2025
    ensures Render(c, branch, date, 7) == "INV-2025-0007"
  {
    InvoiceText();
    DefaultNumber(c, branch, date, 7);
  }

  lemma NameSays(c: Config, branch: string, date: Instant, n: nat, a: string, b: string, p: Part)
    requires c.pattern == a + Token(p) + b && Plain(a) && Plain(b) && Plain(c.prefix) && Plain(branch)
    ensures Render(c, branch, date, n) == a + PartSays(Token(p), c, branch, date) + b
  {
    var pieces := [a, Token(p), b];
    JoinThree(a, Token(p), b);
    forall v | 2 <= v <= 6 ensures CounterToken(v) !in pieces {
      CounterTokens(v);
      PlainIsNoName(a, CounterToken(v));
      PlainIsNoName(b, CounterToken(v));
      assert CounterToken(v)[1] == 'c' && Token(p)[1] != 'c';
    }
    NumberSays(c, branch, date, n, pieces, 7);
    PlainSays(a, c, branch, date);
    PlainSays(b, c, branch, date);
    PlainIsNoName(a, PlainPlaceholder());
    PlainIsNoName(b, PlainPlaceholder());
    assert PlainPlaceholder() == "{counter}" && Token(p)[1] != PlainPlaceholder()[1];
    assert Said(pieces, "{counter}", Digits(n), c, branch, date) == [a, PartSays(Token(p), c, branch, date), b];
    JoinThree(a, PartSays(Token(p), c, branch, date), b);
  }

  // Every other name, between two plain texts.
  lemma NameBetween(c: Config, branch: string, date: Instant, n: nat, a: string, b: string, name: string)
    requires c.pattern == a + name + b && Plain(a) && Plain(b) && Plain(c.prefix) && Plain(branch)
    ensures name == "{prefix}" ==> Render(c, branch, date, n) == a + c.prefix + b
    ensures name == "{year}" ==> Render(c, branch, date, n) == a + Pad(4, date.year) + b
    ensures name == "{month}" ==> Render(c, branch, date, n) == a + Pad(2, date.month) + b
    ensures name == "{day}" ==> Render(c, branch, date, n) == a + Pad(2, date.day) + b
    ensures name == "{branch}" ==> Render(c, branch, date, n) == a + branch + b
    ensures name == "{tenant}" ==>
              Render(c, branch, date, n) == a + (if c.tenantId == 0 then "" else Digits(c.tenantId)) + b
  {
    if p: Part :| name == Token(p) {
      NameSays(c, branch, date, n, a, b, p);
    } else {
      assert name != Token(PrefixPart) && name != Token(YearPart) && name != Token(MonthPart)
          && name != Token(DayPart) && name != Token(BranchPart) && name != Token(TenantPart);
    }
  }

  // ---------- texts that are names themselves ----------

  function Once(piece: string, p: Part, c: Config, branch: string, date: Instant): string {
    if piece == Token(p) then TextOf(c, branch, date, p) else piece
  }

  lemma {:induction false} LeftTo(piece: string, n: nat, c: Config, branch: string, date: Instant)
    requires 0 < n <= 6
    ensures Left(piece, ORDER[..n], c, branch, date) ==
            Once(Left(piece, ORDER[..n - 1], c, branch, date), ORDER[n - 1], c, branch, date)
  {
    assert ORDER[..n][..n - 1] == ORDER[..n - 1];
  }

  lemma JoinOne(a: string)
    ensures Join([a]) == a
  {
    assert [a][1..] == [];
  }

  // A name alone holds no other name.
  lemma NameAlone(name: string, other: string, text: string)
    requires IsPlaceholder(name) && IsPlaceholder(other) && name != other
    ensures !Contains(name, other) && Replace(name, other, text) == name
  {
    JoinOne(name);
    ContainsPiece([name], other);
    ReplaceInPieces([name], other, text);
    assert Substituted([name], other, text) == [name];
  }

  lemma PartIsNoCounter(p: Part, n: nat)
    ensures forall v | 2 <= v <= 6 :: !Contains(Token(p), CounterToken(v))
    ensures Replace(Token(p), "{counter}", Digits(n)) == Token(p)
  {
    forall v | 2 <= v <= 6 ensures !Contains(Token(p), CounterToken(v)) {
      CounterTokens(v);
      assert CounterToken(v)[1] == 'c' && Token(p)[1] != 'c';
      NameAlone(Token(p), CounterToken(v), "");
    }
    assert PlainPlaceholder()[1] == 'c' && Token(p)[1] != 'c';
    NameAlone(Token(p), PlainPlaceholder(), Digits(n));
  }

  lemma NameReplaced(c: Config, branch: string, date: Instant, p: Part)
    requires Piece(c.prefix) && Piece(branch)
    ensures ReplaceParts(Token(p), ORDER, c, branch, date) == Left(Token(p), ORDER, c, branch, date)
  {
    JoinOne(Token(p));
    PartsInPieces([Token(p)], ORDER, c, branch, date);
    var left := Left(Token(p), ORDER, c, branch, date);
    assert AllLeft([Token(p)], ORDER, c, branch, date) == [left];
    JoinOne(left);
  }

  // A pattern that is one name, whose text may be a name again.
  lemma OneName(c: Config, branch: string, date: Instant, n: nat, p: Part)
    requires c.pattern == Token(p) && Piece(c.prefix) && Piece(branch)
    ensures Render(c, branch, date, n) == Left(Token(p), ORDER, c, branch, date)
  {
    PartIsNoCounter(p, n);
    CounterWritten(c, branch, date, n, 7);
    NameReplaced(c, branch, date, p);
  }

  lemma ChainOfNames(piece: string, c: Config, branch: string, date: Instant)
    ensures var afterDay := Once(Once(Once(Once(piece, PrefixPart, c, branch, date), YearPart, c, branch, date),
                                      MonthPart, c, branch, date), DayPart, c, branch, date);
            Left(piece, ORDER, c, branch, date) ==
            Once(Once(afterDay, BranchPart, c, branch, date), TenantPart, c, branch, date)
  {
    assert ORDER[..0] == [] && ORDER[..6] == ORDER;
    LeftTo(piece, 1, c, branch, date);
    LeftTo(piece, 2, c, branch, date);
    LeftTo(piece, 3, c, branch, date);
    LeftTo(piece, 4, c, branch, date);
    LeftTo(piece, 5, c, branch, date);
    LeftTo(piece, 6, c, branch, date);
  }

  lemma OnceOther(p: Part, q: Part, c: Config, branch: string, date: Instant)
    ensures p != q ==> Once(Token(p), q, c, branch, date) == Token(p)
    ensures Plain(TextOf(c, branch, date, p)) ==>
              Once(TextOf(c, branch, date, p), q, c, branch, date) == TextOf(c, branch, date, p)
  {
    if p != q {
      TokensDiffer(p, q);
    }
    assert Token(q)[0] in Token(q);
  }

  lemma OthersOnce(p: Part, c: Config, branch: string, date: Instant)
    ensures forall q | q != p :: Once(Token(p), q, c, branch, date) == Token(p)
    ensures Plain(TextOf(c, branch, date, p)) ==>
              forall q :: Once(TextOf(c, branch, date, p), q, c, branch, date) == TextOf(c, branch, date, p)
  {
    forall q {
      OnceOther(p, q, c, branch, date);
    }
  }

  lemma OtherTextPlain(c: Config, branch: string, date: Instant, p: Part)
    requires p != PrefixPart && Plain(branch)
    ensures Plain(TextOf(c, branch, date, p))
  {
    if p == YearPart || p == MonthPart || p == DayPart || (p == TenantPart && c.tenantId != 0) {
      DigitsPlain(TextOf(c, branch, date, p));
    }
  }

  // A prefix that is the name of another part is filled in with that part.
  lemma PrefixNames(c: Config, branch: string, date: Instant, n: nat, p: Part)
    requires c.pattern == Token(PrefixPart) && p != PrefixPart && c.prefix == Token(p) && Plain(branch)
    ensures Render(c, branch, date, n) == TextOf(c, branch, date, p)
  {
    OneName(c, branch, date, n, PrefixPart);
    ChainOfNames(Token(PrefixPart), c, branch, date);
    OthersOnce(p, c, branch, date);
    OtherTextPlain(c, branch, date, p);
  }

  // A branch code that is a name stays as it is, unless it names the tenant, the only part substituted after it.
  lemma BranchNames(c: Config, branch: string, date: Instant, n: nat, p: Part)
    requires c.pattern == Token(BranchPart) && branch == Token(p) && Plain(c.prefix)
    ensures Render(c, branch, date, n) ==
            if p == TenantPart then (if c.tenantId == 0 then "" else Digits(c.tenantId)) else Token(p)
  {
    OneName(c, branch, date, n, BranchPart);
    ChainOfNames(Token(BranchPart), c, branch, date);
    OthersOnce(BranchPart, c, branch, date);
    OthersOnce(p, c, branch, date);
  }
}
