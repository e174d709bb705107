/** Whole runs of inserting and reversing journal entries. The links from mirror entries back to what they
    reverse split the journal into chains, and only the length of a chain matters to an undated balance. */
module Reversals {
  import opened Wrappers
  import opened Journal

  datatype Op = Insert(entry: Entry) | Reverse(id: Id, now: int)

  function OrElse(r: Result<seq<Entry>, JournalError>, j: seq<Entry>): seq<Entry> {
    if r.Ok? then r.value else j
  }

  function Step(j: seq<Entry>, op: Op): seq<Entry> {
    match op
    case Insert(e) => OrElse(InsertIn(j, e), j)
    case Reverse(id, now) => OrElse(ReverseIn(j, id, now), j)
  }

  function Run(ops: seq<Op>): seq<Entry> {
    if ops == [] then [] else Step(Run(ops[..|ops| - 1]), ops[|ops| - 1])
  }

  function Links(j: seq<Entry>): (r: seq<Option<Id>>)
    ensures |r| == |j|
    ensures forall i | 0 <= i < |j| :: r[i] == j[i].reversedEntry
  {
    seq(|j|, i requires 0 <= i < |j| => j[i].reversedEntry)
  }

  // Links point backwards, and no two point to the same entry.
  ghost predicate LinksOnce(links: seq<Option<Id>>) {
    && (forall i | 0 <= i < |links| && links[i].Some? :: links[i].value < i)
    && (forall i, k | 0 <= i < k < |links| && links[i].Some? :: links[i] != links[k])
  }

  ghost predicate IsMirrorOf(m: Entry, e: Entry) {
    && m.status == Posted && m.tenant == e.tenant && m.branch == e.branch
    && m.totalDebit == e.totalCredit && m.totalCredit == e.totalDebit
    && m.lines == SwapLines(e.lines)
  }

  ghost predicate Mirrored(j: seq<Entry>) {
    && LinksOnce(Links(j))
    && forall i | 0 <= i < |j| && j[i].reversedEntry.Some? :: IsMirrorOf(j[i], j[j[i].reversedEntry.value])
  }

  ghost predicate HasMirror(j: seq<Entry>, id: Id) {
    exists i :: 0 <= i < |j| && j[i].reversedEntry == Some(id)
  }

  ghost predicate Sound(j: seq<Entry>) {
    && Mirrored(j)
    && (forall i | 0 <= i < |j| :: IsBalanced(j[i]))
    && (forall i | 0 <= i < |j| :: j[i].isReversed <==> HasMirror(j, i) || j[i].status == Reversed)
    && (forall i | 0 <= i < |j| :: j[i].isPosted <==> j[i].status == Posted || j[i].status == Reversed)
  }

  // Equal but for the two flags.
  ghost predicate SameCore(a: Entry, b: Entry) {
    a.(isPosted := b.isPosted, isReversed := b.isReversed) == b
  }

  // One more entry at the end, the earlier ones unchanged but for their flags.
  ghost predicate Grown(j: seq<Entry>, after: seq<Entry>) {
    && |after| == |j| + 1
    && forall i | 0 <= i < |j| :: SameCore(after[i], j[i])
  }

  lemma GrownMirrors(j: seq<Entry>, after: seq<Entry>, id: Id)
    requires Grown(j, after) && id < |j|
    ensures HasMirror(after, id) <==> HasMirror(j, id) || after[|j|].reversedEntry == Some(id)
  {
  }

  lemma GrownMirrored(j: seq<Entry>, after: seq<Entry>)
    requires Mirrored(j) && Grown(j, after)
    requires var link := after[|j|].reversedEntry;
             link.Some? ==> link.value < |j| && !HasMirror(j, link.value) && IsMirrorOf(after[|j|], j[link.value])
    ensures Mirrored(after)
  {
    var links, links' := Links(j), Links(after);
    forall i | 0 <= i < |after| && links'[i].Some?
      ensures links'[i].value < i && IsMirrorOf(after[i], after[links'[i].value])
    {
      if i < |j| {
        assert SameCore(after[i], j[i]) && links[i] == links'[i];
      }
      assert SameCore(after[links'[i].value], j[links'[i].value]);
    }
    forall i, k | 0 <= i < k < |after| && links'[i].Some? ensures links'[i] != links'[k] {
      assert SameCore(after[i], j[i]) && links[i] == links'[i];
      if k < |j| {
        assert SameCore(after[k], j[k]) && links[k] == links'[k];
      }
    }
  }

  lemma InsertSound(j: seq<Entry>, e: Entry)
    requires Sound(j) && InsertIn(j, e).Ok?
    ensures Sound(InsertIn(j, e).value)
  {
    var after := InsertIn(j, e).value;
    assert Grown(j, after);
    GrownMirrored(j, after);
    forall i | 0 <= i < |after| ensures after[i].isReversed <==> HasMirror(after, i) || after[i].status == Reversed {
      if i < |j| {
        GrownMirrors(j, after, i);
      }
    }
  }

  lemma ReverseSound(j: seq<Entry>, id: Id, now: int)
    requires Sound(j) && ReverseIn(j, id, now).Ok?
    ensures Sound(ReverseIn(j, id, now).value)
  {
    var after := ReverseIn(j, id, now).value;
    assert Grown(j, after);
    GrownMirrored(j, after);
    forall i | 0 <= i < |after| ensures after[i].isReversed <==> HasMirror(after, i) || after[i].status == Reversed {
      if i < |j| {
        GrownMirrors(j, after, i);
      }
    }
  }

  lemma {:induction false} RunSound(ops: seq<Op>)
    ensures Sound(Run(ops))
  {
    if ops != [] {
      RunSound(ops[..|ops| - 1]);
      var j := Run(ops[..|ops| - 1]);
      match ops[|ops| - 1]
      case Insert(e) =>
        if InsertIn(j, e).Ok? {
          InsertSound(j, e);
        }
      case Reverse(id, now) =>
        if ReverseIn(j, id, now).Ok? {
          ReverseSound(j, id, now);
        }
    }
  }

  // After any run: an entry can be reversed exactly when no entry mirrors it yet (and it was not
  // inserted as 'reversed'), so each entry is reversed at most once; balance never stops a reversal.
  lemma ReversibleOnce(ops: seq<Op>, id: Id, now: int)
    ensures var j := Run(ops);
            ReverseIn(j, id, now) ==
            if id >= |j| then Err(NoSuchEntry)
            else if HasMirror(j, id) || j[id].status == Reversed then Err(AlreadyReversed)
            else Ok(j[id := j[id].(isReversed := true)] + [Mirror(j[id], id, now).(isPosted := true)])
  {
    RunSound(ops);
  }

  // Reversing is symmetric: mirroring a mirror restores both sides of every line.
  lemma MirrorTwice(e: Entry, id: Id, id2: Id, t: int, t2: int)
    ensures var back := Mirror(Mirror(e, id, t), id2, t2);
            && back.totalDebit == e.totalDebit && back.totalCredit == e.totalCredit
            && |back.lines| == |e.lines|
            && forall k | 0 <= k < |e.lines| ::
                 && back.lines[k].account == e.lines[k].account
                 && back.lines[k].debit == e.lines[k].debit && back.lines[k].credit == e.lines[k].credit
                 && back.lines[k].amountBase == e.lines[k].amountBase
  {
  }

  // A mirror keeps the agreement of the stored totals with the lines.
  lemma MirrorKeepsTotals(e: Entry, id: Id, now: int)
    requires e.totalDebit == DebitSum(e.lines) && e.totalCredit == CreditSum(e.lines)
    ensures var m := Mirror(e, id, now);
            m.totalDebit == DebitSum(m.lines) && m.totalCredit == CreditSum(m.lines)
  {
    SwappedSums(e.lines);
  }

  // ---------- chains ----------

  // The position of the chain that ends in p, or the number of chains if there is none.
  function TipIndex(chains: seq<seq<Id>>, p: Id): (a: nat)
    ensures a <= |chains|
    ensures a < |chains| ==> chains[a] != [] && chains[a][|chains[a]| - 1] == p
    ensures a == |chains| ==> forall k | 0 <= k < a && chains[k] != [] :: chains[k][|chains[k]| - 1] != p
  {
    if chains == [] then 0
    else if chains[0] != [] && chains[0][|chains[0]| - 1] == p then 0
    else 1 + TipIndex(chains[1..], p)
  }

  function AddToChains(chains: seq<seq<Id>>, n: Id, link: Option<Id>): seq<seq<Id>> {
    var a := if link.Some? then TipIndex(chains, link.value) else |chains|;
    if a < |chains| then chains[a := chains[a] + [n]] else chains + [[n]]
  }

  function ChainsOf(links: seq<Option<Id>>): seq<seq<Id>> {
    if links == [] then []
    else
      var n := |links| - 1;
      AddToChains(ChainsOf(links[..n]), n, links[n])
  }

  ghost predicate At(chains: seq<seq<Id>>, a: nat, b: nat, i: Id) {
    a < |chains| && b < |chains[a]| && chains[a][b] == i
  }

  ghost predicate Placed(chains: seq<seq<Id>>, i: Id) {
    exists a: nat, b: nat :: At(chains, a, b, i)
  }

  // Every entry stands at exactly one place of one chain; each chain starts at an entry that reverses
  // nothing and goes from each entry to the one that reverses it.
  ghost predicate Partition(links: seq<Option<Id>>, chains: seq<seq<Id>>) {
    && (forall a | 0 <= a < |chains| :: chains[a] != [])
    && (forall i: Id | i < |links| :: Placed(chains, i))
    && (forall a: nat, b: nat, i: Id | At(chains, a, b, i) :: i < |links| && (b == 0 <==> links[i] == None))
    && (forall a: nat, b: nat, c: nat, d: nat, i: Id | At(chains, a, b, i) && At(chains, c, d, i) :: a == c && b == d)
    && (forall a: nat, b: nat, c: nat, i: Id, p: Id | At(chains, a, b, p) && At(chains, a, c, i) && c == b + 1 ::
          links[i] == Some(p))
  }

  // An entry no later entry links to is the last of its chain.
  lemma UnlinkedIsTip(links: seq<Option<Id>>, chains: seq<seq<Id>>, p: Id)
    requires links != [] && LinksOnce(links) && Partition(links[..|links| - 1], chains)
    requires links[|links| - 1] == Some(p)
    ensures TipIndex(chains, p) < |chains|
  {
    assert Placed(chains, p);
    var a: nat, b: nat :| At(chains, a, b, p);
    if b + 1 < |chains[a]| {
      assert At(chains, a, b + 1, chains[a][b + 1]);
    }
  }

  lemma AddKeepsPartition(links: seq<Option<Id>>, chains: seq<seq<Id>>)
    requires links != [] && LinksOnce(links) && Partition(links[..|links| - 1], chains)
    ensures Partition(links, AddToChains(chains, |links| - 1, links[|links| - 1]))
  {
    var n := |links| - 1;
    var link := links[n];
    var after := AddToChains(chains, n, link);
    var at: nat, len: nat := |chains|, 0;
    if link.Some? {
      UnlinkedIsTip(links, chains, link.value);
      at := TipIndex(chains, link.value);
      len := |chains[at]|;
      assert At(chains, at, len - 1, link.value);
    }
    assert forall a: nat, b: nat, i: Id ::
        At(after, a, b, i) <==> At(chains, a, b, i) || (a == at && b == len && i == n);
    forall i: Id | i < |links| ensures Placed(after, i) {
      if i == n {
        assert At(after, at, len, n);
      } else {
        assert Placed(chains, i);
        var a: nat, b: nat :| At(chains, a, b, i);
        assert At(after, a, b, i);
      }
    }
  }

  lemma {:induction false} ChainsPartition(links: seq<Option<Id>>)
    requires LinksOnce(links)
    ensures Partition(links, ChainsOf(links))
  {
    if links != [] {
      var n := |links| - 1;
      ChainsPartition(links[..n]);
      AddKeepsPartition(links, ChainsOf(links[..n]));
    }
  }

  // ---------- what a chain adds to an undated balance ----------

  function LineEffect(j: seq<Entry>, scope: Scope, i: Id): int
    requires i < |j|
  {
    LinesTotal(j[i].lines, j[i].tenant, scope)
  }

  // A posted root counts if the chain has odd length, and nothing counts if it is even. A root that was
  // reversed without being posted never counted, so its mirrors leave its opposite behind.
  function ChainEffect(j: seq<Entry>, scope: Scope, chain: seq<Id>): int
    requires chain != [] && chain[0] < |j|
  {
    var e := LineEffect(j, scope, chain[0]);
    if j[chain[0]].status == Posted then (if |chain| % 2 == 1 then e else 0)
    else (if |chain| % 2 == 1 then 0 else -e)
  }

  predicate Rooted(j: seq<Entry>, chains: seq<seq<Id>>) {
    forall a | 0 <= a < |chains| :: chains[a] != [] && chains[a][0] < |j|
  }

  function ChainsEffect(j: seq<Entry>, scope: Scope, chains: seq<seq<Id>>): int
    requires Rooted(j, chains)
  {
    if chains == [] then 0
    else ChainEffect(j, scope, chains[0]) + ChainsEffect(j, scope, chains[1..])
  }

  // A path of links, each entry followed by the one that reverses it.
  ghost predicate IsPath(j: seq<Entry>, chain: seq<Id>) {
    && (forall k | 0 <= k < |chain| :: chain[k] < |j|)
    && (forall k | 0 < k < |chain| :: j[chain[k]].reversedEntry == Some(chain[k - 1]))
  }

  lemma {:induction false} EffectAlternates(j: seq<Entry>, scope: Scope, chain: seq<Id>, b: nat)
    requires Mirrored(j) && b < |chain| && IsPath(j, chain)
    ensures LineEffect(j, scope, chain[b]) ==
            if b % 2 == 0 then LineEffect(j, scope, chain[0]) else -LineEffect(j, scope, chain[0])
  {
    if b > 0 {
      EffectAlternates(j, scope, chain, b - 1);
      assert IsMirrorOf(j[chain[b]], j[chain[b - 1]]);
      SwappedLinesNegate(j[chain[b - 1]].lines, j[chain[b - 1]].tenant, scope);
    }
  }

  lemma {:induction false} ChainsEffectAppend(j: seq<Entry>, scope: Scope, chains: seq<seq<Id>>, c: seq<Id>)
    requires Rooted(j, chains)
    requires c != [] && c[0] < |j|
    ensures ChainsEffect(j, scope, chains + [c]) == ChainsEffect(j, scope, chains) + ChainEffect(j, scope, c)
  {
    if chains == [] {
      assert chains + [c] == [c];
    } else {
      ChainsEffectAppend(j, scope, chains[1..], c);
      assert (chains + [c])[1..] == chains[1..] + [c];
    }
  }

  lemma {:induction false} ChainsEffectUpdate(
    j: seq<Entry>, scope: Scope, chains: seq<seq<Id>>, at: nat, c: seq<Id>)
    requires Rooted(j, chains)
    requires at < |chains| && c != [] && c[0] < |j|
    ensures ChainsEffect(j, scope, chains[at := c]) ==
            ChainsEffect(j, scope, chains) - ChainEffect(j, scope, chains[at]) + ChainEffect(j, scope, c)
  {
    if at == 0 {
      assert chains[at := c][1..] == chains[1..];
    } else {
      ChainsEffectUpdate(j, scope, chains[1..], at - 1, c);
      assert chains[at := c][1..] == chains[1..][at - 1 := c];
    }
  }

  lemma PartitionRooted(j: seq<Entry>, links: seq<Option<Id>>, chains: seq<seq<Id>>)
    requires Partition(links, chains) && |links| <= |j|
    ensures Rooted(j, chains)
  {
    forall a | 0 <= a < |chains| ensures chains[a] != [] && chains[a][0] < |j| {
      assert At(chains, a, 0, chains[a][0]);
    }
  }

  lemma ChainIsPath(j: seq<Entry>, links: seq<Option<Id>>, chains: seq<seq<Id>>, a: nat)
    requires links <= Links(j) && Partition(links, chains) && a < |chains|
    ensures IsPath(j, chains[a])
  {
    var chain := chains[a];
    forall k | 0 <= k < |chain| ensures chain[k] < |links| {
      assert At(chains, a, k, chain[k]);
    }
    forall k | 0 < k < |chain| ensures j[chain[k]].reversedEntry == Some(chain[k - 1]) {
      assert At(chains, a, k, chain[k]) && At(chains, a, k - 1, chain[k - 1]);
    }
  }

  lemma PathExtends(j: seq<Entry>, chain: seq<Id>, n: nat)
    requires n < |j| && chain != [] && IsPath(j, chain) && j[n].reversedEntry == Some(chain[|chain| - 1])
    ensures IsPath(j, chain + [n])
  {
  }

  lemma MirrorsArePosted(j: seq<Entry>, scope: Scope, n: nat)
    requires Mirrored(j) && n < |j| && j[n].reversedEntry.Some?
    ensures EntryTotal(j[n], ALL_DATES, scope) == LineEffect(j, scope, n)
  {
    assert IsMirrorOf(j[n], j[j[n].reversedEntry.value]);
  }

  lemma LongerChainEffect(j: seq<Entry>, scope: Scope, chain: seq<Id>, n: nat)
    requires Mirrored(j) && n < |j| && chain != [] && IsPath(j, chain)
    requires j[n].reversedEntry == Some(chain[|chain| - 1])
    ensures ChainEffect(j, scope, chain + [n]) == ChainEffect(j, scope, chain) + EntryTotal(j[n], ALL_DATES, scope)
  {
    PathExtends(j, chain, n);
    EffectAlternates(j, scope, chain + [n], |chain|);
    MirrorsArePosted(j, scope, n);
  }

  lemma TipOfMirror(j: seq<Entry>, n: nat, before: seq<seq<Id>>, p: Id) returns (at: nat)
    requires Mirrored(j) && n < |j| && Links(j)[n] == Some(p)
    requires Partition(Links(j)[..n], before)
    ensures at == TipIndex(before, p) < |before| && IsPath(j, before[at])
  {
    var links := Links(j)[..n + 1];
    assert links[..n] == Links(j)[..n] && links[n] == Some(p);
    UnlinkedIsTip(links, before, p);
    at := TipIndex(before, p);
    ChainIsPath(j, links[..n], before, at);
  }

  lemma LongerStillRooted(j: seq<Entry>, chains: seq<seq<Id>>, at: nat, n: nat)
    requires Rooted(j, chains) && at < |chains|
    ensures chains[at] != [] && Rooted(j, chains[at := chains[at] + [n]])
  {
  }

  lemma MirrorExtendsChain(j: seq<Entry>, scope: Scope, n: nat, before: seq<seq<Id>>, p: Id)
    requires Mirrored(j) && n < |j| && Links(j)[n] == Some(p)
    requires Partition(Links(j)[..n], before) && Rooted(j, before)
    ensures var at := TipIndex(before, p);
            && at < |before|
            && Rooted(j, before[at := before[at] + [n]])
            && ChainsEffect(j, scope, before[at := before[at] + [n]]) ==
               ChainsEffect(j, scope, before) + EntryTotal(j[n], ALL_DATES, scope)
  {
    var at := TipOfMirror(j, n, before, p);
    LongerStillRooted(j, before, at, n);
    ChainsEffectUpdate(j, scope, before, at, before[at] + [n]);
    LongerChainEffect(j, scope, before[at], n);
  }

  // Extending one chain, or starting a new one, adds exactly what the new entry posts.
  lemma EntryExtendsChain(j: seq<Entry>, scope: Scope, n: nat, before: seq<seq<Id>>)
    requires Mirrored(j) && n < |j|
    requires Partition(Links(j)[..n], before) && Rooted(j, before)
    ensures var after := AddToChains(before, n, Links(j)[n]);
            && Rooted(j, after)
            && ChainsEffect(j, scope, after) == ChainsEffect(j, scope, before) + EntryTotal(j[n], ALL_DATES, scope)
  {
    if Links(j)[n].None? {
      ChainsEffectAppend(j, scope, before, [n]);
    } else {
      MirrorExtendsChain(j, scope, n, before, Links(j)[n].value);
    }
  }

  lemma PrefixChains(j: seq<Entry>, n: nat)
    requires LinksOnce(Links(j)) && n <= |j|
    ensures Partition(Links(j)[..n], ChainsOf(Links(j)[..n])) && Rooted(j, ChainsOf(Links(j)[..n]))
  {
    ChainsPartition(Links(j)[..n]);
    PartitionRooted(j, Links(j)[..n], ChainsOf(Links(j)[..n]));
  }

  // The chains of one more entry.
  lemma PrefixStep(j: seq<Entry>, scope: Scope, n: nat)
    requires Mirrored(j) && n < |j|
    ensures Rooted(j, ChainsOf(Links(j)[..n])) && Rooted(j, ChainsOf(Links(j)[..n + 1]))
    ensures ChainsEffect(j, scope, ChainsOf(Links(j)[..n + 1])) ==
            ChainsEffect(j, scope, ChainsOf(Links(j)[..n])) + EntryTotal(j[n], ALL_DATES, scope)
  {
    PrefixChains(j, n);
    assert Links(j)[..n + 1][..n] == Links(j)[..n];
    EntryExtendsChain(j, scope, n, ChainsOf(Links(j)[..n]));
  }

  lemma JournalTotalStep(j: seq<Entry>, scope: Scope, n: nat)
    requires n < |j|
    ensures JournalTotal(j[..n + 1], ALL_DATES, scope) ==
            JournalTotal(j[..n], ALL_DATES, scope) + EntryTotal(j[n], ALL_DATES, scope)
  {
    assert j[..n + 1][..n] == j[..n];
  }

  lemma {:induction false} TotalOfPrefix(j: seq<Entry>, scope: Scope, n: nat)
    requires Mirrored(j) && n <= |j|
    ensures Rooted(j, ChainsOf(Links(j)[..n]))
    ensures JournalTotal(j[..n], ALL_DATES, scope) == ChainsEffect(j, scope, ChainsOf(Links(j)[..n]))
  {
    if n > 0 {
      TotalOfPrefix(j, scope, n - 1);
      PrefixStep(j, scope, n - 1);
      JournalTotalStep(j, scope, n - 1);
    }
  }

  // Over any run of inserts and reversals, for any set of accounts: the journal splits into disjoint
  // chains, and the undated balance is the sum of the chain effects.
  lemma UndatedBalance(ops: seq<Op>, scope: Scope)
    ensures var j := Run(ops);
            var chains := ChainsOf(Links(j));
            && Partition(Links(j), chains) && Rooted(j, chains)
            && JournalTotal(j, ALL_DATES, scope) == ChainsEffect(j, scope, chains)
  {
    RunSound(ops);
    var j := Run(ops);
    PrefixChains(j, |j|);
    TotalOfPrefix(j, scope, |j|);
    assert j[..|j|] == j && Links(j)[..|j|] == Links(j);
  }

  lemma ReversedDraftRun(e: Entry, now: int)
    requires IsBalanced(e) && e.status == Draft
    ensures var j := Run([Insert(e), Reverse(0, now)]);
            && |j| == 2 && j[0].status == Draft && j[0].lines == e.lines
            && j[1].status == Posted && j[1].tenant == e.tenant && j[1].lines == SwapLines(e.lines)
  {
    var ops := [Insert(e), Reverse(0, now)];
    assert ops[..1] == [Insert(e)] && ops[..1][..0] == [];
    assert |Run(ops[..1])| == 1;
  }

  // For example one entry reversed as a draft: it never counted, and its mirror is posted.
  lemma ReversedDraftCounts(e: Entry, now: int, scope: Scope)
    requires IsBalanced(e) && e.status == Draft
    ensures JournalTotal(Run([Insert(e), Reverse(0, now)]), ALL_DATES, scope) == -LinesTotal(e.lines, e.tenant, scope)
  {
    var j := Run([Insert(e), Reverse(0, now)]);
    ReversedDraftRun(e, now);
    JournalTotalStep(j, scope, 1);
    JournalTotalStep(j, scope, 0);
    assert j[..2] == j;
    SwappedLinesNegate(e.lines, e.tenant, scope);
  }
}
