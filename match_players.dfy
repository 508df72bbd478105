/** utils/matchPlayers.js: looking a player up among the hot players, the
    pairwise common-card analysis of hot players, and the short deck id. */
module PlayerMatching {
  import opened Common

  /** `hotPlayers.find(p => p.username === username) || null`: the first
      descriptor with exactly this username, or nothing. */
  function MatchTopPlayer(username: string, hotPlayers: seq<HotPlayer>): (r: Option<HotPlayer>)
    ensures r.None? <==> forall i :: 0 <= i < |hotPlayers| ==> hotPlayers[i].username != username
    ensures r.Some? ==> r.value.username == username
    ensures r.Some? ==> exists i :: 0 <= i < |hotPlayers| && hotPlayers[i] == r.value
                          && forall j :: 0 <= j < i ==> hotPlayers[j].username != username
  {
    if hotPlayers == [] then None
    else if hotPlayers[0].username == username then Some(hotPlayers[0])
    else
      var r := MatchTopPlayer(username, hotPlayers[1..]);
      assert r.Some? ==> exists i :: 0 <= i < |hotPlayers| - 1 && hotPlayers[1..][i] == r.value
                          && forall j :: 0 <= j < i ==> hotPlayers[1..][j].username != username;
      assert forall i :: 1 <= i < |hotPlayers| ==> hotPlayers[i] == hotPlayers[1..][i - 1];
      r
  }

  // ---------------------------------------------------------------------------
  // Card similarity between hot players

  /** One reported pair: the two usernames and the cards they share. The
      floating-point `similarity` ratio is not part of the model. */
  datatype Similarity = Similarity(player1: string, player2: string,
                                   commonCards: seq<Option<CardId>>, commonCount: nat)

  /** `[...new Set(cards1)].filter(card => new Set(cards2).has(card))`. */
  function CommonCards(cards1: seq<Option<CardId>>, cards2: seq<Option<CardId>>): (r: seq<Option<CardId>>)
  {
    FilterIn(Distinct(cards1), cards2)
  }

  function FilterIn(s: seq<Option<CardId>>, other: seq<Option<CardId>>): (r: seq<Option<CardId>>)
    ensures forall i :: 0 <= i < |r| ==> r[i] in s && r[i] in other
    ensures forall i :: 0 <= i < |s| && s[i] in other ==> s[i] in r
    ensures NoDuplicates(s) ==> NoDuplicates(r)
  {
    if s == [] then []
    else
      var rest := FilterIn(s[1..], other);
      assert forall i :: 1 <= i < |s| ==> s[i] == s[1..][i - 1];
      if s[0] in other then [s[0]] + rest else rest
  }

  /** The shared cards are exactly the distinct cards present in both hands,
      and there are no more of them than either hand has distinct cards. */
  lemma CommonCardsSpec(cards1: seq<Option<CardId>>, cards2: seq<Option<CardId>>)
    ensures var r := CommonCards(cards1, cards2);
      && NoDuplicates(r)
      && (forall c :: c in r <==> c in cards1 && c in cards2)
      && |r| <= |Distinct(cards1)|
      && |r| <= |Distinct(cards2)|
  {
    var r := CommonCards(cards1, cards2);
    var d1, d2 := Distinct(cards1), Distinct(cards2);
    forall c | c in cards1 && c in cards2 ensures c in r {
      var i :| 0 <= i < |cards1| && cards1[i] == c;
      assert c in d1;
    }
    NoDuplicatesSubsetShorter(r, d1);
    forall c | c in r ensures c in d2 {
      var i :| 0 <= i < |cards2| && cards2[i] == c;
    }
    NoDuplicatesSubsetShorter(r, d2);
  }

  /** The report for one pair of players, if they share any card. */
  function PairReport(hotPlayers: seq<HotPlayer>, p: (int, int)): (r: seq<Similarity>)
    ensures |r| <= 1
  {
    if 0 <= p.0 < |hotPlayers| && 0 <= p.1 < |hotPlayers| then
      var common := CommonCards(hotPlayers[p.0].cards, hotPlayers[p.1].cards);
      if |common| > 0 then
        [Similarity(hotPlayers[p.0].username, hotPlayers[p.1].username, common, |common|)]
      else []
    else []
  }

  /** `PairReport` for the players `hotPlayers`, as a function of the pair. */
  function ReportOf(hotPlayers: seq<HotPlayer>): ((int, int)) -> seq<Similarity>
  {
    p => PairReport(hotPlayers, p)
  }

  /** The results of `f` on `xs`, concatenated in order. */
  function ConcatMap<A, B>(f: A -> seq<B>, xs: seq<A>): seq<B>
  {
    if xs == [] then [] else ConcatMap(f, xs[..|xs| - 1]) + f(xs[|xs| - 1])
  }

  /** When `f` yields at most one value, what `ConcatMap` collects is exactly
      the values `f` yields. */
  lemma {:induction false} ConcatMapSpec<A, B>(f: A -> seq<B>, xs: seq<A>)
    requires forall k :: 0 <= k < |xs| ==> |f(xs[k])| <= 1
    ensures forall y :: y in ConcatMap(f, xs) ==> exists k :: 0 <= k < |xs| && f(xs[k]) == [y]
    ensures forall k :: 0 <= k < |xs| && f(xs[k]) != [] ==> f(xs[k])[0] in ConcatMap(f, xs)
  {
    if xs != [] {
      var init, last := xs[..|xs| - 1], xs[|xs| - 1];
      ConcatMapSpec(f, init);
      var r0, r1 := ConcatMap(f, init), f(last);
      assert ConcatMap(f, xs) == r0 + r1;
      forall y | y in r0 + r1
        ensures exists k :: 0 <= k < |xs| && f(xs[k]) == [y]
      {
        if y in r0 {
          var k :| 0 <= k < |init| && f(init[k]) == [y];
          assert xs[k] == init[k];
        } else {
          assert |r1| <= 1;
          assert r1 == [y];
          assert f(xs[|xs| - 1]) == [y];
        }
      }
      forall k | 0 <= k < |xs| && f(xs[k]) != []
        ensures f(xs[k])[0] in r0 + r1
      {
        if k < |init| {
          assert xs[k] == init[k];
        }
      }
    }
  }

  /** The pairs `(i, j)` for `i + 1 <= j < hi`, in increasing `j`: one run of
      the inner loop. */
  function RowPairs(i: nat, hi: nat): seq<(int, int)>
    decreases hi
  {
    if hi <= i + 1 then [] else RowPairs(i, hi - 1) + [(i, hi - 1)]
  }

  /** The pairs visited by the first `lo` runs of the outer loop over `n`
      players. */
  function Pairs(n: nat, lo: nat): seq<(int, int)>
  {
    if lo == 0 then [] else Pairs(n, lo - 1) + RowPairs(lo - 1, n)
  }

  predicate LexLess(p: (int, int), q: (int, int))
  {
    p.0 < q.0 || (p.0 == q.0 && p.1 < q.1)
  }

  lemma {:induction false} RowPairsSpec(i: nat, hi: nat)
    ensures var ps := RowPairs(i, hi);
      && (forall k :: 0 <= k < |ps| ==> ps[k].0 == i && i < ps[k].1 < hi)
      && (forall k, l :: 0 <= k < l < |ps| ==> ps[k].1 < ps[l].1)
      && (forall j :: i < j < hi ==> (i, j) in ps)
    decreases hi
  {
    if hi > i + 1 {
      RowPairsSpec(i, hi - 1);
      var ps := RowPairs(i, hi);
      assert ps[|ps| - 1] == (i, hi - 1);
    }
  }

  /** The enumeration visits only pairs `i < j < n` with `i < lo`, each pair
      once and in lexicographic order, and it visits all of them. */
  lemma PairsSpec(n: nat, lo: nat)
    requires lo <= n
    ensures forall k :: 0 <= k < |Pairs(n, lo)| ==> 0 <= Pairs(n, lo)[k].0 < Pairs(n, lo)[k].1 < n && Pairs(n, lo)[k].0 < lo
    ensures forall k, l :: 0 <= k < l < |Pairs(n, lo)| ==> LexLess(Pairs(n, lo)[k], Pairs(n, lo)[l])
    ensures forall i, j :: 0 <= i < lo && i < j < n ==> (i, j) in Pairs(n, lo)
  {
    PairsBounds(n, lo);
    PairsOrdered(n, lo);
    PairsComplete(n, lo);
  }

  lemma {:induction false} PairsBounds(n: nat, lo: nat)
    requires lo <= n
    ensures forall k :: 0 <= k < |Pairs(n, lo)| ==> 0 <= Pairs(n, lo)[k].0 < Pairs(n, lo)[k].1 < n && Pairs(n, lo)[k].0 < lo
  {
    if lo > 0 {
      PairsBounds(n, lo - 1);
      RowPairsSpec(lo - 1, n);
      var a, b := Pairs(n, lo - 1), RowPairs(lo - 1, n);
      var ps := a + b;
      assert Pairs(n, lo) == ps;
      forall k | 0 <= k < |ps| ensures 0 <= ps[k].0 < ps[k].1 < n && ps[k].0 < lo {
        if k < |a| { assert ps[k] == a[k]; } else { assert ps[k] == b[k - |a|]; }
      }
    }
  }

  lemma {:induction false} PairsOrdered(n: nat, lo: nat)
    requires lo <= n
    ensures forall k, l :: 0 <= k < l < |Pairs(n, lo)| ==> LexLess(Pairs(n, lo)[k], Pairs(n, lo)[l])
  {
    if lo > 0 {
      PairsOrdered(n, lo - 1);
      PairsBounds(n, lo - 1);
      RowPairsSpec(lo - 1, n);
      var a, b := Pairs(n, lo - 1), RowPairs(lo - 1, n);
      var ps := a + b;
      assert Pairs(n, lo) == ps;
      forall k, l | 0 <= k < l < |ps| ensures LexLess(ps[k], ps[l]) {
        if l < |a| {
          assert ps[k] == a[k] && ps[l] == a[l];
        } else if k < |a| {
          assert ps[k] == a[k] && ps[l] == b[l - |a|];
        } else {
          assert ps[k] == b[k - |a|] && ps[l] == b[l - |a|];
        }
      }
    }
  }

  lemma {:induction false} PairsComplete(n: nat, lo: nat)
    requires lo <= n
    ensures forall i, j :: 0 <= i < lo && i < j < n ==> (i, j) in Pairs(n, lo)
  {
    if lo > 0 {
      PairsComplete(n, lo - 1);
      RowPairsSpec(lo - 1, n);
      var a, b := Pairs(n, lo - 1), RowPairs(lo - 1, n);
      assert Pairs(n, lo) == a + b;
      forall i, j | 0 <= i < lo && i < j < n ensures (i, j) in a + b {
        if i < lo - 1 { assert (i, j) in a; } else { assert (i, j) in b; }
      }
    }
  }

  /** The result of `analyzeCardSimilarity` before its final sort by the
      floating-point ratio. */
  function SimilarityReports(hotPlayers: seq<HotPlayer>): seq<Similarity>
  {
    ConcatMap(ReportOf(hotPlayers), Pairs(|hotPlayers|, |hotPlayers|))
  }

  /** What one pair's report says: the two usernames in index order, exactly
      their common cards, and a positive count of them that is at most either
      player's number of distinct cards. */
  ghost predicate ReportsPair(hotPlayers: seq<HotPlayer>, i: int, j: int, s: Similarity)
    requires 0 <= i < |hotPlayers| && 0 <= j < |hotPlayers|
  {
    && s.player1 == hotPlayers[i].username && s.player2 == hotPlayers[j].username
    && s.commonCards == CommonCards(hotPlayers[i].cards, hotPlayers[j].cards)
    && 0 < s.commonCount == |s.commonCards|
    && s.commonCount <= |Distinct(hotPlayers[i].cards)|
    && s.commonCount <= |Distinct(hotPlayers[j].cards)|
  }

  lemma PairReportSpec(hotPlayers: seq<HotPlayer>, i: int, j: int)
    requires 0 <= i < |hotPlayers| && 0 <= j < |hotPlayers|
    ensures PairReport(hotPlayers, (i, j)) != [] <==> CommonCards(hotPlayers[i].cards, hotPlayers[j].cards) != []
    ensures PairReport(hotPlayers, (i, j)) != [] ==> ReportsPair(hotPlayers, i, j, PairReport(hotPlayers, (i, j))[0])
  {
    CommonCardsSpec(hotPlayers[i].cards, hotPlayers[j].cards);
  }

  /** Every report is for two players `i < j` (never a player with itself)
      and says what `ReportsPair` says. */
  lemma SimilarityReportsSound(hotPlayers: seq<HotPlayer>)
    ensures forall s :: s in SimilarityReports(hotPlayers) ==>
      exists i, j :: 0 <= i < j < |hotPlayers| && ReportsPair(hotPlayers, i, j, s)
  {
    var n := |hotPlayers|;
    var ps := Pairs(n, n);
    PairsSpec(n, n);
    ConcatMapSpec(ReportOf(hotPlayers), ps);
    forall s | s in SimilarityReports(hotPlayers)
      ensures exists i, j :: 0 <= i < j < n && ReportsPair(hotPlayers, i, j, s)
    {
      var k :| 0 <= k < |ps| && ReportOf(hotPlayers)(ps[k]) == [s];
      PairReportSpec(hotPlayers, ps[k].0, ps[k].1);
    }
  }

  /** Every pair of players `i < j` that share a card is reported. */
  lemma SimilarityReportsComplete(hotPlayers: seq<HotPlayer>, i: int, j: int)
    requires 0 <= i < j < |hotPlayers|
    requires CommonCards(hotPlayers[i].cards, hotPlayers[j].cards) != []
    ensures exists s :: s in SimilarityReports(hotPlayers) && ReportsPair(hotPlayers, i, j, s)
  {
    var n := |hotPlayers|;
    var ps := Pairs(n, n);
    PairsSpec(n, n);
    ConcatMapSpec(ReportOf(hotPlayers), ps);
    assert (i, j) in ps;
    var k :| 0 <= k < |ps| && ps[k] == (i, j);
    PairReportSpec(hotPlayers, i, j);
    assert ReportOf(hotPlayers)(ps[k]) != [];
  }

  /** `ConcatMap` over one more element. */
  lemma ConcatMapSnoc<A, B>(f: A -> seq<B>, xs: seq<A>, x: A)
    ensures ConcatMap(f, xs + [x]) == ConcatMap(f, xs) + f(x)
  {
    var all := xs + [x];
    assert all[..|all| - 1] == xs;
  }

  /** `ConcatMap` over a concatenation. */
  lemma {:induction false} ConcatMapAppend<A, B>(f: A -> seq<B>, xs: seq<A>, ys: seq<A>)
    ensures ConcatMap(f, xs + ys) == ConcatMap(f, xs) + ConcatMap(f, ys)
  {
    if ys != [] {
      ConcatMapAppend(f, xs, ys[..|ys| - 1]);
      assert xs + ys == (xs + ys[..|ys| - 1]) + [ys[|ys| - 1]];
      assert (xs + ys)[..|xs + ys| - 1] == xs + ys[..|ys| - 1];
    } else {
      assert xs + ys == xs;
    }
  }

  /** One more step of the inner loop adds the report of pair `(i, j)`. */
  lemma RowStep(hotPlayers: seq<HotPlayer>, i: nat, j: nat)
    requires i < j < |hotPlayers|
    ensures var common := CommonCards(hotPlayers[i].cards, hotPlayers[j].cards);
      ConcatMap(ReportOf(hotPlayers), RowPairs(i, j + 1))
        == ConcatMap(ReportOf(hotPlayers), RowPairs(i, j))
           + if |common| > 0 then [Similarity(hotPlayers[i].username, hotPlayers[j].username, common, |common|)] else []
  {
    assert RowPairs(i, j + 1) == RowPairs(i, j) + [(i, j)];
    ConcatMapSnoc(ReportOf(hotPlayers), RowPairs(i, j), (i, j));
  }

  /** The inner loop of `analyzeCardSimilarity`: player `i` against every
      later player. */
  method CompareWithLater(hotPlayers: seq<HotPlayer>, i: nat) returns (row: seq<Similarity>)
    requires i < |hotPlayers|
    ensures row == ConcatMap(ReportOf(hotPlayers), RowPairs(i, |hotPlayers|))
  {
    row := [];
    var j := i + 1;
    while j < |hotPlayers|
      invariant i + 1 <= j <= |hotPlayers|
      invariant row == ConcatMap(ReportOf(hotPlayers), RowPairs(i, j))
    {
      RowStep(hotPlayers, i, j);
      var commonCards := CommonCards(hotPlayers[i].cards, hotPlayers[j].cards);
      if |commonCards| > 0 {
        row := row + [Similarity(hotPlayers[i].username, hotPlayers[j].username,
                                 commonCards, |commonCards|)];
      }
      j := j + 1;
    }
  }

  /** The nested loops of `analyzeCardSimilarity`: every pair `i < j` of hot
      players, in loop order, reporting those with a common card. */
  method AnalyzeCardSimilarity(hotPlayers: seq<HotPlayer>) returns (similarities: seq<Similarity>)
    ensures similarities == SimilarityReports(hotPlayers)
  {
    var n := |hotPlayers|;
    similarities := [];
    var i := 0;
    while i < n
      invariant 0 <= i <= n
      invariant similarities == ConcatMap(ReportOf(hotPlayers), Pairs(n, i))
    {
      var row := CompareWithLater(hotPlayers, i);
      ConcatMapAppend(ReportOf(hotPlayers), Pairs(n, i), RowPairs(i, n));
      similarities := similarities + row;
      i := i + 1;
    }
  }

  /** `${username}_${createdAt}`. */
  function CreateDeckId(username: string, createdAt: int): string
  {
    username + "_" + IntToString(createdAt)
  }

  /** The short id is `username`, '_', then the rendered timestamp, and no two
      different (username, createdAt) pairs share one, although usernames may
      themselves contain '_'. */
  lemma CreateDeckIdSpec(u: string, c: int, u': string, c': int)
    ensures CreateDeckId(u, c)[..|u| + 1] == u + "_"
    ensures CreateDeckId(u, c) == CreateDeckId(u', c') <==> u == u' && c == c'
  {
    assert CreateDeckId(u, c) == (u + "_") + IntToString(c);
    if CreateDeckId(u, c) == CreateDeckId(u', c') {
      SplitAtLastUnderscore(u, IntToString(c), u', IntToString(c'));
      IntToStringInjective(c, c');
    }
  }
}
