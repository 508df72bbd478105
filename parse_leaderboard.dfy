/** The leaderboard analysis of utils/parseLeaderboard.js: per-player
    statistics over the leaderboard records of several rounds, the split into
    "hot" players (seen in two rounds or more) and regular ones, and the list
    of round ids to fetch. Points and their totals are floating point and
    not modelled. */
module LeaderboardParsing {
  import opened Common
  import opened Sorting

  /** One leaderboard row: `position` and `roundId` may be missing, `play`
      is `None` when it is missing or not an array; a card is represented by
      its (possibly missing) `cardId`. */
  datatype LeaderboardRecord = LeaderboardRecord(username: string, position: Option<int>,
                                                 roundId: Option<int>,
                                                 play: Option<seq<Option<CardId>>>)

  /** An entry of `rounds`: the record's round id, or 'unknown' when it is
      falsy. */
  datatype RoundTag = Round(id: int) | Unknown

  /** The accumulated statistics of one player; `bestPosition == None`
      stands for `Infinity`. */
  datatype PlayerStats = PlayerStats(username: string, appearances: nat, bestPosition: Option<int>,
                                     rounds: seq<RoundTag>, cards: seq<CardId>)

  /** The per-player result; `bestPosition == None` stands for `null`, and
      `lastSeen == None` for the `-Infinity` of a player without a numeric
      round. */
  datatype PlayerData = PlayerData(username: string, isHot: bool, appearances: nat,
                                   bestPosition: Option<int>, rounds: seq<RoundTag>,
                                   cards: seq<CardId>, lastSeen: Option<int>)

  datatype Analysis = Analysis(hotPlayers: seq<PlayerData>, regularPlayers: seq<PlayerData>,
                               totalUniquePlayers: nat, allPlayers: seq<PlayerStats>)

  // ---------------------------------------------------------------------------
  // Accumulating one record

  function Tag(roundId: Option<int>): RoundTag
  {
    if Truthy(roundId) then Round(roundId.value) else Unknown
  }

  /** `Math.min(best, position || Infinity)`. */
  function MinPosition(best: Option<int>, position: Option<int>): Option<int>
  {
    if !Truthy(position) then best
    else if best.None? || position.value < best.value then position
    else best
  }

  /** Adding the truthy card ids of a play to a card Set, in order. */
  function AddCards(cards: seq<CardId>, play: seq<Option<CardId>>): seq<CardId>
    decreases |play|
  {
    if play == [] then cards
    else
      var c := AddCards(cards, play[..|play| - 1]);
      var card := play[|play| - 1];
      if Truthy(card) && card.value !in c then c + [card.value] else c
  }

  /** The Set keeps its earlier elements in place, never holds an id twice,
      and gains exactly the truthy ids of the play. */
  lemma {:induction false} AddCardsSpec(cards: seq<CardId>, play: seq<Option<CardId>>)
    requires NoDuplicates(cards)
    ensures var r := AddCards(cards, play);
      && NoDuplicates(r)
      && cards <= r
      && (forall x :: x in r <==> x in cards || (x != 0 && Some(x) in play))
  {
    if play != [] {
      var init := play[..|play| - 1];
      AddCardsSpec(cards, init);
      assert play == init + [play[|play| - 1]];
    }
  }

  function EmptyStats(username: string): PlayerStats
  {
    PlayerStats(username, 0, None, [], [])
  }

  /** The effect of one record on its player's statistics. */
  function Absorb(st: PlayerStats, r: LeaderboardRecord): PlayerStats
  {
    PlayerStats(st.username, st.appearances + 1, MinPosition(st.bestPosition, r.position),
                st.rounds + [Tag(r.roundId)],
                if r.play.Some? then AddCards(st.cards, r.play.value) else st.cards)
  }

  /** The statistics of player `u` after the records `recs`. */
  function StatsOf(recs: seq<LeaderboardRecord>, u: string): PlayerStats
    decreases |recs|
  {
    if recs == [] then EmptyStats(u)
    else
      var st := StatsOf(recs[..|recs| - 1], u);
      if recs[|recs| - 1].username == u then Absorb(st, recs[|recs| - 1]) else st
  }

  function Usernames(recs: seq<LeaderboardRecord>): (r: seq<string>)
    ensures |r| == |recs| && forall i :: 0 <= i < |recs| ==> r[i] == recs[i].username
  {
    seq(|recs|, i requires 0 <= i < |recs| => recs[i].username)
  }

  /** The records of player `u`, in input order. */
  function RecordsOf(recs: seq<LeaderboardRecord>, u: string): seq<LeaderboardRecord>
    decreases |recs|
  {
    if recs == [] then []
    else RecordsOf(recs[..|recs| - 1], u) + (if recs[|recs| - 1].username == u then [recs[|recs| - 1]] else [])
  }

  /** `appearances` counts the player's records, and `rounds` has one tag
      per record, in input order. */
  lemma {:induction false} StatsAppearances(recs: seq<LeaderboardRecord>, u: string)
    ensures var st, mine := StatsOf(recs, u), RecordsOf(recs, u);
      && st.username == u
      && st.appearances == |mine| == multiset(Usernames(recs))[u]
      && |st.rounds| == |mine|
      && (forall k :: 0 <= k < |mine| ==> st.rounds[k] == Tag(mine[k].roundId))
  {
    if recs != [] {
      var init := recs[..|recs| - 1];
      StatsAppearances(init, u);
      assert Usernames(recs) == Usernames(init) + [recs[|recs| - 1].username];
    }
  }

  /** `bestPosition` is the least truthy position among the player's records,
      or absent when none has one. */
  lemma {:induction false} StatsBestPosition(recs: seq<LeaderboardRecord>, u: string)
    ensures var b := StatsOf(recs, u).bestPosition;
      && (b.None? <==> forall i :: 0 <= i < |recs| && recs[i].username == u ==> !Truthy(recs[i].position))
      && (b.Some? ==> exists i :: 0 <= i < |recs| && recs[i].username == u
                                 && Truthy(recs[i].position) && recs[i].position == b)
      && (b.Some? ==> forall i :: 0 <= i < |recs| && recs[i].username == u && Truthy(recs[i].position)
                                 ==> b.value <= recs[i].position.value)
  {
    if recs != [] {
      var init := recs[..|recs| - 1];
      StatsBestPosition(init, u);
      assert forall i :: 0 <= i < |init| ==> recs[i] == init[i];
      var b0 := StatsOf(init, u).bestPosition;
      if b0.Some? {
        var i :| 0 <= i < |init| && init[i].username == u && Truthy(init[i].position) && init[i].position == b0;
        assert recs[i] == init[i];
      }
    }
  }

  /** `cards` holds each truthy card id of the player's plays exactly once. */
  lemma {:induction false} StatsCards(recs: seq<LeaderboardRecord>, u: string)
    ensures var cards := StatsOf(recs, u).cards;
      && NoDuplicates(cards)
      && (forall x :: x in cards <==> x != 0 && PlayedBy(recs, u, x))
  {
    if recs != [] {
      var init := recs[..|recs| - 1];
      var last := recs[|recs| - 1];
      StatsCards(init, u);
      var c0 := StatsOf(init, u).cards;
      if last.username == u && last.play.Some? {
        AddCardsSpec(c0, last.play.value);
      }
      forall x
        ensures PlayedBy(recs, u, x) <==> PlayedBy(init, u, x) || (last.username == u && last.play.Some? && Some(x) in last.play.value)
      {
        if PlayedBy(recs, u, x) {
          var i :| 0 <= i < |recs| && recs[i].username == u && recs[i].play.Some? && Some(x) in recs[i].play.value;
          if i < |init| {
            assert init[i] == recs[i];
          }
        }
        if PlayedBy(init, u, x) {
          var i :| 0 <= i < |init| && init[i].username == u && init[i].play.Some? && Some(x) in init[i].play.value;
          assert recs[i] == init[i];
        }
      }
    }
  }

  /** Card `x` occurs in a play of one of `u`'s records. */
  predicate PlayedBy(recs: seq<LeaderboardRecord>, u: string, x: CardId)
  {
    exists i :: 0 <= i < |recs| && recs[i].username == u && recs[i].play.Some? && Some(x) in recs[i].play.value
  }

  // ---------------------------------------------------------------------------
  // The analysis

  /** `Math.max(...rounds.filter(r => typeof r === 'number'))`: the largest
      numeric round, `None` when there is none. */
  function LastSeen(rounds: seq<RoundTag>): (r: Option<int>)
    ensures r.None? <==> forall i :: 0 <= i < |rounds| ==> rounds[i].Unknown?
    ensures r.Some? ==> Round(r.value) in rounds
    ensures r.Some? ==> forall i :: 0 <= i < |rounds| && rounds[i].Round? ==> rounds[i].id <= r.value
    decreases |rounds|
  {
    if rounds == [] then None
    else
      var init := rounds[..|rounds| - 1];
      var last := rounds[|rounds| - 1];
      var m := LastSeen(init);
      assert rounds == init + [last];
      if last.Unknown? then m
      else if m.None? || m.value < last.id then Some(last.id)
      else m
  }

  function ToData(st: PlayerStats): PlayerData
  {
    PlayerData(st.username, st.appearances >= 2, st.appearances, st.bestPosition, st.rounds, st.cards,
               LastSeen(st.rounds))
  }

  function Appearances(p: PlayerData): int
  {
    p.appearances
  }

  /** The players whose `isHot` is `hot`, in order. */
  function WithHeat(data: seq<PlayerData>, hot: bool): (r: seq<PlayerData>)
    ensures forall p :: p in r <==> p in data && p.isHot == hot
    decreases |data|
  {
    if data == [] then []
    else
      var init := data[..|data| - 1];
      assert data == init + [data[|data| - 1]];
      WithHeat(init, hot) + (if data[|data| - 1].isHot == hot then [data[|data| - 1]] else [])
  }

  /** Splitting by heat loses and duplicates nothing. */
  lemma {:induction false} WithHeatSplit(data: seq<PlayerData>)
    ensures multiset(WithHeat(data, true)) + multiset(WithHeat(data, false)) == multiset(data)
  {
    if data != [] {
      var init, x := data[..|data| - 1], data[|data| - 1];
      assert data == init + [x];
      WithHeatSplit(init);
      WithHeatSnoc(init, x, true);
      WithHeatSnoc(init, x, false);
    }
  }

  /** `WithHeat` of one more player. */
  lemma WithHeatSnoc(init: seq<PlayerData>, x: PlayerData, hot: bool)
    ensures WithHeat(init + [x], hot) == WithHeat(init, hot) + (if x.isHot == hot then [x] else [])
  {
    var data := init + [x];
    assert data[..|data| - 1] == init;
  }

  /** Player names in order of first appearance (the Map's key order). */
  function Names(recs: seq<LeaderboardRecord>): seq<string>
  {
    Distinct(Usernames(recs))
  }

  function Summaries(recs: seq<LeaderboardRecord>): (r: seq<PlayerData>)
    ensures |r| == |Names(recs)|
  {
    var names := Names(recs);
    seq(|names|, k requires 0 <= k < |names| => ToData(StatsOf(recs, names[k])))
  }

  /** `parseLeaderboard`. */
  function Analyze(recs: seq<LeaderboardRecord>): Analysis
  {
    var names := Names(recs);
    var data := Summaries(recs);
    Analysis(SortDesc(WithHeat(data, true), Appearances), WithHeat(data, false), |names|,
             seq(|names|, k requires 0 <= k < |names| => StatsOf(recs, names[k])))
  }

  /** The name occurs among the players' descriptors. */
  predicate Lists(players: seq<PlayerData>, u: string)
  {
    exists i :: 0 <= i < |players| && players[i].username == u
  }

  /** Every reported player is the summary of that player's own statistics,
      and is hot exactly when seen at least twice. */
  lemma AnalyzeReportsStats(recs: seq<LeaderboardRecord>)
    ensures var a := Analyze(recs);
      forall p :: p in a.hotPlayers || p in a.regularPlayers ==>
        && p == ToData(StatsOf(recs, p.username))
        && p.username in Usernames(recs)
        && (p.isHot <==> p.appearances >= 2)
        && (p in a.hotPlayers <==> p.isHot)
  {
    var a, data := Analyze(recs), Summaries(recs);
    var hot := WithHeat(data, true);
    forall p | p in a.hotPlayers || p in a.regularPlayers
      ensures p == ToData(StatsOf(recs, p.username)) && p.username in Usernames(recs)
      ensures p in a.hotPlayers <==> p.isHot
    {
      if p in a.hotPlayers {
        assert p in multiset(a.hotPlayers);
        assert p in hot;
      }
      if p in hot {
        assert p in multiset(hot);
        assert p in a.hotPlayers;
      }
      var k :| 0 <= k < |data| && data[k] == p;
      StatsAppearances(recs, Names(recs)[k]);
    }
  }

  /** Every input username is listed, either among the hot or among the
      regular players, and only input usernames are listed. */
  lemma AnalyzeListsEveryone(recs: seq<LeaderboardRecord>, u: string)
    ensures var a := Analyze(recs);
      u in Usernames(recs) <==> Lists(a.hotPlayers, u) || Lists(a.regularPlayers, u)
  {
    var a, data, names := Analyze(recs), Summaries(recs), Names(recs);
    AnalyzeReportsStats(recs);
    if u in Usernames(recs) {
      var k :| 0 <= k < |names| && names[k] == u;
      SummariesNamed(recs);
      if data[k].isHot {
        InHotList(recs, data[k]);
        var i :| 0 <= i < |a.hotPlayers| && a.hotPlayers[i] == data[k];
      } else {
        assert data[k] in a.regularPlayers;
        var i :| 0 <= i < |a.regularPlayers| && a.regularPlayers[i] == data[k];
      }
    }
    if Lists(a.hotPlayers, u) {
      var i :| 0 <= i < |a.hotPlayers| && a.hotPlayers[i].username == u;
      assert a.hotPlayers[i] in a.hotPlayers;
    }
    if Lists(a.regularPlayers, u) {
      var i :| 0 <= i < |a.regularPlayers| && a.regularPlayers[i].username == u;
      assert a.regularPlayers[i] in a.regularPlayers;
    }
  }

  lemma InHotList(recs: seq<LeaderboardRecord>, p: PlayerData)
    requires p in Summaries(recs) && p.isHot
    ensures p in Analyze(recs).hotPlayers
  {
    var hot := WithHeat(Summaries(recs), true);
    assert p in hot;
    assert p in multiset(hot);
  }

  /** No player is both hot and regular. */
  lemma AnalyzeNotBoth(recs: seq<LeaderboardRecord>, u: string)
    ensures var a := Analyze(recs);
      !(Lists(a.hotPlayers, u) && Lists(a.regularPlayers, u))
  {
    var a := Analyze(recs);
    AnalyzeReportsStats(recs);
  }

  /** Neither list names a player twice. */
  lemma AnalyzeListsOnce(recs: seq<LeaderboardRecord>)
    ensures var a := Analyze(recs);
      && (forall i, j :: 0 <= i < j < |a.hotPlayers| ==> a.hotPlayers[i].username != a.hotPlayers[j].username)
      && (forall i, j :: 0 <= i < j < |a.regularPlayers| ==> a.regularPlayers[i].username != a.regularPlayers[j].username)
  {
    var a := Analyze(recs);
    WithHeatSplit(Summaries(recs));
    forall i, j | 0 <= i < j < |a.hotPlayers|
      ensures a.hotPlayers[i].username != a.hotPlayers[j].username
    {
      DistinctPlayersDiffer(recs, a.hotPlayers, i, j);
    }
    forall i, j | 0 <= i < j < |a.regularPlayers|
      ensures a.regularPlayers[i].username != a.regularPlayers[j].username
    {
      DistinctPlayersDiffer(recs, a.regularPlayers, i, j);
    }
  }

  /** The summaries are those of the distinct names, in order, so no two
      of them are for the same player. */
  lemma SummariesNamed(recs: seq<LeaderboardRecord>)
    ensures var data, names := Summaries(recs), Names(recs);
      && (forall k :: 0 <= k < |data| ==> data[k].username == names[k])
      && NoDuplicates(data)
  {
    var data, names := Summaries(recs), Names(recs);
    forall k | 0 <= k < |data|
      ensures data[k].username == names[k]
    {
      StatsAppearances(recs, names[k]);
    }
  }

  /** Two positions of a sub-list of the summaries hold different players
      (a helper for AnalyzeListsOnce). */
  lemma DistinctPlayersDiffer(recs: seq<LeaderboardRecord>, players: seq<PlayerData>, i: int, j: int)
    requires 0 <= i < j < |players|
    requires multiset(players) <= multiset(Summaries(recs))
    ensures players[i].username != players[j].username
  {
    var data, names := Summaries(recs), Names(recs);
    SummariesNamed(recs);
    if players[i].username == players[j].username {
      assert players[i] in multiset(data);
      assert players[j] in multiset(data);
      var k1 :| 0 <= k1 < |data| && data[k1] == players[i];
      var k2 :| 0 <= k2 < |data| && data[k2] == players[j];
      assert k1 == k2;
      var x := players[i];
      TwiceInMultiset(players, i, j);
      NoDuplicatesCount(data, x);
      assert false;
    }
  }

  /** `totalUniquePlayers` is the number of distinct usernames, and the hot
      and regular lists together have exactly that many players. */
  lemma AnalyzeCounts(recs: seq<LeaderboardRecord>)
    ensures var a := Analyze(recs);
      && a.totalUniquePlayers == |set u | u in Usernames(recs)|
      && |a.hotPlayers| + |a.regularPlayers| == a.totalUniquePlayers
  {
    var names := Names(recs);
    NoDuplicatesCard(names);
    assert (set u | u in names) == (set u | u in Usernames(recs));
    WithHeatSplit(Summaries(recs));
    var a := Analyze(recs);
    assert |multiset(a.hotPlayers)| + |multiset(a.regularPlayers)| == |multiset(Summaries(recs))|;
  }

  /** The hot list is ordered by appearances, most first, and holds exactly
      the hot summaries. */
  lemma AnalyzeHotOrder(recs: seq<LeaderboardRecord>)
    ensures var a := Analyze(recs);
      && SortedDesc(a.hotPlayers, Appearances)
      && multiset(a.hotPlayers) == multiset(WithHeat(Summaries(recs), true))
  {
  }

  // ---------------------------------------------------------------------------
  // The imperative procedures

  /** `parseLeaderboard`: one pass over the records updating each player's
      statistics in the `playerStats` Map, then one pass over the Map putting
      each summary in the hot or the regular list, then the sort. */
  method ParseLeaderboard(allPlayers: seq<LeaderboardRecord>) returns (result: Analysis)
    ensures result == Analyze(allPlayers)
  {
    var playerStats, uniquePlayers, order := CollectStats(allPlayers);
    CollectedAll(allPlayers, playerStats, uniquePlayers, order);
    var hotPlayers, regularPlayers := SplitByHeat(playerStats, order);
    hotPlayers := SortDesc(hotPlayers, Appearances);
    var all := seq(|order|, k requires 0 <= k < |order| => playerStats[order[k]]);
    result := Analysis(hotPlayers, regularPlayers, |uniquePlayers|, all);
  }

  /** Once every record is seen, the Map holds the statistics the analysis
      reports, in its order. */
  lemma CollectedAll(recs: seq<LeaderboardRecord>, playerStats: map<string, PlayerStats>,
                     uniquePlayers: set<string>, order: seq<string>)
    requires Collected(recs, playerStats, uniquePlayers, order)
    ensures forall k :: 0 <= k < |order| ==> order[k] in playerStats
    ensures DataOf(playerStats, order) == Summaries(recs)
    ensures seq(|order|, k requires 0 <= k < |order| => playerStats[order[k]])
         == seq(|order|, k requires 0 <= k < |order| => StatsOf(recs, order[k]))
    ensures |uniquePlayers| == |order| == |Names(recs)|
  {
    NoDuplicatesCard(order);
    assert uniquePlayers == set u | u in order;
  }

  /** What the first pass has built after the records `seen`: the Map of
      statistics, the Set of usernames, and the Map's key order. */
  ghost predicate Collected(seen: seq<LeaderboardRecord>, playerStats: map<string, PlayerStats>,
                            uniquePlayers: set<string>, order: seq<string>)
  {
    && order == Names(seen)
    && uniquePlayers == playerStats.Keys
    && (forall u :: u in playerStats <==> u in order)
    && (forall u :: u in playerStats ==> playerStats[u] == StatsOf(seen, u))
  }

  /** The first pass: the statistics of every player, the set of usernames,
      and the order in which the Map met them. */
  method CollectStats(allPlayers: seq<LeaderboardRecord>)
    returns (playerStats: map<string, PlayerStats>, uniquePlayers: set<string>, order: seq<string>)
    ensures Collected(allPlayers, playerStats, uniquePlayers, order)
  {
    playerStats, uniquePlayers, order := map[], {}, [];
    for i := 0 to |allPlayers|
      invariant Collected(allPlayers[..i], playerStats, uniquePlayers, order)
    {
      assert allPlayers[..i + 1] == allPlayers[..i] + [allPlayers[i]];
      playerStats, uniquePlayers, order := Visit(playerStats, uniquePlayers, order, allPlayers[i], allPlayers[..i]);
    }
    assert allPlayers[..|allPlayers|] == allPlayers;
  }

  /** The body of the first `forEach` for one record. */
  method Visit(playerStats: map<string, PlayerStats>, uniquePlayers: set<string>, order: seq<string>,
               player: LeaderboardRecord, ghost seen: seq<LeaderboardRecord>)
    returns (playerStats': map<string, PlayerStats>, uniquePlayers': set<string>, order': seq<string>)
    requires Collected(seen, playerStats, uniquePlayers, order)
    ensures Collected(seen + [player], playerStats', uniquePlayers', order')
  {
    var username := player.username;
    uniquePlayers' := uniquePlayers + {username};
    playerStats', order' := playerStats, order;
    if username !in playerStats {
      playerStats' := playerStats[username := EmptyStats(username)];
      order' := order + [username];
    }
    ghost var prev := if username in playerStats then playerStats[username] else EmptyStats(username);
    assert playerStats'[username] == prev;
    var stats := AbsorbRecord(playerStats'[username], player);
    playerStats' := playerStats'[username := stats];
    assert playerStats' == playerStats[username := Absorb(prev, player)];
    CollectedStep(seen, player, playerStats, uniquePlayers, order);
  }

  /** One record extends the collected state: its player's statistics absorb
      it, after an empty entry if the player is new. */
  lemma CollectedStep(seen: seq<LeaderboardRecord>, player: LeaderboardRecord,
                      playerStats: map<string, PlayerStats>, uniquePlayers: set<string>, order: seq<string>)
    requires Collected(seen, playerStats, uniquePlayers, order)
    ensures var u := player.username;
      var prev := if u in playerStats then playerStats[u] else EmptyStats(u);
      Collected(seen + [player], playerStats[u := Absorb(prev, player)], uniquePlayers + {u},
                if u in playerStats then order else order + [u])
  {
    var u := player.username;
    var all := seen + [player];
    var prev := if u in playerStats then playerStats[u] else EmptyStats(u);
    var m := playerStats[u := Absorb(prev, player)];
    var order' := if u in playerStats then order else order + [u];
    NamesSnoc(seen, player);
    assert u in playerStats <==> u in Names(seen);
    assert order' == Names(all);
    if u !in playerStats {
      assert u !in Usernames(seen);
      NotSeenStats(seen, u);
    }
    forall v
      ensures v in m <==> v in order'
    {
    }
    forall v | v in m
      ensures m[v] == StatsOf(all, v)
    {
      StatsSnoc(seen, player, v);
    }
    assert Collected(all, m, uniquePlayers + {u}, order');
  }

  /** One more record adds its player's name at the end, if it is new. */
  lemma NamesSnoc(recs: seq<LeaderboardRecord>, r: LeaderboardRecord)
    ensures Names(recs + [r]) == if r.username in Names(recs) then Names(recs) else Names(recs) + [r.username]
  {
    assert Usernames(recs + [r]) == Usernames(recs) + [r.username];
    DistinctSnoc(Usernames(recs), r.username);
  }

  /** One more record changes the statistics of its own player only. */
  lemma StatsSnoc(recs: seq<LeaderboardRecord>, r: LeaderboardRecord, u: string)
    ensures StatsOf(recs + [r], u) == if r.username == u then Absorb(StatsOf(recs, u), r) else StatsOf(recs, u)
  {
    var all := recs + [r];
    assert all[..|all| - 1] == recs;
  }

  /** The body of the first `forEach` for one record. */
  method AbsorbRecord(stats: PlayerStats, player: LeaderboardRecord) returns (r: PlayerStats)
    ensures r == Absorb(stats, player)
  {
    var cards := stats.cards;
    if player.play.Some? {
      cards := CollectCards(cards, player.play.value);
    }
    r := PlayerStats(stats.username, stats.appearances + 1,
                     MinPosition(stats.bestPosition, player.position),
                     stats.rounds + [Tag(player.roundId)], cards);
  }

  function DataOf(playerStats: map<string, PlayerStats>, order: seq<string>): seq<PlayerData>
    requires forall k :: 0 <= k < |order| ==> order[k] in playerStats
  {
    seq(|order|, k requires 0 <= k < |order| => ToData(playerStats[order[k]]))
  }

  /** The second pass: each player's summary goes to the hot list or to the
      regular one. */
  method SplitByHeat(playerStats: map<string, PlayerStats>, order: seq<string>)
    returns (hotPlayers: seq<PlayerData>, regularPlayers: seq<PlayerData>)
    requires forall k :: 0 <= k < |order| ==> order[k] in playerStats
    ensures hotPlayers == WithHeat(DataOf(playerStats, order), true)
    ensures regularPlayers == WithHeat(DataOf(playerStats, order), false)
  {
    var data := DataOf(playerStats, order);
    hotPlayers, regularPlayers := [], [];
    for k := 0 to |order|
      invariant hotPlayers == WithHeat(data[..k], true)
      invariant regularPlayers == WithHeat(data[..k], false)
    {
      var playerData := ToData(playerStats[order[k]]);
      assert data[..k + 1][..k] == data[..k];
      if playerData.isHot {
        hotPlayers := hotPlayers + [playerData];
      } else {
        regularPlayers := regularPlayers + [playerData];
      }
    }
    assert data[..|order|] == data;
  }

  /** A player without records has the empty statistics. */
  lemma {:induction false} NotSeenStats(recs: seq<LeaderboardRecord>, u: string)
    requires u !in Usernames(recs)
    ensures StatsOf(recs, u) == EmptyStats(u)
  {
    if recs != [] {
      var init := recs[..|recs| - 1];
      assert Usernames(recs) == Usernames(init) + [recs[|recs| - 1].username];
      NotSeenStats(init, u);
    }
  }

  /** The inner `forEach` over a play's cards. */
  method CollectCards(cards: seq<CardId>, play: seq<Option<CardId>>) returns (r: seq<CardId>)
    ensures r == AddCards(cards, play)
  {
    r := cards;
    for j := 0 to |play|
      invariant r == AddCards(cards, play[..j])
    {
      assert play[..j + 1][..j] == play[..j];
      var card := play[j];
      if Truthy(card) && card.value !in r {
        r := r + [card.value];
      }
    }
    assert play[..|play|] == play;
  }

  /** `generateRoundIds`: the `roundsCount` ids counting down from the
      current one (10 of them by default). */
  method GenerateRoundIds(currentRoundId: int, roundsCount: int := 10) returns (roundIds: seq<int>)
    ensures |roundIds| == if roundsCount > 0 then roundsCount else 0
    ensures forall i :: 0 <= i < |roundIds| ==> roundIds[i] == currentRoundId - i
  {
    roundIds := [];
    var i := 0;
    while i < roundsCount
      invariant 0 <= i && |roundIds| == i
      invariant roundsCount > 0 ==> i <= roundsCount
      invariant roundsCount <= 0 ==> i == 0
      invariant forall k :: 0 <= k < i ==> roundIds[k] == currentRoundId - k
      decreases roundsCount - i
    {
      roundIds := roundIds + [currentRoundId - i];
      i := i + 1;
    }
  }
}
