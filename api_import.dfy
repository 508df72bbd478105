/** The in-memory part of import-api-data.js: the leaderboard rows of several
    saved API responses are flattened into records (dropping the excluded
    player and numbering the rounds from 355), aggregated per player, and
    split into hot players (seen more than once) and regular ones. Reading
    and parsing the input file and writing the result are not modelled. */
module ApiImport {
  import opened Common
  import opened Sorting

  /** The round id given to the first round of the first response. */
  const FirstRoundId: int := 355

  /** A leaderboard row as the API reports it; a card is represented by its
      (possibly missing) `cardId`. */
  datatype ApiPlayer = ApiPlayer(username: string, position: int, play: Option<seq<Option<CardId>>>)

  /** One element of a response: its `result.data.leaderboard`, or `None`
      when that path is missing. */
  type RoundData = Option<seq<ApiPlayer>>

  type ApiResponse = seq<RoundData>

  /** An element of `allPlayers`. */
  datatype ImportRecord = ImportRecord(username: string, position: int, roundId: int,
                                       cards: seq<Option<CardId>>)

  // ---------------------------------------------------------------------------
  // Flattening the responses

  function ToRecord(p: ApiPlayer, roundId: int): ImportRecord
  {
    ImportRecord(p.username, p.position, roundId, if p.play.Some? then p.play.value else [])
  }

  /** The records of one leaderboard, the excluded player dropped. */
  function BoardRecords(board: seq<ApiPlayer>, roundId: int): seq<ImportRecord>
    decreases |board|
  {
    if board == [] then []
    else
      var p := board[|board| - 1];
      BoardRecords(board[..|board| - 1], roundId) + (if IsSeal(p.username) then [] else [ToRecord(p, roundId)])
  }

  /** The records of one round; a round without a leaderboard gives none. */
  function RoundRecords(roundData: RoundData, roundId: int): seq<ImportRecord>
  {
    match roundData
    case None => []
    case Some(board) => BoardRecords(board, roundId)
  }

  /** The records of one response, numbered from `355 + responseIndex`. */
  function ResponseRecords(response: ApiResponse, responseIndex: int): seq<ImportRecord>
    decreases |response|
  {
    if response == [] then []
    else
      var roundIndex := |response| - 1;
      ResponseRecords(response[..roundIndex], responseIndex)
      + RoundRecords(response[roundIndex], FirstRoundId + responseIndex + roundIndex)
  }

  /** `allPlayers`. */
  function AllRecords(responses: seq<ApiResponse>): seq<ImportRecord>
    decreases |responses|
  {
    if responses == [] then []
    else AllRecords(responses[..|responses| - 1]) + ResponseRecords(responses[|responses| - 1], |responses| - 1)
  }

  /** Some row of `board`, not the excluded player's, gives `r`. */
  predicate FromBoard(board: seq<ApiPlayer>, roundId: int, r: ImportRecord)
  {
    exists j :: 0 <= j < |board| && !IsSeal(board[j].username) && r == ToRecord(board[j], roundId)
  }

  /** Some round `k` of `response` gives `r`, numbered `355 + i + k`. */
  predicate FromResponse(response: ApiResponse, i: int, r: ImportRecord)
  {
    exists k :: 0 <= k < |response| && response[k].Some? && FromBoard(response[k].value, FirstRoundId + i + k, r)
  }

  /** Some response `i` gives `r`. */
  predicate FromResponses(responses: seq<ApiResponse>, r: ImportRecord)
  {
    exists i :: 0 <= i < |responses| && FromResponse(responses[i], i, r)
  }

  /** Row `j` of round `k` of response `i` exists and is not the excluded
      player's. */
  predicate KeptRow(responses: seq<ApiResponse>, i: int, k: int, j: int)
  {
    && 0 <= i < |responses| && 0 <= k < |responses[i]| && responses[i][k].Some?
    && 0 <= j < |responses[i][k].value| && !IsSeal(responses[i][k].value[j].username)
  }

  lemma {:induction false} BoardRecordsSpec(board: seq<ApiPlayer>, roundId: int)
    ensures forall r :: r in BoardRecords(board, roundId) <==> FromBoard(board, roundId, r)
  {
    if board != [] {
      var init := board[..|board| - 1];
      BoardRecordsSpec(init, roundId);
      forall r
        ensures r in BoardRecords(board, roundId) <==> FromBoard(board, roundId, r)
      {
        if r in BoardRecords(init, roundId) {
          var j :| 0 <= j < |init| && !IsSeal(init[j].username) && r == ToRecord(init[j], roundId);
          assert board[j] == init[j];
        }
        if FromBoard(board, roundId, r) {
          var j :| 0 <= j < |board| && !IsSeal(board[j].username) && r == ToRecord(board[j], roundId);
          if j < |init| {
            assert init[j] == board[j];
            assert FromBoard(init, roundId, r);
          }
        }
      }
    }
  }

  /** A response with one more round gives the records of the shorter
      response and those of the added round. */
  lemma FromResponseSnoc(response: ApiResponse, i: int, r: ImportRecord)
    requires response != []
    ensures var last := |response| - 1;
      FromResponse(response, i, r) <==>
        FromResponse(response[..last], i, r)
        || (response[last].Some? && FromBoard(response[last].value, FirstRoundId + i + last, r))
  {
    var last := |response| - 1;
    var init := response[..last];
    if FromResponse(response, i, r) {
      var k :| 0 <= k < |response| && response[k].Some? && FromBoard(response[k].value, FirstRoundId + i + k, r);
      if k < last {
        assert init[k] == response[k];
      }
    }
    if FromResponse(init, i, r) {
      var k :| 0 <= k < |init| && init[k].Some? && FromBoard(init[k].value, FirstRoundId + i + k, r);
      assert response[k] == init[k];
    }
  }

  lemma {:induction false} ResponseRecordsSpec(response: ApiResponse, i: int)
    ensures forall r :: r in ResponseRecords(response, i) <==> FromResponse(response, i, r)
  {
    if response != [] {
      var last := |response| - 1;
      ResponseRecordsSpec(response[..last], i);
      if response[last].Some? {
        BoardRecordsSpec(response[last].value, FirstRoundId + i + last);
      }
      forall r
        ensures r in ResponseRecords(response, i) <==> FromResponse(response, i, r)
      {
        FromResponseSnoc(response, i, r);
      }
    }
  }

  lemma {:induction false} AllRecordsFrom(responses: seq<ApiResponse>)
    ensures forall r :: r in AllRecords(responses) <==> FromResponses(responses, r)
  {
    if responses != [] {
      var last := |responses| - 1;
      AllRecordsFrom(responses[..last]);
      ResponseRecordsSpec(responses[last], last);
      forall r
        ensures r in AllRecords(responses) <==> FromResponses(responses, r)
      {
        FromResponsesSnoc(responses, r);
      }
    }
  }

  /** A record comes from the responses exactly when it comes from all but
      the last or from the last. */
  lemma FromResponsesSnoc(responses: seq<ApiResponse>, r: ImportRecord)
    requires responses != []
    ensures var last := |responses| - 1;
      FromResponses(responses, r) <==> FromResponses(responses[..last], r) || FromResponse(responses[last], last, r)
  {
    var last := |responses| - 1;
    var init := responses[..last];
    if FromResponses(init, r) {
      var i :| 0 <= i < |init| && FromResponse(init[i], i, r);
      assert responses[i] == init[i];
    }
    if FromResponses(responses, r) {
      var i :| 0 <= i < |responses| && FromResponse(responses[i], i, r);
      if i < last {
        assert init[i] == responses[i];
      }
    }
  }

  /** A record is in `allPlayers` exactly when it comes from a row of one of
      the rounds, not the excluded player's, with round id
      `355 + responseIndex + roundIndex`. */
  lemma AllRecordsSpec(responses: seq<ApiResponse>)
    ensures forall r :: r in AllRecords(responses) <==>
              exists i, k, j :: KeptRow(responses, i, k, j)
                && r == ToRecord(responses[i][k].value[j], FirstRoundId + i + k)
  {
    AllRecordsFrom(responses);
    forall r
      ensures FromResponses(responses, r) <==>
              exists i, k, j :: KeptRow(responses, i, k, j)
                && r == ToRecord(responses[i][k].value[j], FirstRoundId + i + k)
    {
      if FromResponses(responses, r) {
        var i :| 0 <= i < |responses| && FromResponse(responses[i], i, r);
        var k :| 0 <= k < |responses[i]| && responses[i][k].Some? && FromBoard(responses[i][k].value, FirstRoundId + i + k, r);
        var j :| 0 <= j < |responses[i][k].value| && !IsSeal(responses[i][k].value[j].username)
                 && r == ToRecord(responses[i][k].value[j], FirstRoundId + i + k);
        assert KeptRow(responses, i, k, j);
      }
      if exists i, k, j :: KeptRow(responses, i, k, j) && r == ToRecord(responses[i][k].value[j], FirstRoundId + i + k) {
        var i, k, j :| KeptRow(responses, i, k, j) && r == ToRecord(responses[i][k].value[j], FirstRoundId + i + k);
        assert FromBoard(responses[i][k].value, FirstRoundId + i + k, r);
        assert FromResponse(responses[i], i, r);
      }
    }
  }

  /** In particular no record is the excluded player's. */
  lemma NoSealRecords(responses: seq<ApiResponse>)
    ensures forall r :: r in AllRecords(responses) ==> !IsSeal(r.username)
  {
    AllRecordsSpec(responses);
  }

  // ---------------------------------------------------------------------------
  // Per-player statistics

  /** A `playerStats` entry; `bestPosition == None` stands for `Infinity`. */
  datatype ImportStats = ImportStats(username: string, appearances: nat, rounds: seq<int>,
                                     bestPosition: Option<int>, cards: seq<Option<CardId>>)

  /** Pushing each card not yet `includes`d. */
  function AppendNew(cards: seq<Option<CardId>>, more: seq<Option<CardId>>): seq<Option<CardId>>
    decreases |more|
  {
    if more == [] then cards
    else
      var c := AppendNew(cards, more[..|more| - 1]);
      var card := more[|more| - 1];
      if card in c then c else c + [card]
  }

  /** Appending the new cards to a duplicate-free list keeps the list of
      first occurrences. */
  lemma {:induction false} AppendNewDistinct(xs: seq<Option<CardId>>, more: seq<Option<CardId>>)
    ensures AppendNew(Distinct(xs), more) == Distinct(xs + more)
  {
    if more == [] {
      assert xs + more == xs;
    } else {
      var init, x := more[..|more| - 1], more[|more| - 1];
      AppendNewDistinct(xs, init);
      assert more == init + [x];
      assert xs + more == (xs + init) + [x];
      DistinctSnoc(xs + init, x);
    }
  }

  function MinPosition(best: Option<int>, position: int): Option<int>
  {
    if best.None? || position < best.value then Some(position) else best
  }

  function Absorb(st: ImportStats, r: ImportRecord): ImportStats
  {
    ImportStats(st.username, st.appearances + 1, st.rounds + [r.roundId],
                MinPosition(st.bestPosition, r.position), AppendNew(st.cards, r.cards))
  }

  function EmptyStats(username: string): ImportStats
  {
    ImportStats(username, 0, [], None, [])
  }

  function StatsOf(recs: seq<ImportRecord>, u: string): ImportStats
    decreases |recs|
  {
    if recs == [] then EmptyStats(u)
    else
      var st := StatsOf(recs[..|recs| - 1], u);
      if recs[|recs| - 1].username == u then Absorb(st, recs[|recs| - 1]) else st
  }

  function Usernames(recs: seq<ImportRecord>): (r: seq<string>)
    ensures |r| == |recs| && forall i :: 0 <= i < |recs| ==> r[i] == recs[i].username
  {
    seq(|recs|, i requires 0 <= i < |recs| => recs[i].username)
  }

  /** The records of player `u`, in order. */
  function RecordsOf(recs: seq<ImportRecord>, u: string): seq<ImportRecord>
    decreases |recs|
  {
    if recs == [] then []
    else RecordsOf(recs[..|recs| - 1], u) + (if recs[|recs| - 1].username == u then [recs[|recs| - 1]] else [])
  }

  /** All the cards of `u`'s records, in order. */
  function CardsOf(recs: seq<ImportRecord>, u: string): seq<Option<CardId>>
    decreases |recs|
  {
    if recs == [] then []
    else CardsOf(recs[..|recs| - 1], u) + (if recs[|recs| - 1].username == u then recs[|recs| - 1].cards else [])
  }

  /** `appearances` counts the player's records. */
  lemma {:induction false} StatsAppearances(recs: seq<ImportRecord>, u: string)
    ensures StatsOf(recs, u).username == u
    ensures StatsOf(recs, u).appearances == |RecordsOf(recs, u)| == multiset(Usernames(recs))[u]
  {
    if recs != [] {
      var init := recs[..|recs| - 1];
      StatsAppearances(init, u);
      assert Usernames(recs) == Usernames(init) + [recs[|recs| - 1].username];
    }
  }

  /** `rounds` lists the round ids of the player's records, in order. */
  lemma {:induction false} StatsRounds(recs: seq<ImportRecord>, u: string)
    ensures StatsOf(recs, u).rounds == RoundIdsOf(RecordsOf(recs, u))
  {
    if recs != [] {
      var init := recs[..|recs| - 1];
      StatsRounds(init, u);
      var r := recs[|recs| - 1];
      if r.username == u {
        var mine := RecordsOf(init, u);
        assert RoundIdsOf(mine + [r]) == RoundIdsOf(mine) + [r.roundId];
      }
    }
  }

  /** `cards` lists each card of the player's records once, in order of
      first occurrence. */
  lemma {:induction false} StatsCards(recs: seq<ImportRecord>, u: string)
    ensures StatsOf(recs, u).cards == Distinct(CardsOf(recs, u))
  {
    if recs != [] {
      var init := recs[..|recs| - 1];
      StatsCards(init, u);
      var r := recs[|recs| - 1];
      if r.username == u {
        AppendNewDistinct(CardsOf(init, u), r.cards);
        assert StatsOf(recs, u).cards == AppendNew(StatsOf(init, u).cards, r.cards);
        assert CardsOf(recs, u) == CardsOf(init, u) + r.cards;
      } else {
        assert StatsOf(recs, u) == StatsOf(init, u);
        assert CardsOf(recs, u) == CardsOf(init, u) + [];
        assert CardsOf(init, u) + [] == CardsOf(init, u);
      }
    }
  }

  /** `bestPosition` is the least position among the player's records, and
      is finite as soon as there is one. */
  lemma {:induction false} StatsBestPosition(recs: seq<ImportRecord>, u: string)
    ensures var b := StatsOf(recs, u).bestPosition;
      && (b.None? <==> forall i :: 0 <= i < |recs| ==> recs[i].username != u)
      && (b.Some? ==> exists i :: 0 <= i < |recs| && recs[i].username == u && recs[i].position == b.value)
      && (b.Some? ==> forall i :: 0 <= i < |recs| && recs[i].username == u ==> b.value <= recs[i].position)
  {
    if recs != [] {
      var init := recs[..|recs| - 1];
      StatsBestPosition(init, u);
      assert forall i :: 0 <= i < |init| ==> recs[i] == init[i];
      var b0 := StatsOf(init, u).bestPosition;
      if b0.Some? {
        var i :| 0 <= i < |init| && init[i].username == u && init[i].position == b0.value;
        assert recs[i] == init[i];
      }
    }
  }

  // ---------------------------------------------------------------------------
  // Hot and regular players

  /** An element of `hotPlayers` or `regularPlayers`. */
  datatype ImportPlayer = ImportPlayer(username: string, isHot: bool, appearances: nat,
                                       rounds: seq<int>, bestPosition: Option<int>,
                                       cards: seq<Option<CardId>>)

  datatype Summary = Summary(totalUniquePlayers: nat, hotPlayersCount: nat,
                             regularPlayersCount: nat, totalRecords: nat)

  datatype ImportResult = ImportResult(hotPlayers: seq<ImportPlayer>, regularPlayers: seq<ImportPlayer>,
                                       analysis: Summary, roundIds: seq<int>)

  function Id(x: int): int
  {
    x
  }

  function Appearances(p: ImportPlayer): int
  {
    p.appearances
  }

  /** Sorting ascending by `bestPosition` is the stable descending sort by
      its negation. */
  function NegBestPosition(p: ImportPlayer): int
  {
    if p.bestPosition.Some? then -p.bestPosition.value else 0
  }

  /** `.filter(player => player.appearances > 1)` when `hot`, else
      `.filter(player => player.appearances === 1)`. */
  function Select(values: seq<ImportStats>, hot: bool): (r: seq<ImportStats>)
    ensures forall x :: x in r <==> x in values && (if hot then x.appearances > 1 else x.appearances == 1)
    decreases |values|
  {
    if values == [] then []
    else
      var init := values[..|values| - 1];
      var x := values[|values| - 1];
      assert values == init + [x];
      Select(init, hot) + (if (if hot then x.appearances > 1 else x.appearances == 1) then [x] else [])
  }

  /** When every player appeared, each lands in exactly one of the two
      selections. */
  lemma {:induction false} SelectSplit(values: seq<ImportStats>)
    requires forall k :: 0 <= k < |values| ==> values[k].appearances >= 1
    ensures |Select(values, true)| + |Select(values, false)| == |values|
  {
    if values != [] {
      SelectSplit(values[..|values| - 1]);
    }
  }

  function AsHot(st: ImportStats): ImportPlayer
  {
    ImportPlayer(st.username, true, st.appearances, SortDesc(st.rounds, Id), st.bestPosition, st.cards)
  }

  function AsRegular(st: ImportStats): ImportPlayer
  {
    ImportPlayer(st.username, false, 1, st.rounds, st.bestPosition, st.cards)
  }

  function Names(recs: seq<ImportRecord>): seq<string>
  {
    Distinct(Usernames(recs))
  }

  /** `Object.values(playerStats)`. */
  function Values(recs: seq<ImportRecord>): (r: seq<ImportStats>)
    ensures |r| == |Names(recs)|
  {
    var names := Names(recs);
    seq(|names|, k requires 0 <= k < |names| => StatsOf(recs, names[k]))
  }

  /** `.map(f)`. */
  function Image(sel: seq<ImportStats>, f: ImportStats -> ImportPlayer): (r: seq<ImportPlayer>)
    ensures |r| == |sel| && forall k :: 0 <= k < |sel| ==> r[k] == f(sel[k])
  {
    seq(|sel|, k requires 0 <= k < |sel| => f(sel[k]))
  }

  function HotPlayers(values: seq<ImportStats>): seq<ImportPlayer>
  {
    SortDesc(Image(Select(values, true), AsHot), Appearances)
  }

  function RegularPlayers(values: seq<ImportStats>): seq<ImportPlayer>
  {
    SortDesc(Image(Select(values, false), AsRegular), NegBestPosition)
  }

  function RoundIdsOf(recs: seq<ImportRecord>): (r: seq<int>)
    ensures |r| == |recs| && forall i :: 0 <= i < |recs| ==> r[i] == recs[i].roundId
  {
    seq(|recs|, i requires 0 <= i < |recs| => recs[i].roundId)
  }

  /** `roundIds`: the distinct round ids, largest first. */
  function SortedRoundIds(recs: seq<ImportRecord>): seq<int>
  {
    SortDesc(Distinct(RoundIdsOf(recs)), Id)
  }

  /** The aggregation of `allPlayers` into the saved document. */
  function Aggregate(recs: seq<ImportRecord>): ImportResult
  {
    var values := Values(recs);
    var hot, regular := HotPlayers(values), RegularPlayers(values);
    ImportResult(hot, regular, Summary(|Names(recs)|, |hot|, |regular|, |recs|), SortedRoundIds(recs))
  }

  /** The whole in-memory import. */
  function Import(responses: seq<ApiResponse>): ImportResult
  {
    Aggregate(AllRecords(responses))
  }

  /** `Object.values(playerStats)` holds the statistics of each username
      of the records, once each, and every one of them appeared. */
  lemma ValuesSpec(recs: seq<ImportRecord>)
    ensures var values := Values(recs);
      && (forall k :: 0 <= k < |values| ==> values[k].appearances >= 1)
      && (forall st :: st in values <==> exists u :: u in Usernames(recs) && st == StatsOf(recs, u))
  {
    var values, names := Values(recs), Names(recs);
    forall k | 0 <= k < |values|
      ensures values[k] == StatsOf(recs, names[k]) && names[k] in Usernames(recs) && values[k].appearances >= 1
    {
      StatsAppearances(recs, names[k]);
      assert names[k] in multiset(Usernames(recs));
    }
    forall u | u in Usernames(recs)
      ensures StatsOf(recs, u) in values
    {
      var k :| 0 <= k < |names| && names[k] == u;
      assert values[k] == StatsOf(recs, u);
    }
  }

  /** Mapping a selection and sorting it keeps exactly the mapped players. */
  lemma SortedImage(sel: seq<ImportStats>, f: ImportStats -> ImportPlayer, key: ImportPlayer -> int)
    ensures var sorted := SortDesc(Image(sel, f), key);
      && |sorted| == |sel|
      && forall p :: p in sorted <==> exists st :: st in sel && p == f(st)
  {
    var mapped := Image(sel, f);
    var sorted := SortDesc(mapped, key);
    forall p
      ensures p in sorted <==> exists st :: st in sel && p == f(st)
    {
      if p in sorted {
        assert p in multiset(mapped);
        var k :| 0 <= k < |mapped| && mapped[k] == p;
        assert sel[k] in sel;
      }
      if exists st :: st in sel && p == f(st) {
        var st :| st in sel && p == f(st);
        var k :| 0 <= k < |sel| && sel[k] == st;
        assert mapped[k] == p;
        assert p in multiset(sorted);
      }
    }
  }

  /** `hotPlayers` holds the players seen more than once, ordered by
      appearances, most first, each with its rounds largest first. */
  lemma HotPlayersSpec(values: seq<ImportStats>)
    ensures var hot := HotPlayers(values);
      && |hot| == |Select(values, true)|
      && (forall p :: p in hot <==> exists st :: st in values && st.appearances > 1 && p == AsHot(st))
      && SortedDesc(hot, Appearances)
      && (forall p :: p in hot ==> p.isHot && SortedDesc(p.rounds, Id))
  {
    var sel := Select(values, true);
    SortedImage(sel, AsHot, Appearances);
  }

  /** `regularPlayers` holds the players seen exactly once, ordered by best
      position, best first. */
  lemma RegularPlayersSpec(values: seq<ImportStats>)
    ensures var regular := RegularPlayers(values);
      && |regular| == |Select(values, false)|
      && (forall p :: p in regular <==> exists st :: st in values && st.appearances == 1 && p == AsRegular(st))
      && (forall i, j :: 0 <= i < j < |regular| ==>
            NegBestPosition(regular[i]) >= NegBestPosition(regular[j]))
  {
    var sel := Select(values, false);
    SortedImage(sel, AsRegular, NegBestPosition);
  }

  /** The hot players are the players seen more than once. */
  lemma AggregateHot(recs: seq<ImportRecord>)
    ensures forall p :: p in Aggregate(recs).hotPlayers <==>
      exists u :: u in Usernames(recs) && StatsOf(recs, u).appearances > 1 && p == AsHot(StatsOf(recs, u))
  {
    var values := Values(recs);
    ValuesSpec(recs);
    HotPlayersSpec(values);
    forall p
      ensures p in HotPlayers(values) <==>
        exists u :: u in Usernames(recs) && StatsOf(recs, u).appearances > 1 && p == AsHot(StatsOf(recs, u))
    {
      if p in HotPlayers(values) {
        var st :| st in values && st.appearances > 1 && p == AsHot(st);
        var u :| u in Usernames(recs) && st == StatsOf(recs, u);
      }
      if exists u :: u in Usernames(recs) && StatsOf(recs, u).appearances > 1 && p == AsHot(StatsOf(recs, u)) {
        var u :| u in Usernames(recs) && StatsOf(recs, u).appearances > 1 && p == AsHot(StatsOf(recs, u));
        assert StatsOf(recs, u) in values;
      }
    }
  }

  /** The regular players are the players seen exactly once. */
  lemma AggregateRegular(recs: seq<ImportRecord>)
    ensures forall p :: p in Aggregate(recs).regularPlayers <==>
      exists u :: u in Usernames(recs) && StatsOf(recs, u).appearances == 1 && p == AsRegular(StatsOf(recs, u))
  {
    var values := Values(recs);
    ValuesSpec(recs);
    RegularPlayersSpec(values);
    forall p
      ensures p in RegularPlayers(values) <==>
        exists u :: u in Usernames(recs) && StatsOf(recs, u).appearances == 1 && p == AsRegular(StatsOf(recs, u))
    {
      if p in RegularPlayers(values) {
        var st :| st in values && st.appearances == 1 && p == AsRegular(st);
        var u :| u in Usernames(recs) && st == StatsOf(recs, u);
      }
      if exists u :: u in Usernames(recs) && StatsOf(recs, u).appearances == 1 && p == AsRegular(StatsOf(recs, u)) {
        var u :| u in Usernames(recs) && StatsOf(recs, u).appearances == 1 && p == AsRegular(StatsOf(recs, u));
        assert StatsOf(recs, u) in values;
      }
    }
  }

  /** The counts: one player per distinct username, each either hot or
      regular, and one record per kept row. */
  lemma AggregateCounts(recs: seq<ImportRecord>)
    ensures var a := Aggregate(recs);
      && a.analysis.totalUniquePlayers == |set u | u in Usernames(recs)|
      && a.analysis.totalUniquePlayers == a.analysis.hotPlayersCount + a.analysis.regularPlayersCount
      && a.analysis.hotPlayersCount == |a.hotPlayers| && a.analysis.regularPlayersCount == |a.regularPlayers|
      && a.analysis.totalRecords == |recs|
  {
    var values := Values(recs);
    ValuesSpec(recs);
    HotPlayersSpec(values);
    RegularPlayersSpec(values);
    SelectSplit(values);
    var names := Names(recs);
    NoDuplicatesCard(names);
    assert (set u | u in names) == (set u | u in Usernames(recs));
  }

  /** A player seen more than once is never among the regular players, and
      one seen once never among the hot players. */
  lemma AggregateNotBoth(recs: seq<ImportRecord>, u: string)
    ensures !((exists p :: p in Aggregate(recs).hotPlayers && p.username == u)
              && (exists q :: q in Aggregate(recs).regularPlayers && q.username == u))
  {
    AggregateHot(recs);
    AggregateRegular(recs);
    if exists p :: p in Aggregate(recs).hotPlayers && p.username == u {
      var p :| p in Aggregate(recs).hotPlayers && p.username == u;
      var v :| v in Usernames(recs) && StatsOf(recs, v).appearances > 1 && p == AsHot(StatsOf(recs, v));
      StatsAppearances(recs, v);
      forall q | q in Aggregate(recs).regularPlayers
        ensures q.username != u
      {
        var w :| w in Usernames(recs) && StatsOf(recs, w).appearances == 1 && q == AsRegular(StatsOf(recs, w));
        StatsAppearances(recs, w);
      }
    }
  }

  /** Every regular player has a finite best position, that of its single
      record, so the order above is by actual positions. */
  lemma RegularPositions(recs: seq<ImportRecord>)
    ensures forall p :: p in Aggregate(recs).regularPlayers ==>
      p.bestPosition.Some? && exists i :: 0 <= i < |recs| && recs[i].username == p.username && recs[i].position == p.bestPosition.value
  {
    AggregateRegular(recs);
    forall p | p in Aggregate(recs).regularPlayers
      ensures p.bestPosition.Some?
      ensures exists i :: 0 <= i < |recs| && recs[i].username == p.username && recs[i].position == p.bestPosition.value
    {
      var u :| u in Usernames(recs) && StatsOf(recs, u).appearances == 1 && p == AsRegular(StatsOf(recs, u));
      StatsAppearances(recs, u);
      StatsBestPosition(recs, u);
      var i :| 0 <= i < |recs| && Usernames(recs)[i] == u;
    }
  }

  /** `roundIds` lists each round id of the records exactly once, in
      strictly decreasing order. */
  lemma RoundIdsSpec(recs: seq<ImportRecord>)
    ensures var ids := SortedRoundIds(recs);
      && (forall i, j :: 0 <= i < j < |ids| ==> ids[i] > ids[j])
      && (forall x :: x in ids <==> exists i :: 0 <= i < |recs| && recs[i].roundId == x)
  {
    RoundIdsStrict(recs);
    RoundIdsMembers(recs);
  }

  lemma RoundIdsStrict(recs: seq<ImportRecord>)
    ensures var ids := SortedRoundIds(recs);
      forall i, j :: 0 <= i < j < |ids| ==> ids[i] > ids[j]
  {
    var d := Distinct(RoundIdsOf(recs));
    var ids := SortedRoundIds(recs);
    forall i, j | 0 <= i < j < |ids|
      ensures ids[i] > ids[j]
    {
      if ids[i] == ids[j] {
        TwiceInMultiset(ids, i, j);
        NoDuplicatesCount(d, ids[i]);
        assert false;
      }
    }
  }

  lemma RoundIdsMembers(recs: seq<ImportRecord>)
    ensures var ids := SortedRoundIds(recs);
      forall x :: x in ids <==> exists i :: 0 <= i < |recs| && recs[i].roundId == x
  {
    var d := Distinct(RoundIdsOf(recs));
    var ids := SortedRoundIds(recs);
    forall x
      ensures x in ids <==> exists i :: 0 <= i < |recs| && recs[i].roundId == x
    {
      assert x in ids <==> x in multiset(d);
      if x in d {
        var i :| 0 <= i < |RoundIdsOf(recs)| && RoundIdsOf(recs)[i] == x;
      }
      if exists i :: 0 <= i < |recs| && recs[i].roundId == x {
        var i :| 0 <= i < |recs| && recs[i].roundId == x;
        assert RoundIdsOf(recs)[i] == x;
      }
    }
  }

  // ---------------------------------------------------------------------------
  // The loops

  /** The import: the nested `forEach` loops that fill `allPlayers` and
      `playerStats`, then the filter/map/sort chains. None when the grouping
      loop throws, which the surrounding `catch` turns into a logged error
      and no output. */
  method ImportApiData(apiResponses: seq<ApiResponse>) returns (result: Option<ImportResult>)
    ensures result.None? <==> GroupingThrows(AllRecords(apiResponses))
    ensures result.Some? ==> result.value == Import(apiResponses)
  {
    var allPlayers := CollectPlayers(apiResponses);
    var playerStats, order, threw := CollectStats(allPlayers);
    if threw {
      return None;
    }
    assert seq(|order|, k requires 0 <= k < |order| => playerStats[order[k]]) == Values(allPlayers);
    var values := seq(|order|, k requires 0 <= k < |order| => playerStats[order[k]]);
    var hotPlayers := HotPlayers(values);
    var regularPlayers := RegularPlayers(values);
    result := Some(ImportResult(hotPlayers, regularPlayers,
                                Summary(|order|, |hotPlayers|, |regularPlayers|, |allPlayers|),
                                SortedRoundIds(allPlayers)));
  }

  /** `apiResponses.forEach((apiResponse, responseIndex) => ...)`. */
  method CollectPlayers(apiResponses: seq<ApiResponse>) returns (allPlayers: seq<ImportRecord>)
    ensures allPlayers == AllRecords(apiResponses)
  {
    allPlayers := [];
    for responseIndex := 0 to |apiResponses|
      invariant allPlayers == AllRecords(apiResponses[..responseIndex])
    {
      assert apiResponses[..responseIndex + 1][..responseIndex] == apiResponses[..responseIndex];
      var more := CollectResponse(apiResponses[responseIndex], responseIndex);
      allPlayers := allPlayers + more;
    }
    assert apiResponses[..|apiResponses|] == apiResponses;
  }

  /** `apiResponse.forEach((roundData, roundIndex) => ...)`. */
  method CollectResponse(apiResponse: ApiResponse, responseIndex: int) returns (records: seq<ImportRecord>)
    ensures records == ResponseRecords(apiResponse, responseIndex)
  {
    records := [];
    for roundIndex := 0 to |apiResponse|
      invariant records == ResponseRecords(apiResponse[..roundIndex], responseIndex)
    {
      assert apiResponse[..roundIndex + 1][..roundIndex] == apiResponse[..roundIndex];
      var roundData := apiResponse[roundIndex];
      if roundData.Some? {
        var more := CollectBoard(roundData.value, FirstRoundId + responseIndex + roundIndex);
        records := records + more;
      }
    }
    assert apiResponse[..|apiResponse|] == apiResponse;
  }

  /** `leaderboard.forEach(player => ...)`. */
  method CollectBoard(leaderboard: seq<ApiPlayer>, roundId: int) returns (records: seq<ImportRecord>)
    ensures records == BoardRecords(leaderboard, roundId)
  {
    records := [];
    for j := 0 to |leaderboard|
      invariant records == BoardRecords(leaderboard[..j], roundId)
    {
      assert leaderboard[..j + 1][..j] == leaderboard[..j];
      var player := leaderboard[j];
      if LowerString(player.username) == "seal" {
        continue;
      }
      records := records + [ToRecord(player, roundId)];
    }
    assert leaderboard[..|leaderboard|] == leaderboard;
  }

  /** What the `playerStats` loop has built after the records `seen`: the
      dictionary and its key order. */
  ghost predicate Collected(seen: seq<ImportRecord>, playerStats: map<string, ImportStats>, order: seq<string>)
  {
    && order == Names(seen)
    && (forall u :: u in playerStats <==> u in order)
    && (forall u :: u in playerStats ==> playerStats[u] == StatsOf(seen, u))
  }

  /** The property names every plain object inherits from
      `Object.prototype`. `playerStats` is a plain object `{}`, so
      `playerStats[u]` is already truthy for these names: the entry is never
      created, and `.rounds.push` on the inherited value throws a TypeError. */
  const InheritedKeys: set<string> := {
    "constructor", "__proto__", "__defineGetter__", "__defineSetter__",
    "__lookupGetter__", "__lookupSetter__", "hasOwnProperty", "isPrototypeOf",
    "propertyIsEnumerable", "toLocaleString", "toString", "valueOf"
  }

  /** Some record's username is an inherited property name, so the
      grouping loop throws. */
  predicate GroupingThrows(recs: seq<ImportRecord>)
  {
    exists j :: 0 <= j < |recs| && recs[j].username in InheritedKeys
  }

  /** Record k is the first whose username is an inherited property name. */
  predicate FirstThrow(recs: seq<ImportRecord>, k: int)
  {
    && 0 <= k < |recs|
    && recs[k].username in InheritedKeys
    && forall j :: 0 <= j < k ==> recs[j].username !in InheritedKeys
  }

  /** `allPlayers.forEach(player => ...)` filling `playerStats`. It throws at
      the first record whose username `Object.prototype` already provides,
      holding what the records before it built. */
  method CollectStats(allPlayers: seq<ImportRecord>)
    returns (playerStats: map<string, ImportStats>, order: seq<string>, threw: bool)
    ensures threw <==> GroupingThrows(allPlayers)
    ensures !threw ==> Collected(allPlayers, playerStats, order)
    ensures threw ==> exists k :: FirstThrow(allPlayers, k) && Collected(allPlayers[..k], playerStats, order)
  {
    playerStats, order, threw := map[], [], false;
    for i := 0 to |allPlayers|
      invariant Collected(allPlayers[..i], playerStats, order)
      invariant !GroupingThrows(allPlayers[..i])
    {
      if allPlayers[i].username in InheritedKeys {
        threw := true;
        ThrowsAt(allPlayers, i);
        return;
      }
      NoThrowSnoc(allPlayers, i);
      assert allPlayers[..i + 1] == allPlayers[..i] + [allPlayers[i]];
      playerStats, order := Visit(playerStats, order, allPlayers[i], allPlayers[..i]);
    }
    assert allPlayers[..|allPlayers|] == allPlayers;
  }

  /** The import aborts exactly when some kept leaderboard row, in any
      round of any response, has a username `Object.prototype` provides. */
  lemma InheritedNameAborts(responses: seq<ApiResponse>)
    ensures GroupingThrows(AllRecords(responses)) <==>
              exists i, k, j :: KeptRow(responses, i, k, j) && responses[i][k].value[j].username in InheritedKeys
  {
    var recs := AllRecords(responses);
    AllRecordsSpec(responses);
    if GroupingThrows(recs) {
      var n :| 0 <= n < |recs| && recs[n].username in InheritedKeys;
      assert recs[n] in recs;
      var i, k, j :| KeptRow(responses, i, k, j) && recs[n] == ToRecord(responses[i][k].value[j], FirstRoundId + i + k);
      assert responses[i][k].value[j].username in InheritedKeys;
    }
    if exists i, k, j :: KeptRow(responses, i, k, j) && responses[i][k].value[j].username in InheritedKeys {
      var i, k, j :| KeptRow(responses, i, k, j) && responses[i][k].value[j].username in InheritedKeys;
      var r := ToRecord(responses[i][k].value[j], FirstRoundId + i + k);
      assert r in recs;
      var n :| 0 <= n < |recs| && recs[n] == r;
      assert recs[n].username in InheritedKeys;
    }
  }

  /** The loop stops at the first inherited name, and that is a throw. */
  lemma ThrowsAt(recs: seq<ImportRecord>, i: int)
    requires 0 <= i < |recs| && recs[i].username in InheritedKeys
    requires !GroupingThrows(recs[..i])
    ensures FirstThrow(recs, i) && GroupingThrows(recs)
  {
    forall j | 0 <= j < i
      ensures recs[j].username !in InheritedKeys
    {
      assert recs[..i][j] == recs[j];
    }
  }

  /** A record whose name is an own key keeps the prefix free of throws. */
  lemma NoThrowSnoc(recs: seq<ImportRecord>, i: int)
    requires 0 <= i < |recs| && recs[i].username !in InheritedKeys
    requires !GroupingThrows(recs[..i])
    ensures !GroupingThrows(recs[..i + 1])
  {
    var prefix := recs[..i + 1];
    forall j | 0 <= j < |prefix|
      ensures prefix[j].username !in InheritedKeys
    {
      if j < i {
        assert prefix[j] == recs[..i][j];
      }
    }
  }

  /** The body of that loop for one record. */
  method Visit(playerStats: map<string, ImportStats>, order: seq<string>, player: ImportRecord,
               ghost seen: seq<ImportRecord>)
    returns (playerStats': map<string, ImportStats>, order': seq<string>)
    requires Collected(seen, playerStats, order)
    ensures Collected(seen + [player], playerStats', order')
  {
    playerStats', order' := playerStats, order;
    if player.username !in playerStats {
      playerStats' := playerStats[player.username := EmptyStats(player.username)];
      order' := order + [player.username];
    }
    ghost var prev := if player.username in playerStats then playerStats[player.username] else EmptyStats(player.username);
    var stats := playerStats'[player.username];
    assert stats == prev;
    var cards := AddCards(stats.cards, player.cards);
    stats := ImportStats(stats.username, stats.appearances + 1, stats.rounds + [player.roundId],
                         MinPosition(stats.bestPosition, player.position), cards);
    assert stats == Absorb(prev, player);
    playerStats' := playerStats'[player.username := stats];
    assert playerStats' == playerStats[player.username := Absorb(prev, player)];
    CollectedStep(seen, player, playerStats, order);
  }

  /** One record extends the collected state: its player's statistics absorb
      it, after an empty entry if the player is new. */
  lemma CollectedStep(seen: seq<ImportRecord>, player: ImportRecord,
                      playerStats: map<string, ImportStats>, order: seq<string>)
    requires Collected(seen, playerStats, order)
    ensures var u := player.username;
      var prev := if u in playerStats then playerStats[u] else EmptyStats(u);
      Collected(seen + [player], playerStats[u := Absorb(prev, player)],
                if u in playerStats then order else order + [u])
  {
    var u := player.username;
    var all := seen + [player];
    var prev := if u in playerStats then playerStats[u] else EmptyStats(u);
    var m := playerStats[u := Absorb(prev, player)];
    var order' := if u in playerStats then order else order + [u];
    NamesSnoc(seen, player);
    assert u in playerStats <==> u in Names(seen);
    assert order' == Names(all);
    if u !in playerStats {
      assert u !in Usernames(seen);
      NotSeenStats(seen, u);
    }
    forall v
      ensures v in m <==> v in order'
    {
    }
    forall v | v in m
      ensures m[v] == StatsOf(all, v)
    {
      StatsSnoc(seen, player, v);
    }
    assert Collected(all, m, order');
  }

  /** The inner `forEach` over the record's cards. */
  method AddCards(cards: seq<Option<CardId>>, more: seq<Option<CardId>>) returns (r: seq<Option<CardId>>)
    ensures r == AppendNew(cards, more)
  {
    r := cards;
    for j := 0 to |more|
      invariant r == AppendNew(cards, more[..j])
    {
      assert more[..j + 1][..j] == more[..j];
      if more[j] !in r {
        r := r + [more[j]];
      }
    }
    assert more[..|more|] == more;
  }

  /** One more record adds its player's name at the end, if it is new. */
  lemma NamesSnoc(recs: seq<ImportRecord>, r: ImportRecord)
    ensures Names(recs + [r]) == if r.username in Names(recs) then Names(recs) else Names(recs) + [r.username]
  {
    assert Usernames(recs + [r]) == Usernames(recs) + [r.username];
    DistinctSnoc(Usernames(recs), r.username);
  }

  /** One more record changes the statistics of its own player only. */
  lemma StatsSnoc(recs: seq<ImportRecord>, r: ImportRecord, u: string)
    ensures StatsOf(recs + [r], u) == if r.username == u then Absorb(StatsOf(recs, u), r) else StatsOf(recs, u)
  {
    var all := recs + [r];
    assert all[..|all| - 1] == recs;
  }

  lemma {:induction false} NotSeenStats(recs: seq<ImportRecord>, u: string)
    requires u !in Usernames(recs)
    ensures StatsOf(recs, u) == EmptyStats(u)
  {
    if recs != [] {
      var init := recs[..|recs| - 1];
      assert Usernames(recs) == Usernames(init) + [recs[|recs| - 1].username];
      NotSeenStats(init, u);
    }
  }
}
