/** The deck tracker of utils/deckTracker.js: the index of processed deck ids,
    the decision taken for each observed play (skip, new deck, updated deck),
    the batch `processNewDecks` runs over a list of plays, and the
    `DeckTracker` object that holds the two maps and updates them in place.
    The JSON files the maps are loaded from and saved to are not modelled:
    `DeckTracker.Restore` stands for a tracker initialised from saved data. */
module DeckTracking {
  import opened Common
  import opened Sorting
  import opened DeckHistory
  import PlayerMatching

  // ---------------------------------------------------------------------------
  // Deck ids and the processed index

  /** `${username}_${roundId}_${createdAt}`. */
  function DeckId(username: string, createdAt: int, roundId: int): string
  {
    username + "_" + IntToString(roundId) + "_" + IntToString(createdAt)
  }

  /** Rendered integers contain no underscore, so the two last underscores
      of an id are its separators: different plays never share an id, even
      when usernames contain underscores. */
  lemma DeckIdInjective(u: string, c: int, r: int, u': string, c': int, r': int)
    ensures DeckId(u, c, r) == DeckId(u', c', r') <==> u == u' && c == c' && r == r'
  {
    if DeckId(u, c, r) == DeckId(u', c', r') {
      SplitAtLastUnderscore(u + "_" + IntToString(r), IntToString(c),
                            u' + "_" + IntToString(r'), IntToString(c'));
      SplitAtLastUnderscore(u, IntToString(r), u', IntToString(r'));
      IntToStringInjective(r, r');
      IntToStringInjective(c, c');
    }
  }

  /** username -> the set of ids of that player's decks already handled. */
  type ProcessedIndex = map<string, set<string>>

  /** username -> that player's deck history. */
  type History = map<string, seq<HistoryEntry>>

  /** `isDeckProcessed`. */
  predicate IsProcessedIn(processed: ProcessedIndex, username: string, createdAt: int, roundId: int)
  {
    username in processed && DeckId(username, createdAt, roundId) in processed[username]
  }

  /** `markDeckAsProcessed`. */
  function MarkProcessed(processed: ProcessedIndex, username: string, createdAt: int, roundId: int): ProcessedIndex
  {
    var ids := if username in processed then processed[username] else {};
    processed[username := ids + {DeckId(username, createdAt, roundId)}]
  }

  /** After marking, exactly the marked play is processed in addition to the
      ones processed before; the index gains at most the player's key. */
  lemma MarkProcessedSpec(processed: ProcessedIndex, username: string, createdAt: int, roundId: int)
    ensures var r := MarkProcessed(processed, username, createdAt, roundId);
      && r.Keys == processed.Keys + {username}
      && (forall u, c, k :: IsProcessedIn(r, u, c, k) <==>
            IsProcessedIn(processed, u, c, k) || (u == username && c == createdAt && k == roundId))
  {
    var r := MarkProcessed(processed, username, createdAt, roundId);
    forall u, c, k
      ensures IsProcessedIn(r, u, c, k) <==>
                IsProcessedIn(processed, u, c, k) || (u == username && c == createdAt && k == roundId)
    {
      DeckIdInjective(u, c, k, username, createdAt, roundId);
    }
  }

  /** Marking an already processed play changes nothing. */
  lemma MarkProcessedIdempotent(processed: ProcessedIndex, username: string, createdAt: int, roundId: int)
    requires IsProcessedIn(processed, username, createdAt, roundId)
    ensures MarkProcessed(processed, username, createdAt, roundId) == processed
  {
    var r := MarkProcessed(processed, username, createdAt, roundId);
    assert r[username] == processed[username];
    assert r.Keys == processed.Keys;
  }

  function HistoryOf(history: History, username: string): seq<HistoryEntry>
  {
    if username in history then history[username] else []
  }

  /** `isDeckUpdate`: the player's first history entry of the round exists
      and was created strictly earlier than the play. */
  predicate IsUpdateIn(history: History, username: string, roundId: int, createdAt: int)
  {
    username in history &&
    match FirstInRound(history[username], roundId)
    case None => false
    case Some(e) => CreatedAt(e) != createdAt && createdAt > CreatedAt(e)
  }

  /** `hasDeckInRound`. */
  predicate HasDeckInRoundIn(history: History, username: string, roundId: int)
  {
    username in history && HasRoundEntry(history[username], roundId)
  }

  // ---------------------------------------------------------------------------
  // One play

  /** One element of the live-plays feed: the card objects of `play` are
      represented by their `cardId`s. */
  datatype Play = Play(username: string, createdAt: int, roundId: int,
                       play: Option<seq<Option<CardId>>>, modifiers: Option<seq<string>>)

  /** The player a play is attributed to: with a non-empty hot list, the
      first hot player of that name, if any; without one, everybody is
      tracked as a non-hot player seen once. */
  function TrackedPlayer(username: string, hotPlayers: seq<HotPlayer>): (r: Option<HotPlayer>)
    ensures |hotPlayers| == 0 ==> r == Some(HotPlayer(username, false, 1, []))
    ensures |hotPlayers| > 0 ==> (r.None? <==> forall i :: 0 <= i < |hotPlayers| ==> hotPlayers[i].username != username)
    ensures |hotPlayers| > 0 && r.Some? ==> r.value in hotPlayers && r.value.username == username
  {
    if |hotPlayers| > 0 then PlayerMatching.MatchTopPlayer(username, hotPlayers)
    else Some(HotPlayer(username, false, 1, []))
  }

  /** The `deckData` record of a play by a tracked player. */
  function MakeDeck(p: Play, player: HotPlayer, now: Stamp): Deck
  {
    Deck(p.username, if player.isHot then Hot else Top, player.isHot, player.appearances,
         if p.play.Some? then p.play.value else [],
         if p.modifiers.Some? then p.modifiers.value else [],
         p.createdAt, p.roundId, now)
  }

  datatype TrackerState = TrackerState(processed: ProcessedIndex, history: History)

  predicate ValidState(s: TrackerState)
  {
    forall u :: u in s.history ==> WellFormed(s.history[u])
  }

  datatype Outcome = Skipped | Added(deck: Deck) | Updated(deck: Deck)

  datatype StepResult = StepResult(state: TrackerState, outcome: Outcome)

  /** Mark the deck's play as processed and add the deck to its player's
      history. */
  function Record(s: TrackerState, d: Deck, now: Stamp): TrackerState
  {
    TrackerState(MarkProcessed(s.processed, d.username, d.createdAt, d.roundId),
                 s.history[d.username := AddedToHistory(HistoryOf(s.history, d.username), d, now)])
  }

  /** The body of the `processNewDecks` loop for one play; `now` is the
      wall-clock stamp put on the deck and its history entry. */
  function Step(s: TrackerState, p: Play, hotPlayers: seq<HotPlayer>, now: Stamp): StepResult
  {
    if IsSeal(p.username) then StepResult(s, Skipped)
    else match TrackedPlayer(p.username, hotPlayers)
      case None => StepResult(s, Skipped)
      case Some(player) =>
        if IsProcessedIn(s.processed, p.username, p.createdAt, p.roundId) then StepResult(s, Skipped)
        else Emit(s, p, player, now)
  }

  /** The rest of the loop body once a play has passed the filters: emit it
      as an update, skip it, or emit it as a new deck. */
  function Emit(s: TrackerState, p: Play, player: HotPlayer, now: Stamp): StepResult
  {
    var d := MakeDeck(p, player, now);
    if IsUpdateIn(s.history, p.username, p.roundId, p.createdAt) then StepResult(Record(s, d, now), Updated(d))
    else if HasDeckInRoundIn(s.history, p.username, p.roundId) then StepResult(s, Skipped)
    else StepResult(Record(s, d, now), Added(d))
  }

  /** The state changes only when a deck is emitted; an emitted deck is the
      play's deck for its tracked player, its play was not processed before
      and is processed after, and the deck has been put into its player's
      history. A new deck is one whose round has no entry yet; an updated
      deck is one strictly newer than the round's first entry. */
  lemma StepSpec(s: TrackerState, p: Play, hotPlayers: seq<HotPlayer>, now: Stamp)
    ensures var r := Step(s, p, hotPlayers, now);
      && (r.outcome.Skipped? ==> r.state == s)
      && (!r.outcome.Skipped? ==>
            && !IsSeal(p.username)
            && TrackedPlayer(p.username, hotPlayers).Some?
            && r.outcome.deck == MakeDeck(p, TrackedPlayer(p.username, hotPlayers).value, now)
            && !IsProcessedIn(s.processed, p.username, p.createdAt, p.roundId)
            && r.state == Record(s, r.outcome.deck, now))
      && (r.outcome.Added? ==> !HasDeckInRoundIn(s.history, p.username, p.roundId))
      && (r.outcome.Updated? ==>
            var e := FirstInRound(HistoryOf(s.history, p.username), p.roundId);
            e.Some? && CreatedAt(e.value) < p.createdAt)
  {
  }

  /** A play that is not excluded, is tracked and is not yet processed is
      emitted exactly when its round has no entry yet or it is strictly newer
      than the round's first entry. */
  lemma StepEmitsFreshPlays(s: TrackerState, p: Play, hotPlayers: seq<HotPlayer>, now: Stamp)
    requires !IsSeal(p.username) && TrackedPlayer(p.username, hotPlayers).Some?
    requires !IsProcessedIn(s.processed, p.username, p.createdAt, p.roundId)
    ensures var r := Step(s, p, hotPlayers, now);
      && (r.outcome.Added? <==> !HasDeckInRoundIn(s.history, p.username, p.roundId))
      && (r.outcome.Updated? <==> IsUpdateIn(s.history, p.username, p.roundId, p.createdAt))
  {
    var h := HistoryOf(s.history, p.username);
    if IsUpdateIn(s.history, p.username, p.roundId, p.createdAt) {
      assert HasRoundEntry(h, p.roundId);
    }
  }

  /** Recording a deck processes its play and keeps every history well
      formed. */
  lemma RecordSpec(s: TrackerState, d: Deck, now: Stamp)
    requires ValidState(s)
    ensures ValidState(Record(s, d, now))
    ensures IsProcessedIn(Record(s, d, now).processed, d.username, d.createdAt, d.roundId)
    ensures forall u, c, k :: IsProcessedIn(s.processed, u, c, k) ==> IsProcessedIn(Record(s, d, now).processed, u, c, k)
  {
    MarkProcessedSpec(s.processed, d.username, d.createdAt, d.roundId);
  }

  // ---------------------------------------------------------------------------
  // A batch of plays

  datatype BatchResult = BatchResult(state: TrackerState, newDecks: seq<Deck>, updatedDecks: seq<Deck>)

  function NewOf(o: Outcome): seq<Deck>
  {
    if o.Added? then [o.deck] else []
  }

  function UpdatedOf(o: Outcome): seq<Deck>
  {
    if o.Updated? then [o.deck] else []
  }

  /** `processNewDecks` over `plays`, in order, from state `s`. */
  function Run(s: TrackerState, plays: seq<Play>, hotPlayers: seq<HotPlayer>, now: Stamp): BatchResult
    decreases |plays|
  {
    if plays == [] then BatchResult(s, [], [])
    else
      var prev := Run(s, plays[..|plays| - 1], hotPlayers, now);
      var step := Step(prev.state, plays[|plays| - 1], hotPlayers, now);
      BatchResult(step.state, prev.newDecks + NewOf(step.outcome), prev.updatedDecks + UpdatedOf(step.outcome))
  }

  predicate IsEmitted(r: BatchResult, d: Deck)
  {
    d in r.newDecks || d in r.updatedDecks
  }

  /** A batch keeps every history well formed. */
  lemma {:induction false} RunPreservesValid(s: TrackerState, plays: seq<Play>, hotPlayers: seq<HotPlayer>, now: Stamp)
    requires ValidState(s)
    ensures ValidState(Run(s, plays, hotPlayers, now).state)
  {
    if plays != [] {
      var prev := Run(s, plays[..|plays| - 1], hotPlayers, now);
      RunPreservesValid(s, plays[..|plays| - 1], hotPlayers, now);
      var step := Step(prev.state, plays[|plays| - 1], hotPlayers, now);
      StepSpec(prev.state, plays[|plays| - 1], hotPlayers, now);
      if !step.outcome.Skipped? {
        RecordSpec(prev.state, step.outcome.deck, now);
      }
    }
  }

  /** Processed plays stay processed through a batch. */
  lemma {:induction false} RunKeepsProcessed(s: TrackerState, plays: seq<Play>, hotPlayers: seq<HotPlayer>, now: Stamp,
                                             u: string, c: int, k: int)
    requires IsProcessedIn(s.processed, u, c, k)
    ensures IsProcessedIn(Run(s, plays, hotPlayers, now).state.processed, u, c, k)
  {
    if plays != [] {
      var prev := Run(s, plays[..|plays| - 1], hotPlayers, now);
      RunKeepsProcessed(s, plays[..|plays| - 1], hotPlayers, now, u, c, k);
      StepKeepsProcessed(prev.state, plays[|plays| - 1], hotPlayers, now, u, c, k);
    }
  }

  /** One play keeps a processed play processed. */
  lemma StepKeepsProcessed(s: TrackerState, p: Play, hotPlayers: seq<HotPlayer>, now: Stamp,
                           u: string, c: int, k: int)
    requires IsProcessedIn(s.processed, u, c, k)
    ensures IsProcessedIn(Step(s, p, hotPlayers, now).state.processed, u, c, k)
  {
    var step := Step(s, p, hotPlayers, now);
    StepSpec(s, p, hotPlayers, now);
    if !step.outcome.Skipped? {
      RecordKeepsProcessed(s, step.outcome.deck, now, u, c, k);
    }
  }

  /** One play that emits a deck marks that deck's play as processed. */
  lemma StepMarks(s: TrackerState, p: Play, hotPlayers: seq<HotPlayer>, now: Stamp)
    requires !Step(s, p, hotPlayers, now).outcome.Skipped?
    ensures var step := Step(s, p, hotPlayers, now);
      IsProcessedIn(step.state.processed, step.outcome.deck.username, step.outcome.deck.createdAt, step.outcome.deck.roundId)
  {
    var step := Step(s, p, hotPlayers, now);
    StepSpec(s, p, hotPlayers, now);
    MarkProcessedSpec(s.processed, step.outcome.deck.username, step.outcome.deck.createdAt, step.outcome.deck.roundId);
  }

  /** Recording a deck keeps a processed play processed. */
  lemma RecordKeepsProcessed(s: TrackerState, d: Deck, now: Stamp, u: string, c: int, k: int)
    requires IsProcessedIn(s.processed, u, c, k)
    ensures IsProcessedIn(Record(s, d, now).processed, u, c, k)
  {
    MarkProcessedSpec(s.processed, d.username, d.createdAt, d.roundId);
  }

  /** Processed plays stay processed, and every emitted deck's play is
      processed once the batch is over. */
  lemma RunMarksEmitted(s: TrackerState, plays: seq<Play>, hotPlayers: seq<HotPlayer>, now: Stamp)
    ensures var r := Run(s, plays, hotPlayers, now);
      && (forall u, c, k :: IsProcessedIn(s.processed, u, c, k) ==> IsProcessedIn(r.state.processed, u, c, k))
      && (forall d :: IsEmitted(r, d) ==> IsProcessedIn(r.state.processed, d.username, d.createdAt, d.roundId))
  {
    forall u, c, k | IsProcessedIn(s.processed, u, c, k)
      ensures IsProcessedIn(Run(s, plays, hotPlayers, now).state.processed, u, c, k)
    {
      RunKeepsProcessed(s, plays, hotPlayers, now, u, c, k);
    }
    forall d | IsEmitted(Run(s, plays, hotPlayers, now), d)
      ensures IsProcessedIn(Run(s, plays, hotPlayers, now).state.processed, d.username, d.createdAt, d.roundId)
    {
      RunMarksDeck(s, plays, hotPlayers, now, d);
    }
  }

  /** An emitted deck's play is processed at the end of the batch. */
  lemma {:induction false} RunMarksDeck(s: TrackerState, plays: seq<Play>, hotPlayers: seq<HotPlayer>, now: Stamp, d: Deck)
    requires IsEmitted(Run(s, plays, hotPlayers, now), d)
    ensures IsProcessedIn(Run(s, plays, hotPlayers, now).state.processed, d.username, d.createdAt, d.roundId)
  {
    var init := plays[..|plays| - 1];
    var prev := Run(s, init, hotPlayers, now);
    var p := plays[|plays| - 1];
    if IsEmitted(prev, d) {
      RunMarksDeck(s, init, hotPlayers, now, d);
      StepKeepsProcessed(prev.state, p, hotPlayers, now, d.username, d.createdAt, d.roundId);
    } else {
      StepMarks(prev.state, p, hotPlayers, now);
    }
  }

  /** Every emitted deck comes from a play that was not processed when the
      batch started, and no play is emitted twice within a batch. */
  lemma {:induction false} RunEmitsOnlyUnprocessed(s: TrackerState, plays: seq<Play>, hotPlayers: seq<HotPlayer>, now: Stamp)
    ensures var r := Run(s, plays, hotPlayers, now);
      forall d :: IsEmitted(r, d) ==> !IsProcessedIn(s.processed, d.username, d.createdAt, d.roundId)
  {
    if plays != [] {
      var prev := Run(s, plays[..|plays| - 1], hotPlayers, now);
      RunEmitsOnlyUnprocessed(s, plays[..|plays| - 1], hotPlayers, now);
      RunMarksEmitted(s, plays[..|plays| - 1], hotPlayers, now);
      StepSpec(prev.state, plays[|plays| - 1], hotPlayers, now);
    }
  }

  /** Running the same plays again (from the state the first run left) never
      emits a deck for a play the first run emitted. */
  lemma RerunNeverReemits(s: TrackerState, plays: seq<Play>, hotPlayers: seq<HotPlayer>, now: Stamp, later: Stamp)
    ensures var r1 := Run(s, plays, hotPlayers, now);
      var r2 := Run(r1.state, plays, hotPlayers, later);
      forall d1, d2 :: IsEmitted(r1, d1) && IsEmitted(r2, d2) ==>
        (d1.username, d1.createdAt, d1.roundId) != (d2.username, d2.createdAt, d2.roundId)
  {
    var r1 := Run(s, plays, hotPlayers, now);
    RunMarksEmitted(s, plays, hotPlayers, now);
    RunEmitsOnlyUnprocessed(r1.state, plays, hotPlayers, later);
  }

  /** Player `u`'s entries in both maps are the same in `s` and `t`. */
  predicate SameEntries(s: TrackerState, t: TrackerState, u: string)
  {
    && (u in t.processed <==> u in s.processed)
    && (u in s.processed ==> t.processed[u] == s.processed[u])
    && (u in t.history <==> u in s.history)
    && (u in s.history ==> t.history[u] == s.history[u])
  }

  /** A batch leaves the excluded player's entries untouched. */
  lemma {:induction false} RunKeepsSealEntries(s: TrackerState, plays: seq<Play>, hotPlayers: seq<HotPlayer>, now: Stamp, u: string)
    requires IsSeal(u)
    ensures SameEntries(s, Run(s, plays, hotPlayers, now).state, u)
  {
    if plays != [] {
      var prev := Run(s, plays[..|plays| - 1], hotPlayers, now);
      RunKeepsSealEntries(s, plays[..|plays| - 1], hotPlayers, now, u);
      var step := Step(prev.state, plays[|plays| - 1], hotPlayers, now);
      StepSpec(prev.state, plays[|plays| - 1], hotPlayers, now);
      if !step.outcome.Skipped? {
        assert step.outcome.deck.username != u;
        assert SameEntries(prev.state, step.state, u);
      }
    }
  }

  /** No deck of the excluded player is ever emitted. */
  lemma {:induction false} RunEmitsNoSeal(s: TrackerState, plays: seq<Play>, hotPlayers: seq<HotPlayer>, now: Stamp)
    ensures forall d :: IsEmitted(Run(s, plays, hotPlayers, now), d) ==> !IsSeal(d.username)
  {
    if plays != [] {
      var prev := Run(s, plays[..|plays| - 1], hotPlayers, now);
      RunEmitsNoSeal(s, plays[..|plays| - 1], hotPlayers, now);
      StepSpec(prev.state, plays[|plays| - 1], hotPlayers, now);
    }
  }

  /** No deck of the excluded player is ever emitted, and the excluded
      player's entries in both maps are left untouched. */
  lemma RunExcludesSeal(s: TrackerState, plays: seq<Play>, hotPlayers: seq<HotPlayer>, now: Stamp)
    ensures var r := Run(s, plays, hotPlayers, now);
      && (forall d :: IsEmitted(r, d) ==> !IsSeal(d.username))
      && (forall u :: IsSeal(u) ==> SameEntries(s, r.state, u))
  {
    RunEmitsNoSeal(s, plays, hotPlayers, now);
    forall u | IsSeal(u)
      ensures SameEntries(s, Run(s, plays, hotPlayers, now).state, u)
    {
      RunKeepsSealEntries(s, plays, hotPlayers, now, u);
    }
  }

  /** Without a hot list every emitted deck is a "Top" deck of a non-hot
      player seen once. */
  lemma {:induction false} RunWithoutHotList(s: TrackerState, plays: seq<Play>, now: Stamp)
    ensures var r := Run(s, plays, [], now);
      forall d :: IsEmitted(r, d) ==> d.status == Top && !d.isHot && d.appearances == 1
  {
    if plays != [] {
      var prev := Run(s, plays[..|plays| - 1], [], now);
      RunWithoutHotList(s, plays[..|plays| - 1], now);
      if !Step(prev.state, plays[|plays| - 1], [], now).outcome.Skipped? {
        StepDeck(prev.state, plays[|plays| - 1], [], now);
      }
    }
  }

  /** With a hot list, every emitted deck belongs to a player on it and
      carries that player's status and appearance count. */
  lemma {:induction false} RunWithHotList(s: TrackerState, plays: seq<Play>, hotPlayers: seq<HotPlayer>, now: Stamp)
    requires |hotPlayers| > 0
    ensures var r := Run(s, plays, hotPlayers, now);
      forall d :: IsEmitted(r, d) ==> DescribedBy(d, hotPlayers)
  {
    if plays != [] {
      var prev := Run(s, plays[..|plays| - 1], hotPlayers, now);
      RunWithHotList(s, plays[..|plays| - 1], hotPlayers, now);
      var p := plays[|plays| - 1];
      if !Step(prev.state, p, hotPlayers, now).outcome.Skipped? {
        StepDescribed(prev.state, p, hotPlayers, now);
      }
    }
  }

  /** With a hot list, the deck of an emitted play is described by it. */
  lemma StepDescribed(s: TrackerState, p: Play, hotPlayers: seq<HotPlayer>, now: Stamp)
    requires |hotPlayers| > 0 && !Step(s, p, hotPlayers, now).outcome.Skipped?
    ensures DescribedBy(Step(s, p, hotPlayers, now).outcome.deck, hotPlayers)
  {
    StepDeck(s, p, hotPlayers, now);
    var t := TrackedPlayer(p.username, hotPlayers).value;
    var i :| 0 <= i < |hotPlayers| && hotPlayers[i] == t;
  }

  /** The deck carries the name, status and appearance count of a player on
      the hot list. */
  predicate DescribedBy(d: Deck, hotPlayers: seq<HotPlayer>)
  {
    exists i :: 0 <= i < |hotPlayers| && hotPlayers[i].username == d.username
      && d.isHot == hotPlayers[i].isHot && d.appearances == hotPlayers[i].appearances
      && d.status == (if d.isHot then Hot else Top)
  }

  /** An emitted deck is the play's deck for its tracked player. */
  lemma StepDeck(s: TrackerState, p: Play, hotPlayers: seq<HotPlayer>, now: Stamp)
    requires !Step(s, p, hotPlayers, now).outcome.Skipped?
    ensures !IsSeal(p.username) && TrackedPlayer(p.username, hotPlayers).Some?
    ensures Step(s, p, hotPlayers, now).outcome.deck == MakeDeck(p, TrackedPlayer(p.username, hotPlayers).value, now)
  {
  }

  /** A play for which the tracker has no use (the excluded player, a player
      off a non-empty hot list, or a play already processed) is skipped
      without any change to the state. */
  lemma {:induction false} RunSkipsIgnoredPlays(s: TrackerState, plays: seq<Play>, hotPlayers: seq<HotPlayer>, now: Stamp)
    requires forall i :: 0 <= i < |plays| ==>
      || IsSeal(plays[i].username)
      || (|hotPlayers| > 0 && forall j :: 0 <= j < |hotPlayers| ==> hotPlayers[j].username != plays[i].username)
      || IsProcessedIn(s.processed, plays[i].username, plays[i].createdAt, plays[i].roundId)
    ensures Run(s, plays, hotPlayers, now) == BatchResult(s, [], [])
  {
    if plays != [] {
      RunSkipsIgnoredPlays(s, plays[..|plays| - 1], hotPlayers, now);
    }
  }

  // ---------------------------------------------------------------------------
  // Statistics

  /** The sum of the values of a map of counts. */
  ghost function SumCounts(m: map<string, nat>): nat
    decreases |m|
  {
    if |m| == 0 then 0
    else
      var k := Pick(m);
      RemoveShrinks(m, k);
      m[k] + SumCounts(m - {k})
  }

  ghost function Pick(m: map<string, nat>): (k: string)
    requires |m| != 0
    ensures k in m
  {
    assert m.Keys != {} by {
      assert |m.Keys| == |m|;
    }
    var k :| k in m; k
  }

  lemma RemoveShrinks(m: map<string, nat>, k: string)
    requires k in m
    ensures |m - {k}| == |m| - 1
  {
    assert (m - {k}).Keys == m.Keys - {k};
    assert |m.Keys| == |m|;
  }

  /** The sum does not depend on the key taken first. */
  lemma {:induction false} SumCountsRemove(m: map<string, nat>, k: string)
    requires k in m
    ensures SumCounts(m) == m[k] + SumCounts(m - {k})
    decreases |m|
  {
    RemoveShrinks(m, k);
    var k' := Pick(m);
    if k' != k {
      RemoveShrinks(m, k');
      calc {
        SumCounts(m);
        m[k'] + SumCounts(m - {k'});
        { SumCountsRemove(m - {k'}, k); }
        m[k'] + (m[k] + SumCounts(m - {k'} - {k}));
        { assert m - {k'} - {k} == m - {k} - {k'}; }
        m[k] + (m[k'] + SumCounts(m - {k} - {k'}));
        { SumCountsRemove(m - {k}, k'); }
        m[k] + SumCounts(m - {k});
      }
    }
  }

  ghost function IdCounts(processed: ProcessedIndex, keys: set<string>): map<string, nat>
  {
    map u | u in processed && u in keys :: |processed[u]|
  }

  ghost function EntryCounts(history: History, keys: set<string>): map<string, nat>
  {
    map u | u in history && u in keys :: |history[u]|
  }

  /** The number of processed ids, over all players. */
  ghost function TotalIds(processed: ProcessedIndex): nat
  {
    SumCounts(IdCounts(processed, processed.Keys))
  }

  /** The number of history entries, over all players. */
  ghost function TotalEntries(history: History): nat
  {
    SumCounts(EntryCounts(history, history.Keys))
  }

  /** Replacing one player's set changes the total by the difference of the
      set sizes. */
  lemma TotalIdsUpdate(m: ProcessedIndex, u: string, v: set<string>)
    ensures TotalIds(m[u := v]) + (if u in m then |m[u]| else 0) == TotalIds(m) + |v|
  {
    var m' := m[u := v];
    var before, after := IdCounts(m, m.Keys), IdCounts(m', m'.Keys);
    SumCountsRemove(after, u);
    IdCountsOthers(m, u, v);
    if u in m {
      SumCountsRemove(before, u);
    } else {
      IdCountsAbsent(m, u);
    }
  }

  /** Replacing one player's set leaves the other players' counts alone. */
  lemma IdCountsOthers(m: ProcessedIndex, u: string, v: set<string>)
    ensures IdCounts(m[u := v], m[u := v].Keys) - {u} == IdCounts(m, m.Keys) - {u}
  {
  }

  /** A player without a set has no count. */
  lemma IdCountsAbsent(m: ProcessedIndex, u: string)
    requires u !in m
    ensures IdCounts(m, m.Keys) - {u} == IdCounts(m, m.Keys)
  {
  }

  /** Marking a play adds one id to the total exactly when the play was not
      processed before. */
  lemma MarkProcessedCount(processed: ProcessedIndex, username: string, createdAt: int, roundId: int)
    ensures TotalIds(MarkProcessed(processed, username, createdAt, roundId))
         == TotalIds(processed) + (if IsProcessedIn(processed, username, createdAt, roundId) then 0 else 1)
  {
    var id := DeckId(username, createdAt, roundId);
    var ids := if username in processed then processed[username] else {};
    TotalIdsUpdate(processed, username, ids + {id});
    if id in ids {
      assert ids + {id} == ids;
    } else {
      assert |ids + {id}| == |ids| + 1;
    }
  }

  datatype Stats = Stats(totalPlayers: nat, totalProcessedDecks: nat,
                         totalHistoryDecks: nat, playersWithHistory: nat)

  // ---------------------------------------------------------------------------
  // The tracker object

  class DeckTracker {
    var processedDecks: ProcessedIndex
    var deckHistory: History

    function State(): TrackerState
      reads this
    {
      TrackerState(processedDecks, deckHistory)
    }

    /** Every player's history is newest first and at most 50 long. */
    ghost predicate Valid()
      reads this
    {
      ValidState(State())
    }

    /** An empty tracker, as when no saved data exists. */
    constructor ()
      ensures processedDecks == map[] && deckHistory == map[]
      ensures Valid()
    {
      processedDecks := map[];
      deckHistory := map[];
    }

    /** A tracker initialised from saved maps. */
    constructor Restore(processed: ProcessedIndex, history: History)
      ensures processedDecks == processed && deckHistory == history
    {
      processedDecks := processed;
      deckHistory := history;
    }

    function IsDeckProcessed(username: string, createdAt: int, roundId: int): (b: bool)
      reads this
      ensures b ==> username in processedDecks
      ensures b <==> DeckId(username, createdAt, roundId) in (if username in processedDecks then processedDecks[username] else {})
    {
      IsProcessedIn(processedDecks, username, createdAt, roundId)
    }

    method MarkDeckAsProcessed(username: string, createdAt: int, roundId: int)
      modifies this
      ensures processedDecks == MarkProcessed(old(processedDecks), username, createdAt, roundId)
      ensures deckHistory == old(deckHistory)
    {
      var deckId := DeckId(username, createdAt, roundId);
      if username !in processedDecks {
        processedDecks := processedDecks[username := {}];
      }
      processedDecks := processedDecks[username := processedDecks[username] + {deckId}];
    }

    method AddDeckToHistory(username: string, deckData: Deck, now: Stamp)
      modifies this
      ensures deckHistory == old(deckHistory)[username := AddedToHistory(HistoryOf(old(deckHistory), username), deckData, now)]
      ensures processedDecks == old(processedDecks)
    {
      ghost var before := deckHistory;
      if username !in deckHistory {
        deckHistory := deckHistory[username := []];
      }
      assert deckHistory[username] == HistoryOf(before, username);
      var history := UpdatedHistory(deckHistory[username], deckData, now);
      deckHistory := deckHistory[username := history];
      assert deckHistory == before[username := history];
    }

    /** The list work of `addDeckToHistory` on one player's history: replace
        the entry of the same round and creation time or append a fresh one,
        sort newest first and keep the first 50. */
    static method UpdatedHistory(history: seq<HistoryEntry>, deckData: Deck, now: Stamp)
      returns (r: seq<HistoryEntry>)
      ensures r == AddedToHistory(history, deckData, now)
    {
      r := history;
      var existingIndex := FindSlot(r, deckData.roundId, deckData.createdAt);
      if existingIndex.Some? {
        var i := existingIndex.value;
        r := r[i := HistoryEntry(deckData, r[i].addedAt, Some(now), true)];
      } else {
        r := r + [FreshEntry(deckData, now)];
      }
      assert r == Upsert(history, deckData, now);
      r := SortDesc(r, CreatedAt);
      if |r| > HistoryLimit {
        r := r[..HistoryLimit];
      }
    }

    /** The play is strictly newer than the first entry of its round in
        the player's history; such a round always has an entry. */
    function IsDeckUpdate(username: string, roundId: int, createdAt: int): (b: bool)
      reads this
      ensures b <==> var e := FirstInRound(HistoryOf(deckHistory, username), roundId);
                     e.Some? && CreatedAt(e.value) < createdAt
      ensures b ==> HasDeckInRound(username, roundId)
    {
      if IsUpdateIn(deckHistory, username, roundId, createdAt) then
        assert HasRoundEntry(deckHistory[username], roundId);
        true
      else false
    }

    function HasDeckInRound(username: string, roundId: int): (b: bool)
      reads this
      ensures b ==> username in deckHistory
      ensures b <==> FirstInRound(HistoryOf(deckHistory, username), roundId).Some?
    {
      HasDeckInRoundIn(deckHistory, username, roundId)
    }

    /** `processNewDecks`: returns the decks of the plays seen for the first
        time, split into new decks and updates. */
    method ProcessNewDecks(latestPlays: seq<Play>, hotPlayers: seq<HotPlayer>, now: Stamp)
      returns (newDecks: seq<Deck>, updatedDecks: seq<Deck>)
      modifies this
      ensures BatchResult(State(), newDecks, updatedDecks) == Run(old(State()), latestPlays, hotPlayers, now)
      ensures old(Valid()) ==> Valid()
    {
      newDecks, updatedDecks := [], [];
      for i := 0 to |latestPlays|
        invariant BatchResult(State(), newDecks, updatedDecks) == Run(old(State()), latestPlays[..i], hotPlayers, now)
      {
        assert latestPlays[..i + 1][..i] == latestPlays[..i];
        var outcome := ProcessPlay(latestPlays[i], hotPlayers, now);
        newDecks := newDecks + NewOf(outcome);
        updatedDecks := updatedDecks + UpdatedOf(outcome);
      }
      assert latestPlays[..|latestPlays|] == latestPlays;
      if old(Valid()) {
        RunPreservesValid(old(State()), latestPlays, hotPlayers, now);
      }
    }

    /** One iteration of the `processNewDecks` loop; `Skipped` stands for
        each of its `continue`s. */
    method ProcessPlay(play: Play, hotPlayers: seq<HotPlayer>, now: Stamp) returns (outcome: Outcome)
      modifies this
      ensures StepResult(State(), outcome) == Step(old(State()), play, hotPlayers, now)
    {
      var username, createdAt, roundId := play.username, play.createdAt, play.roundId;
      if LowerString(username) == "seal" {
        return Skipped;
      }
      var topPlayer: HotPlayer;
      if |hotPlayers| > 0 {
        var found := PlayerMatching.MatchTopPlayer(username, hotPlayers);
        if found.None? {
          return Skipped;
        }
        topPlayer := found.value;
      } else {
        topPlayer := HotPlayer(username, false, 1, []);
      }
      if IsDeckProcessed(username, createdAt, roundId) {
        return Skipped;
      }
      outcome := EmitDeck(play, topPlayer, now);
    }

    /** The part of the loop body after the `continue`s for excluded,
        untracked and processed plays. */
    method EmitDeck(play: Play, topPlayer: HotPlayer, now: Stamp) returns (outcome: Outcome)
      modifies this
      ensures StepResult(State(), outcome) == Emit(old(State()), play, topPlayer, now)
    {
      var username, createdAt, roundId := play.username, play.createdAt, play.roundId;
      var deckData := MakeDeck(play, topPlayer, now);
      var isUpdate := IsDeckUpdate(username, roundId, createdAt);
      var hasExistingDeck := HasDeckInRound(username, roundId);
      if isUpdate {
        outcome := Updated(deckData);
      } else if hasExistingDeck {
        return Skipped;
      } else {
        outcome := Added(deckData);
      }
      MarkDeckAsProcessed(username, createdAt, roundId);
      AddDeckToHistory(username, deckData, now);
    }

    /** `cleanOldData` with the cutoff already computed from the clock: drops
        from every history the decks created before `cutoff`; the processed
        ids are kept. */
    method CleanOldData(cutoff: int)
      modifies this
      ensures processedDecks == old(processedDecks)
      ensures deckHistory.Keys == old(deckHistory).Keys
      ensures forall u :: u in deckHistory ==> deckHistory[u] == KeepRecent(old(deckHistory)[u], cutoff)
      ensures old(Valid()) ==> Valid()
    {
      var keys := deckHistory.Keys;
      while keys != {}
        invariant keys <= deckHistory.Keys == old(deckHistory).Keys
        invariant processedDecks == old(processedDecks)
        invariant forall u :: u in deckHistory && u !in keys ==> deckHistory[u] == KeepRecent(old(deckHistory)[u], cutoff)
        invariant forall u :: u in keys ==> deckHistory[u] == old(deckHistory)[u]
        decreases |keys|
      {
        var username :| username in keys;
        var decks := deckHistory[username];
        var filteredDecks := KeepRecent(decks, cutoff);
        if |filteredDecks| != |decks| {
          deckHistory := deckHistory[username := filteredDecks];
        }
        keys := keys - {username};
      }
      if old(Valid()) {
        forall u | u in deckHistory
          ensures WellFormed(deckHistory[u])
        {
          KeepRecentPrefix(old(deckHistory)[u], cutoff);
        }
      }
    }

    /** `getStats`: the numbers of players and of ids in the processed index
        and of players and entries in the history. */
    method GetStats() returns (stats: Stats)
      ensures stats.totalPlayers == |processedDecks|
      ensures stats.playersWithHistory == |deckHistory|
      ensures stats.totalProcessedDecks == TotalIds(processedDecks)
      ensures stats.totalHistoryDecks == TotalEntries(deckHistory)
    {
      var totalProcessedDecks := SumIds();
      var totalHistoryDecks := SumEntries();
      stats := Stats(|processedDecks|, totalProcessedDecks, totalHistoryDecks, |deckHistory|);
    }

    method SumIds() returns (total: nat)
      ensures total == TotalIds(processedDecks)
    {
      total := 0;
      var keys := processedDecks.Keys;
      while keys != {}
        invariant keys <= processedDecks.Keys
        invariant total + SumCounts(IdCounts(processedDecks, keys)) == TotalIds(processedDecks)
        decreases |keys|
      {
        var username :| username in keys;
        SumCountsRemove(IdCounts(processedDecks, keys), username);
        assert IdCounts(processedDecks, keys) - {username} == IdCounts(processedDecks, keys - {username});
        total := total + |processedDecks[username]|;
        keys := keys - {username};
      }
      assert IdCounts(processedDecks, keys) == map[];
    }

    method SumEntries() returns (total: nat)
      ensures total == TotalEntries(deckHistory)
    {
      total := 0;
      var keys := deckHistory.Keys;
      while keys != {}
        invariant keys <= deckHistory.Keys
        invariant total + SumCounts(EntryCounts(deckHistory, keys)) == TotalEntries(deckHistory)
        decreases |keys|
      {
        var username :| username in keys;
        SumCountsRemove(EntryCounts(deckHistory, keys), username);
        assert EntryCounts(deckHistory, keys) - {username} == EntryCounts(deckHistory, keys - {username});
        total := total + |deckHistory[username]|;
        keys := keys - {username};
      }
      assert EntryCounts(deckHistory, keys) == map[];
    }
  }
}
