/** The per-player deck history of utils/deckTracker.js: the records it keeps,
    the upsert-sort-cap of `addDeckToHistory`, the round queries
    `isDeckUpdate` / `hasDeckInRound` rely on, and the age filter of
    `cleanOldData`. Timestamps (`createdAt`) are integers; the wall-clock
    stamps `timestamp`, `addedAt` and `updatedAt` are opaque. */
module DeckHistory {
  import opened Common
  import opened Sorting

  /** At most this many decks are kept per player. */
  const HistoryLimit: nat := 50

  datatype Status = Hot | Top

  /** The `deckData` record built for one observed play. */
  datatype Deck = Deck(username: string, status: Status, isHot: bool, appearances: int,
                       cards: seq<Option<CardId>>, modifiers: seq<string>,
                       createdAt: int, roundId: int, timestamp: Stamp)

  /** A deck as stored in a player's history, with its bookkeeping fields. */
  datatype HistoryEntry = HistoryEntry(deck: Deck, addedAt: Option<Stamp>,
                                       updatedAt: Option<Stamp>, isUpdate: bool)

  function CreatedAt(e: HistoryEntry): int
  {
    e.deck.createdAt
  }

  /** What every mutation leaves behind: newest first, at most 50 entries. */
  predicate WellFormed(h: seq<HistoryEntry>)
  {
    SortedDesc(h, CreatedAt) && |h| <= HistoryLimit
  }

  predicate SameSlot(e: HistoryEntry, roundId: int, createdAt: int)
  {
    e.deck.roundId == roundId && e.deck.createdAt == createdAt
  }

  // ---------------------------------------------------------------------------
  // addDeckToHistory

  /** `history.findIndex(...)` for the entry of the same round and creation
      time. */
  function FindSlot(h: seq<HistoryEntry>, roundId: int, createdAt: int): (r: Option<nat>)
    ensures r.None? <==> forall j :: 0 <= j < |h| ==> !SameSlot(h[j], roundId, createdAt)
    ensures r.Some? ==> r.value < |h| && SameSlot(h[r.value], roundId, createdAt)
    ensures r.Some? ==> forall j :: 0 <= j < r.value ==> !SameSlot(h[j], roundId, createdAt)
  {
    if h == [] then None
    else if SameSlot(h[0], roundId, createdAt) then Some(0)
    else
      var r := FindSlot(h[1..], roundId, createdAt);
      assert forall j :: 1 <= j < |h| ==> h[j] == h[1..][j - 1];
      if r.Some? then Some(r.value + 1) else None
  }

  /** The entry `{...deckData, addedAt, isUpdate: false}` appended for a deck
      not yet in the history. */
  function FreshEntry(d: Deck, now: Stamp): HistoryEntry
  {
    HistoryEntry(d, Some(now), None, false)
  }

  /** The replace-or-append step, before sorting and capping. */
  function Upsert(h: seq<HistoryEntry>, d: Deck, now: Stamp): seq<HistoryEntry>
  {
    match FindSlot(h, d.roundId, d.createdAt)
    case Some(i) => h[i := HistoryEntry(d, h[i].addedAt, Some(now), true)]
    case None => h + [FreshEntry(d, now)]
  }

  /** An entry of the same round and creation time is replaced in place by
      the new deck, keeping its `addedAt`, with `updatedAt` set and `isUpdate`
      true, and nothing else moves; otherwise exactly one fresh entry with
      `isUpdate` false is appended. */
  lemma UpsertSpec(h: seq<HistoryEntry>, d: Deck, now: Stamp)
    ensures var r := Upsert(h, d, now);
      if exists j :: 0 <= j < |h| && SameSlot(h[j], d.roundId, d.createdAt) then
        |r| == |h| &&
        exists i :: 0 <= i < |h| && SameSlot(h[i], d.roundId, d.createdAt)
          && r[i] == HistoryEntry(d, h[i].addedAt, Some(now), true) && r[i].isUpdate
          && (forall j :: 0 <= j < |h| && j != i ==> r[j] == h[j])
      else
        r == h + [FreshEntry(d, now)] && !r[|h|].isUpdate
  {
  }

  /** `addDeckToHistory` on one player's history: upsert, sort newest first,
      keep the first 50. */
  function AddedToHistory(h: seq<HistoryEntry>, d: Deck, now: Stamp): (r: seq<HistoryEntry>)
    ensures WellFormed(r)
  {
    var sorted := SortDesc(Upsert(h, d, now), CreatedAt);
    if |sorted| > HistoryLimit then
      CutKeepsLargest(sorted, CreatedAt, HistoryLimit);
      sorted[..HistoryLimit]
    else sorted
  }

  /** The result holds what the upsert produced, newest first, as much of it
      as fits in 50; whatever was dropped is no newer than anything kept. */
  lemma AddedToHistorySpec(h: seq<HistoryEntry>, d: Deck, now: Stamp)
    ensures var up, r := Upsert(h, d, now), AddedToHistory(h, d, now);
      && WellFormed(r)
      && |r| == (if |up| > HistoryLimit then HistoryLimit else |up|)
      && multiset(r) <= multiset(up)
      && (forall x, y :: x in multiset(up) - multiset(r) && y in r ==> CreatedAt(y) >= CreatedAt(x))
  {
    var up := Upsert(h, d, now);
    var sorted := SortDesc(up, CreatedAt);
    if |sorted| > HistoryLimit {
      CutKeepsLargest(sorted, CreatedAt, HistoryLimit);
      var r := sorted[..HistoryLimit];
      forall x, y | x in multiset(up) - multiset(r) && y in r
        ensures CreatedAt(y) >= CreatedAt(x)
      {
        CutDropsNoLarger(sorted, CreatedAt, HistoryLimit, x, y);
      }
    }
  }

  /** A deck not yet in the history stays in it after the insertion, as a
      fresh entry, unless the history is full of 50 entries none of which is
      older than it. */
  lemma FreshEntryRetained(h: seq<HistoryEntry>, d: Deck, now: Stamp)
    requires FindSlot(h, d.roundId, d.createdAt).None?
    ensures var r := AddedToHistory(h, d, now);
      FreshEntry(d, now) in r
      || (|r| == HistoryLimit && forall y :: y in r ==> CreatedAt(y) >= d.createdAt)
  {
    AddedToHistorySpec(h, d, now);
    var up, r := Upsert(h, d, now), AddedToHistory(h, d, now);
    var e := FreshEntry(d, now);
    assert up == h + [e];
    assert e in multiset(up);
    if e !in r {
      assert e in multiset(up) - multiset(r);
    }
  }

  // ---------------------------------------------------------------------------
  // Round queries

  /** `history.find(deck => deck.roundId === roundId)`. */
  function FirstInRound(h: seq<HistoryEntry>, roundId: int): (r: Option<HistoryEntry>)
    ensures r.None? <==> forall j :: 0 <= j < |h| ==> h[j].deck.roundId != roundId
    ensures r.Some? ==> exists i :: 0 <= i < |h| && h[i] == r.value && h[i].deck.roundId == roundId
                          && forall j :: 0 <= j < i ==> h[j].deck.roundId != roundId
  {
    if h == [] then None
    else if h[0].deck.roundId == roundId then Some(h[0])
    else
      var r := FirstInRound(h[1..], roundId);
      assert forall j :: 1 <= j < |h| ==> h[j] == h[1..][j - 1];
      r
  }

  /** `history.some(deck => deck.roundId === roundId)`. */
  predicate HasRoundEntry(h: seq<HistoryEntry>, roundId: int)
  {
    exists j :: 0 <= j < |h| && h[j].deck.roundId == roundId
  }

  /** In a history sorted newest first, the entry `find` returns for a round
      is the newest of that round, so a play strictly newer than it matches
      no entry exactly: its insertion appends rather than replaces, leaving
      the earlier entry of the round in place beside it. */
  lemma NewerPlayIsAppended(h: seq<HistoryEntry>, d: Deck, now: Stamp)
    requires SortedDesc(h, CreatedAt)
    requires FirstInRound(h, d.roundId).Some?
    requires CreatedAt(FirstInRound(h, d.roundId).value) < d.createdAt
    ensures forall j :: 0 <= j < |h| && h[j].deck.roundId == d.roundId ==> CreatedAt(h[j]) < d.createdAt
    ensures FindSlot(h, d.roundId, d.createdAt).None?
    ensures Upsert(h, d, now) == h + [FreshEntry(d, now)]
  {
    FirstInRoundIsNewest(h, d.roundId);
  }

  /** In a history sorted newest first, `find` returns the newest entry of
      the round. */
  lemma FirstInRoundIsNewest(h: seq<HistoryEntry>, roundId: int)
    requires SortedDesc(h, CreatedAt)
    requires FirstInRound(h, roundId).Some?
    ensures forall j :: 0 <= j < |h| && h[j].deck.roundId == roundId
              ==> CreatedAt(h[j]) <= CreatedAt(FirstInRound(h, roundId).value)
  {
    var e := FirstInRound(h, roundId).value;
    var i :| 0 <= i < |h| && h[i] == e && h[i].deck.roundId == roundId
               && forall j :: 0 <= j < i ==> h[j].deck.roundId != roundId;
    forall j | 0 <= j < |h| && h[j].deck.roundId == roundId
      ensures CreatedAt(h[j]) <= CreatedAt(e)
    {
      assert i <= j;
    }
  }

  /** So below the cap an update keeps both entries of the round: the new
      history holds exactly the old entries plus the fresh one. */
  lemma UpdateKeepsEarlierEntry(h: seq<HistoryEntry>, d: Deck, now: Stamp)
    requires WellFormed(h) && |h| < HistoryLimit
    requires FirstInRound(h, d.roundId).Some?
    requires CreatedAt(FirstInRound(h, d.roundId).value) < d.createdAt
    ensures multiset(AddedToHistory(h, d, now)) == multiset(h) + multiset{FreshEntry(d, now)}
    ensures FirstInRound(h, d.roundId).value in AddedToHistory(h, d, now)
  {
    NewerPlayIsAppended(h, d, now);
    var r := AddedToHistory(h, d, now);
    assert multiset(r) == multiset(h + [FreshEntry(d, now)]);
    var e := FirstInRound(h, d.roundId).value;
    assert e in multiset(h);
    assert e in multiset(r);
  }

  // ---------------------------------------------------------------------------
  // cleanOldData

  /** `decks.filter(deck => deck.createdAt >= cutoff)`. */
  function KeepRecent(h: seq<HistoryEntry>, cutoff: int): (r: seq<HistoryEntry>)
    ensures |r| <= |h|
    ensures |r| == |h| ==> r == h
  {
    if h == [] then []
    else
      var rest := KeepRecent(h[1..], cutoff);
      assert h == [h[0]] + h[1..];
      if CreatedAt(h[0]) >= cutoff then [h[0]] + rest else rest
  }

  /** The filter keeps exactly the entries created at or after the cutoff,
      each as often as it occurred. */
  lemma {:induction false} KeepRecentCounts(h: seq<HistoryEntry>, cutoff: int)
    ensures forall e :: multiset(KeepRecent(h, cutoff))[e] == if CreatedAt(e) >= cutoff then multiset(h)[e] else 0
  {
    if h != [] {
      KeepRecentCounts(h[1..], cutoff);
      assert h == [h[0]] + h[1..];
    }
  }

  /** A history whose entries all precede the cutoff is emptied. */
  lemma {:induction false} KeepRecentNone(h: seq<HistoryEntry>, cutoff: int)
    requires forall j :: 0 <= j < |h| ==> CreatedAt(h[j]) < cutoff
    ensures KeepRecent(h, cutoff) == []
  {
    if h != [] {
      assert forall j :: 0 <= j < |h[1..]| ==> h[1..][j] == h[j + 1];
      KeepRecentNone(h[1..], cutoff);
    }
  }

  /** On a history sorted newest first the kept entries are a prefix of it,
      so the filtered history is still well formed. */
  lemma {:induction false} KeepRecentPrefix(h: seq<HistoryEntry>, cutoff: int)
    requires SortedDesc(h, CreatedAt)
    ensures KeepRecent(h, cutoff) == h[..|KeepRecent(h, cutoff)|]
    ensures WellFormed(h) ==> WellFormed(KeepRecent(h, cutoff))
  {
    var r := KeepRecent(h, cutoff);
    if h != [] {
      var t := h[1..];
      assert forall j :: 0 <= j < |t| ==> t[j] == h[j + 1];
      assert SortedDesc(t, CreatedAt);
      KeepRecentPrefix(t, cutoff);
      var rest := KeepRecent(t, cutoff);
      if CreatedAt(h[0]) >= cutoff {
        assert r == [h[0]] + t[..|rest|];
        assert h[..|r|] == [h[0]] + t[..|rest|];
      } else {
        assert forall j :: 0 <= j < |t| ==> CreatedAt(t[j]) <= CreatedAt(h[0]);
        KeepRecentNone(t, cutoff);
      }
    }
    CutKeepsLargest(h, CreatedAt, |r|);
  }
}
