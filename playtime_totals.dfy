/**
 * The dashboard's playtime aggregates: per-game and per-user totals of
 * effective playtime, the two leaderboards ranked by total (longest first),
 * and the per-game distribution in whole minutes.
 */
module PlaytimeTotals {
  import opened GameSessions
  import opened DurationFormat
  import opened JavaMath
  import opened SeqFacts

  /** Which field the totals are keyed by. */
  datatype Grouping = ByGame | ByUsername

  function KeyOf(s: GameSession, grouping: Grouping): string
  {
    match grouping
    case ByGame => s.game
    case ByUsername => s.username
  }

  /** The keys that occur among the sessions. */
  function KeysOf(sessions: seq<GameSession>, grouping: Grouping): set<string>
  {
    set i | 0 <= i < |sessions| :: KeyOf(sessions[i], grouping)
  }

  /** The reference total: effective playtime summed over the sessions whose key is `key`. */
  function GroupTotal(sessions: seq<GameSession>, grouping: Grouping, key: string, now: int): int
  {
    if sessions == [] then 0
    else
      var last := sessions[|sessions| - 1];
      GroupTotal(sessions[..|sessions| - 1], grouping, key, now) + (if KeyOf(last, grouping) == key then Effective(last, now) else 0)
  }

  /** A key that no session carries totals nothing. */
  lemma {:induction false} GroupTotalOfAbsentKey(sessions: seq<GameSession>, grouping: Grouping, key: string, now: int)
    requires key !in KeysOf(sessions, grouping)
    ensures GroupTotal(sessions, grouping, key, now) == 0
  {
    if sessions != [] {
      var init := sessions[..|sessions| - 1];
      assert KeysOf(init, grouping) <= KeysOf(sessions, grouping) by {
        forall k | k in KeysOf(init, grouping) ensures k in KeysOf(sessions, grouping) {
          var i :| 0 <= i < |init| && KeyOf(init[i], grouping) == k;
          assert sessions[i] == init[i];
        }
      }
      GroupTotalOfAbsentKey(init, grouping, key, now);
      assert KeyOf(sessions[|sessions| - 1], grouping) in KeysOf(sessions, grouping);
    }
  }

  /** Sessions that have all closed total the same at every later read. */
  lemma {:induction false} ClosedTotalsAreFrozen(sessions: seq<GameSession>, grouping: Grouping, key: string,
                                                 now: int, later: int)
    requires forall i :: 0 <= i < |sessions| ==> !sessions[i].active
    ensures GroupTotal(sessions, grouping, key, later) == GroupTotal(sessions, grouping, key, now)
  {
    if sessions != [] {
      ClosedTotalsAreFrozen(sessions[..|sessions| - 1], grouping, key, now, later);
    }
  }

  /** Extending the prefix by one session adds its key and adds its playtime to that key's total. */
  lemma PrefixOneMore(sessions: seq<GameSession>, i: nat, grouping: Grouping, now: int)
    requires i < |sessions|
    ensures KeysOf(sessions[..i + 1], grouping) == KeysOf(sessions[..i], grouping) + {KeyOf(sessions[i], grouping)}
    ensures forall k ::
              GroupTotal(sessions[..i + 1], grouping, k, now) ==
              GroupTotal(sessions[..i], grouping, k, now) + (if KeyOf(sessions[i], grouping) == k then Effective(sessions[i], now) else 0)
  {
    var longer := sessions[..i + 1];
    assert longer[..i] == sessions[..i];
    assert longer[i] == sessions[i];
    forall k | k in KeysOf(longer, grouping) ensures k in KeysOf(sessions[..i], grouping) + {KeyOf(sessions[i], grouping)} {
      var j :| 0 <= j < i + 1 && KeyOf(longer[j], grouping) == k;
      if j < i { assert longer[j] == sessions[..i][j]; }
    }
    forall k | k in KeysOf(sessions[..i], grouping) ensures k in KeysOf(longer, grouping) {
      var j :| 0 <= j < i && KeyOf(sessions[..i][j], grouping) == k;
      assert longer[j] == sessions[..i][j];
    }
  }

  /** `Map.merge(key, d, Duration::plus)`: add `d` to the key's total, or start the total at `d`. */
  function Merge(totals: map<string, int>, key: string, d: int): (m: map<string, int>)
    ensures m.Keys == totals.Keys + {key}
    ensures m[key] == (if key in totals then totals[key] else 0) + d
    ensures forall k :: k in totals && k != key ==> m[k] == totals[k]
  {
    totals[key := if key in totals then totals[key] + d else d]
  }

  /** `totals` holds, for each key that occurs among `sessions`, that key's reference total. */
  ghost predicate TotalsOf(totals: map<string, int>, sessions: seq<GameSession>, grouping: Grouping, now: int)
  {
    && totals.Keys == KeysOf(sessions, grouping)
    && forall k :: k in totals ==> totals[k] == GroupTotal(sessions, grouping, k, now)
  }

  /** Merging the next session's playtime extends the totals by that session. */
  lemma MergeNext(totals: map<string, int>, sessions: seq<GameSession>, i: nat, grouping: Grouping, now: int)
    requires i < |sessions| && TotalsOf(totals, sessions[..i], grouping, now)
    ensures TotalsOf(Merge(totals, KeyOf(sessions[i], grouping), Effective(sessions[i], now)), sessions[..i + 1], grouping, now)
  {
    var key := KeyOf(sessions[i], grouping);
    PrefixOneMore(sessions, i, grouping, now);
    if key !in totals {
      GroupTotalOfAbsentKey(sessions[..i], grouping, key, now);
    }
  }

  /**
   * The totals map built by the dashboard's loop with `merge(key, d, Duration::plus)`:
   * one entry per key that occurs, holding that key's reference total.
   */
  method Totals(sessions: seq<GameSession>, grouping: Grouping, now: int) returns (totals: map<string, int>)
    ensures totals.Keys == KeysOf(sessions, grouping)
    ensures forall k :: k in totals ==> totals[k] == GroupTotal(sessions, grouping, k, now)
  {
    totals := map[];
    for i := 0 to |sessions|
      invariant TotalsOf(totals, sessions[..i], grouping, now)
    {
      var session := sessions[i];
      var d := session.totalDuration;
      if session.active {
        d := d + (now - session.startTime);
      }
      MergeNext(totals, sessions, i, grouping, now);
      totals := Merge(totals, KeyOf(session, grouping), d);
    }
    assert sessions[..|sessions|] == sessions;
  }

  // ---------------------------------------------------------------- ranking

  /** One entry of a totals map. */
  datatype Entry = Entry(key: string, duration: int)

  /** One leaderboard line: the key and its total as shown. */
  datatype LeaderboardRow = LeaderboardRow(key: string, duration: Hms)

  predicate NonIncreasing(entries: seq<Entry>)
  {
    forall i, j :: 0 <= i < j < |entries| ==> entries[i].duration >= entries[j].duration
  }

  /** Insert `e` in front of the first entry that is not longer, so among equal totals earlier input stays first. */
  function InsertByDuration(e: Entry, sorted: seq<Entry>): (r: seq<Entry>)
    ensures multiset(r) == multiset(sorted) + multiset{e}
    ensures |r| == |sorted| + 1
    ensures NonIncreasing(sorted) ==> NonIncreasing(r)
  {
    if sorted == [] || e.duration >= sorted[0].duration then [e] + sorted
    else
      var rest := InsertByDuration(e, sorted[1..]);
      assert sorted == [sorted[0]] + sorted[1..];
      LongestFirst(sorted[0], e, sorted[1..], rest);
      [sorted[0]] + rest
  }

  /** Putting an entry in front of a sorted list keeps it sorted when it is at least as long as everything there. */
  lemma LongestFirst(head: Entry, e: Entry, tail: seq<Entry>, rest: seq<Entry>)
    requires head.duration > e.duration
    requires multiset(rest) == multiset(tail) + multiset{e}
    requires NonIncreasing([head] + tail) ==> NonIncreasing(rest)
    ensures NonIncreasing([head] + tail) ==> NonIncreasing([head] + rest)
  {
    if NonIncreasing([head] + tail) {
      forall k | 0 <= k < |rest| ensures head.duration >= rest[k].duration {
        assert rest[k] in multiset(rest);
        if rest[k] != e {
          assert rest[k] in multiset(tail);
          var m :| 0 <= m < |tail| && tail[m] == rest[k];
          assert ([head] + tail)[m + 1] == tail[m] && ([head] + tail)[0] == head;
          assert ([head] + tail)[0].duration >= ([head] + tail)[m + 1].duration;
        }
      }
      var r := [head] + rest;
      forall i, j | 0 <= i < j < |r| ensures r[i].duration >= r[j].duration {
        if i > 0 {
          assert r[i] == rest[i - 1] && r[j] == rest[j - 1];
        } else {
          assert r[j] == rest[j - 1];
        }
      }
    }
  }

  /** The stream's `sorted` with a descending comparator: a stable sort, longest total first. */
  function SortByDuration(entries: seq<Entry>): (r: seq<Entry>)
    ensures multiset(r) == multiset(entries)
    ensures |r| == |entries|
    ensures NonIncreasing(r)
  {
    if entries == [] then []
    else
      assert entries == [entries[0]] + entries[1..];
      InsertByDuration(entries[0], SortByDuration(entries[1..]))
  }

  /** `entries` lists the entries of `totals` for exactly the keys in `keys`, each once. */
  ghost predicate ListsExactly(entries: seq<Entry>, totals: map<string, int>, keys: set<string>)
  {
    && keys <= totals.Keys
    && |entries| == |keys|
    && (forall i :: 0 <= i < |entries| ==> entries[i].key in keys && entries[i].duration == totals[entries[i].key])
    && (forall k :: k in keys ==> exists i :: 0 <= i < |entries| && entries[i].key == k)
    && (forall i, j :: 0 <= i < j < |entries| ==> entries[i].key != entries[j].key)
  }

  lemma ListOneMore(entries: seq<Entry>, totals: map<string, int>, keys: set<string>, key: string)
    requires ListsExactly(entries, totals, keys) && key in totals && key !in keys
    ensures ListsExactly(entries + [Entry(key, totals[key])], totals, keys + {key})
  {
    var longer := entries + [Entry(key, totals[key])];
    forall k | k in keys ensures exists i :: 0 <= i < |longer| && longer[i].key == k {
      var i :| 0 <= i < |entries| && entries[i].key == k;
      assert longer[i] == entries[i];
    }
    assert longer[|entries|].key == key;
    assert |keys + {key}| == |keys| + 1;
  }

  /** The entries of a totals map, listed one per key in an order the map chooses. */
  method EntriesOf(totals: map<string, int>) returns (entries: seq<Entry>)
    ensures ListsExactly(entries, totals, totals.Keys)
  {
    entries := [];
    var pending := totals.Keys;
    ghost var done: set<string> := {};
    while pending != {}
      invariant pending <= totals.Keys && done == totals.Keys - pending
      invariant ListsExactly(entries, totals, done)
      decreases pending
    {
      var key :| key in pending;
      ListOneMore(entries, totals, done, key);
      entries := entries + [Entry(key, totals[key])];
      pending := pending - {key};
      done := done + {key};
    }
  }

  /** The board is the totals, ranked: every key once, with its total, longest first. */
  ghost predicate IsLeaderboard(board: seq<LeaderboardRow>, sessions: seq<GameSession>, grouping: Grouping, now: int)
  {
    && |board| == |KeysOf(sessions, grouping)|
    && (forall i :: 0 <= i < |board| ==>
          board[i].key in KeysOf(sessions, grouping) &&
          board[i].duration == FormatDuration(GroupTotal(sessions, grouping, board[i].key, now)))
    && (forall k :: k in KeysOf(sessions, grouping) ==> exists i :: 0 <= i < |board| && board[i].key == k)
    && (forall i, j :: 0 <= i < j < |board| ==> board[i].key != board[j].key)
    && (forall i, j :: 0 <= i < j < |board| ==>
          GroupTotal(sessions, grouping, board[i].key, now) >= GroupTotal(sessions, grouping, board[j].key, now))
  }

  /** A reordering of a listing of the entries is again such a listing. */
  lemma PermutedListing(entries: seq<Entry>, sorted: seq<Entry>, totals: map<string, int>, keys: set<string>)
    requires ListsExactly(entries, totals, keys)
    requires multiset(sorted) == multiset(entries)
    ensures ListsExactly(sorted, totals, keys)
  {
    assert |sorted| == |multiset(sorted)| == |multiset(entries)| == |entries|;
    forall i | 0 <= i < |sorted| ensures sorted[i] in entries {
      assert sorted[i] in multiset(sorted);
    }
    forall k | k in keys ensures exists i :: 0 <= i < |sorted| && sorted[i].key == k {
      var j :| 0 <= j < |entries| && entries[j].key == k;
      assert entries[j] in multiset(entries);
      assert entries[j] in sorted;
    }
    forall i, j | 0 <= i < j < |sorted| ensures sorted[i].key != sorted[j].key {
      if sorted[i] == sorted[j] {
        RepeatedElementCount(sorted, i, j);
        DistinctCount(entries, sorted[i]);
      }
    }
  }

  /** The entries as shown: each total as hours/minutes/seconds. */
  function ShowEntries(entries: seq<Entry>): (rows: seq<LeaderboardRow>)
    ensures |rows| == |entries|
    ensures forall i :: 0 <= i < |rows| ==>
      rows[i].key == entries[i].key && rows[i].duration == FormatDuration(entries[i].duration)
  {
    seq(|entries|, i requires 0 <= i < |entries| => LeaderboardRow(entries[i].key, FormatDuration(entries[i].duration)))
  }

  /** Showing a sorted listing of the totals gives a leaderboard. */
  lemma ShownListingIsLeaderboard(sorted: seq<Entry>, totals: map<string, int>, sessions: seq<GameSession>,
                                  grouping: Grouping, now: int)
    requires totals.Keys == KeysOf(sessions, grouping)
    requires forall k :: k in totals ==> totals[k] == GroupTotal(sessions, grouping, k, now)
    requires ListsExactly(sorted, totals, totals.Keys) && NonIncreasing(sorted)
    ensures IsLeaderboard(ShowEntries(sorted), sessions, grouping, now)
  {
    var board := ShowEntries(sorted);
    var keys := KeysOf(sessions, grouping);
    forall i | 0 <= i < |board|
      ensures board[i].key in keys && board[i].duration == FormatDuration(GroupTotal(sessions, grouping, board[i].key, now))
    {
      assert board[i].key == sorted[i].key;
    }
    forall k | k in keys ensures exists i :: 0 <= i < |board| && board[i].key == k {
      var j :| 0 <= j < |sorted| && sorted[j].key == k;
      assert board[j].key == k;
    }
    forall i, j | 0 <= i < j < |board|
      ensures board[i].key != board[j].key
      ensures GroupTotal(sessions, grouping, board[i].key, now) >= GroupTotal(sessions, grouping, board[j].key, now)
    {
      assert board[i].key == sorted[i].key && board[j].key == sorted[j].key;
    }
  }

  /** Totals per key, ranked by total, longest first, each shown as hours/minutes/seconds. */
  method RankedTotals(sessions: seq<GameSession>, grouping: Grouping, now: int) returns (board: seq<LeaderboardRow>)
    ensures IsLeaderboard(board, sessions, grouping, now)
  {
    var totals := Totals(sessions, grouping, now);
    var entries := EntriesOf(totals);
    var sorted := SortByDuration(entries);
    PermutedListing(entries, sorted, totals, totals.Keys);
    ShownListingIsLeaderboard(sorted, totals, sessions, grouping, now);
    board := ShowEntries(sorted);
  }

  /** `getLeaderboard`: the games ranked by total playtime. */
  method GameLeaderboard(sessions: seq<GameSession>, now: int) returns (board: seq<LeaderboardRow>)
    ensures IsLeaderboard(board, sessions, ByGame, now)
  {
    board := RankedTotals(sessions, ByGame, now);
  }

  /** `getUserLeaderboard`: the usernames ranked by total playtime. */
  method UserLeaderboard(sessions: seq<GameSession>, now: int) returns (board: seq<LeaderboardRow>)
    ensures IsLeaderboard(board, sessions, ByUsername, now)
  {
    board := RankedTotals(sessions, ByUsername, now);
  }

  /** `getGamePlaytimeDistribution`: each game's total in whole minutes (Java `toMinutes()`). */
  method GamePlaytimeDistribution(sessions: seq<GameSession>, now: int) returns (distribution: map<string, int>)
    ensures distribution.Keys == KeysOf(sessions, ByGame)
    ensures forall g :: g in distribution ==> distribution[g] == TruncDiv(GroupTotal(sessions, ByGame, g, now), 60)
  {
    var totals := Totals(sessions, ByGame, now);
    distribution := map g | g in totals :: TruncDiv(totals[g], 60);
  }
}
