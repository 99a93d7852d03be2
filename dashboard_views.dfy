/**
 * The two dashboard views that show sessions one by one: the table of open
 * sessions with their running playtime, and the session timeline that gives
 * each session's start and end.
 */
module DashboardViews {
  import opened GameSessions
  import opened DurationFormat
  import opened SessionRepository
  import opened PeakConcurrency

  // ---------------------------------------------------------------- the open-sessions table

  /** One row of the open-sessions table. */
  datatype CurrentRow = CurrentRow(username: string, game: string, duration: Hms)

  /**
   * `getCurrentSessions` over the sessions the open-session query returns:
   * one row per session, in the same order, showing the banked time plus the
   * time since the session started.
   */
  function CurrentSessions(open: seq<GameSession>, now: int): (rows: seq<CurrentRow>)
    ensures |rows| == |open|
    ensures forall i :: 0 <= i < |rows| ==>
      rows[i].username == open[i].username && rows[i].game == open[i].game &&
      rows[i].duration == FormatDuration(open[i].totalDuration + (now - open[i].startTime))
  {
    if open == [] then []
    else
      var s := open[0];
      [CurrentRow(s.username, s.game, FormatDuration(s.totalDuration + (now - s.startTime)))]
        + CurrentSessions(open[1..], now)
  }

  /** No two of `open` belong to the same user. */
  predicate DistinctUsers(open: seq<GameSession>)
  {
    forall i, j :: 0 <= i < j < |open| ==> open[i].discordUserId != open[j].discordUserId
  }

  /** Under the one-open-session rule the open records belong to pairwise different users. */
  lemma {:induction false} OpenRecordsHaveDistinctUsers(records: seq<GameSession>)
    requires AtMostOneActivePerUser(records)
    ensures DistinctUsers(ActiveOnly(records))
  {
    if records != [] {
      var rest := ActiveOnly(records[1..]);
      TailKeepsOneActive(records);
      OpenRecordsHaveDistinctUsers(records[1..]);
      if records[0].active {
        FirstOpenIsAlone(records);
        ConsDistinct(records[0], rest);
        assert ActiveOnly(records) == [records[0]] + rest;
      } else {
        assert ActiveOnly(records) == rest;
      }
    }
  }

  /** The one-open-session rule holds for the records after the first. */
  lemma TailKeepsOneActive(records: seq<GameSession>)
    requires records != [] && AtMostOneActivePerUser(records)
    ensures AtMostOneActivePerUser(records[1..])
  {
    var tail := records[1..];
    forall i, j | 0 <= i < |tail| && 0 <= j < |tail| && IsActiveFor(tail[i], tail[j].discordUserId) && tail[j].active
      ensures i == j
    {
      assert records[i + 1] == tail[i] && records[j + 1] == tail[j];
    }
  }

  /** Under the rule, an open first record shares its user with no later open record. */
  lemma FirstOpenIsAlone(records: seq<GameSession>)
    requires records != [] && records[0].active && AtMostOneActivePerUser(records)
    ensures forall s :: s in ActiveOnly(records[1..]) ==> s.discordUserId != records[0].discordUserId
  {
    var tail := records[1..];
    forall s | s in ActiveOnly(tail) ensures s.discordUserId != records[0].discordUserId {
      assert multiset(ActiveOnly(tail))[s] > 0;
      assert s in tail;
      var k :| 0 <= k < |tail| && tail[k] == s;
      assert records[k + 1] == s;
    }
  }

  /** Putting a record of a new user in front keeps the users distinct. */
  lemma ConsDistinct(first: GameSession, rest: seq<GameSession>)
    requires DistinctUsers(rest)
    requires forall s :: s in rest ==> s.discordUserId != first.discordUserId
    ensures DistinctUsers([first] + rest)
  {
    var open := [first] + rest;
    forall i, j | 0 <= i < j < |open| ensures open[i].discordUserId != open[j].discordUserId {
      assert open[j] == rest[j - 1];
      if i == 0 {
        assert rest[j - 1] in rest;
      } else {
        assert open[i] == rest[i - 1];
      }
    }
  }

  /**
   * The table as the dashboard serves it: its rows are open records of the
   * store, every open record is among them, and each row shows that
   * session's playtime as of `now` as `formatDuration` splits it.
   */
  lemma OpenSessionsTable(records: seq<GameSession>, now: int)
    ensures forall i :: 0 <= i < |ActiveOnly(records)| ==>
      ActiveOnly(records)[i] in records && ActiveOnly(records)[i].active &&
      CurrentSessions(ActiveOnly(records), now)[i].duration == FormatDuration(Effective(ActiveOnly(records)[i], now))
    ensures forall s :: s in records && s.active ==> s in ActiveOnly(records)
  {
    forall i | 0 <= i < |ActiveOnly(records)|
      ensures ActiveOnly(records)[i] in records && ActiveOnly(records)[i].active &&
        CurrentSessions(ActiveOnly(records), now)[i].duration == FormatDuration(Effective(ActiveOnly(records)[i], now))
    {
      OpenRow(records, now, i);
    }
    forall s | s in records && s.active ensures s in ActiveOnly(records) {
      assert multiset(ActiveOnly(records))[s] > 0;
    }
  }

  /** One row of the table: an open record of the store, showing its playtime. */
  lemma OpenRow(records: seq<GameSession>, now: int, i: nat)
    requires i < |ActiveOnly(records)|
    ensures ActiveOnly(records)[i] in records && ActiveOnly(records)[i].active
    ensures CurrentSessions(ActiveOnly(records), now)[i].duration == FormatDuration(Effective(ActiveOnly(records)[i], now))
  {
    var open := ActiveOnly(records);
    assert open[i] in open;
    assert multiset(open)[open[i]] > 0;
  }

  /** Each of `rows` shows the time since the start of the session at its place in `open`. */
  predicate ShowTimeSinceStart(rows: seq<CurrentRow>, open: seq<GameSession>, now: int)
  {
    |rows| == |open| &&
    forall i :: 0 <= i < |open| ==> rows[i].duration == FormatDuration(now - open[i].startTime)
  }

  /**
   * Under the one-open-session rule no player appears twice in the table,
   * and each row's playtime is the time since its session started.
   */
  lemma OpenSessionsOnePerPlayer(records: seq<GameSession>, now: int)
    requires StoreInvariant(records)
    ensures DistinctUsers(ActiveOnly(records))
    ensures ShowTimeSinceStart(CurrentSessions(ActiveOnly(records), now), ActiveOnly(records), now)
  {
    OpenRecordsHaveDistinctUsers(records);
    OpenRecordsUnbanked(records);
    UnbankedRows(ActiveOnly(records), now);
  }

  /** Rows of sessions with nothing banked show the time since each session started. */
  lemma UnbankedRows(open: seq<GameSession>, now: int)
    requires forall i :: 0 <= i < |open| ==> open[i].totalDuration == 0
    ensures ShowTimeSinceStart(CurrentSessions(open, now), open, now)
  {
  }

  /** The open records the query returns have banked nothing, when no open record of the store has. */
  lemma OpenRecordsUnbanked(records: seq<GameSession>)
    requires ActiveUnbanked(records)
    ensures forall i :: 0 <= i < |ActiveOnly(records)| ==> ActiveOnly(records)[i].totalDuration == 0
  {
    var open := ActiveOnly(records);
    forall i | 0 <= i < |open| ensures open[i].totalDuration == 0 {
      assert multiset(open)[open[i]] > 0;
      var k :| 0 <= k < |records| && records[k] == open[i];
    }
  }

  // ---------------------------------------------------------------- the session timeline

  /** One bar of the session timeline. */
  datatype TimelineEntry = TimelineEntry(username: string, game: string, start: int, end: int)

  /**
   * `getSessionTimeline`: one entry per session, in store order, running
   * from the session's start to `now` while it is open and to its start
   * plus its banked time once closed.
   */
  function SessionTimeline(sessions: seq<GameSession>, now: int): (r: seq<TimelineEntry>)
    ensures |r| == |sessions|
    ensures forall i :: 0 <= i < |r| ==>
      r[i].username == sessions[i].username && r[i].game == sessions[i].game &&
      r[i].start == sessions[i].startTime &&
      r[i].end == (if sessions[i].active then now else sessions[i].startTime + sessions[i].totalDuration)
  {
    if sessions == [] then []
    else
      var last := sessions[|sessions| - 1];
      SessionTimeline(sessions[..|sessions| - 1], now)
        + [TimelineEntry(last.username, last.game, last.startTime, SessionEnd(last, now))]
  }

  /**
   * Each bar is as long as its session's playtime when open sessions have
   * banked nothing, and a closed session's bar is the same whenever it is read.
   */
  lemma TimelineSpansArePlaytime(sessions: seq<GameSession>, now: int, later: int)
    ensures ActiveUnbanked(sessions) ==>
      forall i :: 0 <= i < |sessions| ==>
        SessionTimeline(sessions, now)[i].end - SessionTimeline(sessions, now)[i].start == Effective(sessions[i], now)
    ensures forall i :: 0 <= i < |sessions| && !sessions[i].active ==>
      SessionTimeline(sessions, later)[i] == SessionTimeline(sessions, now)[i]
  {
  }

  /** The number of 300-second steps the timeline's bars span, bar by bar. */
  function BarSteps(entries: seq<TimelineEntry>): nat
  {
    if entries == [] then 0
    else
      var last := entries[|entries| - 1];
      BarSteps(entries[..|entries| - 1]) + StepCount(last.start, last.end)
  }

  /**
   * The two statistics agree: the peak-concurrency histogram counts, in all,
   * exactly as many steps as the timeline's bars span.
   */
  lemma {:induction false} HistogramCoversTimeline(sessions: seq<GameSession>, now: int, bucketOf: int -> int,
                                                   timeline: seq<Bucket>)
    requires IsHistogram(timeline, sessions, now, bucketOf)
    ensures Total(timeline) == BarSteps(SessionTimeline(sessions, now))
  {
    TimelineSteps(sessions, now);
  }

  lemma {:induction false} TimelineSteps(sessions: seq<GameSession>, now: int)
    ensures TotalSteps(sessions, now) == BarSteps(SessionTimeline(sessions, now))
  {
    if sessions != [] {
      var init := sessions[..|sessions| - 1];
      TimelineSteps(init, now);
      var t := SessionTimeline(sessions, now);
      assert t[..|t| - 1] == SessionTimeline(init, now);
    }
  }
}
