/**
 * The game-session record and the store-wide invariants the bot keeps.
 * Times are epoch seconds and durations are seconds, both as unbounded integers.
 */
module GameSessions {

  /**
   * One stored session: who played (the Discord user id and the display name
   * recorded at start), what was played, when it started, the time already
   * banked, and whether it is still open.
   */
  datatype GameSession = GameSession(
    discordUserId: string,
    username: string,
    game: string,
    startTime: int,
    totalDuration: int,
    active: bool)

  /** The playtime of a session as of `now`: banked time, plus the running stretch while it is open. */
  function Effective(s: GameSession, now: int): (d: int)
    ensures !s.active ==> d == SessionEnd(s, now) - s.startTime
    ensures s.active ==> d == s.totalDuration + (SessionEnd(s, now) - s.startTime)
  {
    if s.active then s.totalDuration + (now - s.startTime) else s.totalDuration
  }

  /** The instant a session ends on the dashboard: `now` while open, start plus banked time once closed. */
  function SessionEnd(s: GameSession, now: int): (t: int)
    ensures s.active ==> t == now
    ensures !s.active ==> t - s.startTime == s.totalDuration
  {
    if s.active then now else s.startTime + s.totalDuration
  }

  /** A fresh session, as the bot creates one: started `now`, nothing banked, active. */
  function Open(userId: string, username: string, game: string, now: int): (s: GameSession)
    ensures IsActiveFor(s, userId) && s.username == username && s.game == game
    ensures s.startTime == now && Effective(s, now) == 0
  {
    GameSession(userId, username, game, now, 0, true)
  }

  /** Closing a session: bank `now - startTime` into the total and clear `active`. */
  function Close(s: GameSession, now: int): (c: GameSession)
    ensures !c.active && c.totalDuration - s.totalDuration == now - s.startTime
    ensures c.discordUserId == s.discordUserId && c.username == s.username
    ensures c.game == s.game && c.startTime == s.startTime
  {
    s.(totalDuration := s.totalDuration + (now - s.startTime), active := false)
  }

  /** Closing banks exactly the running stretch: playtime is the same just before and just after. */
  lemma CloseConservesPlaytime(s: GameSession, now: int)
    requires s.active
    ensures Effective(Close(s, now), now) == Effective(s, now)
    ensures !Close(s, now).active
    ensures Close(s, now).totalDuration - s.totalDuration == now - s.startTime
  {
  }

  /** Once closed, playtime no longer grows: every later read sees the total at the close. */
  lemma ClosedPlaytimeIsFrozen(s: GameSession, closedAt: int, later: int)
    ensures Effective(Close(s, closedAt), later) == Effective(Close(s, closedAt), closedAt)
    ensures SessionEnd(Close(s, closedAt), later) - s.startTime == Close(s, closedAt).totalDuration
  {
  }

  predicate IsActiveFor(s: GameSession, userId: string)
  {
    s.active && s.discordUserId == userId
  }

  /** Some record is an open session of `userId`. */
  predicate HasActive(records: seq<GameSession>, userId: string)
  {
    exists i :: 0 <= i < |records| && IsActiveFor(records[i], userId)
  }

  /** The single-active-session-per-user rule. */
  predicate AtMostOneActivePerUser(records: seq<GameSession>)
  {
    forall i, j ::
      (0 <= i < |records| && 0 <= j < |records| &&
       IsActiveFor(records[i], records[j].discordUserId) && records[j].active) ==> i == j
  }

  /** Open sessions have banked nothing yet: time is only banked when a session closes. */
  predicate ActiveUnbanked(records: seq<GameSession>)
  {
    forall i :: 0 <= i < |records| && records[i].active ==> records[i].totalDuration == 0
  }

  predicate StoreInvariant(records: seq<GameSession>)
  {
    AtMostOneActivePerUser(records) && ActiveUnbanked(records)
  }

  /** Records that were closed before are still there and unchanged after. */
  predicate ClosedUntouched(before: seq<GameSession>, after: seq<GameSession>)
  {
    |before| <= |after| &&
    forall i :: 0 <= i < |before| && !before[i].active ==> after[i] == before[i]
  }
}
