/**
 * The bot's session lifecycle: presence start and end events for tracked
 * users, and the scan of a guild's cached members. It keeps at most one open
 * session per user, and it only ever changes the open session that the lookup
 * returns.
 */
module DiscordBot {
  import opened Wrappers
  import opened GameSessions
  import opened SessionRepository
  import opened SeqFacts

  /** A Discord activity, reduced to its name and whether its type is PLAYING. */
  datatype Activity = Activity(name: string, playing: bool)

  /** A presence event: the user it concerns, whether that user is a bot, and the activity that started or ended. */
  datatype ActivityEvent = ActivityEvent(userId: string, isBot: bool, activity: Activity)

  /** The first PLAYING activity of a member, as `filter(PLAYING).findFirst()`. */
  function FirstPlaying(activities: seq<Activity>): (r: Option<Activity>)
    ensures r.None? <==> forall i :: 0 <= i < |activities| ==> !activities[i].playing
    ensures r.Some? ==>
      exists i :: (0 <= i < |activities| && activities[i] == r.value && activities[i].playing &&
                   forall j :: 0 <= j < i ==> !activities[j].playing)
  {
    if activities == [] then None
    else if activities[0].playing then Some(activities[0])
    else
      var r := FirstPlaying(activities[1..]);
      assert r.Some? ==>
        exists i :: (0 < i < |activities| && activities[i] == r.value && activities[i].playing &&
                     forall j :: 0 <= j < i ==> !activities[j].playing) by {
        if r.Some? {
          var i :| 0 <= i < |activities[1..]| && activities[1..][i] == r.value &&
            activities[1..][i].playing && forall j :: 0 <= j < i ==> !activities[1..][j].playing;
          assert activities[i + 1] == r.value;
          forall j | 0 <= j < i + 1 ensures !activities[j].playing {
            if j > 0 { assert activities[j] == activities[1..][j - 1]; }
          }
        }
      }
      r
  }

  /** The listener acts only on events of tracked, non-bot users about a PLAYING activity. */
  function Handled(trackedUsers: map<string, string>, event: ActivityEvent): (b: bool)
    ensures event.isBot ==> !b
    ensures event.userId !in trackedUsers ==> !b
    ensures !event.activity.playing ==> !b
  {
    !event.isBot && event.userId in trackedUsers && event.activity.playing
  }

  /** `found` is a possible answer of the active-session lookup for `userId` (an id, as the store hands it back). */
  predicate IsLookup(records: seq<GameSession>, userId: string, found: Option<nat>)
  {
    match found
    case None => !HasActive(records, userId)
    case Some(i) => i < |records| && IsActiveFor(records[i], userId)
  }

  /** The store after closing the looked-up session, if any. */
  function CloseFound(records: seq<GameSession>, found: Option<nat>, now: int): (r: seq<GameSession>)
    requires found.Some? ==> found.value < |records|
    ensures |r| == |records|
    ensures found.Some? ==> !r[found.value].active
    ensures found.Some? ==>
              r[found.value].totalDuration - records[found.value].totalDuration == now - records[found.value].startTime
    ensures forall j :: 0 <= j < |records| && found != Some(j) ==> r[j] == records[j]
  {
    match found
    case None => records
    case Some(i) => records[i := Close(records[i], now)]
  }

  /** The store after a PLAYING start event: the previous open session closed, a fresh one appended. */
  function AfterStart(records: seq<GameSession>, found: Option<nat>, userId: string, username: string,
                      game: string, now: int): (r: seq<GameSession>)
    requires found.Some? ==> found.value < |records|
    ensures |r| == |records| + 1 && r[..|records|] == CloseFound(records, found, now)
    ensures IsActiveFor(r[|records|], userId) && r[|records|].username == username && r[|records|].game == game
    ensures r[|records|].startTime == now && r[|records|].totalDuration == 0
  {
    CloseFound(records, found, now) + [Open(userId, username, game, now)]
  }

  /** The sessions a scan opens: one per tracked, cached user who plays something and has no open session. */
  ghost function ScanOpensAmong(records: seq<GameSession>, users: set<string>, trackedUsers: map<string, string>,
                                guild: map<string, seq<Activity>>, now: int): set<GameSession>
  {
    set u | u in users && u in trackedUsers && u in guild && FirstPlaying(guild[u]).Some? && !HasActive(records, u)
      :: Open(u, trackedUsers[u], FirstPlaying(guild[u]).value.name, now)
  }

  ghost function ScanOpens(records: seq<GameSession>, trackedUsers: map<string, string>,
                           guild: map<string, seq<Activity>>, now: int): set<GameSession>
  {
    ScanOpensAmong(records, trackedUsers.Keys, trackedUsers, guild, now)
  }

  /** The store `after` is `before` with exactly the sessions of `opens` appended, each once, in some order. */
  ghost predicate AppendsExactly(before: seq<GameSession>, after: seq<GameSession>, opens: set<GameSession>)
  {
    |before| <= |after| && after[..|before|] == before && multiset(after[|before|..]) == multiset(opens)
  }

  // ---------------------------------------------------------------- store transitions

  /** Closing one record keeps the store invariant: it only turns an open session into a closed one. */
  lemma CloseKeepsInvariant(records: seq<GameSession>, i: nat, now: int)
    requires i < |records| && StoreInvariant(records)
    ensures StoreInvariant(records[i := Close(records[i], now)])
  {
  }

  /** Appending a fresh session keeps the invariant when its user has no open session yet. */
  lemma AppendOpenKeepsInvariant(records: seq<GameSession>, userId: string, username: string, game: string, now: int)
    requires StoreInvariant(records) && !HasActive(records, userId)
    ensures StoreInvariant(records + [Open(userId, username, game, now)])
  {
    var after := records + [Open(userId, username, game, now)];
    forall i | 0 <= i < |records| ensures after[i] == records[i] {}
  }

  // ---------------------------------------------------------------- end events

  /**
   * An end event with no open session for the user changes nothing; otherwise
   * it closes that session, banking `now - startTime`, and leaves the user with
   * no open session when there was at most one. No record other than the
   * looked-up one changes, and no closed record at all.
   */
  lemma EndClosesTheActive(records: seq<GameSession>, found: Option<nat>, userId: string, now: int)
    requires IsLookup(records, userId, found)
    requires StoreInvariant(records)
    ensures var after := CloseFound(records, found, now);
      && (found.None? ==> after == records)
      && (found.Some? ==>
            |after| == |records| && !after[found.value].active &&
            after[found.value].totalDuration ==
              records[found.value].totalDuration + (now - records[found.value].startTime))
      && !HasActive(after, userId)
      && StoreInvariant(after)
      && ClosedUntouched(records, after)
      && forall j :: 0 <= j < |records| && found != Some(j) ==> after[j] == records[j]
  {
    if found.Some? {
      CloseKeepsInvariant(records, found.value, now);
    }
  }

  // ---------------------------------------------------------------- start events

  /**
   * A start event closes the user's open session: its total grows by exactly
   * `now - startTime`, it becomes inactive, and nothing else about it changes.
   */
  lemma StartClosesPrevious(records: seq<GameSession>, i: nat, userId: string, username: string,
                            game: string, now: int)
    requires IsLookup(records, userId, Some(i))
    ensures var after := AfterStart(records, Some(i), userId, username, game, now);
      && |after| == |records| + 1
      && after[i].totalDuration == records[i].totalDuration + (now - records[i].startTime)
      && !after[i].active
      && after[i].discordUserId == records[i].discordUserId && after[i].username == records[i].username
      && after[i].game == records[i].game && after[i].startTime == records[i].startTime
  {
  }

  /**
   * After a start event the newest record is the user's fresh session, and if
   * every user had at most one open session before, the user now has exactly
   * one: the fresh one. Open sessions still have nothing banked.
   */
  lemma {:induction false} StartOpensTheOnlyActive(records: seq<GameSession>, found: Option<nat>, userId: string,
                                                   username: string, game: string, now: int)
    requires IsLookup(records, userId, found)
    requires StoreInvariant(records)
    ensures var after := AfterStart(records, found, userId, username, game, now);
      && |after| == |records| + 1
      && after[|records|] == GameSession(userId, username, game, now, 0, true)
      && StoreInvariant(after)
      && forall j :: 0 <= j < |after| && IsActiveFor(after[j], userId) ==> j == |records|
  {
    EndClosesTheActive(records, found, userId, now);
    AppendOpenKeepsInvariant(CloseFound(records, found, now), userId, username, game, now);
  }

  /** Closed records are never changed by a start event, nor is any record but the looked-up one. */
  lemma StartTouchesOnlyTheLookup(records: seq<GameSession>, found: Option<nat>, userId: string,
                                  username: string, game: string, now: int)
    requires IsLookup(records, userId, found)
    ensures var after := AfterStart(records, found, userId, username, game, now);
      && ClosedUntouched(records, after)
      && forall j :: 0 <= j < |records| && found != Some(j) ==> after[j] == records[j]
  {
  }

  // ---------------------------------------------------------------- scans

  /**
   * A second scan with the same tracked users and guild cache, at any later
   * time, opens nothing: everyone who played got a session from the first one.
   */
  lemma {:induction false} ScanIsIdempotent(before: seq<GameSession>, after: seq<GameSession>,
                                            trackedUsers: map<string, string>, guild: map<string, seq<Activity>>,
                                            now: int, later: int)
    requires AppendsExactly(before, after, ScanOpens(before, trackedUsers, guild, now))
    ensures ScanOpens(after, trackedUsers, guild, later) == {}
  {
    var opens := ScanOpens(before, trackedUsers, guild, now);
    forall u | u in trackedUsers && u in guild && FirstPlaying(guild[u]).Some?
      ensures HasActive(after, u)
    {
      if HasActive(before, u) {
        var i :| 0 <= i < |before| && IsActiveFor(before[i], u);
        assert after[i] == after[..|before|][i];
      } else {
        var s := Open(u, trackedUsers[u], FirstPlaying(guild[u]).value.name, now);
        assert s in opens;
        assert s in multiset(after[|before|..]);
        var k :| 0 <= k < |after[|before|..]| && after[|before|..][k] == s;
        assert IsActiveFor(after[|before| + k], u);
      }
    }
  }

  /** A scan keeps the single-active-session rule and opens sessions with nothing banked. */
  lemma {:induction false} ScanKeepsInvariant(before: seq<GameSession>, after: seq<GameSession>,
                                              trackedUsers: map<string, string>, guild: map<string, seq<Activity>>,
                                              now: int)
    requires StoreInvariant(before)
    requires AppendsExactly(before, after, ScanOpens(before, trackedUsers, guild, now))
    ensures StoreInvariant(after)
    ensures ClosedUntouched(before, after)
  {
    var opens := ScanOpens(before, trackedUsers, guild, now);
    var n := |before|;
    var added := after[n..];
    assert after == before + added;
    forall k | 0 <= k < |added|
      ensures added[k] in opens && added[k].active && added[k].totalDuration == 0
      ensures !HasActive(before, added[k].discordUserId)
    {
      assert added[k] in multiset(added);
    }
    forall k1, k2 | 0 <= k1 < k2 < |added|
      ensures added[k1].discordUserId != added[k2].discordUserId
    {
      if added[k1] == added[k2] {
        RepeatedElementCount(added, k1, k2);
      }
    }
    forall i, j | 0 <= i < |after| && 0 <= j < |after| &&
      IsActiveFor(after[i], after[j].discordUserId) && after[j].active
      ensures i == j
    {
      if i < n && j < n {
        assert after[i] == before[i] && after[j] == before[j];
      } else if i >= n && j >= n {
        assert after[i] == added[i - n] && after[j] == added[j - n];
      }
    }
  }

  /** What a scan has done after visiting the users in `done`: appended exactly their fresh sessions. */
  ghost predicate ScanProgress(before: seq<GameSession>, records: seq<GameSession>, done: set<string>,
                               trackedUsers: map<string, string>, guild: map<string, seq<Activity>>, now: int)
  {
    && |before| <= |records| && records[..|before|] == before
    && (forall k :: |before| <= k < |records| ==> records[k].discordUserId in done)
    && multiset(records[|before|..]) == multiset(ScanOpensAmong(before, done, trackedUsers, guild, now))
  }

  /** The store after the scan visits `userId`: a fresh session if the user plays and has none open. */
  function ScanVisit(records: seq<GameSession>, userId: string, username: string,
                     guild: map<string, seq<Activity>>, now: int): (r: seq<GameSession>)
    ensures |records| <= |r| <= |records| + 1 && r[..|records|] == records
    ensures |r| > |records| <==> userId in guild && FirstPlaying(guild[userId]).Some? && !HasActive(records, userId)
    ensures |r| > |records| ==>
      IsActiveFor(r[|records|], userId) && r[|records|].username == username && r[|records|].startTime == now &&
      r[|records|].totalDuration == 0 && r[|records|].game == FirstPlaying(guild[userId]).value.name
  {
    if userId in guild && FirstPlaying(guild[userId]).Some? && !HasActive(records, userId)
    then records + [Open(userId, username, FirstPlaying(guild[userId]).value.name, now)]
    else records
  }

  /** Records appended for other users do not change what the lookup finds for `userId`. */
  lemma AppendedOthersKeepLookup(before: seq<GameSession>, records: seq<GameSession>, done: set<string>,
                                 userId: string)
    requires |before| <= |records| && records[..|before|] == before
    requires forall k :: |before| <= k < |records| ==> records[k].discordUserId in done
    requires userId !in done
    ensures HasActive(records, userId) <==> HasActive(before, userId)
  {
    var n := |before|;
    if HasActive(records, userId) {
      var k :| 0 <= k < |records| && IsActiveFor(records[k], userId);
      assert records[k] == records[..n][k];
    }
    if HasActive(before, userId) {
      var k :| 0 <= k < n && IsActiveFor(before[k], userId);
      assert records[k] == records[..n][k];
    }
  }

  /** Adding one user to those already visited adds at most that user's fresh session, which was not there yet. */
  lemma ScanOpensGrow(records: seq<GameSession>, done: set<string>, userId: string,
                      trackedUsers: map<string, string>, guild: map<string, seq<Activity>>, now: int)
    requires userId in trackedUsers && userId !in done
    ensures userId in guild && FirstPlaying(guild[userId]).Some? ==>
      Open(userId, trackedUsers[userId], FirstPlaying(guild[userId]).value.name, now)
        !in ScanOpensAmong(records, done, trackedUsers, guild, now)
    ensures ScanOpensAmong(records, done + {userId}, trackedUsers, guild, now) ==
      if userId in guild && FirstPlaying(guild[userId]).Some? && !HasActive(records, userId)
      then ScanOpensAmong(records, done, trackedUsers, guild, now) +
           {Open(userId, trackedUsers[userId], FirstPlaying(guild[userId]).value.name, now)}
      else ScanOpensAmong(records, done, trackedUsers, guild, now)
  {
  }

  /** Appending the next user's fresh session, which is new, keeps the appended part exactly the opens so far. */
  lemma ProgressAppend(before: seq<GameSession>, records: seq<GameSession>, done: set<string>,
                       s: GameSession, opens: set<GameSession>)
    requires |before| <= |records| && records[..|before|] == before
    requires forall k :: |before| <= k < |records| ==> records[k].discordUserId in done
    requires multiset(records[|before|..]) == multiset(opens) && s !in opens
    ensures var after := records + [s];
      && |before| <= |after| && after[..|before|] == before
      && (forall k :: |before| <= k < |after| ==> after[k].discordUserId in done + {s.discordUserId})
      && multiset(after[|before|..]) == multiset(opens + {s})
  {
    var n := |before|;
    var after := records + [s];
    assert after[n..] == records[n..] + [s];
    assert after[..n] == records[..n];
    assert multiset(opens + {s}) == multiset(opens) + multiset{s};
    forall k | n <= k < |after| ensures after[k].discordUserId in done + {s.discordUserId} {
      if k < |records| {
        assert after[k] == records[k];
      }
    }
  }

  /** Visiting one more user extends the scan's progress to that user. */
  lemma ScanVisitProgress(before: seq<GameSession>, records: seq<GameSession>, done: set<string>, userId: string,
                          trackedUsers: map<string, string>, guild: map<string, seq<Activity>>, now: int)
    requires userId in trackedUsers && userId !in done
    requires ScanProgress(before, records, done, trackedUsers, guild, now)
    ensures ScanProgress(before, ScanVisit(records, userId, trackedUsers[userId], guild, now), done + {userId},
                         trackedUsers, guild, now)
  {
    AppendedOthersKeepLookup(before, records, done, userId);
    ScanOpensGrow(before, done, userId, trackedUsers, guild, now);
    if userId in guild && FirstPlaying(guild[userId]).Some? && !HasActive(before, userId) {
      var s := Open(userId, trackedUsers[userId], FirstPlaying(guild[userId]).value.name, now);
      ProgressAppend(before, records, done, s, ScanOpensAmong(before, done, trackedUsers, guild, now));
    }
  }

  class DiscordBotService {
    const sessionRepo: SessionStore

    constructor (sessionRepo: SessionStore)
      ensures this.sessionRepo == sessionRepo
    {
      this.sessionRepo := sessionRepo;
    }

    /**
     * One pass of the scan's loop body: a user whose member is cached and who
     * is playing gets a session for the first PLAYING activity, unless the
     * lookup finds one already open.
     */
    method VisitMember(userId: string, username: string, guild: map<string, seq<Activity>>, now: int)
      modifies sessionRepo
      ensures sessionRepo.records == ScanVisit(old(sessionRepo.records), userId, username, guild, now)
    {
      if userId in guild {
        var playing := FirstPlaying(guild[userId]);
        if playing.Some? {
          var found := sessionRepo.FindActiveByUser(userId);
          if found.None? {
            var _ := sessionRepo.Insert(Open(userId, username, playing.value.name, now));
          }
        }
      }
    }

    /**
     * `scanGuildOnce`: for each tracked user whose member is cached in the
     * guild, open a session for the first PLAYING activity unless the user
     * already has an open session. Users are visited in no particular order;
     * existing records are left as they are.
     */
    method ScanGuildOnce(trackedUsers: map<string, string>, guild: map<string, seq<Activity>>, now: int)
      modifies sessionRepo
      ensures AppendsExactly(old(sessionRepo.records), sessionRepo.records,
                             ScanOpens(old(sessionRepo.records), trackedUsers, guild, now))
    {
      ghost var before := sessionRepo.records;
      var pending := trackedUsers.Keys;
      ghost var done: set<string> := {};
      while pending != {}
        invariant pending <= trackedUsers.Keys && done == trackedUsers.Keys - pending
        invariant ScanProgress(before, sessionRepo.records, done, trackedUsers, guild, now)
        decreases pending
      {
        var userId :| userId in pending;
        var username := trackedUsers[userId];
        ghost var visited := sessionRepo.records;
        VisitMember(userId, username, guild, now);
        ScanVisitProgress(before, visited, done, userId, trackedUsers, guild, now);
        pending := pending - {userId};
        done := done + {userId};
      }
      assert done == trackedUsers.Keys;
    }

    /**
     * `onUserActivityStart`: for a tracked, non-bot user starting a PLAYING
     * activity, close the user's open session (if the lookup finds one) and
     * open a fresh one for the new game; any other event changes nothing.
     */
    method OnUserActivityStart(trackedUsers: map<string, string>, event: ActivityEvent, now: int)
      returns (ghost found: Option<nat>)
      modifies sessionRepo
      ensures !Handled(trackedUsers, event) ==> sessionRepo.records == old(sessionRepo.records)
      ensures Handled(trackedUsers, event) ==>
        IsLookup(old(sessionRepo.records), event.userId, found) &&
        sessionRepo.records == AfterStart(old(sessionRepo.records), found, event.userId,
                                          trackedUsers[event.userId], event.activity.name, now)
    {
      found := None;
      if event.isBot {
        return;
      }
      if event.userId !in trackedUsers {
        return;
      }
      var activity := event.activity;
      var userId := event.userId;
      var username := trackedUsers[userId];
      if !activity.playing {
        return;
      }
      var existing := sessionRepo.FindActiveByUser(userId);
      if existing.Some? {
        found := Some(existing.value.id);
        sessionRepo.Save(existing.value.id, Close(existing.value.session, now));
      }
      var _ := sessionRepo.Insert(Open(userId, username, activity.name, now));
    }

    /**
     * `onUserActivityEnd`: for a tracked, non-bot user ending a PLAYING
     * activity, close the user's open session if the lookup finds one,
     * whatever game that session records; any other event changes nothing.
     */
    method OnUserActivityEnd(trackedUsers: map<string, string>, event: ActivityEvent, now: int)
      returns (ghost found: Option<nat>)
      modifies sessionRepo
      ensures !Handled(trackedUsers, event) ==> sessionRepo.records == old(sessionRepo.records)
      ensures Handled(trackedUsers, event) ==>
        IsLookup(old(sessionRepo.records), event.userId, found) &&
        sessionRepo.records == CloseFound(old(sessionRepo.records), found, now)
    {
      found := None;
      if event.isBot {
        return;
      }
      if event.userId !in trackedUsers {
        return;
      }
      var activity := event.activity;
      var userId := event.userId;
      if !activity.playing {
        return;
      }
      var session := sessionRepo.FindActiveByUser(userId);
      if session.None? {
        return;
      }
      found := Some(session.value.id);
      sessionRepo.Save(session.value.id, Close(session.value.session, now));
    }

    /**
     * The startup scan followed by the delayed rescan, each over the guild's
     * member cache as it is at that moment: each pass opens what a scan
     * opens, and when the cache has not changed in between the rescan writes
     * nothing.
     */
    method StartupScans(trackedUsers: map<string, string>, guild0: map<string, seq<Activity>>,
                        guild1: map<string, seq<Activity>>, now: int, later: int)
      returns (ghost afterFirst: seq<GameSession>)
      modifies sessionRepo
      ensures AppendsExactly(old(sessionRepo.records), afterFirst,
                             ScanOpens(old(sessionRepo.records), trackedUsers, guild0, now))
      ensures AppendsExactly(afterFirst, sessionRepo.records, ScanOpens(afterFirst, trackedUsers, guild1, later))
      ensures guild0 == guild1 ==> sessionRepo.records == afterFirst
    {
      ScanGuildOnce(trackedUsers, guild0, now);
      afterFirst := sessionRepo.records;
      ScanGuildOnce(trackedUsers, guild1, later);
      if guild0 == guild1 {
        ScanIsIdempotent(old(sessionRepo.records), afterFirst, trackedUsers, guild0, now, later);
        assert sessionRepo.records == afterFirst by {
          assert multiset(sessionRepo.records[|afterFirst|..]) == multiset{};
          assert sessionRepo.records == sessionRepo.records[..|afterFirst|] + sessionRepo.records[|afterFirst|..];
        }
      }
    }
  }
}
