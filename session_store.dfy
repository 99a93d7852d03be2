/**
 * The session repository as an in-memory store: a sequence of records whose
 * index is the record's id. It offers what the bot and the dashboard use:
 * a lookup of an open session of a user, saving a changed record, inserting
 * a new one, and the two snapshot queries.
 */
module SessionRepository {
  import opened Wrappers
  import opened GameSessions

  /** A record together with its id, as a lookup hands it back. */
  datatype Stored = Stored(id: nat, session: GameSession)

  /** The records among `records` that are open, in store order. */
  function ActiveOnly(records: seq<GameSession>): (r: seq<GameSession>)
    ensures forall s :: multiset(r)[s] == if s.active then multiset(records)[s] else 0
  {
    if records == [] then []
    else
      assert records == [records[0]] + records[1..];
      (if records[0].active then [records[0]] else []) + ActiveOnly(records[1..])
  }

  class SessionStore {
    var records: seq<GameSession>

    constructor ()
      ensures records == []
    {
      records := [];
    }

    /** `findByActiveTrue()`: the open records, in id order. */
    function FindByActiveTrue(): (r: seq<GameSession>)
      reads this
      ensures forall s :: multiset(r)[s] == if s.active then multiset(records)[s] else 0
    {
      ActiveOnly(records)
    }

    /**
     * The lookup the bot calls `findByDiscordUserIdAndActiveTrue`: an open
     * session of `userId` if there is one, and nothing otherwise.
     */
    method FindActiveByUser(userId: string) returns (found: Option<Stored>)
      ensures found.None? <==> !HasActive(records, userId)
      ensures found.Some? ==>
        found.value.id < |records| && records[found.value.id] == found.value.session &&
        IsActiveFor(found.value.session, userId)
    {
      var i := 0;
      while i < |records|
        invariant 0 <= i <= |records|
        invariant forall k :: 0 <= k < i ==> !IsActiveFor(records[k], userId)
      {
        if IsActiveFor(records[i], userId) {
          return Some(Stored(i, records[i]));
        }
        i := i + 1;
      }
      return None;
    }

    /** `save` of a record that is already stored: it replaces the record with that id. */
    method Save(id: nat, s: GameSession)
      requires id < |records|
      modifies this
      ensures records == old(records)[id := s]
    {
      records := records[id := s];
    }

    /** `save` of a new record: it is stored under the next id. */
    method Insert(s: GameSession) returns (id: nat)
      modifies this
      ensures id == |old(records)| && records == old(records) + [s]
    {
      id := |records|;
      records := records + [s];
    }
  }
}
