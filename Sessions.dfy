/**
 * The session manager: a table from session token to the user it belongs to
 * and the time it expires. The wall clock is the parameter `now` (milliseconds)
 * of each operation, and the token generator is a supplied sequence of
 * candidate tokens, tried in order.
 */
module Sessions {
  import opened Wrappers

  /** Lifetime of a session, in milliseconds. */
  const Timeout: int := 60000

  datatype Session = Session(username: string, expires: int)

  type Table = map<string, Session>

  /** Expiry is strict: a session is still valid at the very millisecond it expires. */
  predicate IsExpired(session: Session, now: int) {
    now > session.expires
  }

  /** The table after sweeping out every expired session. */
  function ClearExpired(sessions: Table, now: int): (swept: Table)
    ensures swept.Keys <= sessions.Keys
    ensures forall token :: token in sessions ==>
              (token in swept <==> !IsExpired(sessions[token], now))
    ensures forall token :: token in swept ==> swept[token] == sessions[token]
  {
    map token | token in sessions && !IsExpired(sessions[token], now) :: sessions[token]
  }

  /** Index of the first candidate token that is not already in use. */
  function FirstFresh(sessions: Table, candidates: seq<string>): (i: nat)
    requires exists j :: 0 <= j < |candidates| && candidates[j] !in sessions
    ensures i < |candidates| && candidates[i] !in sessions
    ensures forall j :: 0 <= j < i ==> candidates[j] in sessions
  {
    if candidates[0] !in sessions then 0
    else
      assert forall j :: 1 <= j < |candidates| ==> candidates[j] == candidates[1..][j - 1];
      1 + FirstFresh(sessions, candidates[1..])
  }

  /** The table after issuing `token` to `username` at time `now`, including the trailing sweep. */
  function Issue(sessions: Table, username: string, now: int, token: string): Table {
    ClearExpired(sessions[token := Session(username, now + Timeout)], now)
  }

  /** The new table and the answer of a session lookup at time `now`. */
  function Lookup(sessions: Table, token: string, now: int): (Table, Option<string>) {
    if token !in sessions then (sessions, None)
    else if IsExpired(sessions[token], now) then (sessions - {token}, None)
    else (ClearExpired(sessions, now), Some(sessions[token].username))
  }

  /** The table after refreshing `token` at time `now`. */
  function Refresh(sessions: Table, token: string, now: int): Table {
    if token in sessions then sessions[token := Session(sessions[token].username, now + Timeout)]
    else sessions
  }

  /** The table after revoking `token`. */
  function Revoke(sessions: Table, token: string): Table {
    sessions - {token}
  }

  class SessionManager {
    var sessions: Table

    constructor ()
      ensures sessions == map[]
    {
      sessions := map[];
    }

    /**
     * Issues a token to `username`: the first candidate not already in use,
     * valid until now + Timeout; then sweeps expired sessions.
     */
    method AssignSessionToken(username: string, now: int, candidates: seq<string>) returns (token: string)
      requires exists j :: 0 <= j < |candidates| && candidates[j] !in sessions
      modifies this
      ensures token !in old(sessions)
      ensures token == candidates[FirstFresh(old(sessions), candidates)]
      ensures sessions == Issue(old(sessions), username, now, token)
      ensures token in sessions && sessions[token] == Session(username, now + Timeout)
    {
      var i := 0;
      token := candidates[0];
      while token in sessions
        invariant 0 <= i < |candidates| && token == candidates[i]
        invariant forall j :: 0 <= j < i ==> candidates[j] in sessions
        invariant exists j :: i <= j < |candidates| && candidates[j] !in sessions
        decreases |candidates| - i
      {
        i := i + 1;
        token := candidates[i];
      }
      FirstFreshIsUnique(sessions, candidates, i);
      sessions := sessions[token := Session(username, now + Timeout)];
      ClearExpiredSessions(now);
    }

    /**
     * Returns the user of `token`. An expired token is removed and None is
     * returned; a valid one triggers a sweep of all expired sessions.
     */
    method LookupSession(token: string, now: int) returns (username: Option<string>)
      modifies this
      ensures (sessions, username) == Lookup(old(sessions), token, now)
    {
      if token !in sessions {
        return None;
      } else if IsExpired(sessions[token], now) {
        sessions := sessions - {token};
        return None;
      }
      var user := sessions[token].username;
      ClearExpiredSessions(now);
      username := Some(sessions[token].username);
      assert username == Some(user);
    }

    /** Extends a present token's lifetime to now + Timeout; no effect on an absent one. */
    method RefreshSessionTimeout(token: string, now: int)
      modifies this
      ensures sessions == Refresh(old(sessions), token, now)
    {
      if token in sessions {
        var user := sessions[token];
        sessions := sessions[token := Session(user.username, now + Timeout)];
      }
    }

    /** Removes the token, present or not. */
    method RemoveSessionToken(token: string)
      modifies this
      ensures sessions == Revoke(old(sessions), token)
    {
      sessions := sessions - {token};
    }

    /** Removes every session that has expired at time `now`, one key at a time. */
    method ClearExpiredSessions(now: int)
      modifies this
      ensures sessions == ClearExpired(old(sessions), now)
    {
      var tokens := sessions.Keys;
      while tokens != {}
        invariant tokens <= old(sessions).Keys
        invariant sessions.Keys <= old(sessions).Keys
        invariant forall t :: t in old(sessions) && t !in tokens ==>
                    (t in sessions <==> !IsExpired(old(sessions)[t], now))
        invariant forall t :: t in tokens ==> t in sessions
        invariant forall t :: t in sessions ==> sessions[t] == old(sessions)[t]
        decreases tokens
      {
        var t :| t in tokens;
        if IsExpired(sessions[t], now) {
          sessions := sessions - {t};
        }
        tokens := tokens - {t};
      }
    }
  }

  /** The first fresh candidate is the one found by scanning the candidates in order. */
  lemma FirstFreshIsUnique(sessions: Table, candidates: seq<string>, i: nat)
    requires i < |candidates| && candidates[i] !in sessions
    requires forall j :: 0 <= j < i ==> candidates[j] in sessions
    ensures FirstFresh(sessions, candidates) == i
  {
  }

  /** A lookup of an unknown token answers None and changes nothing. */
  lemma LookupAbsent(sessions: Table, token: string, now: int)
    requires token !in sessions
    ensures Lookup(sessions, token, now) == (sessions, None)
  {
  }

  /** A lookup of an expired token removes exactly that token and answers None. */
  lemma LookupExpired(sessions: Table, token: string, now: int)
    requires token in sessions && now > sessions[token].expires
    ensures Lookup(sessions, token, now) == (sessions - {token}, None)
  {
  }

  /**
   * At the very millisecond of expiry the token is still valid: the lookup
   * answers its user and sweeps the table, keeping the token.
   */
  lemma LookupAtExpiry(sessions: Table, token: string, now: int)
    requires token in sessions && now == sessions[token].expires
    ensures Lookup(sessions, token, now) == (ClearExpired(sessions, now), Some(sessions[token].username))
    ensures token in Lookup(sessions, token, now).0
  {
  }

  /** The table of a successful lookup holds no expired session. */
  lemma LookupLeavesNoExpired(sessions: Table, token: string, now: int)
    requires Lookup(sessions, token, now).1.Some?
    ensures var table := Lookup(sessions, token, now).0;
            forall t :: t in table ==> !IsExpired(table[t], now)
  {
  }

  /** Sweeping twice at the same time is sweeping once. */
  lemma ClearExpiredIdempotent(sessions: Table, now: int)
    ensures ClearExpired(ClearExpired(sessions, now), now) == ClearExpired(sessions, now)
  {
  }

  /** A sweep at a later time subsumes an earlier one. */
  lemma ClearExpiredLaterSubsumes(sessions: Table, earlier: int, later: int)
    requires earlier <= later
    ensures ClearExpired(ClearExpired(sessions, earlier), later) == ClearExpired(sessions, later)
  {
  }

  /**
   * Token round trip: a token issued at `now` names its user from `now` up to
   * and including now + Timeout, and is gone at any later lookup.
   */
  lemma IssueThenLookup(sessions: Table, username: string, now: int, token: string, t: int)
    requires token !in sessions && now <= t
    ensures var issued := Issue(sessions, username, now, token);
            var (table, answer) := Lookup(issued, token, t);
            (t <= now + Timeout ==> answer == Some(username) && token in table) &&
            (t > now + Timeout ==> answer == None && token !in table)
  {
    var issued := Issue(sessions, username, now, token);
    assert token in issued && issued[token] == Session(username, now + Timeout);
  }

  /** Issuing never disturbs other unexpired sessions. */
  lemma IssueKeepsLiveSessions(sessions: Table, username: string, now: int, token: string, other: string)
    requires token !in sessions && other in sessions && !IsExpired(sessions[other], now)
    ensures var issued := Issue(sessions, username, now, token);
            other in issued && issued[other] == sessions[other]
  {
    assert other != token;
  }

  /**
   * Refresh resets a present token's expiry to now + Timeout with the same user,
   * even when it had already expired, and leaves everything else as it was.
   */
  lemma RefreshResetsExpiry(sessions: Table, token: string, now: int)
    requires token in sessions
    ensures var table := Refresh(sessions, token, now);
            table.Keys == sessions.Keys &&
            table[token] == Session(sessions[token].username, now + Timeout) &&
            forall t :: t in sessions && t != token ==> table[t] == sessions[t]
  {
  }

  /** Refreshing an unknown token has no effect. */
  lemma RefreshAbsent(sessions: Table, token: string, now: int)
    requires token !in sessions
    ensures Refresh(sessions, token, now) == sessions
  {
  }

  /** A refreshed token answers its user on a lookup up to Timeout later. */
  lemma RefreshThenLookup(sessions: Table, token: string, now: int, t: int)
    requires token in sessions && now <= t <= now + Timeout
    ensures Lookup(Refresh(sessions, token, now), token, t).1 == Some(sessions[token].username)
  {
  }

  /** Revoking removes exactly the token, and revoking twice is revoking once. */
  lemma RevokeRemovesOnlyToken(sessions: Table, token: string)
    ensures token !in Revoke(sessions, token)
    ensures forall t :: t in sessions && t != token ==> t in Revoke(sessions, token) && Revoke(sessions, token)[t] == sessions[t]
    ensures Revoke(Revoke(sessions, token), token) == Revoke(sessions, token)
  {
  }

  /** A revoked token is unknown to every later lookup. */
  lemma RevokeThenLookup(sessions: Table, token: string, now: int)
    ensures Lookup(Revoke(sessions, token), token, now).1 == None
  {
  }

  /** Session round trip with a 60-second lifetime: valid at 59 s, gone at 61 s. */
  lemma SessionLifetimeExample(token: string)
    ensures var issued := Issue(map[], "carol", 0, token);
            Lookup(issued, token, 59000).1 == Some("carol") &&
            Lookup(issued, token, 61000).1 == None &&
            token !in Lookup(issued, token, 61000).0
  {
    IssueThenLookup(map[], "carol", 0, token, 59000);
    IssueThenLookup(map[], "carol", 0, token, 61000);
  }
}
