/**
 The auth service over its session table, one call at a time: each method is proved to be the
 undisturbed sequence of steps of the model.
 */
module AuthService {
  import opened Prelude
  import opened Sessions

  datatype AuthError = Unauthorized

  class SessionTable {
    var clock: nat
    var suspended: set<nat>
    var rows: seq<Session>

    /** History the rows do not record: descent, and the refresh calls made so far. */
    ghost var origins: seq<Origin>
    ghost var calls: seq<Refresh>

    constructor ()
      ensures State() == EMPTY && Valid()
    {
      clock, suspended, rows, origins, calls := 0, {}, [], [], [];
      new;
      assert Run(EMPTY, []) == EMPTY;
    }

    /** Some history of logins, refreshes and revocations led here, so rotation has been linear so far. */
    ghost predicate Valid()
      reads this
    {
      Reachable(State())
    }

    ghost function State(): State
      reads this
    {
      Sessions.State(clock, suspended, rows, origins, calls)
    }

    /** A fresh session; its token is the position of the row. */
    method CreateRow(user: nat, fingerprint: string, ghost origin: Origin) returns (token: nat)
      modifies `rows, `origins
      ensures token == |old(rows)| && rows == old(rows) + [NewSession(user, fingerprint, clock)]
      ensures origins == old(origins) + [origin]
    {
      token := |rows|;
      rows := rows + [Session(user, fingerprint, clock + LIFETIME_MS, None)];
      origins := origins + [origin];
    }

    /** A login through the identity provider makes the account active again. */
    method LoginWithIdp(user: nat, fingerprint: string) returns (token: nat)
      requires Valid()
      modifies this
      ensures Valid() && LiveRows(State(), token) == {token}
      ensures State() == Step(old(State()), LogIn(user, fingerprint)) && token == |old(rows)|
    {
      LoginIsFresh(State(), user, fingerprint);
      suspended := suspended - {user};
      token := CreateRow(user, fingerprint, Login(|rows|));
    }

    /** The position of the live session the token belongs to. */
    method FindSession(token: nat, fingerprint: string) returns (session: Option<nat>)
      ensures session == if Matches(rows, token, fingerprint, clock) then Some(token) else None
    {
      if token < |rows| && rows[token].fingerprint == fingerprint && rows[token].revokedAt.None? && rows[token].expiresAt > clock {
        return Some(token);
      }
      return None;
    }

    /** Revokes the session if it is not revoked yet; returns how many rows that changed. */
    method RevokeIfUnrevoked(session: nat) returns (count: nat)
      requires session < |rows|
      modifies `rows
      ensures if old(rows)[session].revokedAt.None?
              then count == 1 && rows == old(rows)[session := old(rows)[session].(revokedAt := Some(clock))]
              else count == 0 && rows == old(rows)
    {
      if rows[session].revokedAt.Some? { return 0; }
      rows := rows[session := rows[session].(revokedAt := Some(clock))];
      return 1;
    }

    /** Trades a live token for a fresh one. */
    method Refresh(token: nat, fingerprint: string) returns (result: Result<nat, AuthError>)
      requires Valid()
      modifies this
      ensures Valid() && State() == RefreshAlone(old(State()), token, fingerprint)
      ensures result == if old(Admits(State(), token, fingerprint)) then Success(|old(rows)|) else Failure(Unauthorized)
    {
      hide RefreshAlone;
      hide Reachable;
      hide Step;
      AloneSucceedsIff(State(), token, fingerprint);
      RefreshReachable(State(), token, fingerprint);
      ghost var c := |calls|;
      var session := FindSession(token, fingerprint);
      if session.None? {
        calls := calls + [Sessions.Refresh(token, fingerprint, Rejected)];
        return Failure(Unauthorized);
      }
      if rows[session.value].user in suspended {
        calls := calls + [Sessions.Refresh(token, fingerprint, Rejected)];
        return Failure(Unauthorized);
      }
      OriginKnown(State(), token);
      ghost var origin := Rotated(origins[token].root, token, c);
      var count := RevokeIfUnrevoked(session.value);
      if count != 1 { return Failure(Unauthorized); }
      var successor := CreateRow(rows[session.value].user, fingerprint, origin);
      calls := calls + [Sessions.Refresh(token, fingerprint, Done(token, successor))];
      assert rows == RefreshAlone(old(State()), token, fingerprint).rows;
      return Success(successor);
    }

    method RevokeByToken(token: nat, fingerprint: string)
      requires Valid()
      modifies `rows
      ensures Valid() && State() == Step(old(State()), RevokeSession(token, fingerprint))
      ensures |rows| == |old(rows)| && forall i :: 0 <= i < |rows| && i != token ==> rows[i] == old(rows)[i]
      ensures token < |rows| && old(rows)[token].fingerprint == fingerprint ==> rows[token].revokedAt == Some(clock)
    {
      SingleStep(State(), RevokeSession(token, fingerprint));
      if token < |rows| && rows[token].fingerprint == fingerprint {
        rows := rows[token := rows[token].(revokedAt := Some(clock))];
      }
    }

    /** One bulk update. No login of the user has a live session afterwards, and nobody else's row is touched. */
    method LogoutAll(user: nat)
      requires Valid()
      modifies `rows
      ensures Valid() && State() == Step(old(State()), LogOutAll(user))
      ensures |rows| == |old(rows)|
      ensures forall i :: 0 <= i < |rows| && old(rows)[i].user != user ==> rows[i] == old(rows)[i]
      ensures forall i :: 0 <= i < |rows| && old(rows)[i].user == user ==> rows[i] == old(rows)[i].(revokedAt := Some(clock))
      ensures forall root :: 0 <= root < |rows| && old(rows)[root].user == user ==> LiveRows(State(), root) == {}
    {
      ghost var before := State();
      var now := Some(clock);
      rows := seq(|rows|, i requires 0 <= i < |rows| reads this =>
        if rows[i].user == user then Session(rows[i].user, rows[i].fingerprint, rows[i].expiresAt, now) else rows[i]);
      LogoutIsExact(before, user, State());
    }
  }
}
