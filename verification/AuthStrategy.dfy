/**
 Rotation, login and logout on one replica, run on their own.

 The order of the effects is the point: the presented session is revoked before a new one exists,
 nothing is carried unless that delete really removed a row, and the cookie is written last. The
 storage is what the strategy sees of either session store; each of its calls may fail, with no
 effect. Minted ids and tokens are fresh values handed in by the caller.
 */
module AuthStrategy {
  import opened Options

  /** What the store holds of a session. */
  datatype Stored = Stored(userId: string, lastActivity: int, csrfToken: string)

  /** The rows after a delete, whatever they hold. */
  function Deleted<T>(rows: map<string, T>, id: string): map<string, T> {
    rows - {id}
  }

  /** A write of a session that once had a row lands only while it has one; one that never had is inserted. */
  predicate Lands<T>(rows: map<string, T>, id: string, persisted: bool) {
    id in rows || !persisted
  }

  /** The rows after such a write. */
  function Written<T>(rows: map<string, T>, id: string, persisted: bool, value: T): map<string, T> {
    if Lands(rows, id, persisted) then rows[id := value] else rows
  }

  class Storage {
    var rows: map<string, Stored>
    ghost var everUsed: set<string>
    const fails: nat -> bool
    var calls: nat

    constructor (fails: nat -> bool)
      ensures rows == map[] && everUsed == {} && this.fails == fails && calls == 0
    {
      rows, everUsed, this.fails, calls := map[], {}, fails, 0;
    }

    ghost predicate Valid()
      reads this
    {
      rows.Keys <= everUsed
    }

    method RevokeSession(id: string) returns (removed: bool, failed: bool)
      requires Valid()
      modifies this
      ensures Valid() && everUsed == old(everUsed) && calls == old(calls) + 1
      ensures failed == fails(old(calls))
      ensures removed <==> !failed && id in old(rows)
      ensures rows == if failed then old(rows) else Deleted(old(rows), id)
    {
      calls := calls + 1;
      if fails(calls - 1) {
        return false, true;
      }
      removed, failed := id in rows, false;
      rows := rows - {id};
    }

    /** Writes a session's whole state over its row, or inserts one that never had a row. */
    method Put(session: Session) returns (ok: bool)
      requires Valid()
      modifies this
      ensures Valid() && calls == old(calls) + 1
      ensures ok <==> !fails(old(calls)) && Lands(old(rows), session.id, session.persisted)
      ensures rows == if fails(old(calls)) then old(rows)
                      else Written(old(rows), session.id, session.persisted, session.State())
      ensures everUsed == if ok then old(everUsed) + {session.id} else old(everUsed)
    {
      calls := calls + 1;
      if fails(calls - 1) || (session.id !in rows && session.persisted) {
        return false;
      }
      rows := rows[session.id := session.State()];
      everUsed := everUsed + {session.id};
      return true;
    }
  }

  /** A live session whose setters write through, and remember a write that did not land. */
  class Session {
    const id: string
    var userId: string
    var lastActivity: int
    var csrfToken: string
    var persisted: bool
    var pendingErr: bool

    constructor (id: string, now: int)
      ensures this.id == id && State() == Stored("", now, "") && !persisted && !pendingErr
    {
      this.id, userId, lastActivity, csrfToken := id, "", now, "";
      persisted, pendingErr := false, false;
    }

    function State(): Stored
      reads this
    {
      Stored(userId, lastActivity, csrfToken)
    }

    method WriteThrough(store: Storage) returns (ok: bool)
      requires store.Valid()
      modifies store, this`persisted, this`pendingErr
      ensures store.Valid() && State() == old(State()) && store.calls == old(store.calls) + 1
      ensures ok <==> !store.fails(old(store.calls)) && Lands(old(store.rows), id, old(persisted))
      ensures ok ==> persisted && !pendingErr && store.rows == old(store.rows)[id := State()]
      ensures ok && old(persisted) ==> id in old(store.rows)
      ensures !ok ==> persisted == old(persisted) && pendingErr && store.rows == old(store.rows)
      ensures store.everUsed == if ok then old(store.everUsed) + {id} else old(store.everUsed)
    {
      ok := store.Put(this);
      pendingErr := !ok;
      if ok {
        persisted := true;
      }
    }

    /** A setter of a session that has had a row. Whether its write landed is not asked. */
    method SetUserId(store: Storage, userId: string)
      requires store.Valid() && persisted
      modifies store, this`userId, this`persisted, this`pendingErr
      ensures store.Valid() && persisted && State() == old(State()).(userId := userId)
      ensures Rewrites(old(store.rows), store.rows, id) && store.calls == old(store.calls) + 1
      ensures old(store.everUsed) <= store.everUsed <= old(store.everUsed) + {id}
    {
      this.userId := userId;
      var _ := WriteThrough(store);
    }

    method SetLastActivity(store: Storage, lastActivity: int)
      requires store.Valid() && persisted
      modifies store, this`lastActivity, this`persisted, this`pendingErr
      ensures store.Valid() && persisted && State() == old(State()).(lastActivity := lastActivity)
      ensures Rewrites(old(store.rows), store.rows, id) && store.calls == old(store.calls) + 1
      ensures old(store.everUsed) <= store.everUsed <= old(store.everUsed) + {id}
    {
      this.lastActivity := lastActivity;
      var _ := WriteThrough(store);
    }

    method SetToken(store: Storage, token: string)
      requires store.Valid() && persisted
      modifies store, this`csrfToken, this`persisted, this`pendingErr
      ensures store.Valid() && persisted && State() == old(State()).(csrfToken := token)
      ensures Rewrites(old(store.rows), store.rows, id) && store.calls == old(store.calls) + 1
      ensures old(store.everUsed) <= store.everUsed <= old(store.everUsed) + {id}
    {
      csrfToken := token;
      var _ := WriteThrough(store);
    }
  }

  /** Rows other than these are untouched. */
  ghost predicate OnlyTouches(before: map<string, Stored>, after: map<string, Stored>, ids: set<string>) {
    forall other :: other !in ids ==>
      (other in after <==> other in before) && (other in before ==> after[other] == before[other])
  }

  /** At most what one row holds has changed. */
  ghost predicate Rewrites(before: map<string, Stored>, after: map<string, Stored>, id: string) {
    after.Keys == before.Keys && forall other :: other in before && other != id ==> after[other] == before[other]
  }

  function Touched(presented: Option<Session>, id: string): set<string> {
    if presented.Some? then {presented.value.id, id} else {id}
  }

  function Without(rows: map<string, Stored>, presented: Option<Session>): map<string, Stored> {
    if presented.Some? then rows - {presented.value.id} else rows
  }

  /** What a rotation carries: user, activity and a token already in the client's hands, and nothing of the rest. */
  function CarriedOver(presented: Option<Session>, token: string, now: int): Stored
    reads if presented.Some? then {presented.value} else {}
  {
    if presented.None? then Stored("", now, token)
    else Stored(presented.value.userId, presented.value.lastActivity,
                if presented.value.csrfToken != "" then presented.value.csrfToken else token)
  }

  /** Some call from the first to before the second failed. */
  ghost predicate SomeFailed(fails: nat -> bool, from: nat, to: nat) {
    exists i :: from <= i < to && fails(i)
  }

  /** The store calls of carrying a session over: one a setter, and the confirmation. */
  function CarryCalls(csrfToken: string): nat {
    if csrfToken != "" then 4 else 3
  }

  datatype Minted = NoSession | NewSession(session: Session)

  class StandardAuthStrategy {
    const store: Storage
    /** The ids written to the client, in order; "" stands for an expired cookie. */
    var cookies: seq<string>

    constructor (store: Storage)
      ensures this.store == store && cookies == []
    {
      this.store, cookies := store, [];
    }

    /** Setting the token and asking whether it reached the store. */
    method GenerateCSRFToken(session: Session, token: string) returns (ok: bool)
      requires store.Valid()
      modifies store, session
      ensures store.Valid() && OnlyTouches(old(store.rows), store.rows, {session.id})
      ensures session.State() == old(session.State()).(csrfToken := token)
      ensures store.calls == old(store.calls) + 1
      ensures ok <==> !store.fails(old(store.calls)) && Lands(old(store.rows), session.id, old(session.persisted))
      ensures ok ==> session.persisted && session.id in store.rows && store.rows[session.id] == session.State()
      ensures session.id in old(store.rows) ==> session.id in store.rows
      ensures old(store.everUsed) <= store.everUsed <= old(store.everUsed) + {session.id}
      ensures old(session.persisted) ==> session.persisted
    {
      session.csrfToken := token;
      ok := session.WriteThrough(store);
    }

    /** Mints an anonymous session and stores it; on a later failure the row is revoked again. */
    method NewSessionWithoutUser(id: string, token: string, owed: bool, now: int) returns (minted: Minted)
      requires store.Valid() && id !in store.everUsed
      modifies store
      ensures store.Valid() && OnlyTouches(old(store.rows), store.rows, {id})
      ensures old(store.everUsed) <= store.everUsed <= old(store.everUsed) + {id}
      ensures store.calls >= old(store.calls)
      ensures minted.NewSession? <==> !owed && !store.fails(old(store.calls)) && !store.fails(old(store.calls) + 1)
      ensures minted.NoSession? && !owed ==> SomeFailed(store.fails, old(store.calls), store.calls)
      ensures minted.NoSession? && id in store.rows ==> store.calls > 0 && store.fails(store.calls - 1)
      ensures owed ==> minted.NoSession? && store.rows == old(store.rows)
      ensures minted.NewSession? ==>
                && fresh(minted.session) && minted.session.id == id && minted.session.persisted
                && store.rows == old(store.rows)[id := minted.session.State()]
                && minted.session.State() == Stored("", now, token)
    {
      if owed {
        return NoSession;
      }
      var session := new Session(id, now);
      var added := session.WriteThrough(store);
      if !added {
        return NoSession;
      }
      var issued := GenerateCSRFToken(session, token);
      if !issued {
        var _, _ := store.RevokeSession(id);
        return NoSession;
      }
      assert store.rows == old(store.rows)[id := session.State()];
      return NewSession(session);
    }

    /** Copies three things onto the new session, each written through, then confirms the whole in the store. */
    method CarryOver(session: Session, userId: string, lastActivity: int, csrfToken: string) returns (added: bool)
      requires store.Valid() && session.persisted
      modifies store, session
      ensures store.Valid() && session.persisted && OnlyTouches(old(store.rows), store.rows, {session.id})
      ensures old(store.everUsed) <= store.everUsed <= old(store.everUsed) + {session.id}
      ensures session.State() == Stored(userId, lastActivity,
                if csrfToken != "" then csrfToken else old(session.csrfToken))
      ensures store.calls == old(store.calls) + CarryCalls(csrfToken)
      ensures added <==> session.id in old(store.rows) && !store.fails(store.calls - 1)
      ensures added ==> session.id in store.rows && store.rows[session.id] == session.State()
      ensures session.id in store.rows <==> session.id in old(store.rows)
    {
      session.SetUserId(store, userId);
      session.SetLastActivity(store, lastActivity);
      if csrfToken != "" {
        session.SetToken(store, csrfToken);
      }
      added := session.WriteThrough(store);
    }

    /** The login's own writes, with a token of its own. When they fail the session is given up again. */
    method Authenticate(session: Session, userId: string, now: int, token: string) returns (added: bool)
      requires store.Valid() && session.persisted
      modifies store, session
      ensures store.Valid() && session.persisted && OnlyTouches(old(store.rows), store.rows, {session.id})
      ensures store.calls > old(store.calls)
      ensures added <==>
                session.id in old(store.rows) && !store.fails(old(store.calls) + 2) && !store.fails(old(store.calls) + 3)
      ensures !added && session.id in old(store.rows) ==> SomeFailed(store.fails, old(store.calls), store.calls)
      ensures added ==> session.id in store.rows && store.rows[session.id] == Stored(userId, now, token)
      ensures !added && session.id in store.rows ==> store.calls > 0 && store.fails(store.calls - 1)
    {
      session.SetUserId(store, userId);
      session.SetLastActivity(store, now);
      added := GenerateCSRFToken(session, token);
      if added {
        added := session.WriteThrough(store);
      }
      if !added {
        var _, _ := store.RevokeSession(session.id);
      }
    }

    /**
     Moves a session onto a fresh id without writing a cookie. With no session to move there is a new anonymous
     one; otherwise nothing is carried anywhere unless this very call removed the old row. `owed` is whether a
     revocation of the id in the client's cookie is owed when the new session is asked for.
     */
    method RotateWithoutCookie(presented: Option<Session>, id: string, token: string, owed: bool, now: int)
      returns (minted: Minted)
      requires store.Valid() && id !in store.everUsed
      requires presented.Some? ==> id != presented.value.id
      modifies store
      ensures store.Valid() && store.calls >= old(store.calls)
      ensures OnlyTouches(old(store.rows), store.rows, Touched(presented, id))
      ensures old(store.everUsed) <= store.everUsed <= old(store.everUsed) + {id}
      ensures presented.Some? && presented.value.id !in old(store.rows) ==>
                minted.NoSession? && store.rows == old(store.rows)
      ensures presented.Some? && presented.value.id in store.rows ==> minted.NoSession? && store.rows == old(store.rows)
      ensures owed ==> minted.NoSession?
      ensures minted.NoSession? && !owed && (presented.Some? ==> presented.value.id in old(store.rows)) ==>
                SomeFailed(store.fails, old(store.calls), store.calls)
      ensures minted.NoSession? && id in store.rows ==> store.calls > 0 && store.fails(store.calls - 1)
      ensures minted.NewSession? ==>
                && fresh(minted.session) && minted.session.id == id && minted.session.persisted
                && store.rows == Without(old(store.rows), presented)[id := minted.session.State()]
                && minted.session.State() == CarriedOver(presented, token, now)
                && (presented.Some? ==> presented.value.id in old(store.rows))
    {
      if presented.None? {
        minted := NewSessionWithoutUser(id, token, owed, now);
        return;
      }
      minted := RotateStored(presented.value, id, token, owed, now);
    }

    method RotateStored(presented: Session, id: string, token: string, owed: bool, now: int) returns (minted: Minted)
      requires store.Valid() && id !in store.everUsed && id != presented.id
      modifies store
      ensures store.Valid() && store.calls >= old(store.calls)
      ensures OnlyTouches(old(store.rows), store.rows, {presented.id, id})
      ensures old(store.everUsed) <= store.everUsed <= old(store.everUsed) + {id}
      ensures presented.id !in old(store.rows) ==> minted.NoSession? && store.rows == old(store.rows)
      ensures presented.id in store.rows ==> minted.NoSession? && store.rows == old(store.rows)
      ensures owed ==> minted.NoSession?
      ensures minted.NoSession? && !owed && presented.id in old(store.rows) ==>
                SomeFailed(store.fails, old(store.calls), store.calls)
      ensures minted.NoSession? && id in store.rows ==> store.calls > 0 && store.fails(store.calls - 1)
      ensures minted.NewSession? ==>
                && fresh(minted.session) && minted.session.id == id && minted.session.persisted
                && presented.id in old(store.rows)
                && store.rows == (old(store.rows) - {presented.id})[id := minted.session.State()]
                && minted.session.State() == CarriedOver(Some(presented), token, now)
    {
      var userId, lastActivity, csrfToken := presented.userId, presented.lastActivity, presented.csrfToken;
      var wasLive, failed := store.RevokeSession(presented.id);
      if failed || !wasLive {
        assert store.rows == old(store.rows);
        assert failed ==> store.fails(old(store.calls));
        return NoSession;
      }
      minted := MintWith(userId, lastActivity, csrfToken, id, token, owed, now);
    }

    /** A new session that takes over what is carried. */
    method MintWith(userId: string, lastActivity: int, csrfToken: string, id: string, token: string, owed: bool, now: int)
      returns (minted: Minted)
      requires store.Valid() && id !in store.everUsed
      modifies store
      ensures store.Valid() && store.calls >= old(store.calls) && OnlyTouches(old(store.rows), store.rows, {id})
      ensures old(store.everUsed) <= store.everUsed <= old(store.everUsed) + {id}
      ensures owed ==> minted.NoSession? && store.rows == old(store.rows)
      ensures minted.NoSession? && !owed ==> SomeFailed(store.fails, old(store.calls), store.calls)
      ensures minted.NoSession? && id in store.rows ==> store.calls > 0 && store.fails(store.calls - 1)
      ensures minted.NewSession? ==>
                && fresh(minted.session) && minted.session.id == id && minted.session.persisted
                && store.rows == old(store.rows)[id := minted.session.State()]
                && minted.session.State() == Stored(userId, lastActivity, if csrfToken != "" then csrfToken else token)
    {
      minted := NewSessionWithoutUser(id, token, owed, now);
      if minted.NoSession? {
        return NoSession;
      }
      var session := minted.session;
      var added := CarryOver(session, userId, lastActivity, csrfToken);
      if !added {
        return NoSession;
      }
      assert store.rows == old(store.rows)[id := session.State()];
    }

    /** The rotation a client is told of: the cookie follows, last, exactly when there is a new session. */
    method RotateSession(presented: Option<Session>, id: string, token: string, owed: bool, now: int)
      returns (minted: Minted)
      requires store.Valid() && id !in store.everUsed
      requires presented.Some? ==> id != presented.value.id
      modifies this`cookies, store
      ensures store.Valid() && OnlyTouches(old(store.rows), store.rows, Touched(presented, id))
      ensures owed ==> minted.NoSession?
      ensures minted.NoSession? && !owed && (presented.Some? ==> presented.value.id in old(store.rows)) ==>
                SomeFailed(store.fails, old(store.calls), store.calls)
      ensures cookies == if minted.NewSession? then old(cookies) + [id] else old(cookies)
      ensures minted.NewSession? && presented.None? ==> id in store.rows && store.rows[id] == Stored("", now, token)
      ensures minted.NewSession? && presented.Some? ==>
                && presented.value.id in old(store.rows) && presented.value.id !in store.rows
                && id in store.rows && store.rows[id].userId == presented.value.userId
                && store.rows[id].lastActivity == presented.value.lastActivity
                && (if presented.value.csrfToken != "" then store.rows[id].csrfToken == presented.value.csrfToken
                    else store.rows[id].csrfToken == token)
    {
      minted := RotateWithoutCookie(presented, id, token, owed, now);
      if minted.NewSession? {
        cookies := cookies + [id];
      }
    }

    /**
     Authenticates onto an id the client has never seen. A login that fails writes no cookie and
     gives its session up again; one that succeeds has its row, with this user, in the store.
     */
    method Login(userId: string, presented: Option<Session>, id: string, tokens: (string, string),
                 owed: bool, now: int)
      returns (minted: Minted)
      requires store.Valid() && id !in store.everUsed
      requires presented.Some? ==> presented.value.id != id
      modifies this`cookies, store
      ensures store.Valid()
      ensures owed ==> minted.NoSession?
      ensures minted.NoSession? && !owed && (presented.Some? ==> presented.value.id in old(store.rows)) ==>
                SomeFailed(store.fails, old(store.calls), store.calls)
      ensures minted.NoSession? && id in store.rows ==> store.calls > 0 && store.fails(store.calls - 1)
      ensures minted.NoSession? ==> cookies == old(cookies)
      ensures minted.NewSession? ==>
                && cookies == old(cookies) + [id]
                && minted.session.id == id
                && id in store.rows && store.rows[id] == Stored(userId, now, tokens.1)
                && (presented.Some? ==>
                      presented.value.id in old(store.rows) && presented.value.id !in store.rows)
      ensures OnlyTouches(old(store.rows), store.rows, Touched(presented, id))
    {
      if presented.None? {
        minted := NewSessionWithoutUser(id, tokens.0, owed, now);
      } else {
        minted := RotateWithoutCookie(presented, id, tokens.0, owed, now);
      }
      if minted.NoSession? {
        return;
      }
      var session := minted.session;
      var added := Authenticate(session, userId, now, tokens.1);
      if !added {
        return NoSession;
      }
      cookies := cookies + [id];
    }

    /** Revokes first, and expires the cookie only when that worked. */
    method Logout(id: string) returns (done: bool)
      requires store.Valid()
      modifies this`cookies, store
      ensures store.Valid()
      ensures done <==> !store.fails(old(store.calls))
      ensures done ==> id !in store.rows && cookies == old(cookies) + [""]
      ensures !done ==> store.rows == old(store.rows) && cookies == old(cookies)
      ensures OnlyTouches(old(store.rows), store.rows, {id})
    {
      var _, failed := store.RevokeSession(id);
      if failed {
        return false;
      }
      cookies := cookies + [""];
      return true;
    }
  }
}
