/** The credential resolver of server.js: one global cache slot holding the
    last row fetched from the `admin_api_settings` table together with the
    time it was fetched, served while it is younger than five minutes, and a
    fallback to the three HMS_* environment variables whenever the database
    gives no row. The database query is injected as its outcome. */
module Credentials {
  import opened JsValues

  /** The credential triple: management token, app access key, app secret.
      A null or missing column of the row is modelled as "". */
  datatype Creds = Creds(managementToken: string, accessKey: string, appSecret: string)

  /** What the database query for the newest active settings row ends in. */
  datatype DbOutcome =
    | DbError(message: string)   // the query resolved with `error` set
    | NoRow                      // no error, but `data` is null
    | Row(row: Creds)            // the newest active row
    | Throws(message: string)    // the client call raised an exception

  /** Freshness window of the cache, in milliseconds (five minutes). */
  const CacheDuration: int := 5 * 60 * 1000

  /** The two module-level variables: the cached row and its fetch time. */
  datatype CacheState = CacheState(entry: Option<Creds>, timestamp: int)

  /** The state at process start: no row cached, timestamp 0. */
  const Initial: CacheState := CacheState(None, 0)

  /** The cache may be served at time `now` (milliseconds). */
  predicate Fresh(s: CacheState, now: int)
    // only a cached row can be fresh
    ensures Fresh(s, now) ==> s.entry.Some?
    // a cached row younger than five minutes is fresh
    ensures s.entry.Some? && s.timestamp <= now < s.timestamp + CacheDuration ==> Fresh(s, now)
    // a row five minutes old or older is not
    ensures now - s.timestamp >= CacheDuration ==> !Fresh(s, now)
    // with the clock behind the fetch time the row counts as fresh again
    ensures s.entry.Some? && now < s.timestamp ==> Fresh(s, now)
  {
    s.entry.Some? && now - s.timestamp < CacheDuration
  }

  /** What one call of the resolver returns, the cache state it leaves, and
      whether it queried the database. */
  datatype Resolution = Resolution(creds: Creds, next: CacheState, queried: bool)

  /** One call of the resolver, started at time `now` with the environment
      triple `env`, where the database (if asked) answers `db`. */
  function ResolveStep(s: CacheState, now: int, db: DbOutcome, env: Creds): (r: Resolution)
    // the database is consulted exactly when the cache cannot be served
    ensures r.queried <==> !Fresh(s, now)
    // a fresh cache is returned as it is, and nothing changes
    ensures Fresh(s, now) ==> r.creds == s.entry.value && r.next == s
    // past the freshness check the answer comes from the database or the environment
    ensures !Fresh(s, now) ==> r.creds == (if db.Row? then db.row else env)
    // the state only ever changes by storing the row just fetched, stamped with `now`
    ensures r.next != s ==> r.queried && db == Row(r.creds) && r.next == CacheState(Some(r.creds), now)
    // a database failure of any kind leaves the state untouched
    ensures !db.Row? ==> r.next == s
    // a row fetched for an unservable cache is stored, stamped with `now`
    ensures !Fresh(s, now) && db.Row? ==> r.next == CacheState(Some(db.row), now)
  {
    if Fresh(s, now) then
      Resolution(s.entry.value, s, false)
    else
      match db
      case Row(row) => Resolution(row, CacheState(Some(row), now), true)
      case DbError(_) => Resolution(env, s, true)
      case NoRow => Resolution(env, s, true)
      case Throws(_) => Resolution(env, s, true)
  }

  /** The global cache slot as an object whose fields the resolver updates in place. */
  class CredentialCache {
    var entry: Option<Creds>
    var timestamp: int

    constructor ()
      ensures State() == Initial
    {
      entry := None;
      timestamp := 0;
    }

    function State(): CacheState
      reads this
    {
      CacheState(entry, timestamp)
    }

    /** Resolve the credentials at time `now`; `queried` reports whether the
        database was asked (and so whether `db` was used at all). */
    method Resolve(now: int, db: DbOutcome, env: Creds) returns (creds: Creds, queried: bool)
      modifies this
      ensures Resolution(creds, State(), queried) == ResolveStep(old(State()), now, db, env)
      ensures old(Fresh(State(), now)) ==> !queried && creds == old(entry).value && unchanged(this)
      ensures !old(Fresh(State(), now)) ==> queried
      ensures !old(Fresh(State(), now)) && db.Row? ==> creds == db.row && entry == Some(db.row) && timestamp == now
      ensures !db.Row? ==> unchanged(this)
      ensures !old(Fresh(State(), now)) && !db.Row? ==> creds == env
    {
      if entry.Some? && now - timestamp < CacheDuration {
        return entry.value, false;
      }
      queried := true;
      match db {
        case DbError(_) =>
          creds := env;
        case Row(row) =>
          entry := Some(row);
          timestamp := now;
          creds := row;
        case NoRow =>
          creds := env;
        case Throws(_) =>
          creds := env;
      }
    }
  }

  /** One resolver call in a sequence of requests. */
  datatype Call = Call(now: int, db: DbOutcome)

  /** The cache state after serving `calls` in order, starting from `s`.
      Once a row has been cached the slot is never emptied again. */
  function Replay(s: CacheState, calls: seq<Call>, env: Creds): (t: CacheState)
    ensures s.entry.Some? ==> t.entry.Some?
    decreases |calls|
  {
    if calls == [] then s
    else Replay(ResolveStep(s, calls[0].now, calls[0].db, env).next, calls[1..], env)
  }

  /** How many of `calls` query the database, starting from `s`. */
  function Queries(s: CacheState, calls: seq<Call>, env: Creds): (n: nat)
    ensures n <= |calls|
    decreases |calls|
  {
    if calls == [] then 0
    else
      var r := ResolveStep(s, calls[0].now, calls[0].db, env);
      (if r.queried then 1 else 0) + Queries(r.next, calls[1..], env)
  }

  /** What each of `calls` answers, in order, starting from `s`. */
  function Answers(s: CacheState, calls: seq<Call>, env: Creds): (a: seq<Creds>)
    ensures |a| == |calls|
    decreases |calls|
  {
    if calls == [] then []
    else
      var r := ResolveStep(s, calls[0].now, calls[0].db, env);
      [r.creds] + Answers(r.next, calls[1..], env)
  }

  /** Whatever a sequence of calls leaves in the cache is either the starting
      state or a row that one of the calls fetched, stamped with that call's
      time: the environment fallback is never cached. */
  lemma {:induction false} CachedRowWasFetched(s: CacheState, calls: seq<Call>, env: Creds)
    ensures var t := Replay(s, calls, env);
      t == s ||
      exists i :: 0 <= i < |calls| && calls[i].db.Row? && t == CacheState(Some(calls[i].db.row), calls[i].now)
    decreases |calls|
  {
    if calls != [] {
      var r := ResolveStep(s, calls[0].now, calls[0].db, env);
      var t := Replay(s, calls, env);
      assert t == Replay(r.next, calls[1..], env);
      CachedRowWasFetched(r.next, calls[1..], env);
      if t == r.next {
        if r.next != s {
          assert calls[0].db.Row? && t == CacheState(Some(calls[0].db.row), calls[0].now);
        }
      } else {
        var i :| 0 <= i < |calls[1..]| && calls[1..][i].db.Row?
          && t == CacheState(Some(calls[1..][i].db.row), calls[1..][i].now);
        assert calls[i + 1] == calls[1..][i];
      }
    }
  }

  /** From process start, whatever the cache holds after any sequence of
      calls is a row the database returned to one of them, stamped with
      that call's time. */
  lemma CachedRowFromStart(calls: seq<Call>, env: Creds)
    ensures var t := Replay(Initial, calls, env);
      t.entry.Some? ==>
      exists i :: 0 <= i < |calls| && calls[i].db.Row? && t == CacheState(Some(calls[i].db.row), calls[i].now)
  {
    CachedRowWasFetched(Initial, calls, env);
  }

  /** While the cache stays fresh for every call, every call is answered
      with the cached row, no call queries the database, and the cache is
      left as it was. */
  lemma {:induction false} FreshCacheAnswersAll(s: CacheState, calls: seq<Call>, env: Creds)
    requires forall i :: 0 <= i < |calls| ==> Fresh(s, calls[i].now)
    ensures Queries(s, calls, env) == 0
    ensures Replay(s, calls, env) == s
    ensures forall i :: 0 <= i < |calls| ==> Answers(s, calls, env)[i] == s.entry.value
    decreases |calls|
  {
    if calls != [] {
      assert Fresh(s, calls[0].now);
      forall i | 0 <= i < |calls[1..]| ensures Fresh(s, calls[1..][i].now) {
        assert calls[1..][i] == calls[i + 1];
      }
      FreshCacheAnswersAll(s, calls[1..], env);
      var answers := Answers(s, calls, env);
      assert answers == [s.entry.value] + Answers(s, calls[1..], env);
      forall i | 0 <= i < |calls| ensures answers[i] == s.entry.value {
        if i > 0 {
          assert answers[i] == Answers(s, calls[1..], env)[i - 1];
        }
      }
    }
  }

  /** When the database keeps answering with a row, requests that all fall
      inside one five-minute window cause at most one database query. */
  lemma {:induction false} OneQueryPerWindow(s: CacheState, calls: seq<Call>, env: Creds, start: int)
    requires forall i :: 0 <= i < |calls| ==> start <= calls[i].now < start + CacheDuration
    requires forall i :: 0 <= i < |calls| ==> calls[i].db.Row?
    ensures Queries(s, calls, env) <= 1
    decreases |calls|
  {
    if calls != [] {
      var r := ResolveStep(s, calls[0].now, calls[0].db, env);
      forall i | 0 <= i < |calls[1..]|
        ensures start <= calls[1..][i].now < start + CacheDuration && calls[1..][i].db.Row?
      {
        assert calls[1..][i] == calls[i + 1];
      }
      if r.queried {
        assert r.next == CacheState(Some(calls[0].db.row), calls[0].now);
        forall i | 0 <= i < |calls[1..]| ensures Fresh(r.next, calls[1..][i].now) {
          assert calls[1..][i] == calls[i + 1];
        }
        FreshCacheAnswersAll(r.next, calls[1..], env);
      } else {
        OneQueryPerWindow(r.next, calls[1..], env, start);
      }
    }
  }

  /** Failures are not cached: while the cache cannot be served and the
      database gives no row, every call queries the database again and the
      state never changes. */
  lemma {:induction false} OutageQueriesEveryCall(s: CacheState, calls: seq<Call>, env: Creds)
    requires forall i :: 0 <= i < |calls| ==> !Fresh(s, calls[i].now) && !calls[i].db.Row?
    ensures Queries(s, calls, env) == |calls|
    ensures Replay(s, calls, env) == s
    decreases |calls|
  {
    if calls != [] {
      assert !Fresh(s, calls[0].now) && !calls[0].db.Row?;
      forall i | 0 <= i < |calls[1..]|
        ensures !Fresh(s, calls[1..][i].now) && !calls[1..][i].db.Row?
      {
        assert calls[1..][i] == calls[i + 1];
      }
      OutageQueriesEveryCall(s, calls[1..], env);
    }
  }

  /** Once the entry has expired and the clock does not go back, the
      expired row is never served again unless a new row replaces it: while
      the database gives no row, every call queries it, answers with the
      environment triple, and leaves the state as it was. */
  lemma {:induction false} ExpiredEntryNeverServed(s: CacheState, calls: seq<Call>, env: Creds, expiredAt: int)
    requires s.entry.Some? && !Fresh(s, expiredAt)
    requires forall i :: 0 <= i < |calls| ==> expiredAt <= calls[i].now && !calls[i].db.Row?
    ensures Queries(s, calls, env) == |calls|
    ensures Replay(s, calls, env) == s
    ensures forall i :: 0 <= i < |calls| ==> Answers(s, calls, env)[i] == env
    decreases |calls|
  {
    if calls != [] {
      assert expiredAt <= calls[0].now && !calls[0].db.Row?;
      assert !Fresh(s, calls[0].now);
      forall i | 0 <= i < |calls[1..]|
        ensures expiredAt <= calls[1..][i].now && !calls[1..][i].db.Row?
      {
        assert calls[1..][i] == calls[i + 1];
      }
      ExpiredEntryNeverServed(s, calls[1..], env, expiredAt);
      var answers := Answers(s, calls, env);
      assert answers == [env] + Answers(s, calls[1..], env);
      forall i | 0 <= i < |calls| ensures answers[i] == env {
        if i > 0 {
          assert answers[i] == Answers(s, calls[1..], env)[i - 1];
        }
      }
    }
  }
}
