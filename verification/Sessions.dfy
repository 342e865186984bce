/**
 * Refresh tokens, token versions and the reuse grace window of src/auth/native.ts, as the sign-in and refresh
 * routes of src/routes/compat/auth.ts use them.
 */
module Sessions {
  import opened Prelude
  import opened Transactions

  type UserId = nat
  type TokenHash = nat

  datatype User = User(tokenVersion: nat, active: bool, deleted: bool)

  datatype Token = Token(user: UserId, version: nat, mfa: bool, expiresAt: int, revokedAt: Option<int>)

  datatype Db = Db(users: map<UserId, User>, tokens: map<TokenHash, Token>)

  /** What a successful exchange hands back: the user row as read, and the second-factor flag. */
  datatype Grant = Grant(user: UserId, version: nat, mfa: bool)

  const REUSE_GRACE_SECONDS := 60

  // ---- statements ----

  function Revoked(t: Token, now: int): Token {
    if t.revokedAt == None then t.(revokedAt := Some(now)) else t
  }

  /** `update refresh_tokens set revoked_at = now() where user_id = $1 and revoked_at is null` */
  function RevokeUser(tokens: map<TokenHash, Token>, user: UserId, now: int): map<TokenHash, Token> {
    map h | h in tokens :: if tokens[h].user == user then Revoked(tokens[h], now) else tokens[h]
  }

  function RevokeOne(tokens: map<TokenHash, Token>, hash: TokenHash, now: int): map<TokenHash, Token> {
    if hash in tokens then tokens[hash := Revoked(tokens[hash], now)] else tokens
  }

  function RaiseVersion(users: map<UserId, User>, user: UserId): map<UserId, User> {
    if user in users then users[user := users[user].(tokenVersion := users[user].tokenVersion + 1)] else users
  }

  predicate RevokedLongAgo(t: Token, now: int) {
    t.revokedAt.Some? && t.revokedAt.value <= now - REUSE_GRACE_SECONDS
  }

  // ---- what changes and what does not ----

  /** The row with its revocation time set, unless it had one. */
  predicate IsRevoked(t: Token, before: Token, now: int) {
    && t.user == before.user && t.version == before.version && t.mfa == before.mfa && t.expiresAt == before.expiresAt
    && t.revokedAt == if before.revokedAt.Some? then before.revokedAt else Some(now)
  }

  /** Signed out everywhere: one version up, every token revoked; nobody else is touched. */
  ghost predicate SignedOut(db: Db, before: Db, user: UserId, now: int) {
    && db.users.Keys == before.users.Keys && db.tokens.Keys == before.tokens.Keys
    && (forall u :: u in db.users && u != user ==> db.users[u] == before.users[u])
    && (user in db.users ==>
          && db.users[user].tokenVersion == before.users[user].tokenVersion + 1
          && db.users[user].active == before.users[user].active && db.users[user].deleted == before.users[user].deleted)
    && (forall h :: h in db.tokens && before.tokens[h].user != user ==> db.tokens[h] == before.tokens[h])
    && (forall h :: h in db.tokens && before.tokens[h].user == user ==> IsRevoked(db.tokens[h], before.tokens[h], now))
  }

  /** One token is revoked if it exists, and nothing else is touched. */
  ghost predicate OneRevoked(db: Db, before: Db, hash: TokenHash, now: int) {
    && db.users == before.users && db.tokens.Keys == before.tokens.Keys
    && (forall h :: h in db.tokens && h != hash ==> db.tokens[h] == before.tokens[h])
    && (hash in db.tokens ==> IsRevoked(db.tokens[hash], before.tokens[hash], now))
  }

  // ---- transactions ----

  /** The body of consumeRefreshToken: refusals are returned, never thrown. */
  function ConsumeBody(db: Db, hash: TokenHash, now: int): (ran: Ran<Db, Option<Grant>>)
    ensures ran.Returned?
  {
    if hash !in db.tokens then Returned(db, None)
    else
      var row := db.tokens[hash];
      if RevokedLongAgo(row, now) then
        Returned(Db(RaiseVersion(db.users, row.user), RevokeUser(db.tokens, row.user, now)), None)
      else if row.expiresAt <= now then Returned(db, None)
      else
        var db' := db.(tokens := RevokeOne(db.tokens, hash, now));
        if row.user !in db'.users then Returned(db', None)
        else
          var found := db'.users[row.user];
          if found.deleted || !found.active then Returned(db', None)
          else if found.tokenVersion != row.version then Returned(db', None)
          else Returned(db', Some(Grant(row.user, found.tokenVersion, row.mfa)))
  }

  function RevokeAllBody(db: Db, user: UserId, now: int): Ran<Db, ()> {
    Returned(Db(RaiseVersion(db.users, user), RevokeUser(db.tokens, user, now)), ())
  }

  /** The insert; the unique token hash makes a repeated one throw. */
  function IssueBody(db: Db, hash: TokenHash, user: UserId, version: nat, mfa: bool, expiresAt: int): Ran<Db, ()> {
    if hash in db.tokens || user !in db.users then Threw
    else Returned(db.(tokens := db.tokens[hash := Token(user, version, mfa, expiresAt, None)]), ())
  }

  /** An open transaction; its statements change these tables. */
  class SessionTx {
    var users: map<UserId, User>
    var tokens: map<TokenHash, Token>

    constructor (db: Db)
      ensures Value() == db
    {
      users, tokens := db.users, db.tokens;
    }

    function Value(): Db
      reads this
    {
      Db(users, tokens)
    }

    method Consume(hash: TokenHash, now: int) returns (grant: Option<Grant>)
      modifies this
      ensures Returned(Value(), grant) == ConsumeBody(old(Value()), hash, now)
      ensures grant.Some? <==> Acceptable(old(Value()), hash, now)
      ensures grant.Some? ==> var t := old(Value()).tokens[hash]; grant.value == Grant(t.user, t.version, t.mfa)
    {
      ConsumeLeaves(Value(), hash, now);
      if hash !in tokens {
        return None;
      }
      var row := tokens[hash];
      if RevokedLongAgo(row, now) {
        tokens := RevokeUser(tokens, row.user, now);
        users := RaiseVersion(users, row.user);
        return None;
      }
      if row.expiresAt <= now {
        return None;
      }
      tokens := RevokeOne(tokens, hash, now);
      if row.user !in users || users[row.user].deleted {
        return None;
      }
      var found := users[row.user];
      if !found.active {
        return None;
      }
      if found.tokenVersion != row.version {
        return None;
      }
      return Some(Grant(row.user, found.tokenVersion, row.mfa));
    }

    method RevokeAll(user: UserId, now: int)
      modifies this
      ensures Returned(Value(), ()) == RevokeAllBody(old(Value()), user, now)
    {
      users := RaiseVersion(users, user);
      tokens := RevokeUser(tokens, user, now);
    }

    /** False is the throw of a refused insert. */
    method Issue(hash: TokenHash, user: UserId, version: nat, mfa: bool, expiresAt: int) returns (ok: bool)
      modifies this
      ensures IssueBody(old(Value()), hash, user, version, mfa, expiresAt)
           == if ok then Returned(Value(), ()) else Threw
    {
      if hash in tokens || user !in users {
        return false;
      }
      tokens := tokens[hash := Token(user, version, mfa, expiresAt, None)];
      return true;
    }
  }

  class SessionStore {
    const database: Database<Db>

    constructor (database: Database<Db>)
      ensures this.database == database
    {
      this.database := database;
    }

    /** Failure is the 401 thrown after the transaction has already committed. */
    method ConsumeRefreshToken(hash: TokenHash, now: int) returns (r: Outcome<Grant>)
      modifies database
      ensures database.committed == ConsumeBody(old(database.committed), hash, now).state
      ensures r.Answer? <==> Acceptable(old(database.committed), hash, now)
      ensures r.Answer? ==>
                var t := old(database.committed).tokens[hash];
                r.value == Grant(t.user, t.version, t.mfa)
      ensures var before, after := old(database.committed), database.committed;
              if hash in before.tokens && RevokedLongAgo(before.tokens[hash], now)
              then SignedOut(after, before, before.tokens[hash].user, now)
              else if hash in before.tokens && now < before.tokens[hash].expiresAt
              then OneRevoked(after, before, hash, now)
              else after == before
    {
      ConsumeLeaves(database.committed, hash, now);
      var tx := new SessionTx(database.committed);
      var grant := tx.Consume(hash, now);
      var result := database.Finish(Returned(tx.Value(), grant));
      match result {
        case Answer(Some(found)) => return Answer(found);
        case _ => return Failure;
      }
    }

    /** A flag that is not passed is stored as false. */
    method IssueRefreshToken(user: UserId, version: nat, hash: TokenHash, mfa: Option<bool>, expiresAt: int)
        returns (r: Outcome<()>)
      modifies database
      ensures r.Answer? <==> hash !in old(database.committed).tokens && user in old(database.committed).users
      ensures r == Failure ==> database.committed == old(database.committed)
      ensures r.Answer? ==>
                database.committed == old(database.committed).(tokens :=
                  old(database.committed).tokens[hash := Token(user, version, mfa == Some(true), expiresAt, None)])
    {
      var tx := new SessionTx(database.committed);
      var ok := tx.Issue(hash, user, version, mfa.GetOr(false), expiresAt);
      r := database.Finish(if ok then Returned(tx.Value(), ()) else Threw);
    }

    /**
     * What a sign-in or a refresh answers with: an access token with the flag, and a refresh token, which is issued
     * without it.
     */
    method SessionResponse(grant: Grant, hash: TokenHash, expiresAt: int) returns (access: Outcome<Grant>)
      modifies database
      ensures access.Answer? <==> hash !in old(database.committed).tokens && grant.user in old(database.committed).users
      ensures access.Answer? ==> access.value == grant
      ensures access.Answer? ==>
                database.committed == old(database.committed).(tokens :=
                  old(database.committed).tokens[hash := Token(grant.user, grant.version, false, expiresAt, None)])
    {
      var refresh := IssueRefreshToken(grant.user, grant.version, hash, None, expiresAt);
      access := if refresh.Answer? then Answer(grant) else Failure;
    }

    method RevokeRefreshToken(hash: TokenHash, now: int)
      modifies database
      ensures database.committed
           == old(database.committed).(tokens := RevokeOne(old(database.committed).tokens, hash, now))
      ensures OneRevoked(database.committed, old(database.committed), hash, now)
    {
      var _ := database.WithServiceContext((tx: Db) => Returned(tx.(tokens := RevokeOne(tx.tokens, hash, now)), ()));
    }

    method RevokeAllSessions(user: UserId, now: int)
      modifies database
      ensures database.committed == RevokeAllBody(old(database.committed), user, now).state
      ensures SignedOut(database.committed, old(database.committed), user, now)
    {
      var tx := new SessionTx(database.committed);
      tx.RevokeAll(user, now);
      var _ := database.Finish(Returned(tx.Value(), ()));
    }
  }

  /** When a presented token buys a session: live or just rotated, unexpired, same version, user in good standing. */
  predicate Acceptable(db: Db, hash: TokenHash, now: int) {
    && hash in db.tokens
    && var t := db.tokens[hash];
       && now < t.expiresAt
       && (t.revokedAt.Some? ==> now < t.revokedAt.value + 60)
       && t.user in db.users
       && db.users[t.user].active && !db.users[t.user].deleted
       && db.users[t.user].tokenVersion == t.version
  }

  /** What an exchange leaves behind, whether it is refused or not, and whom and what an accepted one stands for. */
  lemma ConsumeLeaves(db: Db, hash: TokenHash, now: int)
    ensures var ran := ConsumeBody(db, hash, now);
            && (if hash in db.tokens && RevokedLongAgo(db.tokens[hash], now)
                then SignedOut(ran.state, db, db.tokens[hash].user, now)
                else if hash in db.tokens && now < db.tokens[hash].expiresAt
                then OneRevoked(ran.state, db, hash, now)
                else ran.state == db)
            && (ran.value.Some? <==> Acceptable(db, hash, now))
            && (ran.value.Some? ==>
                  var t := db.tokens[hash]; ran.value.value == Grant(t.user, t.version, t.mfa))
  {
  }

  // ---- runs ----

  /** `held` are the user rows some request has read, with the flag of its session, and may issue a token from. */
  datatype World = World(db: Db, held: set<Grant>)

  /** A token is issued with the flag of its session if the caller carries it over, and else without. */
  datatype Event =
    | Register(user: UserId)
    | SignIn(user: UserId, mfa: bool)
    | Issue(grant: Grant, carried: bool, hash: TokenHash, expiresAt: int)
    | Consume(hash: TokenHash, now: int)
    | Revoke(hash: TokenHash, now: int)
    | RevokeAll(user: UserId, now: int)
    | SetStanding(user: UserId, active: bool, deleted: bool)
    | Cleanup(gone: set<TokenHash>)

  predicate Enabled(w: World, e: Event) {
    match e
    case Register(user) => user !in w.db.users
    case SignIn(user, _) => user in w.db.users
    case Issue(grant, _, _, _) => grant in w.held
    case _ => true
  }

  function Next(w: World, e: Event): World {
    match e
    case Register(user) => if user in w.db.users then w
        else w.(db := w.db.(users := w.db.users[user := User(0, true, false)]))
    case SignIn(user, mfa) =>
      if user in w.db.users then w.(held := w.held + {Grant(user, w.db.users[user].tokenVersion, mfa)}) else w
    case Issue(grant, carried, hash, expiresAt) =>
      var mfa := if carried then Some(grant.mfa) else None;
      w.(db := Committed(w.db, IssueBody(w.db, hash, grant.user, grant.version, mfa.GetOr(false), expiresAt)))
    case Consume(hash, now) =>
      var ran := ConsumeBody(w.db, hash, now);
      World(ran.state, if ran.value.Some? then w.held + {ran.value.value} else w.held)
    case Revoke(hash, now) => w.(db := w.db.(tokens := RevokeOne(w.db.tokens, hash, now)))
    case RevokeAll(user, now) => w.(db := RevokeAllBody(w.db, user, now).state)
    case SetStanding(user, active, deleted) =>
      if user in w.db.users
      then w.(db := w.db.(users := w.db.users[user := w.db.users[user].(active := active, deleted := deleted)]))
      else w
    case Cleanup(gone) => w.(db := w.db.(tokens := w.db.tokens - gone))
  }

  ghost predicate Trace(evs: seq<Event>, tr: seq<World>) {
    && |tr| == |evs| + 1
    && tr[0] == World(Db(map[], map[]), {})
    && forall i :: 0 <= i < |evs| ==> Enabled(tr[i], evs[i]) && tr[i + 1] == Next(tr[i], evs[i])
  }

  /** No stored token and no user row in hand is ahead of the user's version. */
  ghost predicate VersionInv(w: World) {
    && (forall h :: h in w.db.tokens ==>
          w.db.tokens[h].user in w.db.users && w.db.tokens[h].version <= w.db.users[w.db.tokens[h].user].tokenVersion)
    && (forall g :: g in w.held ==> g.user in w.db.users && g.version <= w.db.users[g.user].tokenVersion)
  }

  lemma StepKeepsVersions(w: World, e: Event)
    requires VersionInv(w) && Enabled(w, e)
    ensures VersionInv(Next(w, e))
    ensures forall u :: u in w.db.users ==>
              u in Next(w, e).db.users && w.db.users[u].tokenVersion <= Next(w, e).db.users[u].tokenVersion
  {
    match e {
      case Consume(hash, now) => ConsumeKeepsVersions(w, hash, now);
      case _ =>
    }
  }

  lemma ConsumeKeepsVersions(w: World, hash: TokenHash, now: int)
    requires VersionInv(w)
    ensures VersionInv(Next(w, Consume(hash, now)))
    ensures forall u :: u in w.db.users ==>
              var users := Next(w, Consume(hash, now)).db.users;
              u in users && w.db.users[u].tokenVersion <= users[u].tokenVersion
  {
  }

  lemma {:induction false} VersionsNeverRunAhead(evs: seq<Event>, tr: seq<World>, k: nat)
    requires Trace(evs, tr) && k < |tr|
    ensures VersionInv(tr[k])
  {
    if k > 0 {
      VersionsNeverRunAhead(evs, tr, k - 1);
      StepKeepsVersions(tr[k - 1], evs[k - 1]);
    }
  }

  lemma {:induction false} VersionsOnlyGrow(evs: seq<Event>, tr: seq<World>, i: nat, k: nat, u: UserId)
    requires Trace(evs, tr) && i <= k < |tr| && u in tr[i].db.users
    ensures u in tr[k].db.users && tr[i].db.users[u].tokenVersion <= tr[k].db.users[u].tokenVersion
    decreases k
  {
    hide Next, Enabled, VersionInv;
    if i < k {
      VersionsOnlyGrow(evs, tr, i, k - 1, u);
      VersionsNeverRunAhead(evs, tr, k - 1);
      StepKeepsVersions(tr[k - 1], evs[k - 1]);
    }
  }

  /** Event i ends every session of `u`: an explicit sign-out everywhere, or a token reused after its window. */
  ghost predicate EndsSessions(w: World, e: Event, u: UserId) {
    && u in w.db.users
    && (match e
        case RevokeAll(user, _) => user == u
        case Consume(hash, now) =>
          hash in w.db.tokens && w.db.tokens[hash].user == u && RevokedLongAgo(w.db.tokens[hash], now)
        case _ => false)
  }

  /**
   * Once sessions are ended, a token carrying a version from before is never accepted again at any time,
   * whether it was stored already or is inserted later from a user row read before.
   */
  lemma EndedSessionsStayEnded(evs: seq<Event>, tr: seq<World>, i: nat, k: nat, u: UserId, hash: TokenHash, now: int)
    requires Trace(evs, tr) && i < k < |tr| && EndsSessions(tr[i], evs[i], u)
    requires hash in tr[k].db.tokens && tr[k].db.tokens[hash].user == u
    requires tr[k].db.tokens[hash].version <= tr[i].db.users[u].tokenVersion
    ensures !Acceptable(tr[k].db, hash, now)
  {
    assert Enabled(tr[i], evs[i]) && tr[i + 1] == Next(tr[i], evs[i]);
    assert tr[i + 1].db.users[u].tokenVersion == tr[i].db.users[u].tokenVersion + 1;
    VersionsOnlyGrow(evs, tr, i + 1, k, u);
  }

  /** Everything stored, and every user row in hand, when sessions end carries such an earlier version. */
  lemma NothingInFlightSurvives(evs: seq<Event>, tr: seq<World>, i: nat, u: UserId)
    requires Trace(evs, tr) && i < |evs| && EndsSessions(tr[i], evs[i], u)
    ensures var w := tr[i + 1];
            && (forall h :: h in w.db.tokens && w.db.tokens[h].user == u ==>
                  w.db.tokens[h].version <= tr[i].db.users[u].tokenVersion && w.db.tokens[h].revokedAt.Some?)
            && (forall h, now :: h in w.db.tokens && w.db.tokens[h].user == u ==> !Acceptable(w.db, h, now))
            && (forall g :: g in w.held && g.user == u ==> g.version <= tr[i].db.users[u].tokenVersion)
  {
    VersionsNeverRunAhead(evs, tr, i);
    assert Enabled(tr[i], evs[i]) && tr[i + 1] == Next(tr[i], evs[i]);
  }

  // ---- where a session comes from ----

  /** `u` signed in before event k, at that version, with the second factor if the flag says so. */
  ghost predicate SignedIn(evs: seq<Event>, tr: seq<World>, k: nat, u: UserId, version: nat, mfa: bool)
    requires k <= |evs| <= |tr|
  {
    exists i :: 0 <= i < k && evs[i].SignIn? && evs[i].user == u && (mfa ==> evs[i].mfa)
                && u in tr[i].db.users && tr[i].db.users[u].tokenVersion == version
  }

  ghost predicate AllSignedIn(evs: seq<Event>, tr: seq<World>, k: nat)
    requires k <= |evs| < |tr|
  {
    && (forall h :: h in tr[k].db.tokens ==>
          var t := tr[k].db.tokens[h]; SignedIn(evs, tr, k, t.user, t.version, t.mfa))
    && (forall g :: g in tr[k].held ==> SignedIn(evs, tr, k, g.user, g.version, g.mfa))
  }

  /** What a step stores or hands out stands for what was stored or held before, or for the sign-in it is. */
  lemma StepKeepsOrigins(w: World, e: Event)
    requires Enabled(w, e)
    ensures e.Issue? ==> e.grant in w.held
    ensures forall h :: h in Next(w, e).db.tokens ==>
              var t := Next(w, e).db.tokens[h];
              || (h in w.db.tokens && w.db.tokens[h].user == t.user && w.db.tokens[h].version == t.version
                  && w.db.tokens[h].mfa == t.mfa)
              || (e.Issue? && t.user == e.grant.user && t.version == e.grant.version
                  && t.mfa == (e.grant.mfa && e.carried))
    ensures forall g :: g in Next(w, e).held ==>
              || g in w.held
              || (e.SignIn? && e.user in w.db.users && g == Grant(e.user, w.db.users[e.user].tokenVersion, e.mfa))
              || (e.Consume? && e.hash in w.db.tokens
                  && var t := w.db.tokens[e.hash]; g == Grant(t.user, t.version, t.mfa))
  {
    if e.Consume? {
      ConsumeLeaves(w.db, e.hash, e.now);
    }
  }

  /**
   * Every token, and every user row in hand, goes back to a sign-in of that user at that version; and one that
   * carries the second factor to a sign-in with it, through whatever chain of refreshes.
   */
  lemma {:induction false} SessionsGoBackToSignIn(evs: seq<Event>, tr: seq<World>, k: nat)
    requires Trace(evs, tr) && k < |tr|
    ensures AllSignedIn(evs, tr, k)
  {
    hide Next, Enabled;
    if k > 0 {
      SessionsGoBackToSignIn(evs, tr, k - 1);
      assert Enabled(tr[k - 1], evs[k - 1]) && tr[k] == Next(tr[k - 1], evs[k - 1]);
      StepKeepsOrigins(tr[k - 1], evs[k - 1]);
      hide SignedIn;
      forall h | h in tr[k].db.tokens
        ensures var t := tr[k].db.tokens[h]; SignedIn(evs, tr, k, t.user, t.version, t.mfa)
      {
        var t, e := tr[k].db.tokens[h], evs[k - 1];
        if e.Issue? && t.user == e.grant.user && t.version == e.grant.version && t.mfa == (e.grant.mfa && e.carried) {
          StaysSignedIn(evs, tr, k, t.user, t.version, e.grant.mfa, t.mfa);
        } else {
          StaysSignedIn(evs, tr, k, t.user, t.version, t.mfa, t.mfa);
        }
      }
      forall g | g in tr[k].held ensures SignedIn(evs, tr, k, g.user, g.version, g.mfa) {
        var e, users := evs[k - 1], tr[k - 1].db.users;
        if e.SignIn? && e.user in users && g == Grant(e.user, users[e.user].tokenVersion, e.mfa) {
          NowSignedIn(evs, tr, k);
        } else {
          StaysSignedIn(evs, tr, k, g.user, g.version, g.mfa, g.mfa);
        }
      }
    }
  }

  lemma StaysSignedIn(evs: seq<Event>, tr: seq<World>, k: nat, u: UserId, version: nat, mfa: bool, less: bool)
    requires 0 < k <= |evs| <= |tr| && SignedIn(evs, tr, k - 1, u, version, mfa) && (less ==> mfa)
    ensures SignedIn(evs, tr, k, u, version, less)
  {
  }

  lemma NowSignedIn(evs: seq<Event>, tr: seq<World>, k: nat)
    requires 0 < k <= |evs| <= |tr| && evs[k - 1].SignIn? && evs[k - 1].user in tr[k - 1].db.users
    ensures var u := evs[k - 1].user;
            SignedIn(evs, tr, k, u, tr[k - 1].db.users[u].tokenVersion, evs[k - 1].mfa)
  {
  }

  /** While a token is stored nothing of it changes but its revocation. */
  lemma {:induction false} TokenStays(evs: seq<Event>, tr: seq<World>, i: nat, k: nat, hash: TokenHash)
    requires Trace(evs, tr) && i <= k < |tr| && forall n :: i <= n <= k ==> hash in tr[n].db.tokens
    ensures tr[k].db.tokens[hash].(revokedAt := None) == tr[i].db.tokens[hash].(revokedAt := None)
    decreases k
  {
    if i < k {
      TokenStays(evs, tr, i, k - 1, hash);
      assert tr[k] == Next(tr[k - 1], evs[k - 1]);
    }
  }

  /** A refresh continues its session for the same user, with the second factor exactly if the token carried it over. */
  lemma RefreshKeepsFactorIff(evs: seq<Event>, tr: seq<World>, i: nat, k: nat, now: int)
    requires Trace(evs, tr) && i < k < |tr| && evs[i].Issue? && evs[i].hash !in tr[i].db.tokens
    requires forall n :: i < n <= k ==> evs[i].hash in tr[n].db.tokens
    requires Acceptable(tr[k].db, evs[i].hash, now)
    ensures var grant := ConsumeBody(tr[k].db, evs[i].hash, now).value;
            && grant.Some? && grant.value.user == evs[i].grant.user && grant.value.version == evs[i].grant.version
            && (grant.value.mfa <==> evs[i].grant.mfa && evs[i].carried)
  {
    assert Enabled(tr[i], evs[i]) && tr[i + 1] == Next(tr[i], evs[i]);
    TokenStays(evs, tr, i + 1, k, evs[i].hash);
    ConsumeLeaves(tr[k].db, evs[i].hash, now);
  }

  /** The routes carry no flag over: no stored token has it, and no refresh hands out the second factor. */
  lemma {:induction false} RefreshForgetsFactor(evs: seq<Event>, tr: seq<World>, k: nat)
    requires Trace(evs, tr) && k < |tr| && forall i :: 0 <= i < k && evs[i].Issue? ==> !evs[i].carried
    ensures forall h :: h in tr[k].db.tokens ==> !tr[k].db.tokens[h].mfa
    ensures forall h, now :: Acceptable(tr[k].db, h, now) ==>
              var grant := ConsumeBody(tr[k].db, h, now).value; grant.Some? && !grant.value.mfa
  {
    hide Next;
    if k > 0 {
      RefreshForgetsFactor(evs, tr, k - 1);
      StepKeepsOrigins(tr[k - 1], evs[k - 1]);
    }
    forall h, now | Acceptable(tr[k].db, h, now)
      ensures var grant := ConsumeBody(tr[k].db, h, now).value; grant.Some? && !grant.value.mfa
    {
      ConsumeLeaves(tr[k].db, h, now);
    }
  }

  /** So somebody who signed in with the second factor has a session without it after the first refresh. */
  lemma FactorIsLost(user: UserId) returns (evs: seq<Event>, tr: seq<World>)
    ensures Trace(evs, tr) && |evs| == 4 && evs[1] == SignIn(user, true) && evs[2].Issue? && evs[2].grant.mfa
    ensures evs[3].Consume? && tr[4].held - tr[3].held == {Grant(user, 0, false)}
  {
    var grant := Grant(user, 0, true);
    var w0 := World(Db(map[], map[]), {});
    var w1 := World(Db(map[user := User(0, true, false)], map[]), {});
    var w2 := w1.(held := {grant});
    var w3 := World(Db(w1.db.users, map[1 := Token(user, 0, false, 100, None)]), {grant});
    var w4 := World(Db(w1.db.users, map[1 := Token(user, 0, false, 100, Some(50))]), {grant, Grant(user, 0, false)});
    evs := [Register(user), SignIn(user, true), Issue(grant, false, 1, 100), Consume(1, 50)];
    tr := [w0, w1, w2, w3, w4];
  }

  // ---- the grace window ----

  /** A step keeps a revocation time that is already written. */
  lemma {:induction false} RevocationWrittenOnce(evs: seq<Event>, tr: seq<World>, i: nat, k: nat, hash: TokenHash)
    requires Trace(evs, tr) && i <= k < |tr|
    requires forall n :: i <= n <= k ==> hash in tr[n].db.tokens
    requires tr[i].db.tokens[hash].revokedAt.Some?
    ensures tr[k].db.tokens[hash] == tr[i].db.tokens[hash]
    decreases k
  {
    if i < k {
      RevocationWrittenOnce(evs, tr, i, k - 1, hash);
      assert tr[k] == Next(tr[k - 1], evs[k - 1]);
    }
  }

  /** However often it is replayed, a token is accepted only within sixty seconds of its first revocation. */
  lemma GraceNeverSlides(evs: seq<Event>, tr: seq<World>, i: nat, k: nat, hash: TokenHash, now: int)
    requires Trace(evs, tr) && i <= k < |tr|
    requires forall n :: i <= n <= k ==> hash in tr[n].db.tokens
    requires tr[i].db.tokens[hash].revokedAt.Some? && Acceptable(tr[k].db, hash, now)
    ensures now < tr[i].db.tokens[hash].revokedAt.value + 60
  {
    RevocationWrittenOnce(evs, tr, i, k, hash);
  }

  /** An accepted token is revoked by being accepted, so later acceptances fall in the minute after the first. */
  lemma AcceptanceStartsTheWindow(evs: seq<Event>, tr: seq<World>, i: nat, k: nat, hash: TokenHash, later: int)
    requires Trace(evs, tr) && i < k < |tr|
    requires evs[i].Consume? && evs[i].hash == hash && Acceptable(tr[i].db, hash, evs[i].now)
    requires forall n :: i <= n <= k ==> hash in tr[n].db.tokens
    requires Acceptable(tr[k].db, hash, later)
    ensures later < tr[i].db.tokens[hash].revokedAt.GetOr(evs[i].now) + 60
  {
    assert tr[i + 1] == Next(tr[i], evs[i]);
    GraceNeverSlides(evs, tr, i + 1, k, hash, later);
  }

  /** A presentation after the window is refused, yet what it did is committed: no session of that user survives. */
  lemma LateReuseIsRefusedButCommits(db: Db, hash: TokenHash, now: int)
    requires hash in db.tokens && RevokedLongAgo(db.tokens[hash], now) && db.tokens[hash].user in db.users
    requires VersionInv(World(db, {}))
    ensures var ran := ConsumeBody(db, hash, now);
            && ran.value == None
            && Committed(db, ran) != db
            && forall h, t :: h in db.tokens && db.tokens[h].user == db.tokens[hash].user ==>
                                !Acceptable(Committed(db, ran), h, t)
  {
    var after := Committed(db, ConsumeBody(db, hash, now));
    assert after.users[db.tokens[hash].user].tokenVersion > db.users[db.tokens[hash].user].tokenVersion;
  }

  /** The same refusal thrown inside the callback would roll back: whatever was acceptable would stay acceptable. */
  lemma ThrowingInsideWouldUndoIt(db: Db, hash: TokenHash, now: int, h: TokenHash, t: int)
    requires hash in db.tokens && RevokedLongAgo(db.tokens[hash], now) && Acceptable(db, h, t)
    requires VersionInv(World(db, {})) && db.tokens[h].user == db.tokens[hash].user
    ensures Acceptable(Committed(db, ThrowIfRefused(ConsumeBody(db, hash, now))), h, t)
    ensures !Acceptable(Committed(db, ConsumeBody(db, hash, now)), h, t)
  {
    LateReuseIsRefusedButCommits(db, hash, now);
  }

  function ThrowIfRefused<S, T>(ran: Ran<S, Option<T>>): Ran<S, Option<T>> {
    if ran.Returned? && ran.value == None then Threw else ran
  }
}
