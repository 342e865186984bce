/** The second sign-in step of src/auth/native.ts: challenges, wrong guesses and recovery codes. */
module SecondFactor {
  import opened Prelude
  import opened Transactions

  type UserId = nat
  type TicketHash = nat
  type CodeHash = nat

  const MAX_ATTEMPTS := 6
  const CHALLENGE_TTL_SECONDS := 300

  datatype Challenge = Challenge(user: UserId, attempts: nat, expiresAt: int, consumed: bool)

  datatype Account = Account(standing: bool, enrolled: bool, recovery: seq<CodeHash>)

  datatype Db = Db(accounts: map<UserId, Account>, challenges: map<TicketHash, Challenge>)

  /** A supplied code: whether the authenticator would show it now, and its hash as a recovery code. */
  datatype Guess = Guess(totp: bool, hash: CodeHash)

  /** `array_remove`: every copy goes. */
  function Without(codes: seq<CodeHash>, code: CodeHash): (rest: seq<CodeHash>)
    ensures code !in rest
    ensures forall c :: c in rest <==> c in codes && c != code
  {
    if codes == [] then []
    else if codes[0] == code then Without(codes[1..], code)
    else [codes[0]] + Without(codes[1..], code)
  }

  /** `delete from mfa_challenges where user_id = $1 and consumed_at is null` */
  function WithoutOpen(challenges: map<TicketHash, Challenge>, user: UserId): map<TicketHash, Challenge> {
    map c | c in challenges && (challenges[c].user != user || challenges[c].consumed) :: challenges[c]
  }

  function Inserted(db: Db, user: UserId, ticket: TicketHash, now: int): Db {
    db.(challenges := db.challenges[ticket := Challenge(user, 0, now + CHALLENGE_TTL_SECONDS, false)])
  }

  /** Drop the user's unconsumed challenges, then insert the new one; a repeated ticket hash throws. */
  function IssueBody(db: Db, user: UserId, ticket: TicketHash, now: int): Ran<Db, ()> {
    var kept := db.(challenges := WithoutOpen(db.challenges, user));
    if ticket in kept.challenges || user !in db.accounts then Threw
    else Returned(Inserted(kept, user, ticket, now), ())
  }

  function Consumed(db: Db, ticket: TicketHash): Db
    requires ticket in db.challenges
  {
    db.(challenges := db.challenges[ticket := db.challenges[ticket].(consumed := true)])
  }

  /** The account a response starts, without a lock, once it has locked its challenge. */
  function AccountOf(db: Db, ticket: TicketHash): Option<Account> {
    if ticket in db.challenges && db.challenges[ticket].user in db.accounts
    then Some(db.accounts[db.challenges[ticket].user])
    else None
  }

  /** The code goes from the row as it is by now, whatever was read. */
  function Spent(db: Db, user: UserId, code: CodeHash): Db {
    if user in db.accounts
    then db.(accounts := db.accounts[user := db.accounts[user].(recovery := Without(db.accounts[user].recovery, code))])
    else db
  }

  /** The body of consumeMfaChallenge, having read `seen`: every refusal is returned, never thrown. */
  function ConsumeSeeing(db: Db, ticket: TicketHash, guess: Guess, now: int, seen: Option<Account>)
    : (ran: Ran<Db, Option<UserId>>)
    ensures ran.Returned?
  {
    if ticket !in db.challenges then Returned(db, None)
    else
      var c := db.challenges[ticket];
      if c.expiresAt <= now || c.consumed then Returned(db, None)
      else if c.attempts >= MAX_ATTEMPTS then Returned(Consumed(db, ticket), None)
      else if seen == None || !seen.value.standing || !seen.value.enrolled then Returned(db, None)
      else if guess.totp then Returned(Consumed(db, ticket), Some(c.user))
      else if guess.hash in seen.value.recovery then
        Returned(Consumed(Spent(db, c.user, guess.hash), ticket), Some(c.user))
      else
        Returned(db.(challenges := db.challenges[ticket := c.(attempts := c.attempts + 1)]), None)
  }

  /** The same with nothing in between. */
  function ConsumeBody(db: Db, ticket: TicketHash, guess: Guess, now: int): (ran: Ran<Db, Option<UserId>>)
    ensures ran.Returned?
  {
    ConsumeSeeing(db, ticket, guess, now, AccountOf(db, ticket))
  }

  /** An open transaction; its statements change these tables. */
  class ChallengeTx {
    var accounts: map<UserId, Account>
    var challenges: map<TicketHash, Challenge>

    constructor (db: Db)
      ensures Value() == db
    {
      accounts, challenges := db.accounts, db.challenges;
    }

    function Value(): Db
      reads this
    {
      Db(accounts, challenges)
    }

    /** False is the throw of a refused insert. */
    method Issue(user: UserId, ticket: TicketHash, now: int) returns (ok: bool)
      modifies this
      ensures IssueBody(old(Value()), user, ticket, now) == if ok then Returned(Value(), ()) else Threw
    {
      challenges := WithoutOpen(challenges, user);
      if ticket in challenges || user !in accounts {
        return false;
      }
      challenges := challenges[ticket := Challenge(user, 0, now + CHALLENGE_TTL_SECONDS, false)];
      return true;
    }

    method Consume(ticket: TicketHash, guess: Guess, now: int) returns (user: Option<UserId>)
      modifies this
      ensures Returned(Value(), user) == ConsumeBody(old(Value()), ticket, guess, now)
      ensures user.Some? <==> SignsInNow(old(Value()), ticket, guess, now)
      ensures user.Some? ==> user.value == old(Value()).challenges[ticket].user
      ensures Responded(Value(), old(Value()), ticket, guess, now)
    {
      ResponseIs(Value(), ticket, guess, now);
      if ticket !in challenges {
        return None;
      }
      var challenge := challenges[ticket];
      if challenge.expiresAt <= now || challenge.consumed {
        return None;
      }
      if challenge.attempts >= MAX_ATTEMPTS {
        challenges := challenges[ticket := challenge.(consumed := true)];
        return None;
      }
      if challenge.user !in accounts || !accounts[challenge.user].standing || !accounts[challenge.user].enrolled {
        return None;
      }
      var row := accounts[challenge.user];
      if guess.totp {
        challenges := challenges[ticket := challenge.(consumed := true)];
        return Some(challenge.user);
      }
      if guess.hash in row.recovery {
        accounts := accounts[challenge.user := row.(recovery := Without(row.recovery, guess.hash))];
        challenges := challenges[ticket := challenge.(consumed := true)];
        return Some(challenge.user);
      }
      challenges := challenges[ticket := challenge.(attempts := challenge.attempts + 1)];
      return None;
    }
  }

  // ---- what a response amounts to ----

  /**
   * The ticket is there, unexpired, unused and not guessed away; its user is in standing and enrolled; and the code is
   * that user's authenticator code or one of that user's recovery codes.
   */
  predicate SignsInNow(db: Db, ticket: TicketHash, guess: Guess, now: int) {
    && ticket in db.challenges && now < db.challenges[ticket].expiresAt && !db.challenges[ticket].consumed
    && db.challenges[ticket].attempts < 6 && db.challenges[ticket].user in db.accounts
    && var account := db.accounts[db.challenges[ticket].user];
       account.standing && account.enrolled && (guess.totp || guess.hash in account.recovery)
  }

  /** Only this challenge changes, and of the accounts only the owner's recovery codes. */
  ghost predicate OnlyThese(after: Db, before: Db, ticket: TicketHash)
    requires ticket in before.challenges
  {
    && after.challenges.Keys == before.challenges.Keys && after.accounts.Keys == before.accounts.Keys
    && (forall c :: c in before.challenges && c != ticket ==> after.challenges[c] == before.challenges[c])
    && (forall u :: u in before.accounts && u != before.challenges[ticket].user ==>
          after.accounts[u] == before.accounts[u])
  }

  /** What a response leaves: the challenge used up, one attempt more, or nothing changed. */
  ghost predicate Responded(after: Db, before: Db, ticket: TicketHash, guess: Guess, now: int) {
    if ticket !in before.challenges || before.challenges[ticket].consumed || before.challenges[ticket].expiresAt <= now
    then after == before
    else
      var c := before.challenges[ticket];
      && OnlyThese(after, before, ticket)
      && after.challenges[ticket].user == c.user && after.challenges[ticket].expiresAt == c.expiresAt
      && if SignsInNow(before, ticket, guess, now) then
           var account, spent := before.accounts[c.user], after.accounts[c.user];
           && after.challenges[ticket].consumed && after.challenges[ticket].attempts == c.attempts
           && spent.standing == account.standing && spent.enrolled == account.enrolled
           && (forall code :: code in spent.recovery <==>
                 code in account.recovery && (guess.totp || code != guess.hash))
         else if c.attempts >= 6 then
           after.challenges[ticket].consumed && after.challenges[ticket].attempts == c.attempts
           && after.accounts == before.accounts
         else
           && !after.challenges[ticket].consumed && after.accounts == before.accounts
           && after.challenges[ticket].attempts
              == c.attempts + if c.user in before.accounts && before.accounts[c.user].standing
                                 && before.accounts[c.user].enrolled then 1 else 0
  }

  lemma ResponseIs(db: Db, ticket: TicketHash, guess: Guess, now: int)
    ensures var ran := ConsumeBody(db, ticket, guess, now);
            && (ran.value.Some? <==> SignsInNow(db, ticket, guess, now))
            && (ran.value.Some? ==> ran.value.value == db.challenges[ticket].user)
            && Responded(ran.state, db, ticket, guess, now)
  {
  }

  class ChallengeStore {
    const database: Database<Db>

    constructor (database: Database<Db>)
      ensures this.database == database
    {
      this.database := database;
    }

    method IssueMfaChallenge(user: UserId, ticket: TicketHash, now: int) returns (r: Outcome<int>)
      modifies database
      ensures database.committed
           == Committed(old(database.committed), IssueBody(old(database.committed), user, ticket, now))
      ensures var before, after := old(database.committed), database.committed;
              && after.accounts == before.accounts && (r == Failure ==> after == before)
              && (r.Answer? ==>
                    && r.value == now + 300 && user in before.accounts
                    && ticket in after.challenges && after.challenges[ticket] == Challenge(user, 0, r.value, false)
                    && (forall c :: c in after.challenges && c != ticket ==>
                          c in before.challenges && after.challenges[c] == before.challenges[c])
                    && (forall c :: c in before.challenges && c != ticket ==>
                          (c in after.challenges
                           <==> before.challenges[c].user != user || before.challenges[c].consumed)))
      ensures user in old(database.committed).accounts && ticket !in old(database.committed).challenges ==> r.Answer?
      ensures r == if IssueBody(old(database.committed), user, ticket, now).Returned?
                   then Answer(now + CHALLENGE_TTL_SECONDS) else Failure
    {
      var tx := new ChallengeTx(database.committed);
      var ok := tx.Issue(user, ticket, now);
      var done := database.Finish(if ok then Returned(tx.Value(), ()) else Threw);
      r := if done.Answer? then Answer(now + CHALLENGE_TTL_SECONDS) else Failure;
    }

    /** Failure is the one generic 401, thrown after the transaction has committed. */
    method ConsumeMfaChallenge(ticket: TicketHash, guess: Guess, now: int) returns (r: Outcome<UserId>)
      modifies database
      ensures database.committed == ConsumeBody(old(database.committed), ticket, guess, now).state
      ensures r == match ConsumeBody(old(database.committed), ticket, guess, now).value
                   case Some(user) => Answer(user)
                   case None => Failure
      ensures r.Answer? <==> SignsInNow(old(database.committed), ticket, guess, now)
      ensures r.Answer? ==> r.value == old(database.committed).challenges[ticket].user
      ensures Responded(database.committed, old(database.committed), ticket, guess, now)
    {
      ResponseIs(database.committed, ticket, guess, now);
      var tx := new ChallengeTx(database.committed);
      var user := tx.Consume(ticket, guess, now);
      var result := database.Finish(Returned(tx.Value(), user));
      match result {
        case Answer(Some(found)) => return Answer(found);
        case _ => return Failure;
      }
    }
  }

  // ---- what an answer amounts to ----

  /** The challenge is still good and its owner, as read, can sign in, so the code really gets compared. */
  predicate Evaluates(db: Db, ticket: TicketHash, now: int, seen: Option<Account>) {
    && ticket in db.challenges && now < db.challenges[ticket].expiresAt
    && !db.challenges[ticket].consumed && db.challenges[ticket].attempts < MAX_ATTEMPTS
    && seen.Some? && seen.value.standing && seen.value.enrolled
  }

  predicate Right(guess: Guess, seen: Account) {
    guess.totp || guess.hash in seen.recovery
  }

  predicate WrongGuess(db: Db, ticket: TicketHash, guess: Guess, now: int, seen: Option<Account>) {
    Evaluates(db, ticket, now, seen) && !Right(guess, seen.value)
  }

  /** Sign-in happens exactly for a compared and right code. */
  lemma SignsInIff(db: Db, ticket: TicketHash, guess: Guess, now: int, seen: Option<Account>)
    ensures ConsumeSeeing(db, ticket, guess, now, seen).value.Some? <==>
              Evaluates(db, ticket, now, seen) && Right(guess, seen.value)
  {
  }

  /** Whoever is signed in owns the challenge, whichever kind of code it was and whatever was read. */
  lemma OwnerSignsIn(db: Db, ticket: TicketHash, guess: Guess, now: int, seen: Option<Account>)
    ensures var who := ConsumeSeeing(db, ticket, guess, now, seen).value;
            who.Some? ==> ticket in db.challenges && db.challenges[ticket].user == who.value
  {
  }

  /** A wrong guess fails and is counted all the same, because the refusal is thrown only after the commit. */
  lemma WrongGuessIsCounted(db: Db, ticket: TicketHash, guess: Guess, now: int, seen: Option<Account>)
    requires WrongGuess(db, ticket, guess, now, seen)
    ensures var ran := ConsumeSeeing(db, ticket, guess, now, seen);
            && ran.value == None
            && Committed(db, ran) == db.(challenges :=
                 db.challenges[ticket := db.challenges[ticket].(attempts := db.challenges[ticket].attempts + 1)])
  {
  }

  // ---- runs ----

  /**
   * Transactions commit one after the other, but may have begun earlier: `dropped` is what the delete of an issue
   * found open, `seen` the account a response read.
   */
  datatype Event =
    | Enrol(user: UserId, recovery: seq<CodeHash>)
    | SetStanding(user: UserId, standing: bool, enrolled: bool)
    | Issue(user: UserId, ticket: TicketHash, now: int, dropped: set<TicketHash>)
    | Respond(ticket: TicketHash, guess: Guess, now: int, seen: Option<Account>)

  predicate IsOpen(db: Db, user: UserId, ticket: TicketHash) {
    ticket in db.challenges && db.challenges[ticket].user == user && !db.challenges[ticket].consumed
  }

  function OpenOf(db: Db, user: UserId): set<TicketHash> {
    set c | c in db.challenges && IsOpen(db, user, c)
  }

  /** The delete locks what it drops, so that is open until the issue commits. */
  predicate Enabled(db: Db, e: Event) {
    e.Issue? ==> e.dropped <= OpenOf(db, e.user)
  }

  /** An issue whose delete found `dropped`: what was committed since it never saw. */
  function IssueDropping(db: Db, user: UserId, ticket: TicketHash, now: int, dropped: set<TicketHash>): Ran<Db, ()> {
    var kept := db.(challenges := db.challenges - dropped);
    if ticket in kept.challenges || user !in db.accounts then Threw
    else Returned(Inserted(kept, user, ticket, now), ())
  }

  function Next(db: Db, e: Event): Db {
    match e
    case Enrol(user, recovery) => db.(accounts := db.accounts[user := Account(true, true, recovery)])
    case SetStanding(user, standing, enrolled) =>
      if user in db.accounts
      then db.(accounts := db.accounts[user := db.accounts[user].(standing := standing, enrolled := enrolled)])
      else db
    case Issue(user, ticket, now, dropped) => Committed(db, IssueDropping(db, user, ticket, now, dropped))
    case Respond(ticket, guess, now, seen) => Committed(db, ConsumeSeeing(db, ticket, guess, now, seen))
  }

  /** Any database to start from; tr[i] is the one before event i. */
  ghost predicate Trace(evs: seq<Event>, tr: seq<Db>) {
    && |tr| == |evs| + 1
    && forall i :: 0 <= i < |evs| ==> Enabled(tr[i], evs[i]) && tr[i + 1] == Next(tr[i], evs[i])
  }

  /** Transactions that do not overlap are among these. */
  lemma UndisturbedSteps(db: Db, user: UserId, ticket: TicketHash, guess: Guess, now: int)
    ensures Next(db, Issue(user, ticket, now, OpenOf(db, user))) == Committed(db, IssueBody(db, user, ticket, now))
    ensures Next(db, Respond(ticket, guess, now, AccountOf(db, ticket)))
         == Committed(db, ConsumeBody(db, ticket, guess, now))
  {
    assert db.challenges - OpenOf(db, user) == WithoutOpen(db.challenges, user);
  }

  predicate IsWrong(db: Db, e: Event, ticket: TicketHash) {
    e.Respond? && e.ticket == ticket && WrongGuess(db, ticket, e.guess, e.now, e.seen)
  }

  predicate SignsIn(db: Db, e: Event, ticket: TicketHash) {
    e.Respond? && e.ticket == ticket && ConsumeSeeing(db, ticket, e.guess, e.now, e.seen).value.Some?
  }

  /** Over the events from i up to k. */
  ghost function WrongGuesses(evs: seq<Event>, tr: seq<Db>, i: nat, k: nat, ticket: TicketHash): nat
    requires i <= k <= |evs| <= |tr|
    decreases k
  {
    if i == k then 0
    else WrongGuesses(evs, tr, i, k - 1, ticket) + if IsWrong(tr[k - 1], evs[k - 1], ticket) then 1 else 0
  }

  ghost function SignIns(evs: seq<Event>, tr: seq<Db>, i: nat, k: nat, ticket: TicketHash): nat
    requires i <= k <= |evs| <= |tr|
    decreases k
  {
    if i == k then 0
    else SignIns(evs, tr, i, k - 1, ticket) + if SignsIn(tr[k - 1], evs[k - 1], ticket) then 1 else 0
  }

  /** Ticket hashes come from fresh random bytes, so none is issued twice. */
  ghost predicate NeverReissued(evs: seq<Event>, i: nat, k: nat, ticket: TicketHash)
    requires k <= |evs|
  {
    forall n :: i <= n < k && evs[n].Issue? ==> evs[n].ticket != ticket
  }

  function Open(db: Db, ticket: TicketHash): nat {
    if ticket in db.challenges && !db.challenges[ticket].consumed then 1 else 0
  }

  function Left(db: Db, ticket: TicketHash): nat {
    if ticket in db.challenges && db.challenges[ticket].attempts <= MAX_ATTEMPTS
    then MAX_ATTEMPTS - db.challenges[ticket].attempts
    else 0
  }

  lemma StepUsesUp(db: Db, e: Event, ticket: TicketHash)
    requires e.Issue? ==> e.ticket != ticket
    ensures Left(Next(db, e), ticket) + (if IsWrong(db, e, ticket) then 1 else 0) <= Left(db, ticket)
    ensures Open(Next(db, e), ticket) + (if SignsIn(db, e, ticket) then 1 else 0) <= Open(db, ticket)
  {
  }

  /** Over any run, one challenge compares at most the wrong codes it has left and signs in at most once. */
  lemma {:induction false} ChallengeIsBounded(evs: seq<Event>, tr: seq<Db>, i: nat, k: nat, ticket: TicketHash)
    requires Trace(evs, tr) && i <= k <= |evs| && NeverReissued(evs, i, k, ticket)
    ensures WrongGuesses(evs, tr, i, k, ticket) + Left(tr[k], ticket) <= Left(tr[i], ticket)
    ensures SignIns(evs, tr, i, k, ticket) + Open(tr[k], ticket) <= Open(tr[i], ticket)
    decreases k
  {
    hide Next, IsWrong, SignsIn, Left, Open;
    if i < k {
      ChallengeIsBounded(evs, tr, i, k - 1, ticket);
      StepUsesUp(tr[k - 1], evs[k - 1], ticket);
    }
  }

  /** From its issue on: six wrong codes and one sign-in, at the very most. */
  lemma SixGuessesOneSignIn(evs: seq<Event>, tr: seq<Db>, i: nat, k: nat, ticket: TicketHash)
    requires Trace(evs, tr) && i < k <= |evs| && evs[i].Issue? && evs[i].ticket == ticket
    requires ticket !in tr[i].challenges && NeverReissued(evs, i + 1, k, ticket)
    ensures WrongGuesses(evs, tr, i + 1, k, ticket) <= 6 && SignIns(evs, tr, i + 1, k, ticket) <= 1
  {
    ChallengeIsBounded(evs, tr, i + 1, k, ticket);
  }

  // ---- who is signed in ----

  /** The challenge was issued to `user` before event k. */
  ghost predicate IssuedTo(evs: seq<Event>, k: nat, ticket: TicketHash, user: UserId)
    requires k <= |evs|
  {
    exists i :: 0 <= i < k && evs[i].Issue? && evs[i].ticket == ticket && evs[i].user == user
  }

  /** A step keeps a challenge's user, and stores a new challenge only for the user of an issue. */
  lemma StepKeepsOwner(db: Db, e: Event, ticket: TicketHash)
    requires ticket in Next(db, e).challenges
    ensures var user := Next(db, e).challenges[ticket].user;
            || (ticket in db.challenges && db.challenges[ticket].user == user)
            || (e.Issue? && e.ticket == ticket && e.user == user)
  {
  }

  lemma {:induction false} ChallengeWasIssued(evs: seq<Event>, tr: seq<Db>, k: nat, ticket: TicketHash)
    requires Trace(evs, tr) && k < |tr| && ticket !in tr[0].challenges && ticket in tr[k].challenges
    ensures IssuedTo(evs, k, ticket, tr[k].challenges[ticket].user)
  {
    hide Next;
    if k > 0 {
      StepKeepsOwner(tr[k - 1], evs[k - 1], ticket);
      if ticket in tr[k - 1].challenges {
        ChallengeWasIssued(evs, tr, k - 1, ticket);
      }
    }
  }

  /** Over any run, who signs in through a ticket, with either kind of code, is the user it was issued to. */
  lemma SignsInWhoItWasIssuedTo(evs: seq<Event>, tr: seq<Db>, k: nat)
    requires Trace(evs, tr) && k < |evs| && evs[k].Respond? && evs[k].ticket !in tr[0].challenges
    ensures var e := evs[k];
            var who := ConsumeSeeing(tr[k], e.ticket, e.guess, e.now, e.seen).value;
            who.Some? ==> IssuedTo(evs, k, e.ticket, who.value)
  {
    OwnerSignsIn(tr[k], evs[k].ticket, evs[k].guess, evs[k].now, evs[k].seen);
    if evs[k].ticket in tr[k].challenges {
      ChallengeWasIssued(evs, tr, k, evs[k].ticket);
    }
  }

  // ---- one open challenge ----

  /** At most one challenge per user is open. */
  ghost predicate OneOpen(db: Db) {
    forall a, b ::
      (a in db.challenges && b in db.challenges && !db.challenges[a].consumed && !db.challenges[b].consumed
       && db.challenges[a].user == db.challenges[b].user)
      ==> a == b
  }

  /** An issue goes through whose delete did not see every challenge of the user that is open by now. */
  predicate MissesOpen(db: Db, e: Event) {
    && e.Issue? && IssueDropping(db, e.user, e.ticket, e.now, e.dropped).Returned?
    && e.dropped != OpenOf(db, e.user)
  }

  /** Each user keeps to one open challenge exactly unless the step is such an issue. */
  lemma StepKeepsOneOpenIff(db: Db, e: Event)
    requires OneOpen(db) && Enabled(db, e)
    ensures OneOpen(Next(db, e)) <==> !MissesOpen(db, e)
  {
    if MissesOpen(db, e) {
      var after := Next(db, e);
      assert IsOpen(after, e.user, e.ticket);
      var c :| c in OpenOf(db, e.user) && c !in e.dropped;
      assert IsOpen(after, e.user, c) && c != e.ticket;
    }
  }

  /** Over any run, users have at most one open challenge throughout exactly if no issue missed one. */
  lemma {:induction false} OneOpenChallengePerUser(evs: seq<Event>, tr: seq<Db>, k: nat)
    requires Trace(evs, tr) && k < |tr| && OneOpen(tr[0])
    ensures (forall i :: 0 <= i <= k ==> OneOpen(tr[i])) <==> (forall i :: 0 <= i < k ==> !MissesOpen(tr[i], evs[i]))
  {
    hide MissesOpen, OneOpen, Next, Enabled;
    if k > 0 {
      OneOpenChallengePerUser(evs, tr, k - 1);
      assert Enabled(tr[k - 1], evs[k - 1]) && tr[k] == Next(tr[k - 1], evs[k - 1]);
      if OneOpen(tr[k - 1]) {
        StepKeepsOneOpenIff(tr[k - 1], evs[k - 1]);
      }
    }
  }

  // ---- recovery codes ----

  /** A sign-in that used the recovery code `code` of `user`. */
  predicate Spends(db: Db, e: Event, user: UserId, code: CodeHash) {
    && e.Respond? && !e.guess.totp && e.guess.hash == code
    && ConsumeSeeing(db, e.ticket, e.guess, e.now, e.seen).value == Some(user)
  }

  function OnFile(db: Db, user: UserId, code: CodeHash): nat {
    if user in db.accounts && code in db.accounts[user].recovery then 1 else 0
  }

  /** The code was still in the account as read, and is gone from the account as it is. */
  predicate SpendsAgain(db: Db, e: Event, user: UserId, code: CodeHash) {
    Spends(db, e, user, code) && OnFile(db, user, code) == 0
  }

  ghost function Spendings(evs: seq<Event>, tr: seq<Db>, i: nat, k: nat, user: UserId, code: CodeHash): nat
    requires i <= k <= |evs| <= |tr|
    decreases k
  {
    if i == k then 0
    else Spendings(evs, tr, i, k - 1, user, code) + if Spends(tr[k - 1], evs[k - 1], user, code) then 1 else 0
  }

  ghost predicate NoEnrolment(evs: seq<Event>, i: nat, k: nat, user: UserId)
    requires k <= |evs|
  {
    forall n :: i <= n < k && evs[n].Enrol? ==> evs[n].user != user
  }

  lemma StepSpends(db: Db, e: Event, user: UserId, code: CodeHash)
    requires e.Enrol? ==> e.user != user
    ensures (if Spends(db, e, user, code) then 1 else 0) + OnFile(Next(db, e), user, code)
         == OnFile(db, user, code) + if SpendsAgain(db, e, user, code) then 1 else 0
  {
  }

  /**
   * Between enrolments a recovery code signs in as often as it goes off file, through whichever challenges, exactly
   * when no response used it that had read it before another took it off; so at most once.
   */
  lemma {:induction false} RecoveryCodeWorksOnceIff(evs: seq<Event>, tr: seq<Db>, i: nat, k: nat, user: UserId,
      code: CodeHash)
    requires Trace(evs, tr) && i <= k <= |evs| && NoEnrolment(evs, i, k, user)
    ensures Spendings(evs, tr, i, k, user, code) >= OnFile(tr[i], user, code) - OnFile(tr[k], user, code)
    ensures Spendings(evs, tr, i, k, user, code) == OnFile(tr[i], user, code) - OnFile(tr[k], user, code) <==>
              forall n :: i <= n < k ==> !SpendsAgain(tr[n], evs[n], user, code)
    decreases k
  {
    hide Next, Spends, SpendsAgain, OnFile;
    if i < k {
      RecoveryCodeWorksOnceIff(evs, tr, i, k - 1, user, code);
      StepSpends(tr[k - 1], evs[k - 1], user, code);
    }
  }

  /**
   * What the lock on the challenge gives: response n read the account before event starts[n], and from then until it
   * commits nobody touches its challenge.
   */
  ghost predicate LockedReads(evs: seq<Event>, tr: seq<Db>, starts: seq<nat>)
    requires |tr| == |evs| + 1
  {
    && |starts| == |evs|
    && forall n :: 0 <= n < |evs| && evs[n].Respond? ==> ReadAt(evs, tr, starts[n], n)
  }

  ghost predicate ReadAt(evs: seq<Event>, tr: seq<Db>, r: nat, n: nat)
    requires n < |evs| < |tr| && evs[n].Respond?
  {
    && r <= n && evs[n].seen == AccountOf(tr[r], evs[n].ticket)
    && forall m :: r <= m <= n ==> SameChallenge(tr[m], tr[r], evs[n].ticket)
  }

  predicate SameChallenge(a: Db, b: Db, ticket: TicketHash) {
    if ticket in a.challenges then ticket in b.challenges && a.challenges[ticket] == b.challenges[ticket]
    else ticket !in b.challenges
  }

  /** While a user has one open challenge, held by a response, no other response takes a code off the account. */
  lemma CodeStaysBeside(db: Db, e: Event, user: UserId, ticket: TicketHash, code: CodeHash)
    requires OneOpen(db) && IsOpen(db, user, ticket) && SameChallenge(Next(db, e), db, ticket)
    requires e.Enrol? ==> e.user != user
    ensures OnFile(Next(db, e), user, code) == OnFile(db, user, code)
  {
    if e.Respond? && ConsumeSeeing(db, e.ticket, e.guess, e.now, e.seen).value == Some(user) {
      assert IsOpen(db, user, e.ticket);
    }
  }

  lemma {:induction false} CodeStaysOnFile(evs: seq<Event>, tr: seq<Db>, r: nat, n: nat, user: UserId,
      ticket: TicketHash, code: CodeHash)
    requires Trace(evs, tr) && r <= n < |tr| && NoEnrolment(evs, r, n, user) && IsOpen(tr[r], user, ticket)
    requires forall m :: r <= m < n ==> OneOpen(tr[m])
    requires forall m :: r <= m <= n ==> SameChallenge(tr[m], tr[r], ticket)
    ensures OnFile(tr[n], user, code) == OnFile(tr[r], user, code)
    decreases n
  {
    hide Next, OneOpen, OnFile;
    if r < n {
      CodeStaysOnFile(evs, tr, r, n - 1, user, ticket, code);
      assert SameChallenge(tr[n - 1], tr[r], ticket) && SameChallenge(tr[n], tr[r], ticket);
      assert tr[n] == Next(tr[n - 1], evs[n - 1]);
      CodeStaysBeside(tr[n - 1], evs[n - 1], user, ticket, code);
    }
  }

  /** A code read by a response is still there when the response commits, if no user had two challenges meanwhile. */
  lemma NotSpentAgain(evs: seq<Event>, tr: seq<Db>, r: nat, n: nat, user: UserId, code: CodeHash)
    requires Trace(evs, tr) && r <= n < |evs| && NoEnrolment(evs, r, n, user) && evs[n].Respond?
    requires ReadAt(evs, tr, r, n) && forall m :: r <= m < n ==> OneOpen(tr[m])
    ensures !SpendsAgain(tr[n], evs[n], user, code)
  {
    hide Next, OneOpen;
    if Spends(tr[n], evs[n], user, code) {
      assert SameChallenge(tr[n], tr[r], evs[n].ticket) && IsOpen(tr[r], user, evs[n].ticket);
      CodeStaysOnFile(evs, tr, r, n, user, evs[n].ticket, code);
    }
  }

  /**
   * Between enrolments a recovery code signs in at most once, and never if it is not on file, as long as no user has
   * two open challenges while a response is under way; responses that overlap nothing need not even that.
   */
  lemma RecoveryCodeWorksOnce(evs: seq<Event>, tr: seq<Db>, starts: seq<nat>, i: nat, k: nat, user: UserId,
      code: CodeHash)
    requires Trace(evs, tr) && i <= k <= |evs| && NoEnrolment(evs, i, k, user) && LockedReads(evs, tr, starts)
    requires forall n :: i <= n < k && evs[n].Respond? ==> i <= starts[n]
    requires forall n, m :: i <= n < k && evs[n].Respond? && starts[n] <= m < n ==> OneOpen(tr[m])
    ensures Spendings(evs, tr, i, k, user, code) <= OnFile(tr[i], user, code)
  {
    hide OneOpen, ReadAt, SpendsAgain, Spends;
    forall n | i <= n < k ensures !SpendsAgain(tr[n], evs[n], user, code) {
      if evs[n].Respond? {
        assert ReadAt(evs, tr, starts[n], n);
        ReadsBefore(evs, tr, starts[n], n);
        NotSpentAgain(evs, tr, starts[n], n, user, code);
      } else {
        OnlyResponsesSpend(tr[n], evs[n], user, code);
      }
    }
    RecoveryCodeWorksOnceIff(evs, tr, i, k, user, code);
  }

  lemma ReadsBefore(evs: seq<Event>, tr: seq<Db>, r: nat, n: nat)
    requires n < |evs| < |tr| && evs[n].Respond? && ReadAt(evs, tr, r, n)
    ensures r <= n
  {
  }

  lemma OnlyResponsesSpend(db: Db, e: Event, user: UserId, code: CodeHash)
    ensures SpendsAgain(db, e, user, code) ==> e.Respond?
  {
  }

  /**
   * With two it fails. Two sign-ins at once: both deletes run before either commits, so both challenges stay open.
   * Then two responses at once: both read the account before either commits, and one recovery code signs in twice.
   */
  lemma OneCodeTwoSignIns(db: Db, user: UserId, a: TicketHash, b: TicketHash, code: CodeHash)
      returns (evs: seq<Event>, tr: seq<Db>, starts: seq<nat>)
    requires OneOpen(db) && user in db.accounts && db.accounts[user].standing && db.accounts[user].enrolled
    requires code in db.accounts[user].recovery && a != b && a !in db.challenges && b !in db.challenges
    ensures Trace(evs, tr) && LockedReads(evs, tr, starts) && |evs| == 4 && tr[0] == db && NoEnrolment(evs, 0, 4, user)
    ensures OneOpen(tr[1]) && IsOpen(tr[2], user, a) && IsOpen(tr[2], user, b) && !OneOpen(tr[2])
    ensures evs[2].Respond? && evs[3].Respond? && starts[2] == starts[3] == 2
    ensures Spends(tr[2], evs[2], user, code) && SpendsAgain(tr[3], evs[3], user, code)
  {
    var guess := Guess(false, code);
    var first, second := Issue(user, a, 0, OpenOf(db, user)), Issue(user, b, 0, {});
    var db1 := Next(db, first);
    StepKeepsOneOpenIff(db, first);
    var db2 := Next(db1, second);
    assert IsOpen(db2, user, a) && IsOpen(db2, user, b);
    var seen := Some(db.accounts[user]);
    var one, two := Respond(a, guess, 1, seen), Respond(b, guess, 1, seen);
    var db3 := Next(db2, one);
    hide OneOpen;
    evs, starts := [first, second, one, two], [0, 0, 2, 2];
    tr := [db, db1, db2, db3, Next(db3, two)];
    TwoAreNotOne(db2, user, a, b);
    assert ReadAt(evs, tr, 2, 2) && ReadAt(evs, tr, 2, 3);
  }

  lemma TwoAreNotOne(db: Db, user: UserId, a: TicketHash, b: TicketHash)
    requires IsOpen(db, user, a) && IsOpen(db, user, b) && a != b
    ensures !OneOpen(db)
  {
  }

  // ---- why the refusal is not thrown inside ----

  /** The same answers with the refusal thrown inside the transaction: nothing a wrong guess does survives. */
  function AfterThrowing(db: Db, ticket: TicketHash, guesses: seq<Guess>, now: int): Db
    decreases |guesses|
  {
    if guesses == [] then db
    else
      var ran := ConsumeBody(db, ticket, guesses[0], now);
      AfterThrowing(Committed(db, if ran.value == None then Threw else ran), ticket, guesses[1..], now)
  }

  /** Then any number of wrong guesses would leave the challenge as fresh as before. */
  lemma {:induction false} ThrowingInsideWouldNeverCount(db: Db, ticket: TicketHash, guesses: seq<Guess>, now: int)
    requires forall i :: 0 <= i < |guesses| ==> WrongGuess(db, ticket, guesses[i], now, AccountOf(db, ticket))
    ensures AfterThrowing(db, ticket, guesses, now) == db
    decreases |guesses|
  {
    if guesses != [] {
      ThrowingInsideWouldNeverCount(db, ticket, guesses[1..], now);
    }
  }
}
