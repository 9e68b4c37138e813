/**
  The account and session store of the web application (auth.go:311-333, 437-511, 585-606, 624-654, 723-766,
  781-831). Credentials and sessions live in memory and in two files; every file write may fail. The functions
  say what each handler's locked section does, the class runs the source's assignments.
 */
module SessionAuth {
  import opened Text
  import opened Writes

  /** A password as it is stored: the derived hash with its salt. */
  type Password = string

  datatype Credentials = Credentials(username: string, password: Password)

  datatype Session = Session(id: string, username: string, expiresAt: int)

  type Sessions = map<string, Session>

  /** Memory first, then the two files; `None` is a missing credentials file. */
  datatype Store = Store(creds: Credentials, sessions: Sessions, credsFile: Option<Credentials>, sessionFile: Sessions)

  datatype Reply = Updated | Refusal | Partial

  // ---------- what a restart would find ----------

  /** `loadCredentials`: the file, with the configured name where it has none, or the configured credentials. */
  function LoadedCredentials(file: Option<Credentials>, configured: Credentials): Credentials {
    match file
    case None => configured
    case Some(c) => if c.username == "" then c.(username := configured.username) else c
  }

  /** The credentials in memory are those a restart would load. */
  predicate Match(s: Store, configured: Credentials) { LoadedCredentials(s.credsFile, configured) == s.creds }

  /** An empty name can only be the configured one. */
  predicate Named(s: Store, configured: Credentials) { s.creds.username == "" ==> configured.username == "" }

  /** Every session that is accepted now would be accepted after a restart: none was lost, none can come back alone. */
  predicate Covered(s: Store) { s.sessions.Keys <= s.sessionFile.Keys }

  function Live(sessions: Sessions, now: int): Sessions {
    map t | t in sessions && sessions[t].expiresAt > now :: sessions[t]
  }

  // ---------- the locked sections ----------

  /** `handleRecovery`: the sessions first, then the new password. */
  function Recovered(s: Store, password: Password, sessionWrite: WriteOutcome, credsWrite: WriteOutcome)
    : (Store, Reply)
  {
    var next := s.creds.(password := password);
    if !sessionWrite.Done? then (s.(sessionFile := Written(s.sessionFile, map[], sessionWrite)), Refusal)
    else if !credsWrite.Done? then
      (Store(s.creds, map[], Written(s.credsFile, Some(next), credsWrite), map[]), Refusal)
    else (Store(next, map[], Some(next), map[]), Updated)
  }

  /** The caller's session under the new name, and no other. */
  function Kept(sessions: Sessions, token: string, username: string): Sessions {
    if token in sessions then map[token := sessions[token].(username := username)] else map[]
  }

  /** The credentials an account change asks for; without a new password it writes the copy it verified against. */
  function Changed(creds: Credentials, username: string, password: Option<Password>, verified: Password): Credentials {
    Credentials(if username != "" then username else creds.username,
                match password case Some(p) => p case None => verified)
  }

  /** `handleAccount`: the credentials first, then the sessions, then back again if the sessions cannot be stored. */
  function AccountChanged(s: Store, token: string, username: string, password: Option<Password>, verified: Password,
                          credsWrite: WriteOutcome, sessionWrite: WriteOutcome, undoWrite: WriteOutcome)
    : (Store, Reply)
  {
    var next := Changed(s.creds, username, password, verified);
    var kept := Kept(s.sessions, token, next.username);
    if !credsWrite.Done? then (s.(credsFile := Written(s.credsFile, Some(next), credsWrite)), Refusal)
    else if sessionWrite.Done? then (Store(next, kept, Some(next), kept), Updated)
    else
      var file := Written(s.sessionFile, kept, sessionWrite);
      if undoWrite.Done? then (Store(s.creds, s.sessions, Some(s.creds), file), Refusal)
      else (Store(next, s.sessions, Written(Some(next), Some(s.creds), undoWrite), file), Partial)
  }

  function LoggedIn(s: Store, token: string, entry: Session, now: int, write: WriteOutcome): (Store, Reply) {
    var live := Live(s.sessions, now);
    var next := live[token := entry];
    if write.Done? then (s.(sessions := next, sessionFile := next), Updated)
    else (s.(sessions := next - {token}, sessionFile := Written(s.sessionFile, next, write)), Refusal)
  }

  function LoggedOut(s: Store, token: string, write: WriteOutcome): (Store, Reply) {
    if token !in s.sessions then (s, Updated)
    else
      var next := s.sessions - {token};
      (s.(sessions := next, sessionFile := Written(s.sessionFile, next, write)),
       if write.Done? then Updated else Refusal)
  }

  // ---------- memory and disk agree ----------

  /** Recovery, exactly: memory and file disagree only when the password file was replaced but reported as failed. */
  lemma RecoveryMatches(s: Store, configured: Credentials, password: Password, sessionWrite: WriteOutcome,
                        credsWrite: WriteOutcome)
    requires Match(s, configured) && Named(s, configured) && password != s.creds.password
    ensures var after := Recovered(s, password, sessionWrite, credsWrite).0;
            Match(after, configured) <==> !(sessionWrite.Done? && credsWrite.Unsynced?)
  {
  }

  /**
    The account change, exactly: for every pattern of failures memory and file agree, unless the write that is
    given up on replaced the file after all.
   */
  lemma AccountMatches(s: Store, configured: Credentials, token: string, username: string, password: Option<Password>,
                       verified: Password, w1: WriteOutcome, w2: WriteOutcome, w3: WriteOutcome)
    requires Match(s, configured) && Named(s, configured) && Changed(s.creds, username, password, verified) != s.creds
    ensures var after := AccountChanged(s, token, username, password, verified, w1, w2, w3).0;
            Match(after, configured) <==> !w1.Unsynced? && !(w1.Done? && !w2.Done? && w3.Unsynced?)
  {
  }

  /** The session files stay ahead of memory in every handler unless a failed write replaced one after all. */
  lemma HandlersCover(s: Store, token: string, username: string, password: Option<Password>, verified: Password,
                      entry: Session, now: int, w1: WriteOutcome, w2: WriteOutcome, w3: WriteOutcome)
    requires Covered(s)
    ensures Covered(LoggedIn(s, token, entry, now, w1).0) && Covered(LoggedOut(s, token, w1).0)
    ensures !w1.Unsynced? ==> Covered(Recovered(s, verified, w1, w2).0)
    ensures !(w1.Done? && w2.Unsynced?) ==>
            Covered(AccountChanged(s, token, username, password, verified, w1, w2, w3).0)
  {
  }

  /** The two exceptions are real: the file holds fewer sessions than memory as soon as there was another one. */
  lemma UncoveredExactly(s: Store, token: string, username: string, password: Option<Password>, verified: Password,
                         w2: WriteOutcome, w3: WriteOutcome)
    requires Covered(s)
    ensures Covered(Recovered(s, verified, Unsynced, w2).0) <==> s.sessions == map[]
    ensures Covered(AccountChanged(s, token, username, password, verified, Done, Unsynced, w3).0) <==>
            s.sessions.Keys <= {token}
  {
    if s.sessions.Keys == {} {
      assert s.sessions == map[];
    }
  }

  /**
    Reported success: the new credentials are in force and stored, and no session but the caller's is left anywhere.
   */
  lemma SuccessEndsOtherSessions(s: Store, token: string, username: string, password: Option<Password>,
                                 verified: Password,
                                 w1: WriteOutcome, w2: WriteOutcome, w3: WriteOutcome)
    ensures var r := AccountChanged(s, token, username, password, verified, w1, w2, w3);
            r.1.Updated? ==>
              r.0.creds == Changed(s.creds, username, password, verified) && r.0.credsFile == Some(r.0.creds) &&
              r.0.sessions.Keys == s.sessions.Keys * {token} && r.0.sessionFile == r.0.sessions &&
              forall t | t in r.0.sessions :: r.0.sessions[t].username == r.0.creds.username
    ensures var r := Recovered(s, verified, w1, w2);
            r.1.Updated? ==> r.0.sessions == map[] && r.0.sessionFile == map[] && r.0.credsFile == Some(r.0.creds) &&
                             r.0.creds == s.creds.(password := verified)
  {
  }

  /**
    What an account change reports and what it then leaves: the requested name and password in force, the caller's
    session under that name, and after a plain success all of it stored.
   */
  lemma AccountReplies(s: Store, token: string, username: string, password: Option<Password>, verified: Password,
                       w1: WriteOutcome, w2: WriteOutcome, w3: WriteOutcome)
    ensures var (r, reply) := AccountChanged(s, token, username, password, verified, w1, w2, w3);
            reply == (if w1.Done? && w2.Done? then Updated else if w1.Done? && !w3.Done? then Partial else Refusal) &&
            (!reply.Refusal? ==>
               r.creds.username == (if username != "" then username else s.creds.username) &&
               r.creds.password == (if password.Some? then password.value else verified)) &&
            (reply.Updated? ==>
               r.credsFile == Some(r.creds) && r.sessionFile == r.sessions &&
               r.sessions.Keys == s.sessions.Keys * {token} &&
               (token in r.sessions ==> r.sessions[token] == s.sessions[token].(username := r.creds.username)))
  {
  }

  /** A refused change changes neither the credentials nor the sessions in memory, except that recovery may end them. */
  lemma RefusalKeepsMemory(s: Store, token: string, username: string, password: Option<Password>, verified: Password,
                           w1: WriteOutcome, w2: WriteOutcome, w3: WriteOutcome)
    ensures var r := AccountChanged(s, token, username, password, verified, w1, w2, w3);
            r.1.Refusal? ==> r.0.creds == s.creds && r.0.sessions == s.sessions
    ensures var r := Recovered(s, verified, w1, w2);
            r.1.Refusal? ==> r.0.creds == s.creds && (r.0.sessions == s.sessions || r.0.sessions == map[])
  {
  }

  // ---------- every run ----------

  /** Some session ends in memory; the file is rewritten until a write succeeds or the attempts run out. */
  function Dropped(s: Store, token: string, writes: seq<WriteOutcome>): Store {
    var next := s.sessions - {token};
    s.(sessions := next, sessionFile := FileAfter(s.sessionFile, next, writes))
  }

  function FileAfter(file: Sessions, next: Sessions, writes: seq<WriteOutcome>): Sessions
    decreases |writes|
  {
    if writes == [] then file
    else if writes[0].Done? then next
    else FileAfter(Written(file, next, writes[0]), next, writes[1..])
  }

  /** Identifiers drawn for sessions, by token; a draw may fail. */
  type Draws = map<string, string>

  predicate Backfills(s: Session, token: string, draws: Draws) { s.id == "" && token in draws }

  function WithIdentifier(s: Session, token: string, draws: Draws): Session {
    if Backfills(s, token, draws) then s.(id := draws[token]) else s
  }

  /** Sessions stored before they had identifiers get one. */
  function Backfilled(sessions: Sessions, draws: Draws): Sessions {
    map t | t in sessions :: WithIdentifier(sessions[t], t, draws)
  }

  predicate Fills(sessions: Sessions, draws: Draws) { exists t | t in sessions :: Backfills(sessions[t], t, draws) }

  /** What a new process starts with; the file is rewritten only if an identifier was filled in. */
  function Restarted(s: Store, configured: Credentials, now: int, draws: Draws, write: WriteOutcome): Store {
    var live := Live(s.sessionFile, now);
    var next := Backfilled(live, draws);
    Store(LoadedCredentials(s.credsFile, configured), next, s.credsFile,
          if Fills(live, draws) then Written(s.sessionFile, next, write) else s.sessionFile)
  }

  /** Whatever can happen to the store, with the outcome of each write. */
  datatype Event =
    | Login(token: string, entry: Session, now: int, write: WriteOutcome)
    | Logout(token: string, write: WriteOutcome)
    | Drop(token: string, writes: seq<WriteOutcome>)
    | Recovery(password: Password, w1: WriteOutcome, w2: WriteOutcome)
    | Account(token: string, username: string, change: Option<Password>, verified: Password, w1: WriteOutcome,
              w2: WriteOutcome, w3: WriteOutcome)
    | Restart(now: int, draws: Draws, write: WriteOutcome)

  function Next(s: Store, e: Event, configured: Credentials): Store {
    match e
    case Login(token, entry, now, write) => LoggedIn(s, token, entry, now, write).0
    case Logout(token, write) => LoggedOut(s, token, write).0
    case Drop(token, writes) => Dropped(s, token, writes)
    case Recovery(password, w1, w2) => Recovered(s, password, w1, w2).0
    case Account(token, username, change, verified, w1, w2, w3) =>
      AccountChanged(s, token, username, change, verified, w1, w2, w3).0
    case Restart(now, draws, write) => Restarted(s, configured, now, draws, write)
  }

  function After(s: Store, events: seq<Event>, configured: Credentials): Store
    decreases |events|
  {
    if events == [] then s else After(Next(s, events[0], configured), events[1..], configured)
  }

  predicate Sound(s: Store, configured: Credentials) { Match(s, configured) && Named(s, configured) && Covered(s) }

  /** No write that the handler takes for a failure replaced its file, where that matters. */
  predicate Faithful(e: Event) {
    match e
    case Recovery(_, w1, w2) => !w1.Unsynced? && !(w1.Done? && w2.Unsynced?)
    case Account(_, _, _, _, w1, w2, w3) =>
      !w1.Unsynced? && !(w1.Done? && w2.Unsynced?) && !(w1.Done? && w2.Refused? && w3.Unsynced?)
    case _ => true
  }

  lemma {:induction false} FileAfterCovers(file: Sessions, next: Sessions, writes: seq<WriteOutcome>)
    requires next.Keys <= file.Keys
    ensures next.Keys <= FileAfter(file, next, writes).Keys <= file.Keys
    decreases |writes|
  {
    if writes != [] && !writes[0].Done? {
      FileAfterCovers(Written(file, next, writes[0]), next, writes[1..]);
    }
  }

  lemma NextIsSound(s: Store, e: Event, configured: Credentials)
    requires Sound(s, configured) && Faithful(e)
    ensures Sound(Next(s, e, configured), configured)
  {
    if e.Drop? {
      FileAfterCovers(s.sessionFile, s.sessions - {e.token}, e.writes);
    }
  }

  /** In every run, with restarts anywhere, memory and files stay in agreement as long as writes are faithful. */
  lemma {:induction false} SoundInEveryRun(s: Store, events: seq<Event>, configured: Credentials)
    requires Sound(s, configured) && forall e | e in events :: Faithful(e)
    ensures Sound(After(s, events, configured), configured)
    decreases |events|
  {
    hide Sound, Faithful, Next;
    if events != [] {
      assert events[0] in events;
      NextIsSound(s, events[0], configured);
      SoundInEveryRun(Next(s, events[0], configured), events[1..], configured);
    }
  }

  /** The tokens that are accepted, or could be after a restart. */
  function Tokens(s: Store): set<string> { s.sessions.Keys + s.sessionFile.Keys }

  lemma {:induction false} FileAfterTokens(file: Sessions, next: Sessions, writes: seq<WriteOutcome>)
    ensures FileAfter(file, next, writes).Keys <= file.Keys + next.Keys
    decreases |writes|
  {
    if writes != [] && !writes[0].Done? {
      FileAfterTokens(Written(file, next, writes[0]), next, writes[1..]);
    }
  }

  lemma NextTokens(s: Store, e: Event, configured: Credentials)
    ensures Tokens(Next(s, e, configured)) <= Tokens(s) + if e.Login? then {e.token} else {}
  {
    if e.Drop? {
      FileAfterTokens(s.sessionFile, s.sessions - {e.token}, e.writes);
    }
  }

  /**
    Only a login issues a session: a token known after any run, whatever failed in it, was known before or was
    issued in it.
   */
  lemma {:induction false} SessionsComeFromLogins(s: Store, events: seq<Event>, configured: Credentials, token: string)
    requires token in Tokens(After(s, events, configured))
    ensures token in Tokens(s) || exists e | e in events :: e.Login? && e.token == token
    decreases |events|
  {
    hide Next, Tokens;
    if events != [] {
      var e := events[0];
      assert e in events;
      NextTokens(s, e, configured);
      SessionsComeFromLogins(Next(s, e, configured), events[1..], configured, token);
      if exists f | f in events[1..] :: f.Login? && f.token == token {
        var f :| f in events[1..] && f.Login? && f.token == token;
        assert f in events;
      }
    }
  }

  predicate Succeeds(s: Store, e: Event) {
    match e
    case Recovery(password, w1, w2) => Recovered(s, password, w1, w2).1.Updated?
    case Account(token, username, change, verified, w1, w2, w3) =>
      AccountChanged(s, token, username, change, verified, w1, w2, w3).1.Updated?
    case _ => false
  }

  /**
    A session ended by a reported account change or recovery is never accepted again, in any later run with any
    failures and restarts, unless a login issues its token anew.
   */
  lemma EndedSessionsStayEnded(s: Store, e: Event, events: seq<Event>, configured: Credentials, token: string)
    requires Succeeds(s, e) && (e.Account? ==> token != e.token)
    requires forall f | f in events && f.Login? :: f.token != token
    ensures token !in After(Next(s, e, configured), events, configured).sessions
  {
    var after := Next(s, e, configured);
    assert token !in Tokens(after);
    if token in Tokens(After(after, events, configured)) {
      SessionsComeFromLogins(after, events, configured, token);
    }
  }

  /** A logout is undone by the next restart exactly when its write was refused and the session has time left. */
  lemma LogoutUntilRestart(s: Store, token: string, write: WriteOutcome, configured: Credentials, restart: Event)
    requires Covered(s) && token in s.sessions && restart.Restart?
    ensures token in After(s, [Logout(token, write), restart], configured).sessions <==>
            write.Refused? && s.sessionFile[token].expiresAt > restart.now
  {
    assert token in s.sessionFile.Keys;
    AfterTwo(s, Logout(token, write), restart, configured);
  }

  /** With several attempts, exactly when every one of them was refused. */
  lemma DropUntilRestart(s: Store, token: string, writes: seq<WriteOutcome>, configured: Credentials, restart: Event)
    requires token in s.sessionFile && restart.Restart?
    ensures token in After(s, [Drop(token, writes), restart], configured).sessions <==>
            (forall w | w in writes :: w.Refused?) && s.sessionFile[token].expiresAt > restart.now
  {
    AfterTwo(s, Drop(token, writes), restart, configured);
    RefusedKeepsFile(s.sessionFile, s.sessions - {token}, writes, token);
  }

  lemma AfterTwo(s: Store, e: Event, f: Event, configured: Credentials)
    ensures After(s, [e, f], configured) == Next(Next(s, e, configured), f, configured)
  {
    assert [e, f][1..] == [f] && [f][1..] == [];
    AfterOne(Next(s, e, configured), f, configured);
  }

  lemma AfterOne(s: Store, e: Event, configured: Credentials)
    ensures After(s, [e], configured) == Next(s, e, configured)
  {
    assert [e][1..] == [];
  }

  lemma {:induction false} RefusedKeepsFile(file: Sessions, next: Sessions, writes: seq<WriteOutcome>, token: string)
    requires token !in next
    ensures (forall w | w in writes :: w.Refused?) ==> FileAfter(file, next, writes) == file
    ensures !(forall w | w in writes :: w.Refused?) ==> token !in FileAfter(file, next, writes)
    decreases |writes|
  {
    if writes != [] {
      RefusedKeepsFile(Written(file, next, writes[0]), next, writes[1..], token);
      assert forall w :: w in writes <==> w == writes[0] || w in writes[1..];
      if !writes[0].Refused? {
        NextStays(next, writes[1..]);
      }
    }
  }

  lemma {:induction false} NextStays(next: Sessions, writes: seq<WriteOutcome>)
    ensures FileAfter(next, next, writes) == next
    decreases |writes|
  {
    if writes != [] {
      NextStays(next, writes[1..]);
    }
  }

  // ---------- a session from its login on ----------

  /** The other sessions that have time left are kept as they are, the expired ones are gone. */
  ghost predicate OthersKept(was: Sessions, sessions: Sessions, token: string, now: int) {
    forall t | t != token ::
      (t in sessions <==> t in was && was[t].expiresAt > now) && (t in sessions ==> sessions[t] == was[t])
  }

  /** A login whose write succeeds issues the session, in memory and in the file, and touches no other live one. */
  lemma LoginIssues(s: Store, token: string, entry: Session, now: int, configured: Credentials)
    ensures var r := After(s, [Login(token, entry, now, Done)], configured);
            token in r.sessions && r.sessions[token] == entry && token in r.sessionFile &&
            r.sessionFile[token] == entry && OthersKept(s.sessions, r.sessions, token, now) &&
            OthersKept(s.sessions, r.sessionFile, token, now) && r.creds == s.creds && r.credsFile == s.credsFile
  {
    AfterOne(s, Login(token, entry, now, Done), configured);
  }

  /** It survives restarts until it expires, with its name and its time; only an empty identifier is filled in. */
  lemma LoginUntilExpiry(s: Store, token: string, entry: Session, now: int, configured: Credentials, restart: Event)
    requires restart.Restart?
    ensures var r := After(s, [Login(token, entry, now, Done), restart], configured);
            (token in r.sessions <==> restart.now < entry.expiresAt) &&
            (token in r.sessions ==>
               r.sessions[token].username == entry.username && r.sessions[token].expiresAt == entry.expiresAt &&
               (entry.id != "" ==> r.sessions[token] == entry))
  {
    AfterTwo(s, Login(token, entry, now, Done), restart, configured);
  }

  /** A login that cannot be stored issues nothing, and ends no live session. */
  lemma LoginRefused(s: Store, token: string, entry: Session, now: int, write: WriteOutcome, configured: Credentials)
    requires !write.Done?
    ensures var r := After(s, [Login(token, entry, now, write)], configured);
            token !in r.sessions && OthersKept(s.sessions, r.sessions, token, now) && r.creds == s.creds &&
            (write.Refused? ==> r.sessionFile == s.sessionFile)
  {
    AfterOne(s, Login(token, entry, now, write), configured);
  }

  /** A restart accepts exactly the sessions of the file that have time left, under their names. */
  lemma RestartAccepts(s: Store, configured: Credentials, restart: Event, t: string)
    requires restart.Restart?
    ensures var r := After(s, [restart], configured);
            (t in r.sessions <==> t in s.sessionFile && s.sessionFile[t].expiresAt > restart.now) &&
            (t in r.sessions ==>
               r.sessions[t].username == s.sessionFile[t].username &&
               r.sessions[t].expiresAt == s.sessionFile[t].expiresAt &&
               r.sessions[t].id == (if s.sessionFile[t].id == "" && t in restart.draws then restart.draws[t]
                                    else s.sessionFile[t].id)) &&
            r.creds == (match s.credsFile
                        case None => configured
                        case Some(c) => Credentials(if c.username == "" then configured.username else c.username,
                                                    c.password)) &&
            r.credsFile == s.credsFile && (restart.write.Refused? ==> r.sessionFile == s.sessionFile) &&
            (restart.write.Done? && t in r.sessions && s.sessionFile[t].id == "" && t in restart.draws ==>
               r.sessionFile == r.sessions)
  {
    AfterOne(s, restart, configured);
  }

  /** A logout ends its session at once, whatever the write does, and no other. */
  lemma LogoutEnds(s: Store, token: string, write: WriteOutcome, configured: Credentials, t: string)
    ensures var r := After(s, [Logout(token, write)], configured);
            (t in r.sessions <==> t in s.sessions && t != token) &&
            (t in r.sessions ==> r.sessions[t] == s.sessions[t]) &&
            (token in s.sessions && write.Done? ==> token !in r.sessionFile) && r.creds == s.creds
  {
    AfterOne(s, Logout(token, write), configured);
  }

  // ---------- a change of name, between its two locks ----------

  /** The password an event puts in force, by the outcomes of its writes. */
  function PasswordSet(e: Event): Option<Password> {
    match e
    case Recovery(password, w1, w2) => if w1.Done? && w2.Done? then Some(password) else None
    case Account(_, _, change, verified, w1, w2, w3) =>
      if w1.Done? && (w2.Done? || !w3.Done?) then Some(match change case Some(p) => p case None => verified) else None
    case _ => None
  }

  /** The last one put in force. */
  function LastPassword(events: seq<Event>): Option<Password> {
    if events == [] then None
    else
      match PasswordSet(events[|events| - 1])
      case Some(p) => Some(p)
      case None => LastPassword(events[..|events| - 1])
  }

  lemma {:induction false} AfterSnoc(s: Store, events: seq<Event>, e: Event, configured: Credentials)
    ensures After(s, events + [e], configured) == Next(After(s, events, configured), e, configured)
    decreases |events|
  {
    if events == [] {
      assert [] + [e] == [e];
      AfterOne(s, e, configured);
    } else {
      assert (events + [e])[1..] == events[1..] + [e];
      AfterSnoc(Next(s, events[0], configured), events[1..], e, configured);
    }
  }

  lemma AfterNothing(s: Store, configured: Credentials)
    ensures After(s, [], configured) == s
  {
  }

  lemma NextPassword(s: Store, e: Event, configured: Credentials)
    requires !e.Restart?
    ensures Next(s, e, configured).creds.password ==
            match PasswordSet(e) case Some(p) => p case None => s.creds.password
  {
  }

  /** Within one process the password in memory is the last one put in force. */
  lemma {:induction false} PasswordAfter(s: Store, events: seq<Event>, configured: Credentials)
    requires forall e | e in events :: !e.Restart?
    ensures After(s, events, configured).creds.password ==
            match LastPassword(events) case Some(p) => p case None => s.creds.password
  {
    hide Next, After, PasswordSet;
    if events == [] {
      AfterNothing(s, configured);
    } else {
      var n := |events| - 1;
      assert events == events[..n] + [events[n]];
      AfterSnoc(s, events[..n], events[n], configured);
      NextPassword(After(s, events[..n], configured), events[n], configured);
      PasswordAfter(s, events[..n], configured);
      assert events[n] in events;
    }
  }

  /**
    `handleAccount` copies the password under one lock, verifies against the copy, and writes it back under
    another when only the name changes. Whatever happens in between: the password survives exactly when the last
    one put in force in between, if any, is the one that was copied.
   */
  lemma RenameKeepsPassword(s: Store, between: seq<Event>, rename: Event, configured: Credentials)
    requires forall e | e in between :: !e.Restart?
    requires rename.Account? && rename.change.None? && rename.verified == s.creds.password
    requires Succeeds(After(s, between, configured), rename)
    ensures After(s, between + [rename], configured).creds.password == After(s, between, configured).creds.password <==>
            LastPassword(between) in [None, Some(s.creds.password)]
  {
    AfterSnoc(s, between, rename, configured);
    PasswordAfter(s, between, configured);
  }

  const OLD_STORE := Store(Credentials("admin", "old"), map["t" := Session("1", "admin", 9)],
                           Some(Credentials("admin", "old")), map["t" := Session("1", "admin", 9)])

  /** A recovery that was reported as done is taken back, in memory and on disk, by a rename that was under way. */
  lemma RenameRevertsRecovery(configured: Credentials)
    ensures var recovery, rename := Recovery("new", Done, Done), Account("t", "root", None, "old", Done, Done, Done);
            var s1 := After(OLD_STORE, [recovery], configured);
            var s2 := After(OLD_STORE, [recovery, rename], configured);
            Succeeds(OLD_STORE, recovery) && s1.creds.password == "new" && Succeeds(s1, rename) &&
            s2.creds == Credentials("root", "old") && s2.credsFile == Some(s2.creds)
  {
    var recovery, rename := Recovery("new", Done, Done), Account("t", "root", None, "old", Done, Done, Done);
    AfterOne(OLD_STORE, recovery, configured);
    AfterTwo(OLD_STORE, recovery, rename, configured);
  }

  // ---------- filling in identifiers ----------

  /** All sessions but those in `tokens` have been looked at. */
  ghost predicate Filling(live: Sessions, m: Sessions, tokens: set<string>, draws: Draws, filled: bool) {
    tokens <= m.Keys == live.Keys &&
    (forall t | t in live :: m[t] == if t in tokens then live[t] else WithIdentifier(live[t], t, draws)) &&
    (filled <==> exists t | t in live && t !in tokens :: Backfills(live[t], t, draws))
  }

  lemma NothingFilled(live: Sessions, draws: Draws)
    ensures Filling(live, live, live.Keys, draws, false)
  {
  }

  lemma StillThere(live: Sessions, m: Sessions, tokens: set<string>, draws: Draws, filled: bool, token: string)
    requires Filling(live, m, tokens, draws, filled) && token in tokens
    ensures token in m && token in live && m[token] == live[token]
  {
  }

  lemma OneMoreFilled(live: Sessions, m: Sessions, tokens: set<string>, draws: Draws, filled: bool, token: string)
    requires Filling(live, m, tokens, draws, filled) && token in tokens && token in m
    ensures Filling(live, m[token := WithIdentifier(m[token], token, draws)], tokens - {token}, draws,
                    filled || Backfills(m[token], token, draws))
  {
    hide WithIdentifier, Backfills;
  }

  lemma AllFilled(live: Sessions, m: Sessions, draws: Draws, filled: bool)
    requires Filling(live, m, {}, draws, filled)
    ensures m == Backfilled(live, draws) && filled == Fills(live, draws)
  {
    hide WithIdentifier, Backfills;
  }

  // ---------- the running service ----------

  class Service {
    const configured: Credentials
    var creds: Credentials
    var sessions: Sessions
    var credsFile: Option<Credentials>
    var sessionFile: Sessions

    constructor (configured: Credentials, credsFile: Option<Credentials>, sessionFile: Sessions, now: int,
                 draws: Draws, write: WriteOutcome)
      ensures this.configured == configured && Valid()
      ensures Stored() == Restarted(Store(configured, map[], credsFile, sessionFile), configured, now, draws, write)
    {
      this.configured, this.credsFile, this.sessionFile := configured, credsFile, sessionFile;
      creds := LoadedCredentials(credsFile, configured);
      sessions := map[];
      new;
      LoadSessions(now, draws, write);
    }

    function Stored(): Store
      reads this
    {
      Store(creds, sessions, credsFile, sessionFile)
    }

    /** A restart would find the same credentials, and every session that is accepted now. */
    ghost predicate Valid()
      reads this
    {
      Sound(Stored(), configured)
    }

    method DeleteExpired(now: int)
      modifies `sessions
      ensures sessions == Live(old(sessions), now)
    {
      var tokens := sessions.Keys;
      while tokens != {}
        invariant tokens <= sessions.Keys <= old(sessions).Keys
        invariant forall t | t in sessions :: sessions[t] == old(sessions)[t]
        invariant forall t | t in sessions && t !in tokens :: sessions[t].expiresAt > now
        invariant forall t | t in old(sessions) && t !in sessions :: old(sessions)[t].expiresAt <= now
        decreases |tokens|
      {
        var token: string :| token in tokens;
        tokens := tokens - {token};
        if sessions[token].expiresAt <= now {
          sessions := sessions - {token};
        }
      }
      assert sessions == Live(old(sessions), now);
    }

    method PersistSessions(o: WriteOutcome) returns (ok: bool)
      modifies `sessionFile
      ensures ok == o.Done? && sessionFile == Written(old(sessionFile), sessions, o)
    {
      sessionFile := Written(sessionFile, sessions, o);
      ok := o.Done?;
    }

    method PersistCredentials(o: WriteOutcome) returns (ok: bool)
      modifies `credsFile
      ensures ok == o.Done? && credsFile == Written(old(credsFile), Some(creds), o)
    {
      credsFile := Written(credsFile, Some(creds), o);
      ok := o.Done?;
    }

    method HandleRecovery(password: Password, sessionWrite: WriteOutcome, credsWrite: WriteOutcome)
      returns (reply: Reply)
      requires Valid()
      modifies this
      ensures (Stored(), reply) == Recovered(old(Stored()), password, sessionWrite, credsWrite)
      ensures reply == if sessionWrite.Done? && credsWrite.Done? then Updated else Refusal
      ensures reply.Updated? ==> creds == Credentials(old(creds).username, password) && credsFile == Some(creds) &&
                                 sessions == map[] && sessionFile == map[]
      ensures !sessionWrite.Unsynced? && !credsWrite.Unsynced? ==> Valid()
    {
      var oldSessions := sessions;
      sessions := map[];
      var stored := PersistSessions(sessionWrite);
      if !stored {
        sessions := oldSessions;
        return Refusal;
      }
      var oldCreds := creds;
      creds := creds.(password := password);
      var persisted := PersistCredentials(credsWrite);
      if !persisted {
        creds := oldCreds;
        return Refusal;
      }
      return Updated;
    }

    method HandleAccount(token: string, username: string, password: Option<Password>, verified: Password,
                         credsWrite: WriteOutcome, sessionWrite: WriteOutcome, undoWrite: WriteOutcome)
      returns (reply: Reply)
      requires Valid()
      modifies this
      ensures (Stored(), reply) ==
              AccountChanged(old(Stored()), token, username, password, verified, credsWrite, sessionWrite, undoWrite)
      ensures !credsWrite.Unsynced? && !sessionWrite.Unsynced? && !undoWrite.Unsynced? ==> Valid()
    {
      var oldCreds := creds;
      if username != "" {
        creds := creds.(username := username);
      }
      creds := creds.(password := match password case Some(p) => p case None => verified);
      var written := PersistCredentials(credsWrite);
      if !written {
        creds := oldCreds;
        return Refusal;
      }
      var oldSessions := sessions;
      var hasCurrent := token in sessions;
      sessions := map[];
      if hasCurrent {
        sessions := sessions[token := oldSessions[token].(username := creds.username)];
      }
      var stored := PersistSessions(sessionWrite);
      if !stored {
        sessions := oldSessions;
        var applied := creds;
        creds := oldCreds;
        var undone := PersistCredentials(undoWrite);
        if !undone {
          creds := applied;
          return Partial;
        }
        return Refusal;
      }
      return Updated;
    }

    method HandleLogin(token: string, entry: Session, now: int, write: WriteOutcome) returns (reply: Reply)
      requires Valid()
      modifies this
      ensures (Stored(), reply) == LoggedIn(old(Stored()), token, entry, now, write) && Valid()
      ensures reply == if write.Done? then Updated else Refusal
      ensures if write.Done? then token in sessions && sessions[token] == entry && sessionFile == sessions
              else token !in sessions
      ensures OthersKept(old(sessions), sessions, token, now) && creds == old(creds) && credsFile == old(credsFile)
    {
      DeleteExpired(now);
      sessions := sessions[token := entry];
      var stored := PersistSessions(write);
      if !stored {
        sessions := sessions - {token};
        return Refusal;
      }
      return Updated;
    }

    method HandleLogout(token: string, write: WriteOutcome) returns (reply: Reply)
      requires Valid()
      modifies this
      ensures (Stored(), reply) == LoggedOut(old(Stored()), token, write) && Valid()
      ensures sessions == old(sessions) - {token} && creds == old(creds) && credsFile == old(credsFile)
      ensures reply == if token in old(sessions) && !write.Done? then Refusal else Updated
      ensures token in old(sessions) && write.Done? ==> sessionFile == sessions
    {
      if token !in sessions {
        return Updated;
      }
      sessions := sessions - {token};
      var stored := PersistSessions(write);
      return if stored then Updated else Refusal;
    }

    /** Ends one session of that ID, and tries three times to store that. */
    method HandleRevoke(id: string, writes: seq<WriteOutcome>) returns (found: bool, ok: bool)
      requires Valid() && |writes| == 3
      modifies this
      ensures Valid() && creds == old(creds) && credsFile == old(credsFile)
      ensures found <==> exists t | t in old(sessions) :: old(sessions)[t].id == id
      ensures found ==> exists t | t in old(sessions) ::
                old(sessions)[t].id == id && sessions == old(sessions) - {t} &&
                Stored() == Dropped(old(Stored()), t, writes)
      ensures !found ==> !ok && sessions == old(sessions) && sessionFile == old(sessionFile)
      ensures ok <==> found && Done in writes
      ensures ok ==> sessionFile == sessions
    {
      found, ok := false, false;
      var tokens := sessions.Keys;
      var token := "";
      while tokens != {} && !found
        invariant tokens <= sessions.Keys
        invariant forall t | t in sessions && t !in tokens :: sessions[t].id != id || (found && t == token)
        invariant found ==> token in sessions && sessions[token].id == id
        decreases |tokens|
      {
        var t: string :| t in tokens;
        tokens := tokens - {t};
        if sessions[t].id == id {
          token, found := t, true;
        }
      }
      if !found {
        return;
      }
      sessions := sessions - {token};
      assert writes[0..] == writes;
      for attempt := 0 to 3
        invariant !ok && Covered(Stored()) && forall k | 0 <= k < attempt :: !writes[k].Done?
        invariant creds == old(creds) && credsFile == old(credsFile) && sessions == old(sessions) - {token}
        invariant FileAfter(sessionFile, sessions, writes[attempt..]) == FileAfter(old(sessionFile), sessions, writes)
      {
        assert writes[attempt..][0] == writes[attempt] && writes[attempt..][1..] == writes[attempt + 1..];
        ok := PersistSessions(writes[attempt]);
        if ok {
          return;
        }
      }
    }

    /** `authenticatedUser`: an expired session is dropped on sight. */
    method AuthenticatedUser(token: string, now: int, write: WriteOutcome) returns (user: Option<string>)
      requires Valid()
      modifies this
      ensures Valid() && creds == old(creds) && credsFile == old(credsFile)
      ensures user.Some? <==> token in old(sessions) && old(sessions)[token].expiresAt > now
      ensures user.Some? ==> user.value == old(sessions)[token].username && Stored() == old(Stored())
      ensures Live(sessions, now) == Live(old(sessions), now)
      ensures Stored() == old(Stored()) || Stored() == Dropped(old(Stored()), token, [write])
    {
      if token !in sessions {
        return None;
      }
      if sessions[token].expiresAt <= now {
        sessions := sessions - {token};
        assert [write][1..] == [] && FileAfter(Written(sessionFile, sessions, write), sessions, []) ==
                                     Written(sessionFile, sessions, write);
        var stored := PersistSessions(write);
        return None;
      }
      return Some(sessions[token].username);
    }

    /** The loop of `loadSessions` over sessions without an identifier. */
    method FillIdentifiers(draws: Draws) returns (filled: bool)
      modifies `sessions
      ensures sessions == Backfilled(old(sessions), draws) && filled == Fills(old(sessions), draws)
    {
      hide Filling;
      ghost var live := sessions;
      var tokens := sessions.Keys;
      filled := false;
      NothingFilled(live, draws);
      while tokens != {}
        invariant Filling(live, sessions, tokens, draws, filled)
        decreases |tokens|
      {
        var token: string :| token in tokens;
        StillThere(live, sessions, tokens, draws, filled, token);
        OneMoreFilled(live, sessions, tokens, draws, filled, token);
        if sessions[token].id == "" && token in draws {
          sessions, filled := sessions[token := sessions[token].(id := draws[token])], true;
        } else {
          assert sessions[token := sessions[token]] == sessions;
        }
        tokens := tokens - {token};
      }
      AllFilled(live, sessions, draws, filled);
    }

    /** `loadSessions`: the live sessions of the file, those without an identifier with a new one. */
    method LoadSessions(now: int, draws: Draws, write: WriteOutcome)
      modifies `sessions, `sessionFile
      ensures sessions == Backfilled(Live(old(sessionFile), now), draws)
      ensures sessionFile == if !Fills(Live(old(sessionFile), now), draws) then old(sessionFile)
                             else Written(old(sessionFile), sessions, write)
    {
      sessions := sessionFile;
      DeleteExpired(now);
      var filled := FillIdentifiers(draws);
      if filled {
        var stored := PersistSessions(write);
      }
    }

    /**
      A new process. It finds the credentials that were in force, and every session whose token the file holds
      and that has time left; a credentials file that cannot be read keeps it from starting.
     */
    method Restart(readable: bool, now: int, draws: Draws, write: WriteOutcome) returns (started: bool)
      requires Valid()
      modifies `creds, `sessions, `sessionFile
      ensures started <==> credsFile.None? || readable
      ensures Stored() == if started then Restarted(old(Stored()), configured, now, draws, write) else old(Stored())
      ensures Valid() && creds == old(creds)
    {
      if credsFile.Some? && !readable {
        return false;
      }
      creds := LoadedCredentials(credsFile, configured);
      LoadSessions(now, draws, write);
      return true;
    }
  }
}
