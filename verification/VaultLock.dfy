/**
 The daemon's lock state, one remote call per step: the master key, the database connection, the vault
 id and the wipe ticket, together with the session store of module Sessions. What the cryptography, the
 files and the failure counters answer is part of the step; the tokens drawn are fresh.
 */
module VaultLock {
  import opened Common
  import opened Sessions

  const UID: nat := 1000

  type VaultKey = string
  type Connection = string

  datatype Vault = Vault(vmk: Option<VaultKey>, db: Option<Connection>, uuid: Option<User>, ticket: Option<string>,
                         store: Store, issued: set<Token>)

  const CLOSED := Vault(None, None, None, None, Store(map[], map[], 0), {})

  datatype Path = Password | BackupCode | Passkey | QuickUnlock | RecoveryKey | Pqc

  /**
   How far an unlock gets before its session is created: turned away up front, failed with nothing
   changed, failed while creating a vault with only the key in place, or everything loaded.
   */
  datatype Attempt = Refused | Fails | KeyOnly(key: VaultKey)
                   | Loads(key: VaultKey, conn: Connection, uuid: User, ticket: Option<string>)

  /** Only password paths can create a vault; post-quantum unlocking is not implemented. */
  predicate Possible(path: Path, attempt: Attempt) {
    && (attempt.KeyOnly? ==> path.Password? || path.BackupCode?)
    && (path.Pqc? ==> attempt.Refused? || attempt.Fails?)
  }

  datatype Change = NotAllowed | Failed(wipes: bool) | Changed(key: VaultKey, rev: map<Digest, nat>)

  datatype Rpc =
    | Tick(to: nat)
    | Unlock(path: Path, attempt: Attempt, token: Token, victim: Token, second: bool, wipes: bool)
    | Lock(token: Token)
    | AutoLock
    | Wipe(granted: bool)
    | Call(token: Token)
    | ChangePassword(token: Token, change: Change)

  // ---------------------------------------------------------------- specification

  function Locked(v: Vault): Vault { Vault(None, None, None, None, v.store.(sessions := map[]), v.issued) }

  /** A recorded failure wipes the vault when it reaches the duress limit, and wiping locks first. */
  function AfterFailure(v: Vault, wipes: bool): Vault { if wipes then Locked(v) else v }

  function WithSession(v: Vault, uuid: User, token: Token, victim: Token): Vault {
    var store := Created(v.store, uuid, UID, DEFAULT_TTL, token, victim);
    v.(store := store, issued := if token in store.sessions then v.issued + {token} else v.issued)
  }

  function Opened(v: Vault, a: Attempt, token: Token, victim: Token): Vault {
    match a
    case Refused => v
    case Fails => v
    case KeyOnly(key) => v.(vmk := Some(key))
    case Loads(key, conn, uuid, ticket) =>
      WithSession(v.(vmk := Some(key), db := Some(conn), uuid := Some(uuid), ticket := ticket), uuid, token, victim)
  }

  /** The unlock handed out a session. */
  predicate Succeeds(v: Vault, a: Attempt, token: Token, victim: Token) {
    a.Loads? && token in Opened(v, a, token, victim).store.sessions
  }

  predicate NeedsSecondFactor(path: Path) { path.Password? || path.BackupCode? }

  /** The recovery path counts even a caller turned away up front. */
  predicate Recorded(path: Path, a: Attempt) { !a.Refused? || path.RecoveryKey? }

  function Unlocked(v: Vault, path: Path, a: Attempt, token: Token, victim: Token, second: bool, wipes: bool): Vault {
    var w := Opened(v, a, token, victim);
    if !Succeeds(v, a, token, victim) then AfterFailure(w, wipes && Recorded(path, a))
    else if NeedsSecondFactor(path) && !second then Locked(w)
    else w
  }

  predicate Authorised(v: Vault, hash: Token -> Digest, token: Token) {
    Validated(v.store, hash, token, UID).Some?
  }

  function TouchedBy(v: Vault, token: Token): Vault { v.(store := Touched(v.store, token, DEFAULT_TTL)) }

  function UuidOf(v: Vault): User { if v.uuid.Some? then v.uuid.value else "" }

  function PasswordChanged(v: Vault, token: Token, change: Change): Vault {
    match change
    case NotAllowed => v
    case Failed(wipes) => AfterFailure(v, wipes)
    case Changed(key, rev) =>
      v.(vmk := Some(key), store := v.store.(sessions := Unstruck(v.store.sessions, UuidOf(v), token), revoked := rev))
  }

  function After(v: Vault, hash: Token -> Digest, rpc: Rpc): Vault {
    match rpc
    case Tick(to) => v.(store := v.store.(now := Max(v.store.now, to)))
    case Unlock(path, attempt, token, victim, second, wipes) => Unlocked(v, path, attempt, token, victim, second, wipes)
    case Lock(token) => if Authorised(v, hash, token) then Locked(v) else v
    case AutoLock => Locked(v)
    case Wipe(granted) => if v.vmk.Some? && granted then Locked(v) else v
    case Call(token) => if Authorised(v, hash, token) then TouchedBy(v, token) else v
    case ChangePassword(token, change) =>
      if Authorised(v, hash, token) then TouchedBy(PasswordChanged(v, token, change), token) else v
  }

  type Challenge = string

  const CHALLENGE_TTL := 600
  const MAX_CHALLENGES := 1000

  /** A presented challenge is accepted while it is open and unexpired. */
  predicate Accepts(open: map<Challenge, int>, chal: Challenge, now: int) { chal in open && open[chal] > now }

  function Unspent(open: map<Challenge, int>, now: int): map<Challenge, int> {
    map c | c in open && open[c] > now :: open[c]
  }

  function Drawn(open: map<Challenge, int>, now: int, chal: Challenge): map<Challenge, int> {
    var kept := Unspent(open, now);
    if |kept| < MAX_CHALLENGES then kept[chal := now + CHALLENGE_TTL] else kept
  }

  class ChallengeStore {
    var open: map<Challenge, int>

    constructor ()
      ensures open == map[]
    {
      open := map[];
    }

    /** A challenge is always returned, but only remembered while there is room. */
    method New(chal: Challenge, now: int)
      modifies this
      ensures open == Drawn(old(open), now, chal)
    {
      open := map c | c in open && open[c] > now :: open[c];
      if |open| < MAX_CHALLENGES {
        open := open[chal := now + CHALLENGE_TTL];
      }
    }

    method Take(chal: Challenge, now: int) returns (ok: bool)
      modifies this
      ensures open == old(open) - {chal}
      ensures ok <==> chal in old(open) && old(open)[chal] > now
    {
      if chal in open {
        var exp := open[chal];
        open := open - {chal};
        if exp > now {
          return true;
        }
      }
      return false;
    }
  }

  // ---------------------------------------------------------------- the unlock paths

  /** What the sidecar header holds, as far as unlocking depends on it. */
  datatype Header = Header(uuid: User, passwordLogin: bool, strictPqc: bool, hmac: Option<string>, ticketHash: string)

  /**
   The answers of the fallible calls of each path, in the order they are made: files, key derivation
   and decryption, locked memory, the database with its audit chain and its migration, the challenge.
   */
  datatype ExistingTry = ExistingTry(header: Option<Header>, vmk: Option<VaultKey>, memory: bool, hmac: string,
                                     conn: Option<Connection>, chainOk: bool, migrated: bool, drawn: string, saved: bool)

  datatype CreationTry = CreationTry(uuid: User, vmk: VaultKey, wrapped: bool, memory: bool, saved: bool,
                                     conn: Option<Connection>, drawn: string)

  datatype PasskeyTry = PasskeyTry(challenge: Option<Challenge>, header: Option<Header>, signed: bool, counterOk: bool,
                                   vmk: Option<VaultKey>, conn: Option<Connection>, chainOk: bool, migrated: bool, memory: bool)

  datatype QuickTry = QuickTry(challenge: Option<Challenge>, header: Option<Header>, signed: bool, vmk: Option<VaultKey>,
                               memory: bool, conn: Option<Connection>, chainOk: bool, drawn: string)

  datatype RecoveryTry = RecoveryTry(header: Option<Header>, vmk: Option<VaultKey>, conn: Option<Connection>,
                                     chainOk: bool, memory: bool)

  /** A new wipe ticket is drawn while the header has none. */
  function TicketFor(h: Header, drawn: string): Option<string> { if h.ticketHash == "" then Some(drawn) else None }

  function ExistingAttempt(e: ExistingTry): Attempt {
    if && e.header.Some? && e.header.value.passwordLogin && e.vmk.Some? && e.memory
       && e.header.value.hmac == Some(e.hmac) && e.conn.Some? && e.chainOk && e.migrated
       && (e.header.value.ticketHash == "" ==> e.saved)
    then Loads(e.vmk.value, e.conn.value, e.header.value.uuid, TicketFor(e.header.value, e.drawn))
    else Fails
  }

  /** Creating a vault sets the key first: a later failure leaves it behind. */
  function CreationAttempt(c: CreationTry): Attempt {
    if !c.wrapped || !c.memory then Fails
    else if !c.saved || c.conn.None? then KeyOnly(c.vmk)
    else Loads(c.vmk, c.conn.value, c.uuid, Some(c.drawn))
  }

  function PasskeyAttempt(p: PasskeyTry, open: map<Challenge, int>, now: int): Attempt {
    if && p.challenge.Some? && Accepts(open, p.challenge.value, now)
       && p.header.Some? && !p.header.value.strictPqc && p.signed && p.counterOk
       && p.vmk.Some? && p.conn.Some? && p.chainOk && p.migrated && p.memory
    then Loads(p.vmk.value, p.conn.value, p.header.value.uuid, None)
    else Fails
  }

  function QuickAttempt(q: QuickTry, open: map<Challenge, int>, now: int): Attempt {
    if && q.challenge.Some? && Accepts(open, q.challenge.value, now)
       && q.header.Some? && q.signed && q.vmk.Some? && q.memory && q.conn.Some? && q.chainOk
    then Loads(q.vmk.value, q.conn.value, q.header.value.uuid, TicketFor(q.header.value, q.drawn))
    else Fails
  }

  function RecoveryAttempt(r: RecoveryTry): Attempt {
    if r.header.Some? && r.vmk.Some? && r.conn.Some? && r.chainOk && r.memory
    then Loads(r.vmk.value, r.conn.value, r.header.value.uuid, None)
    else Fails
  }

  /** A password attempt: length limits and the two lockouts first, then an existing or a new vault. */
  datatype PasswordTry = PasswordTry(length: nat, present: bool, lockedOut: bool, existing: ExistingTry, creation: CreationTry)

  predicate TurnedAway(p: PasswordTry) { p.length > 1024 || (!p.present && p.length < 12) || p.lockedOut }

  function PasswordAttempt(p: PasswordTry): Attempt {
    if TurnedAway(p) then Refused else if p.present then ExistingAttempt(p.existing) else CreationAttempt(p.creation)
  }

  /** The duress limit of the header, if it can be read, and the failures counted so far. */
  datatype Duress = Duress(limit: Option<nat>, count: nat)

  predicate WipesAt(d: Duress) { d.limit.Some? && d.limit.value > 0 && d.count >= d.limit.value }

  /** The second factor: whether one-time passwords are active, the code sent, and the verdict on it (absent on error). */
  datatype Factor = Factor(active: bool, code: string, verdict: Option<bool>)

  predicate TotpHolds(f: Factor) { f.active ==> f.code != "" && f.verdict == Some(true) }

  predicate BackupHolds(f: Factor) { f.active && f.verdict == Some(true) }

  /** The ticket test of a wipe: length, presence of a stored hash, and the hash itself. */
  predicate TicketHolds(presented: Option<string>, header: Option<Header>, sha: string -> string) {
    && presented.Some? && |presented.value| == 32
    && header.Some? && header.value.ticketHash != "" && sha(presented.value) == header.value.ticketHash
  }

  /** The session evicted, if one is, is an oldest one of the user. */
  predicate MayEvict(sessions: Table, now: nat, id: User, victim: Token) {
    var live := Unexpired(sessions, now);
    |Owned(live, id)| >= MAX_PER_USER ==> Oldest(live, id, victim)
  }

  predicate Evicts(v: Vault, a: Attempt, victim: Token) { a.Loads? ==> MayEvict(v.store.sessions, v.store.now, a.uuid, victim) }

  /** A path carries out its attempt. */
  predicate Lands(v: Vault, w: Vault, a: Attempt, token: Token, victim: Token, ok: bool) {
    w == Opened(v, a, token, victim) && (ok <==> Succeeds(v, a, token, victim)) && Evicts(v, a, victim)
  }

  /** A call carries out a possible step, and hands out a token exactly when the step lets somebody in. */
  predicate Answers(v: Vault, w: Vault, hash: Token -> Digest, rpc: Rpc, r: Option<Token>)
    requires rpc.Unlock?
  {
    && w == After(v, hash, rpc) && Possible(rpc.path, rpc.attempt) && Evicts(v, rpc.attempt, rpc.victim)
    && r == if Succeeds(v, rpc.attempt, rpc.token, rpc.victim) && (rpc.second || !NeedsSecondFactor(rpc.path))
            then Some(rpc.token) else None
  }

  // ---------------------------------------------------------------- the class

  class DaemonState {
    const sessions: SessionStore
    const challenges: ChallengeStore
    var vmk: Option<VaultKey>
    var db: Option<Connection>
    var uuid: Option<User>
    var ticket: Option<string>
    ghost var issued: set<Token>

    ghost function View(now: nat): Vault
      reads this, sessions
    {
      Vault(vmk, db, uuid, ticket, sessions.View(now), issued)
    }

    constructor ()
      ensures fresh(sessions) && fresh(challenges) && View(0) == CLOSED
    {
      sessions := new SessionStore();
      challenges := new ChallengeStore();
      vmk, db, uuid, ticket, issued := None, None, None, None, {};
    }

    method LockInternal(ghost now: nat)
      modifies this, sessions
      ensures View(now) == Locked(old(View(now)))
      ensures vmk == None && db == None && uuid == None && ticket == None && sessions.sessions == map[]
    {
      db := None;
      vmk := None;
      uuid := None;
      ticket := None;
      sessions.RevokeAll();
    }

    /** A counted failure; at the duress limit the vault is wiped, which locks it. */
    method RecordFailure(d: Duress, ghost now: nat)
      modifies this, sessions
      ensures View(now) == AfterFailure(old(View(now)), WipesAt(d))
      ensures if d.limit.Some? && d.limit.value > 0 && d.count >= d.limit.value
              then vmk == None && db == None && uuid == None && ticket == None && sessions.sessions == map[]
              else View(now) == old(View(now))
    {
      if d.limit.Some? {
        if d.limit.value > 0 && d.count >= d.limit.value {
          LockInternal(now);
        }
      }
    }

    /** The last call of every path. */
    method CreateSession(id: User, token: Token, now: nat) returns (ok: bool, ghost victim: Token)
      requires token !in sessions.sessions
      modifies this`issued, sessions
      ensures View(now) == WithSession(old(View(now)), id, token, victim)
      ensures ok <==> token in sessions.sessions
      ensures MayEvict(old(sessions.sessions), now, id, victim)
      ensures |old(sessions.sessions)| < 1000 ==> ok
      ensures ok ==> sessions.sessions[token] == Session(id, 1000, now, now + 900, now + 86400)
    {
      ok, victim := sessions.Create(id, UID, DEFAULT_TTL, token, now);
      RoomOnlyShrinks(old(sessions.sessions), now, id, victim);
      if ok {
        issued := issued + {token};
      }
    }

    method UnlockExisting(e: ExistingTry, token: Token, now: nat) returns (ok: bool, ghost victim: Token)
      requires token !in sessions.sessions
      modifies this, sessions
      ensures Lands(old(View(now)), View(now), ExistingAttempt(e), token, victim, ok)
      ensures if && e.header.Some? && e.header.value.passwordLogin && e.vmk.Some? && e.memory
                 && e.header.value.hmac == Some(e.hmac) && e.conn.Some? && e.chainOk && e.migrated
                 && (e.header.value.ticketHash == "" ==> e.saved)
              then && vmk == e.vmk && db == e.conn && uuid == Some(e.header.value.uuid)
                   && ticket == (if e.header.value.ticketHash == "" then Some(e.drawn) else None)
                   && (ok <==> token in sessions.sessions) && (|old(sessions.sessions)| < 1000 ==> ok)
              else !ok && View(now) == old(View(now))
    {
      ok, victim := false, token;
      if e.header.None? {
        return;
      }
      var header := e.header.value;
      if !header.passwordLogin {
        return;
      }
      if e.vmk.None? || !e.memory {
        return;
      }
      if header.hmac.None? || header.hmac.value != e.hmac {
        return;
      }
      if e.conn.None? || !e.chainOk || !e.migrated {
        return;
      }
      var rawTicket := "";
      var drawn := header.ticketHash == "";
      if drawn {
        if !e.saved {
          return;
        }
        rawTicket := e.drawn;
      }
      vmk := Some(e.vmk.value);
      db := Some(e.conn.value);
      uuid := Some(header.uuid);
      ticket := if drawn then Some(rawTicket) else None;
      ok, victim := CreateSession(header.uuid, token, now);
    }

    method CreateAndUnlock(c: CreationTry, token: Token, now: nat) returns (ok: bool, ghost victim: Token)
      requires token !in sessions.sessions
      modifies this, sessions
      ensures Lands(old(View(now)), View(now), CreationAttempt(c), token, victim, ok)
      ensures if c.wrapped && c.memory && c.saved && c.conn.Some?
              then && vmk == Some(c.vmk) && db == c.conn && uuid == Some(c.uuid) && ticket == Some(c.drawn)
                   && (ok <==> token in sessions.sessions) && (|old(sessions.sessions)| < 1000 ==> ok)
              else && !ok && vmk == (if c.wrapped && c.memory then Some(c.vmk) else old(vmk))
                   && db == old(db) && uuid == old(uuid) && ticket == old(ticket)
                   && sessions.sessions == old(sessions.sessions)
    {
      ok, victim := false, token;
      if !c.wrapped || !c.memory {
        return;
      }
      vmk := Some(c.vmk);
      if !c.saved {
        return;
      }
      if c.conn.None? {
        return;
      }
      db := Some(c.conn.value);
      uuid := Some(c.uuid);
      ticket := Some(c.drawn);
      ok, victim := CreateSession(c.uuid, token, now);
    }

    method UnlockWithPasskey(p: PasskeyTry, token: Token, now: nat) returns (ok: bool, ghost victim: Token)
      requires token !in sessions.sessions
      modifies this, sessions, challenges
      ensures Lands(old(View(now)), View(now), PasskeyAttempt(p, old(challenges.open), now), token, victim, ok)
      ensures if && p.challenge.Some? && p.challenge.value in old(challenges.open)
                 && old(challenges.open)[p.challenge.value] > now
                 && p.header.Some? && !p.header.value.strictPqc && p.signed && p.counterOk
                 && p.vmk.Some? && p.conn.Some? && p.chainOk && p.migrated && p.memory
              then && vmk == p.vmk && db == p.conn && uuid == Some(p.header.value.uuid) && ticket == None
                   && (ok <==> token in sessions.sessions) && (|old(sessions.sessions)| < 1000 ==> ok)
              else !ok && View(now) == old(View(now))
      ensures challenges.open == if p.challenge.Some? then old(challenges.open) - {p.challenge.value} else old(challenges.open)
    {
      ok, victim := false, token;
      if p.challenge.None? {
        return;
      }
      var accepted := challenges.Take(p.challenge.value, now);
      if !accepted || p.header.None? {
        return;
      }
      var header := p.header.value;
      if header.strictPqc || !p.signed || !p.counterOk {
        return;
      }
      if p.vmk.None? || p.conn.None? || !p.chainOk || !p.migrated || !p.memory {
        return;
      }
      vmk := Some(p.vmk.value);
      db := Some(p.conn.value);
      uuid := Some(header.uuid);
      ticket := None;
      ok, victim := CreateSession(header.uuid, token, now);
    }

    method QuickUnlock(q: QuickTry, token: Token, now: nat) returns (ok: bool, ghost victim: Token)
      requires token !in sessions.sessions
      modifies this, sessions, challenges
      ensures Lands(old(View(now)), View(now), QuickAttempt(q, old(challenges.open), now), token, victim, ok)
      ensures if && q.challenge.Some? && q.challenge.value in old(challenges.open)
                 && old(challenges.open)[q.challenge.value] > now
                 && q.header.Some? && q.signed && q.vmk.Some? && q.memory && q.conn.Some? && q.chainOk
              then && vmk == q.vmk && db == q.conn && uuid == Some(q.header.value.uuid)
                   && ticket == (if q.header.value.ticketHash == "" then Some(q.drawn) else None)
                   && (ok <==> token in sessions.sessions) && (|old(sessions.sessions)| < 1000 ==> ok)
              else !ok && View(now) == old(View(now))
      ensures challenges.open == if q.challenge.Some? then old(challenges.open) - {q.challenge.value} else old(challenges.open)
    {
      ok, victim := false, token;
      if q.challenge.None? {
        return;
      }
      var accepted := challenges.Take(q.challenge.value, now);
      if !accepted || q.header.None? || !q.signed {
        return;
      }
      var header := q.header.value;
      if q.vmk.Some? {
        if !q.memory || q.conn.None? || !q.chainOk {
          return;
        }
        vmk := Some(q.vmk.value);
        db := Some(q.conn.value);
        uuid := Some(header.uuid);
        ticket := if header.ticketHash == "" then Some(q.drawn) else None;
        ok, victim := CreateSession(header.uuid, token, now);
      }
    }

    method UnlockWithRecoveryKey(r: RecoveryTry, token: Token, now: nat) returns (ok: bool, ghost victim: Token)
      requires token !in sessions.sessions
      modifies this, sessions
      ensures Lands(old(View(now)), View(now), RecoveryAttempt(r), token, victim, ok)
      ensures if r.header.Some? && r.vmk.Some? && r.conn.Some? && r.chainOk && r.memory
              then && vmk == r.vmk && db == r.conn && uuid == Some(r.header.value.uuid) && ticket == None
                   && (ok <==> token in sessions.sessions) && (|old(sessions.sessions)| < 1000 ==> ok)
              else !ok && View(now) == old(View(now))
    {
      ok, victim := false, token;
      if r.header.None? || r.vmk.None? {
        return;
      }
      if r.conn.None? || !r.chainOk || !r.memory {
        return;
      }
      vmk := Some(r.vmk.value);
      db := Some(r.conn.value);
      uuid := Some(r.header.value.uuid);
      ticket := None;
      ok, victim := CreateSession(r.header.value.uuid, token, now);
    }

    /** The password part shared by the two password calls. */
    method UnlockWithPassword(p: PasswordTry, d: Duress, token: Token, now: nat) returns (ok: bool, ghost victim: Token)
      requires token !in sessions.sessions
      modifies this, sessions
      ensures Evicts(old(View(now)), PasswordAttempt(p), victim)
      ensures ok <==> Succeeds(old(View(now)), PasswordAttempt(p), token, victim)
      ensures View(now) == if ok || TurnedAway(p) then Opened(old(View(now)), PasswordAttempt(p), token, victim)
                           else AfterFailure(Opened(old(View(now)), PasswordAttempt(p), token, victim), WipesAt(d))
      ensures p.length > 1024 || (!p.present && p.length < 12) || p.lockedOut ==> !ok && View(now) == old(View(now))
      ensures ok ==> && token in sessions.sessions && db.Some? && uuid.Some?
                     && vmk == (if p.present then p.existing.vmk else Some(p.creation.vmk))
    {
      if p.length > 1024 {
        return false, token;
      }
      if !p.present && p.length < 12 {
        return false, token;
      }
      if p.lockedOut {
        return false, token;
      }
      if p.present {
        ok, victim := UnlockExisting(p.existing, token, now);
      } else {
        ok, victim := CreateAndUnlock(p.creation, token, now);
      }
      if !ok {
        RecordFailure(d, now);
      }
    }

    /** Password, then a one-time password if the vault asks for one. */
    method UnlockRpc(p: PasswordTry, f: Factor, d: Duress, token: Token, ghost hash: Token -> Digest, now: nat)
      returns (r: Option<Token>, ghost victim: Token)
      requires token !in sessions.sessions
      modifies this, sessions
      ensures Answers(old(View(now)), View(now), hash,
                      Rpc.Unlock(Password, PasswordAttempt(p), token, victim, TotpHolds(f), WipesAt(d)), r)
      ensures r.Some? ==> && r.value == token && token in sessions.sessions && vmk.Some? && db.Some? && uuid.Some?
                          && (f.active ==> f.code != "" && f.verdict == Some(true))
      ensures Succeeds(old(View(now)), PasswordAttempt(p), token, victim) ==>
                if f.active && !(f.code != "" && f.verdict == Some(true))
                then r == None && vmk == None && db == None && uuid == None && ticket == None && sessions.sessions == map[]
                else r == Some(token)
    {
      var ok;
      ok, victim := UnlockWithPassword(p, d, token, now);
      if !ok {
        return None, victim;
      }
      if f.active && (f.code == "" || f.verdict != Some(true)) {
        RecordFailure(d, now);
        LockInternal(now);
        return None, victim;
      }
      return Some(token), victim;
    }

    /** Password, then a backup code, which is mandatory here. */
    method UnlockWithBackupCodeRpc(p: PasswordTry, f: Factor, d: Duress, token: Token, ghost hash: Token -> Digest, now: nat)
      returns (r: Option<Token>, ghost victim: Token)
      requires token !in sessions.sessions
      modifies this, sessions
      ensures Answers(old(View(now)), View(now), hash,
                      Rpc.Unlock(BackupCode, if |f.code| > 64 then Refused else PasswordAttempt(p), token, victim,
                                 BackupHolds(f), WipesAt(d)), r)
      ensures r.Some? ==> && r.value == token && token in sessions.sessions && vmk.Some? && db.Some? && uuid.Some?
                          && |f.code| <= 64 && f.active && f.verdict == Some(true)
      ensures |f.code| > 64 ==> r == None && View(now) == old(View(now))
      ensures |f.code| <= 64 && Succeeds(old(View(now)), PasswordAttempt(p), token, victim) ==>
                if f.active && f.verdict == Some(true)
                then r == Some(token)
                else r == None && vmk == None && db == None && uuid == None && ticket == None && sessions.sessions == map[]
    {
      if |f.code| > 64 {
        return None, token;
      }
      var ok;
      ok, victim := UnlockWithPassword(p, d, token, now);
      if !ok {
        return None, victim;
      }
      if !f.active || f.verdict != Some(true) {
        LockInternal(now);
        RecordFailure(d, now);
        return None, victim;
      }
      return Some(token), victim;
    }

    method PasskeyRpc(lockedOut: bool, p: PasskeyTry, d: Duress, token: Token, ghost hash: Token -> Digest, now: nat)
      returns (r: Option<Token>, ghost victim: Token)
      requires token !in sessions.sessions
      modifies this, sessions, challenges
      ensures Answers(old(View(now)), View(now), hash,
                      Rpc.Unlock(Passkey, if lockedOut then Refused else PasskeyAttempt(p, old(challenges.open), now),
                                 token, victim, true, WipesAt(d)), r)
      ensures lockedOut ==> r == None && View(now) == old(View(now)) && challenges.open == old(challenges.open)
      ensures r.Some? ==> && p.signed && p.counterOk && p.chainOk && vmk == p.vmk && db == p.conn
                          && r.value == token && token in sessions.sessions
    {
      if lockedOut {
        return None, token;
      }
      var ok;
      ok, victim := UnlockWithPasskey(p, token, now);
      if !ok {
        RecordFailure(d, now);
      }
      r := if ok then Some(token) else None;
    }

    method QuickUnlockRpc(lockedOut: bool, q: QuickTry, d: Duress, token: Token, ghost hash: Token -> Digest, now: nat)
      returns (r: Option<Token>, ghost victim: Token)
      requires token !in sessions.sessions
      modifies this, sessions, challenges
      ensures Answers(old(View(now)), View(now), hash,
                      Rpc.Unlock(Path.QuickUnlock, if lockedOut then Refused else QuickAttempt(q, old(challenges.open), now),
                                 token, victim, true, WipesAt(d)), r)
      ensures lockedOut ==> r == None && View(now) == old(View(now)) && challenges.open == old(challenges.open)
      ensures r.Some? ==> && q.signed && q.chainOk && vmk == q.vmk && db == q.conn
                          && r.value == token && token in sessions.sessions
    {
      if lockedOut {
        return None, token;
      }
      var ok;
      ok, victim := QuickUnlock(q, token, now);
      if !ok {
        RecordFailure(d, now);
      }
      r := if ok then Some(token) else None;
    }

    /** Here even a caller turned away by the lockout is counted. */
    method RecoveryRpc(lockedOut: bool, k: RecoveryTry, d: Duress, token: Token, ghost hash: Token -> Digest, now: nat)
      returns (r: Option<Token>, ghost victim: Token)
      requires token !in sessions.sessions
      modifies this, sessions
      ensures Answers(old(View(now)), View(now), hash,
                      Rpc.Unlock(RecoveryKey, if lockedOut then Refused else RecoveryAttempt(k),
                                 token, victim, true, WipesAt(d)), r)
      ensures r.Some? ==> !lockedOut && r.value == token && token in sessions.sessions && vmk == k.vmk && db == k.conn
      ensures r.None? && d.limit.Some? && d.limit.value > 0 && d.count >= d.limit.value ==>
                vmk == None && db == None && uuid == None && ticket == None && sessions.sessions == map[]
    {
      var ok := false;
      victim := token;
      if !lockedOut {
        ok, victim := UnlockWithRecoveryKey(k, token, now);
      }
      if !ok {
        RecordFailure(d, now);
      }
      r := if ok then Some(token) else None;
    }

    /** Post-quantum unlocking fails before it looks at anything. */
    method PqcRpc(lockedOut: bool, d: Duress, token: Token, ghost hash: Token -> Digest, ghost now: nat)
      returns (r: Option<Token>)
      modifies this, sessions
      ensures Answers(old(View(now)), View(now), hash,
                      Rpc.Unlock(Pqc, if lockedOut then Refused else Fails, token, token, true, WipesAt(d)), r)
      ensures r == None
    {
      if !lockedOut {
        RecordFailure(d, now);
      }
      return None;
    }

    method LockRpc(hash: Token -> Digest, token: Token, now: nat) returns (ok: bool)
      modifies this, sessions
      ensures View(now) == After(old(View(now)), hash, Rpc.Lock(token))
      ensures ok <==> Authorised(old(View(now)), hash, token)
      ensures if ok then vmk == None && db == None && uuid == None && ticket == None && sessions.sessions == map[]
              else View(now) == old(View(now))
    {
      var session := sessions.Validate(hash, token, UID, now);
      if session.None? {
        return false;
      }
      LockInternal(now);
      return true;
    }

    /** A wipe locks before it erases, so it locks even when erasing fails. */
    method WipeRpc(presented: Option<string>, header: Option<Header>, sha: string -> string, erased: bool,
                   ghost hash: Token -> Digest, ghost now: nat) returns (ok: bool)
      modifies this, sessions
      ensures View(now) == After(old(View(now)), hash, Rpc.Wipe(TicketHolds(presented, header, sha)))
      ensures ok <==> old(vmk).Some? && TicketHolds(presented, header, sha) && erased
      ensures if && old(vmk).Some? && presented.Some? && |presented.value| == 32 && header.Some?
                 && header.value.ticketHash != "" && sha(presented.value) == header.value.ticketHash
              then ok == erased && vmk == None && db == None && uuid == None && ticket == None && sessions.sessions == map[]
              else !ok && View(now) == old(View(now))
    {
      if vmk.None? || presented.None? {
        return false;
      }
      if |presented.value| != 32 || header.None? {
        return false;
      }
      if header.value.ticketHash == "" || sha(presented.value) != header.value.ticketHash {
        return false;
      }
      LockInternal(now);
      return erased;
    }

    method CallRpc(hash: Token -> Digest, token: Token, now: nat) returns (ok: bool)
      modifies this, sessions
      ensures View(now) == After(old(View(now)), hash, Rpc.Call(token))
      ensures ok <==> Authorised(old(View(now)), hash, token)
    {
      var session := sessions.Validate(hash, token, UID, now);
      if session.None? {
        return false;
      }
      var _ := sessions.Touch(token, DEFAULT_TTL, now);
      return true;
    }

    /** A changed password keeps only the caller's session; the list that results is part of the step. */
    method ChangePasswordRpc(hash: Token -> Digest, token: Token, change: Change, now: nat)
      returns (ok: bool, ghost done: Change)
      modifies this, sessions
      ensures View(now) == After(old(View(now)), hash, Rpc.ChangePassword(token, done))
      ensures if change.Changed? then done.Changed? && done.key == change.key else done == change
      ensures ok ==> done.Changed? && ListsRevoked(done.rev, old(sessions.View(now)), hash, UuidOf(old(View(now))), token)
      ensures ok <==> Authorised(old(View(now)), hash, token) && change.Changed?
      ensures ok ==> && vmk == Some(change.key) && token in sessions.sessions
                     && forall t :: t in sessions.sessions && t != token ==> Some(sessions.sessions[t].user) != old(uuid)
      ensures Authorised(old(View(now)), hash, token) && change.Failed? && change.wipes ==>
                vmk == None && db == None && uuid == None && ticket == None && sessions.sessions == map[]
    {
      hide ListsRevoked;
      done := change;
      var session := sessions.Validate(hash, token, UID, now);
      if session.None? {
        return false, done;
      }
      match change {
        case NotAllowed =>
        case Failed(wipes) =>
          if wipes {
            LockInternal(now);
          }
        case Changed(key, _) =>
          vmk := Some(key);
          sessions.RevokeAllExcept(hash, if uuid.Some? then uuid.value else "", token, now);
          done := Changed(key, sessions.revoked);
      }
      var _ := sessions.Touch(token, DEFAULT_TTL, now);
      return change.Changed?, done;
    }
  }

  // ---------------------------------------------------------------- runs

  ghost predicate Enabled(v: Vault, hash: Token -> Digest, rpc: Rpc) {
    match rpc
    case Unlock(path, a, token, victim, _, _) =>
      Possible(path, a) && token !in v.issued && Evicts(v, a, victim)
    case ChangePassword(token, change) =>
      change.Changed? ==> ListsRevoked(change.rev, v.store, hash, UuidOf(v), token)
    case _ => true
  }

  function Play(v: Vault, hash: Token -> Digest, rpcs: seq<Rpc>): Vault
    decreases |rpcs|
  {
    if rpcs == [] then v else Play(After(v, hash, rpcs[0]), hash, rpcs[1..])
  }

  ghost predicate Legal(v: Vault, hash: Token -> Digest, rpcs: seq<Rpc>)
    decreases |rpcs|
  {
    rpcs == [] || (Enabled(v, hash, rpcs[0]) && Legal(After(v, hash, rpcs[0]), hash, rpcs[1..]))
  }

  // ---------------------------------------------------------------- a session means an open vault

  /** While any session is stored, the key, the connection and the vault id are loaded. */
  ghost predicate Ready(v: Vault) {
    && (forall t :: t in v.store.sessions ==> t in v.issued)
    && (v.store.sessions != map[] ==> v.vmk.Some? && v.db.Some? && v.uuid.Some?)
  }

  lemma StepKeepsReady(v: Vault, hash: Token -> Digest, rpc: Rpc)
    requires Ready(v)
    ensures Ready(After(v, hash, rpc))
  {
    match rpc {
      case Unlock(_, a, token, victim, _, _) => OpenKeepsReady(v, a, token, victim);
      case ChangePassword(token, change) =>
        if Authorised(v, hash, token) {
          assert token in v.store.sessions;
          assert v.store.sessions != map[];
        }
      case _ =>
    }
  }

  lemma OpenKeepsReady(v: Vault, a: Attempt, token: Token, victim: Token)
    requires Ready(v)
    ensures Ready(Opened(v, a, token, victim))
  {
    hide Owned;
    var w := Opened(v, a, token, victim);
    if !a.Loads? {
      assert w.store == v.store;
    }
  }

  lemma {:induction false} SessionsMeanOpenVault(v: Vault, hash: Token -> Digest, rpcs: seq<Rpc>)
    requires Ready(v)
    ensures Ready(Play(v, hash, rpcs))
    decreases |rpcs|
  {
    hide After, Ready;
    if rpcs == [] {
    } else {
      StepKeepsReady(v, hash, rpcs[0]);
      SessionsMeanOpenVault(After(v, hash, rpcs[0]), hash, rpcs[1..]);
    }
  }

  /** So a call that passes authentication always finds the vault open. */
  lemma AuthorisedCallsFindItOpen(v: Vault, hash: Token -> Digest, rpcs: seq<Rpc>, token: Token)
    requires Ready(v) && Authorised(Play(v, hash, rpcs), hash, token)
    ensures var w := Play(v, hash, rpcs); w.vmk.Some? && w.db.Some? && w.uuid.Some?
  {
    SessionsMeanOpenVault(v, hash, rpcs);
    assert token in Play(v, hash, rpcs).store.sessions;
  }

  // ---------------------------------------------------------------- after a lock no earlier token returns

  /** The step locks: an authorised lock, the idle lock, a granted wipe, a failed second factor, a failure that wipes. */
  predicate Locks(v: Vault, hash: Token -> Digest, rpc: Rpc) {
    match rpc
    case Lock(token) => Authorised(v, hash, token)
    case AutoLock => true
    case Wipe(granted) => v.vmk.Some? && granted
    case Unlock(path, a, token, victim, second, wipes) =>
      if Succeeds(v, a, token, victim) then NeedsSecondFactor(path) && !second else wipes && Recorded(path, a)
    case ChangePassword(token, change) => Authorised(v, hash, token) && change.Failed? && change.wipes
    case _ => false
  }

  /** A locking step leaves nothing loaded and nobody logged in; no other step drops a loaded key. */
  lemma LockClosesEverything(v: Vault, hash: Token -> Digest, rpc: Rpc)
    ensures var w := After(v, hash, rpc);
      && (Locks(v, hash, rpc) ==> && w.vmk == None && w.db == None && w.uuid == None && w.ticket == None
                                  && w.store.sessions == map[] && v.issued <= w.issued)
      && (!Locks(v, hash, rpc) && v.vmk.Some? ==> w.vmk.Some?)
  {
    hide Created, Validated;
    if Locks(v, hash, rpc) {
      var w := After(v, hash, rpc);
      match rpc {
        case ChangePassword(token, change) => assert PasswordChanged(v, token, change) == Locked(v);
        case _ =>
      }
      assert w.store.sessions == map[];
    }
  }

  /** These calls lock: an authorised lock, the idle lock, and a failure of any counted unlock that reaches the duress limit. */
  lemma LockingCalls(v: Vault, hash: Token -> Digest, token: Token, rpc: Rpc)
    ensures Locks(v, hash, AutoLock)
    ensures Authorised(v, hash, token) ==> Locks(v, hash, Rpc.Lock(token))
    ensures v.vmk.Some? ==> Locks(v, hash, Wipe(true))
    ensures rpc.Unlock? && (rpc.attempt.Fails? || rpc.attempt.KeyOnly?) && rpc.wipes ==> Locks(v, hash, rpc)
    ensures (&& rpc.Unlock? && (rpc.path.Password? || rpc.path.BackupCode?) && !rpc.second
             && Succeeds(v, rpc.attempt, rpc.token, rpc.victim)) ==> Locks(v, hash, rpc)
  {
    hide Opened, Validated;
  }

  lemma StepKeepsGone(v: Vault, hash: Token -> Digest, rpc: Rpc, token: Token)
    requires Enabled(v, hash, rpc) && token in v.issued && token !in v.store.sessions
    ensures token in After(v, hash, rpc).issued && token !in After(v, hash, rpc).store.sessions
  {
    hide Owned, Oldest, ListsRevoked, Validated, Opened, Created;
    if rpc.Unlock? {
      OpenKeepsGone(v, rpc.attempt, rpc.token, rpc.victim, token);
    }
  }

  lemma OpenKeepsGone(v: Vault, a: Attempt, drawn: Token, victim: Token, token: Token)
    requires token in v.issued && token !in v.store.sessions && token != drawn
    ensures token in Opened(v, a, drawn, victim).issued && token !in Opened(v, a, drawn, victim).store.sessions
  {
    hide Owned;
  }

  lemma {:induction false} GoneForever(v: Vault, hash: Token -> Digest, rpcs: seq<Rpc>, token: Token)
    requires Legal(v, hash, rpcs) && token in v.issued && token !in v.store.sessions
    ensures token in Play(v, hash, rpcs).issued && token !in Play(v, hash, rpcs).store.sessions
    decreases |rpcs|
  {
    hide After, Enabled;
    if rpcs == [] {
    } else {
      StepKeepsGone(v, hash, rpcs[0], token);
      GoneForever(After(v, hash, rpcs[0]), hash, rpcs[1..], token);
    }
  }

  /**
   After a lock, a failed second factor or a wipe, no token issued up to and during that call ever
   validates again, whichever unlock paths follow.
   */
  lemma NoEarlierTokenReturns(v: Vault, hash: Token -> Digest, rpc: Rpc, rpcs: seq<Rpc>, token: Token, uid: nat)
    requires Enabled(v, hash, rpc) && Locks(v, hash, rpc) && Legal(After(v, hash, rpc), hash, rpcs)
    requires token in After(v, hash, rpc).issued
    ensures Validated(Play(After(v, hash, rpc), hash, rpcs).store, hash, token, uid) == None
  {
    LockClosesEverything(v, hash, rpc);
    hide After, Enabled, Locks;
    GoneForever(After(v, hash, rpc), hash, rpcs, token);
  }

  // ---------------------------------------------------------------- no token comes back

  /** The token could validate: it is stored and within both its lifetimes. */
  predicate Usable(v: Vault, token: Token) {
    token in v.store.sessions && InTime(v.store.sessions[token], v.store.now)
  }

  lemma OpenKeepsUnusable(v: Vault, a: Attempt, drawn: Token, victim: Token, token: Token)
    requires !Usable(v, token) && token != drawn
    ensures !Usable(Opened(v, a, drawn, victim), token)
  {
    hide Owned;
  }

  /** A call touches a session only after validating it, so no step makes an unusable token usable. */
  lemma StepKeepsUnusable(v: Vault, hash: Token -> Digest, rpc: Rpc, token: Token)
    requires Enabled(v, hash, rpc) && token in v.issued && !Usable(v, token)
    ensures token in After(v, hash, rpc).issued && !Usable(After(v, hash, rpc), token)
  {
    hide Owned, Oldest, ListsRevoked, Opened, Created;
    if rpc.Unlock? {
      OpenKeepsUnusable(v, rpc.attempt, rpc.token, rpc.victim, token);
      OpenKeepsIssued(v, rpc.attempt, rpc.token, rpc.victim);
    }
  }

  lemma OpenKeepsIssued(v: Vault, a: Attempt, drawn: Token, victim: Token)
    ensures v.issued <= Opened(v, a, drawn, victim).issued
  {
  }

  /**
   In every run an issued token that is gone or out of time never validates again: although a touch
   of the session store could revive it, no remote call touches a session it has not validated.
   */
  lemma {:induction false} ExpiredForEver(v: Vault, hash: Token -> Digest, rpcs: seq<Rpc>, token: Token, uid: nat)
    requires Legal(v, hash, rpcs) && token in v.issued && !Usable(v, token)
    ensures token in Play(v, hash, rpcs).issued && !Usable(Play(v, hash, rpcs), token)
    ensures Validated(Play(v, hash, rpcs).store, hash, token, uid) == None
    decreases |rpcs|
  {
    hide After, Enabled;
    if rpcs == [] {
    } else {
      StepKeepsUnusable(v, hash, rpcs[0], token);
      ExpiredForEver(After(v, hash, rpcs[0]), hash, rpcs[1..], token, uid);
    }
  }

  // ---------------------------------------------------------------- one-time challenges

  /** Open challenges with their expiry; the answers given so far are kept as a history. */
  datatype Challenges = Challenges(open: map<Challenge, int>, now: int, drawn: map<Challenge, int>,
                                   taken: seq<(Challenge, int)>)

  datatype ChallengeStep = Wait(to: int) | Draw(chal: Challenge) | Consume(chal: Challenge)

  function ChallengeNext(c: Challenges, step: ChallengeStep): Challenges {
    match step
    case Wait(to) => c.(now := Max(c.now, to))
    case Draw(chal) => c.(open := Drawn(c.open, c.now, chal), drawn := c.drawn[chal := c.now])
    case Consume(chal) =>
      if chal in c.open && c.open[chal] > c.now
      then c.(open := c.open - {chal}, taken := c.taken + [(chal, c.now)])
      else c.(open := c.open - {chal})
  }

  function ChallengeRun(c: Challenges, steps: seq<ChallengeStep>): Challenges
    decreases |steps|
  {
    if steps == [] then c else ChallengeRun(ChallengeNext(c, steps[0]), steps[1..])
  }

  /** Drawn challenges are random, hence new. */
  predicate FreshDraws(c: Challenges, steps: seq<ChallengeStep>)
    decreases |steps|
  {
    steps == [] || ((steps[0].Draw? ==> steps[0].chal !in c.drawn) && FreshDraws(ChallengeNext(c, steps[0]), steps[1..]))
  }

  predicate TakenInTime(c: Challenges, i: nat)
    requires i < |c.taken|
  {
    var (chal, at) := c.taken[i];
    chal in c.drawn && chal !in c.open && c.drawn[chal] <= at < c.drawn[chal] + CHALLENGE_TTL
  }

  ghost predicate OpenAsDrawn(c: Challenges) {
    && (forall x :: x in c.open ==> x in c.drawn && c.open[x] == c.drawn[x] + CHALLENGE_TTL)
    && (forall x :: x in c.drawn ==> c.drawn[x] <= c.now)
  }

  ghost predicate TakenOnce(c: Challenges) {
    && (forall i :: 0 <= i < |c.taken| ==> TakenInTime(c, i))
    && (forall i, j :: 0 <= i < j < |c.taken| ==> c.taken[i].0 != c.taken[j].0)
  }

  ghost predicate SingleUse(c: Challenges) { OpenAsDrawn(c) && TakenOnce(c) && |c.open| <= MAX_CHALLENGES }

  lemma FewerOpen(a: map<Challenge, int>, b: map<Challenge, int>)
    requires a.Keys <= b.Keys
    ensures |a| <= |b|
  {
    assert b.Keys == a.Keys + (b.Keys - a.Keys);
    assert |a| == |a.Keys| && |b| == |b.Keys|;
  }

  lemma TakenStaysInTime(c: Challenges, step: ChallengeStep, i: nat)
    requires OpenAsDrawn(c) && (step.Draw? ==> step.chal !in c.drawn) && i < |ChallengeNext(c, step).taken|
    requires i < |c.taken| ==> TakenInTime(c, i)
    ensures TakenInTime(ChallengeNext(c, step), i)
  {
    if i < |c.taken| {
      assert ChallengeNext(c, step).taken[i] == c.taken[i];
    }
  }

  lemma StepKeepsTakenOnce(c: Challenges, step: ChallengeStep)
    requires OpenAsDrawn(c) && TakenOnce(c) && (step.Draw? ==> step.chal !in c.drawn)
    ensures TakenOnce(ChallengeNext(c, step))
  {
    var d := ChallengeNext(c, step);
    assert d.taken == c.taken || (step.Consume? && step.chal in c.open && d.taken == c.taken + [(step.chal, c.now)]);
    forall i | 0 <= i < |d.taken|
      ensures TakenInTime(d, i)
    {
      TakenStaysInTime(c, step, i);
    }
    hide ChallengeNext, OpenAsDrawn;
    forall i, j | 0 <= i < j < |d.taken|
      ensures d.taken[i].0 != d.taken[j].0
    {
      assert TakenInTime(c, i);
    }
  }

  lemma StepKeepsSingleUse(c: Challenges, step: ChallengeStep)
    requires SingleUse(c) && (step.Draw? ==> step.chal !in c.drawn)
    ensures SingleUse(ChallengeNext(c, step))
  {
    StepKeepsTakenOnce(c, step);
    hide TakenOnce;
    match step {
      case Wait(_) =>
      case Draw(chal) => FewerOpen(Unspent(c.open, c.now), c.open);
      case Consume(chal) => FewerOpen(c.open - {chal}, c.open);
    }
  }

  /** In every run a challenge is accepted at most once, only within 600 s of being drawn, and at most 1000 are open. */
  lemma {:induction false} ChallengesAreSingleUse(c: Challenges, steps: seq<ChallengeStep>)
    requires SingleUse(c) && FreshDraws(c, steps)
    ensures SingleUse(ChallengeRun(c, steps))
    decreases |steps|
  {
    hide SingleUse, ChallengeNext;
    if steps == [] {
    } else {
      StepKeepsSingleUse(c, steps[0]);
      ChallengesAreSingleUse(ChallengeNext(c, steps[0]), steps[1..]);
    }
  }

  /** Every run from a closed vault: whoever is authorised finds it open. */
  lemma FromClosedVault(hash: Token -> Digest, rpcs: seq<Rpc>, token: Token)
    ensures Ready(Play(CLOSED, hash, rpcs))
    ensures var w := Play(CLOSED, hash, rpcs);
      Authorised(w, hash, token) ==> w.vmk.Some? && w.db.Some? && w.uuid.Some?
  {
    SessionsMeanOpenVault(CLOSED, hash, rpcs);
    if Authorised(Play(CLOSED, hash, rpcs), hash, token) {
      AuthorisedCallsFindItOpen(CLOSED, hash, rpcs, token);
    }
  }

  // ---------------------------------------------------------------- what is let in works

  /**
   An unlock that loads everything, with room for its session and the second factor held, leaves the
   vault open with what was loaded, and its token is authorised from then until 900 s later if nothing
   else happens.
   */
  lemma UnlockedTokenWorks(v: Vault, hash: Token -> Digest, rpc: Rpc, at: nat)
    requires rpc.Unlock? && rpc.attempt.Loads?
    requires rpc.second || rpc.path.Passkey? || rpc.path.QuickUnlock? || rpc.path.RecoveryKey?
    requires |v.store.sessions| < 1000 && rpc.token !in v.store.sessions && hash(rpc.token) !in v.store.revoked
    requires at >= v.store.now
    ensures var w, a := After(v, hash, rpc), rpc.attempt;
      && w.vmk == Some(a.key) && w.db == Some(a.conn) && w.uuid == Some(a.uuid) && w.ticket == a.ticket
      && Authorised(w, hash, rpc.token)
      && (Authorised(After(w, hash, Rpc.Tick(at)), hash, rpc.token) <==> at < v.store.now + 900)
  {
    RoomOnlyShrinks(v.store.sessions, v.store.now, rpc.attempt.uuid, rpc.victim);
    hide MadeRoom, Unexpired;
  }

  /** An authorised call keeps its token authorised for another 900 s, within the absolute expiry. */
  lemma CallsKeepAlive(v: Vault, hash: Token -> Digest, token: Token, at: nat)
    requires Authorised(v, hash, token) && at >= v.store.now && hash(token) !in v.store.revoked
    ensures var w := After(v, hash, Call(token));
      && w == v.(store := w.store)
      && (Authorised(After(w, hash, Rpc.Tick(at)), hash, token)
          <==> at < Min(v.store.now + 900, v.store.sessions[token].absolute))
  {
  }

  /** A challenge that nobody presents stays open until it expires. */
  lemma {:induction false} ChallengeStaysOpen(c: Challenges, steps: seq<ChallengeStep>, chal: Challenge)
    requires chal in c.open && chal in c.drawn && FreshDraws(c, steps)
    requires forall i :: 0 <= i < |steps| ==> steps[i] != Consume(chal)
    ensures var d := ChallengeRun(c, steps);
      c.open[chal] > d.now ==> chal in d.open && d.open[chal] == c.open[chal]
    ensures c.now <= ChallengeRun(c, steps).now
    decreases |steps|
  {
    if steps == [] {
    } else {
      var c' := ChallengeNext(c, steps[0]);
      ChallengeClock(c', steps[1..]);
      if chal in c'.open {
        ChallengeStaysOpen(c', steps[1..], chal);
      }
    }
  }

  lemma {:induction false} ChallengeClock(c: Challenges, steps: seq<ChallengeStep>)
    ensures c.now <= ChallengeRun(c, steps).now
    decreases |steps|
  {
    if steps == [] {
    } else {
      ChallengeClock(ChallengeNext(c, steps[0]), steps[1..]);
    }
  }

  /** A challenge drawn while fewer than a thousand are open is accepted when first presented within 600 s. */
  lemma ChallengeIsAccepted(c: Challenges, chal: Challenge, steps: seq<ChallengeStep>)
    requires |c.open| < 1000 && FreshDraws(c, [Draw(chal)] + steps)
    requires forall i :: 0 <= i < |steps| ==> steps[i] != Consume(chal)
    ensures var d := ChallengeRun(ChallengeNext(c, Draw(chal)), steps);
      d.now < c.now + 600 ==> ChallengeNext(d, Consume(chal)).taken == d.taken + [(chal, d.now)]
  {
    FewerOpen(Unspent(c.open, c.now), c.open);
    var all := [Draw(chal)] + steps;
    assert all[0] == Draw(chal) && all[1..] == steps;
    ChallengeStaysOpen(ChallengeNext(c, Draw(chal)), steps, chal);
    hide ChallengeRun, FreshDraws;
  }
}
