/**
 The daemon's session store: sessions with a sliding idle expiry and a fixed absolute one, caps per user
 and in total, token rotation with a grace period, and revocation. Tokens are random, so a new token is
 one never issued before; their digest is a parameter.
 */
module Sessions {
  import opened Common

  const DEFAULT_TTL: nat := 900
  const ABSOLUTE_TTL: nat := 86400
  const MAX_PER_USER: nat := 8
  const MAX_TOTAL: nat := 1000
  const GRACE: nat := 60

  type Token = string
  type User = string
  type Digest = string

  datatype Session = Session(user: User, uid: nat, createdAt: nat, expiresAt: nat, absolute: nat)

  type Table = map<Token, Session>

  predicate InTime(s: Session, now: nat) { now < s.expiresAt && now < s.absolute }

  /** The table, the revoked digests with their expiry, and the clock. */
  datatype Store = Store(sessions: Table, revoked: map<Digest, nat>, now: nat)

  // ---------------------------------------------------------------- specification

  function Unexpired(sessions: Table, now: nat): Table {
    map t | t in sessions && InTime(sessions[t], now) :: sessions[t]
  }

  function Owned(sessions: Table, user: User): set<Token> { set t | t in sessions && sessions[t].user == user }

  predicate Oldest(sessions: Table, user: User, victim: Token) {
    && victim in Owned(sessions, user)
    && forall t :: t in Owned(sessions, user) ==> sessions[victim].createdAt <= sessions[t].createdAt
  }

  /** Room is made for a user at the cap by dropping one of their oldest sessions. */
  function MadeRoom(sessions: Table, user: User, victim: Token): Table {
    if |Owned(sessions, user)| >= MAX_PER_USER then sessions - {victim} else sessions
  }

  function NewSession(user: User, uid: nat, ttl: nat, now: nat): Session {
    Session(user, uid, now, now + ttl, now + ABSOLUTE_TTL)
  }

  function Created(s: Store, user: User, uid: nat, ttl: nat, token: Token, victim: Token): Store {
    var kept := MadeRoom(Unexpired(s.sessions, s.now), user, victim);
    if |kept| >= MAX_TOTAL then s.(sessions := kept)
    else s.(sessions := kept[token := NewSession(user, uid, ttl, s.now)])
  }

  function Validated(s: Store, hash: Token -> Digest, token: Token, uid: nat): Option<Session> {
    if hash(token) in s.revoked && s.now < s.revoked[hash(token)] then None
    else if token in s.sessions && InTime(s.sessions[token], s.now) && s.sessions[token].uid == uid
    then Some(s.sessions[token])
    else None
  }

  function Touched(s: Store, token: Token, ttl: nat): Store {
    if token in s.sessions && s.now < s.sessions[token].absolute then
      var e := s.sessions[token];
      s.(sessions := s.sessions[token := e.(expiresAt := Min(s.now + ttl, e.absolute))])
    else s
  }

  predicate Rotatable(s: Store, prior: Token, uid: nat) {
    prior in s.sessions && InTime(s.sessions[prior], s.now) && s.sessions[prior].uid == uid
  }

  function Rotated(s: Store, prior: Token, uid: nat, token: Token): Store {
    if !Rotatable(s, prior, uid) then s
    else
      var e := s.sessions[prior];
      s.(sessions := s.sessions[prior := e.(expiresAt := Min(s.now + GRACE, e.absolute))]
                               [token := Session(e.user, uid, s.now, Min(s.now + DEFAULT_TTL, e.absolute), e.absolute)])
  }

  predicate Struck(e: Session, t: Token, user: User, keep: Token) { e.user == user && t != keep }

  /** A revoked digest comes from the old list, where it had not run out, or from a struck session. */
  ghost predicate Accounted(s: Store, hash: Token -> Digest, user: User, keep: Token, d: Digest, until: nat) {
    || (d in s.revoked && s.revoked[d] > s.now && until == s.revoked[d])
    || exists t :: t in s.sessions && Struck(s.sessions[t], t, user, keep) && d == hash(t) && until == s.sessions[t].absolute
  }

  /** The list keeps what had not run out and gains the digests of the user's other tokens. */
  ghost predicate ListsRevoked(rev: map<Digest, nat>, s: Store, hash: Token -> Digest, user: User, keep: Token) {
    && (forall d :: d in s.revoked && s.revoked[d] > s.now ==> d in rev)
    && (forall t :: t in s.sessions && Struck(s.sessions[t], t, user, keep) ==> hash(t) in rev)
    && (forall d :: d in rev ==> Accounted(s, hash, user, keep, d, rev[d]))
  }

  function Unstruck(sessions: Table, user: User, keep: Token): Table {
    map t | t in sessions && !Struck(sessions[t], t, user, keep) :: sessions[t]
  }

  // ---------------------------------------------------------------- the class

  class SessionStore {
    var sessions: Table
    var revoked: map<Digest, nat>

    function View(now: nat): Store
      reads this
    {
      Store(sessions, revoked, now)
    }

    constructor ()
      ensures View(0) == Store(map[], map[], 0)
    {
      sessions, revoked := map[], map[];
    }

    /** The session with the least creation time; the iteration order of the map breaks ties. */
    static method FindOldest(sessions: Table, user: User, tokens: set<Token>) returns (victim: Token)
      requires tokens == Owned(sessions, user) && tokens != {}
      ensures Oldest(sessions, user, victim)
    {
      victim :| victim in tokens;
      var left := tokens - {victim};
      while left != {}
        invariant left <= tokens && victim in tokens
        invariant forall t :: t in tokens && t !in left ==> sessions[victim].createdAt <= sessions[t].createdAt
        decreases |left|
      {
        var t :| t in left;
        if sessions[t].createdAt < sessions[victim].createdAt {
          victim := t;
        }
        left := left - {t};
      }
    }

    method Create(user: User, uid: nat, ttl: nat, token: Token, now: nat) returns (stored: bool, ghost victim: Token)
      modifies this
      ensures View(now) == Created(old(View(now)), user, uid, ttl, token, victim)
      ensures var live := Unexpired(old(sessions), now);
        |Owned(live, user)| >= MAX_PER_USER ==> Oldest(live, user, victim)
      ensures stored <==> |MadeRoom(Unexpired(old(sessions), now), user, victim)| < MAX_TOTAL
      ensures stored ==> token in sessions && sessions[token] == Session(user, uid, now, now + ttl, now + 86400)
    {
      victim := token;
      sessions := map t | t in sessions && InTime(sessions[t], now) :: sessions[t];
      var tokens := set t | t in sessions && sessions[t].user == user;
      if |tokens| >= MAX_PER_USER {
        var oldest := FindOldest(sessions, user, tokens);
        victim := oldest;
        sessions := sessions - {oldest};
      }
      if |sessions| >= MAX_TOTAL {
        return false, victim;
      }
      sessions := sessions[token := Session(user, uid, now, now + ttl, now + ABSOLUTE_TTL)];
      return true, victim;
    }

    method Validate(hash: Token -> Digest, token: Token, uid: nat, now: nat) returns (r: Option<Session>)
      ensures r == Validated(View(now), hash, token, uid)
    {
      var digest := hash(token);
      if digest in revoked {
        if now < revoked[digest] {
          return None;
        }
      }
      if token !in sessions {
        return None;
      }
      var e := sessions[token];
      if !(now < e.expiresAt && now < e.absolute) || e.uid != uid {
        return None;
      }
      return Some(e);
    }

    method Touch(token: Token, ttl: nat, now: nat) returns (ok: bool)
      modifies this
      ensures View(now) == Touched(old(View(now)), token, ttl)
      ensures ok <==> token in old(sessions) && now < old(sessions)[token].absolute
    {
      if token in sessions && now < sessions[token].absolute {
        var idle := now + ttl;
        var e := sessions[token];
        sessions := sessions[token := e.(expiresAt := if idle <= e.absolute then idle else e.absolute)];
        return true;
      }
      return false;
    }

    method Rotate(prior: Token, uid: nat, token: Token, now: nat) returns (r: Option<Token>)
      modifies this
      ensures View(now) == Rotated(old(View(now)), prior, uid, token)
      ensures r == if Rotatable(old(View(now)), prior, uid) then Some(token) else None
    {
      if prior !in sessions {
        return None;
      }
      var e := sessions[prior];
      if !(now < e.expiresAt && now < e.absolute) || e.uid != uid {
        return None;
      }
      var renewed := Session(e.user, uid, now, Min(now + DEFAULT_TTL, e.absolute), e.absolute);
      sessions := sessions[prior := e.(expiresAt := Min(now + GRACE, e.absolute))];
      sessions := sessions[token := renewed];
      return Some(token);
    }

    method RevokeAll()
      modifies this
      ensures sessions == map[] && revoked == old(revoked)
    {
      sessions := map[];
    }

    /** The loop that lists the digests of a user's other tokens. */
    static method ListDigests(hash: Token -> Digest, user: User, keep: Token, sessions: Table,
                              running: map<Digest, nat>, ghost before: Store) returns (rev: map<Digest, nat>)
      requires before.sessions == sessions
      requires forall d :: d in before.revoked && before.revoked[d] > before.now ==> d in running
      requires forall d :: d in running ==> Accounted(before, hash, user, keep, d, running[d])
      ensures ListsRevoked(rev, before, hash, user, keep)
    {
      rev := running;
      var left := sessions.Keys;
      while left != {}
        invariant left <= sessions.Keys
        invariant forall t :: t in sessions && t !in left && Struck(sessions[t], t, user, keep) ==> hash(t) in rev
        invariant forall d :: d in running ==> d in rev
        invariant forall d :: d in rev ==> Accounted(before, hash, user, keep, d, rev[d])
        decreases |left|
      {
        var token :| token in left;
        if sessions[token].user == user && token != keep {
          assert Accounted(before, hash, user, keep, hash(token), sessions[token].absolute);
          hide Accounted;
          rev := rev[hash(token) := sessions[token].absolute];
        }
        left := left - {token};
      }
    }

    method RevokeAllExcept(hash: Token -> Digest, user: User, keep: Token, now: nat)
      modifies this
      ensures sessions == Unstruck(old(sessions), user, keep)
      ensures ListsRevoked(revoked, old(View(now)), hash, user, keep)
    {
      var running := map d | d in revoked && revoked[d] > now :: revoked[d];
      revoked := ListDigests(hash, user, keep, sessions, running, View(now));
      sessions := map t | t in sessions && !(sessions[t].user == user && t != keep) :: sessions[t];
    }
  }

  // ---------------------------------------------------------------- runs

  /** The store with its history: when the lineage of each issued token began, and the rotations so far. */
  datatype History = History(store: Store, birth: map<Token, nat>, rotations: nat)

  const FRESH := History(Store(map[], map[], 0), map[], 0)

  /** Steps name the random token drawn, the tie-break of the eviction and the resulting list. */
  datatype Step =
    | Tick(to: nat)
    | Create(user: User, uid: nat, ttl: nat, token: Token, victim: Token)
    | Touch(token: Token, ttl: nat)
    | Rotate(prior: Token, uid: nat, token: Token)
    | RevokeAll
    | RevokeAllExcept(user: User, keep: Token, rev: map<Digest, nat>)

  ghost predicate Enabled(h: History, hash: Token -> Digest, step: Step) {
    match step
    case Create(user, _, _, token, victim) =>
      var live := Unexpired(h.store.sessions, h.store.now);
      token !in h.birth && (|Owned(live, user)| >= MAX_PER_USER ==> Oldest(live, user, victim))
    case Rotate(_, _, token) => token !in h.birth
    case RevokeAllExcept(user, keep, rev) => ListsRevoked(rev, h.store, hash, user, keep)
    case _ => true
  }

  function StoreAfter(s: Store, step: Step): Store {
    match step
    case Tick(to) => s.(now := Max(s.now, to))
    case Create(user, uid, ttl, token, victim) => Created(s, user, uid, ttl, token, victim)
    case Touch(token, ttl) => Touched(s, token, ttl)
    case Rotate(prior, uid, token) => Rotated(s, prior, uid, token)
    case RevokeAll => s.(sessions := map[])
    case RevokeAllExcept(user, keep, rev) => s.(sessions := Unstruck(s.sessions, user, keep), revoked := rev)
  }

  /** A created token starts a lineage now; a rotated one continues that of the token it replaces. */
  function Next(h: History, step: Step): History {
    var s' := StoreAfter(h.store, step);
    match step
    case Create(_, _, _, token, _) =>
      if token in s'.sessions then History(s', h.birth[token := h.store.now], h.rotations) else h.(store := s')
    case Rotate(prior, uid, token) =>
      if Rotatable(h.store, prior, uid)
      then History(s', h.birth[token := if prior in h.birth then h.birth[prior] else h.store.now], h.rotations + 1)
      else h.(store := s')
    case _ => h.(store := s')
  }

  function Play(h: History, steps: seq<Step>): History
    decreases |steps|
  {
    if steps == [] then h else Play(Next(h, steps[0]), steps[1..])
  }

  ghost predicate Legal(h: History, hash: Token -> Digest, steps: seq<Step>)
    decreases |steps|
  {
    steps == [] || (Enabled(h, hash, steps[0]) && Legal(Next(h, steps[0]), hash, steps[1..]))
  }

  // ---------------------------------------------------------------- lineages end after 24 hours

  predicate DatedToken(h: History, t: Token) {
    t in h.store.sessions ==> t in h.birth && h.store.sessions[t].absolute == h.birth[t] + ABSOLUTE_TTL
  }

  /** Every stored session carries the absolute expiry of its lineage. */
  ghost predicate Dated(h: History) { forall t :: DatedToken(h, t) }

  lemma CreatedStaysDated(h: History, step: Step, t: Token)
    requires step.Create? && DatedToken(h, t) && step.token !in h.birth
    ensures DatedToken(Next(h, step), t)
  {
    hide MadeRoom, Unexpired;
    KeptIsStored(h.store, step.user, step.victim, t);
  }

  /** Making room only removes sessions. */
  lemma KeptIsStored(s: Store, user: User, victim: Token, t: Token)
    ensures var kept := MadeRoom(Unexpired(s.sessions, s.now), user, victim);
      t in kept ==> t in s.sessions && kept[t] == s.sessions[t]
  {
    hide Owned;
  }

  lemma RotatedStaysDated(h: History, step: Step, t: Token)
    requires step.Rotate? && DatedToken(h, t) && DatedToken(h, step.prior) && step.token !in h.birth
    ensures DatedToken(Next(h, step), t)
  {
  }

  /** A stored token is an earlier one, the one just created, or the one just issued by a rotation. */
  lemma TokenStaysDated(h: History, hash: Token -> Digest, step: Step, t: Token)
    requires DatedToken(h, t) && (step.Rotate? ==> DatedToken(h, step.prior)) && Enabled(h, hash, step)
    ensures DatedToken(Next(h, step), t)
  {
    hide Owned, Oldest, ListsRevoked, Created, Rotated;
    match step {
      case Create(_, _, _, _, _) => CreatedStaysDated(h, step, t);
      case Rotate(_, _, _) => RotatedStaysDated(h, step, t);
      case _ =>
    }
  }

  lemma StepKeepsDated(h: History, hash: Token -> Digest, step: Step)
    requires Dated(h) && Enabled(h, hash, step)
    ensures Dated(Next(h, step))
  {
    hide Next, Enabled, DatedToken;
    forall t
      ensures DatedToken(Next(h, step), t)
    {
      assert DatedToken(h, t) && (step.Rotate? ==> DatedToken(h, step.prior));
      TokenStaysDated(h, hash, step, t);
    }
  }

  lemma StepKeepsBirth(h: History, hash: Token -> Digest, step: Step, t: Token)
    requires Enabled(h, hash, step) && t in h.birth
    ensures t in Next(h, step).birth && Next(h, step).birth[t] == h.birth[t]
  {
    hide StoreAfter, Oldest, ListsRevoked;
  }

  lemma DatedAt(h: History, t: Token)
    requires Dated(h)
    ensures DatedToken(h, t)
  {
  }

  /**
   Whatever mix of touches and rotations led to it, a token whose lineage was created at time t is
   refused from t + 24 h on; and no step changes when a lineage began.
   */
  lemma {:induction false} LineageEnds(h: History, hash: Token -> Digest, steps: seq<Step>, token: Token, uid: nat)
    requires Dated(h) && Legal(h, hash, steps)
    ensures Dated(Play(h, steps))
    ensures token in h.birth ==> token in Play(h, steps).birth && Play(h, steps).birth[token] == h.birth[token]
    ensures token in Play(h, steps).birth && Play(h, steps).store.now >= Play(h, steps).birth[token] + ABSOLUTE_TTL ==>
              Validated(Play(h, steps).store, hash, token, uid) == None
    decreases |steps|
  {
    hide Next, Enabled, Dated;
    if steps == [] {
      assert DatedToken(h, token) by { DatedAt(h, token); }
    } else {
      StepKeepsDated(h, hash, steps[0]);
      if token in h.birth {
        StepKeepsBirth(h, hash, steps[0], token);
      }
      LineageEnds(Next(h, steps[0]), hash, steps[1..], token, uid);
    }
  }

  // ---------------------------------------------------------------- a removed token stays out

  lemma StepKeepsGone(h: History, hash: Token -> Digest, step: Step, token: Token)
    requires Enabled(h, hash, step) && token in h.birth && token !in h.store.sessions
    ensures token in Next(h, step).birth && token !in Next(h, step).store.sessions
  {
    hide Owned, Oldest, ListsRevoked;
  }

  lemma {:induction false} GoneForever(h: History, hash: Token -> Digest, steps: seq<Step>, token: Token)
    requires Legal(h, hash, steps) && token in h.birth && token !in h.store.sessions
    ensures token in Play(h, steps).birth && token !in Play(h, steps).store.sessions
    decreases |steps|
  {
    hide Next, Enabled;
    if steps == [] {
    } else {
      StepKeepsGone(h, hash, steps[0], token);
      GoneForever(Next(h, steps[0]), hash, steps[1..], token);
    }
  }

  // ---------------------------------------------------------------- the list of digests

  /** No two tokens issued so far have the same digest. */
  ghost predicate NoCollision(h: History, hash: Token -> Digest) {
    forall a, b :: a in h.birth && b in h.birth && hash(a) == hash(b) ==> a == b
  }

  ghost predicate OfGoneToken(h: History, hash: Token -> Digest, d: Digest) {
    exists t :: t in h.birth && t !in h.store.sessions && d == hash(t)
  }

  /** Only digests of tokens no longer stored are on the list. */
  ghost predicate ListsGone(h: History, hash: Token -> Digest) {
    forall d :: d in h.store.revoked ==> OfGoneToken(h, hash, d)
  }

  lemma StepKeepsListsGone(h: History, hash: Token -> Digest, step: Step)
    requires Dated(h) && ListsGone(h, hash) && Enabled(h, hash, step)
    ensures ListsGone(Next(h, step), hash)
  {
    hide Next, Enabled, Dated;
    forall d | d in Next(h, step).store.revoked
      ensures OfGoneToken(Next(h, step), hash, d)
    {
      ListedBefore(h, hash, step, d);
      if d in h.store.revoked {
        var t :| t in h.birth && t !in h.store.sessions && d == hash(t);
        StepKeepsGone(h, hash, step, t);
      }
    }
  }

  /** A digest on the new list was on the old one, or is that of a session just struck out. */
  lemma ListedBefore(h: History, hash: Token -> Digest, step: Step, d: Digest)
    requires Dated(h) && Enabled(h, hash, step) && d in Next(h, step).store.revoked
    ensures d in h.store.revoked || OfGoneToken(Next(h, step), hash, d)
  {
    if step.RevokeAllExcept? {
      var s := h.store;
      assert Accounted(s, hash, step.user, step.keep, d, step.rev[d]);
      if d !in s.revoked {
        var t :| t in s.sessions && Struck(s.sessions[t], t, step.user, step.keep) && d == hash(t);
        DatedAt(h, t);
        assert t in Next(h, step).birth && t !in Next(h, step).store.sessions;
      }
    }
  }

  /**
   In every run the list of revoked digests never decides: a token validates exactly when it is
   stored, in time, and used by the process it was issued to.
   */
  lemma ValidatesExactlyStored(h: History, hash: Token -> Digest, token: Token, uid: nat)
    requires Dated(h) && ListsGone(h, hash) && NoCollision(h, hash)
    ensures var s := h.store;
      Validated(s, hash, token, uid).Some? <==>
        token in s.sessions && InTime(s.sessions[token], s.now) && s.sessions[token].uid == uid
  {
    DatedAt(h, token);
    hide Dated;
    if hash(token) in h.store.revoked {
      assert OfGoneToken(h, hash, hash(token));
    }
  }

  lemma {:induction false} RunKeepsListsGone(h: History, hash: Token -> Digest, steps: seq<Step>)
    requires Dated(h) && ListsGone(h, hash) && Legal(h, hash, steps)
    ensures Dated(Play(h, steps)) && ListsGone(Play(h, steps), hash)
    decreases |steps|
  {
    hide Next, Enabled, Dated, ListsGone;
    if steps == [] {
    } else {
      StepKeepsDated(h, hash, steps[0]);
      StepKeepsListsGone(h, hash, steps[0]);
      RunKeepsListsGone(Next(h, steps[0]), hash, steps[1..]);
    }
  }

  // ---------------------------------------------------------------- revoke_all_except

  /** After `revoke_all_except` the user's other tokens, and all tokens already gone, are refused for ever. */
  lemma RevokedForEver(h: History, hash: Token -> Digest, user: User, keep: Token, rev: map<Digest, nat>,
                       steps: seq<Step>, token: Token, uid: nat)
    requires Dated(h) && Legal(h, hash, [RevokeAllExcept(user, keep, rev)] + steps)
    requires token in h.birth && token != keep && (token in h.store.sessions ==> h.store.sessions[token].user == user)
    ensures Validated(Play(h, [RevokeAllExcept(user, keep, rev)] + steps).store, hash, token, uid) == None
  {
    var step := RevokeAllExcept(user, keep, rev);
    var all := [step] + steps;
    assert all[0] == step && all[1..] == steps;
    GoneForever(Next(h, step), hash, steps, token);
  }

  /** Every other session is untouched and validates as before. */
  lemma OthersUnchanged(h: History, hash: Token -> Digest, user: User, keep: Token, rev: map<Digest, nat>,
                        token: Token, uid: nat)
    requires Dated(h) && ListsGone(h, hash) && NoCollision(h, hash)
    requires Enabled(h, hash, RevokeAllExcept(user, keep, rev))
    requires token == keep || (token in h.store.sessions ==> h.store.sessions[token].user != user)
    ensures var s' := Next(h, RevokeAllExcept(user, keep, rev)).store;
      && (token in h.store.sessions <==> token in s'.sessions)
      && (token in s'.sessions ==> s'.sessions[token] == h.store.sessions[token])
      && Validated(s', hash, token, uid) == Validated(h.store, hash, token, uid)
  {
    var step := RevokeAllExcept(user, keep, rev);
    StepKeepsListsGone(h, hash, step);
    StepKeepsDated(h, hash, step);
    ValidatesExactlyStored(h, hash, token, uid);
    ValidatesExactlyStored(Next(h, step), hash, token, uid);
    hide ListsGone, ListsRevoked, Dated;
  }

  // ---------------------------------------------------------------- sessions that ran out of time

  /** A session idle for longer than its lifetime is refused, and a touch makes it valid again. */
  lemma TouchRevives(hash: Token -> Digest)
    ensures var s := Store(map["t" := NewSession("u", 1000, DEFAULT_TTL, 0)], map[], 1000);
      && Validated(s, hash, "t", 1000) == None
      && Validated(Touched(s, "t", DEFAULT_TTL), hash, "t", 1000).Some?
  {
  }

  lemma CreateDropsExpired(s: Store, user: User, uid: nat, ttl: nat, drawn: Token, victim: Token, token: Token)
    requires token in s.sessions && !InTime(s.sessions[token], s.now) && token != drawn
    ensures token !in Created(s, user, uid, ttl, drawn, victim).sessions
  {
    hide Owned;
  }

  /** Which step puts a stored session that ran out of time back in time. */
  lemma BackInTimeIff(h: History, hash: Token -> Digest, step: Step, token: Token)
    requires Dated(h) && Enabled(h, hash, step)
    requires token in h.store.sessions && !InTime(h.store.sessions[token], h.store.now)
    ensures var s, s' := h.store, Next(h, step).store;
      token in s'.sessions && InTime(s'.sessions[token], s'.now)
      <==> step.Touch? && step.token == token && step.ttl > 0 && s.now < s.sessions[token].absolute
    ensures var s' := Next(h, step).store;
      token in s'.sessions ==> s'.sessions[token].uid == h.store.sessions[token].uid
  {
    DatedAt(h, token);
    hide Dated, Owned, Oldest, ListsRevoked, Created;
    if step.Create? {
      CreateDropsExpired(h.store, step.user, step.uid, step.ttl, step.token, step.victim, token);
    }
  }

  /**
   A stored session that is refused because it ran out of time validates after a step if and only if
   that step is a touch of it with a positive lifetime, before its absolute expiry.
   */
  lemma RevivedIffTouched(h: History, hash: Token -> Digest, step: Step, token: Token, uid: nat)
    requires Dated(h) && ListsGone(h, hash) && Enabled(h, hash, step) && NoCollision(Next(h, step), hash)
    requires token in h.store.sessions && !InTime(h.store.sessions[token], h.store.now)
    ensures Validated(h.store, hash, token, uid) == None
    ensures Validated(Next(h, step).store, hash, token, uid).Some?
            <==> step.Touch? && step.token == token && step.ttl > 0
                 && h.store.now < h.store.sessions[token].absolute && h.store.sessions[token].uid == uid
  {
    hide Next, Enabled, Dated, ListsGone, NoCollision;
    BackInTimeIff(h, hash, step, token);
    StepKeepsListsGone(h, hash, step);
    StepKeepsDated(h, hash, step);
    ValidatesExactlyStored(Next(h, step), hash, token, uid);
  }

  // ---------------------------------------------------------------- the caps

  lemma SmallerTable(a: Table, b: Table, user: User)
    requires forall t :: t in a ==> t in b && a[t].user == b[t].user
    ensures |a| <= |b| && |Owned(a, user)| <= |Owned(b, user)|
  {
    SubsetSize(a.Keys, b.Keys);
    assert |a.Keys| == |a| && |b.Keys| == |b|;
    SubsetSize(Owned(a, user), Owned(b, user));
  }

  /** Storing a new session adds one, and only to its own user. */
  lemma OneMore(a: Table, token: Token, e: Session, user: User)
    requires token !in a
    ensures |a[token := e]| == |a| + 1
    ensures |Owned(a[token := e], user)| == |Owned(a, user)| + if e.user == user then 1 else 0
  {
    var b := a[token := e];
    assert Owned(b, user) == if e.user == user then Owned(a, user) + {token} else Owned(a, user);
  }

  /** Room is made when the user is at the cap. */
  lemma RoomForOne(live: Table, user: User, victim: Token)
    requires |Owned(live, user)| >= MAX_PER_USER ==> Oldest(live, user, victim)
    ensures |Owned(MadeRoom(live, user, victim), user)| + 1 <= Max(MAX_PER_USER, |Owned(live, user)|)
  {
    var kept := MadeRoom(live, user, victim);
    if |Owned(live, user)| >= MAX_PER_USER {
      assert Owned(kept, user) == Owned(live, user) - {victim};
    }
  }

  predicate Capped(h: History, user: User) {
    && |Owned(h.store.sessions, user)| <= 8 + h.rotations
    && |h.store.sessions| <= 1000 + h.rotations
  }

  /** The sizes of the table a new session is added to. */
  lemma CreatedSizes(s: Store, owner: User, uid: nat, ttl: nat, token: Token, victim: Token, user: User)
    requires var live := Unexpired(s.sessions, s.now);
      |Owned(live, owner)| >= MAX_PER_USER ==> Oldest(live, owner, victim)
    requires token !in s.sessions
    ensures var s' := Created(s, owner, uid, ttl, token, victim);
      && |s'.sessions| <= Max(MAX_TOTAL, |s.sessions|)
      && |Owned(s'.sessions, user)| <= Max(MAX_PER_USER, |Owned(s.sessions, user)|)
  {
    var live := Unexpired(s.sessions, s.now);
    var kept := MadeRoom(live, owner, victim);
    assert token !in kept;
    SmallerTable(live, s.sessions, user);
    SmallerTable(kept, live, user);
    RoomForOne(live, owner, victim);
    hide Owned, MadeRoom, Unexpired, Oldest, NewSession;
    OneMoreSession(kept, owner, uid, ttl, s.now, token, user);
  }

  lemma OneMoreSession(kept: Table, owner: User, uid: nat, ttl: nat, now: nat, token: Token, user: User)
    requires token !in kept
    ensures var t := kept[token := NewSession(owner, uid, ttl, now)];
      |t| == |kept| + 1 && |Owned(t, user)| == |Owned(kept, user)| + if owner == user then 1 else 0
  {
    hide Owned;
    OneMore(kept, token, NewSession(owner, uid, ttl, now), user);
  }

  lemma CreateKeepsCaps(h: History, hash: Token -> Digest, step: Step, user: User)
    requires Capped(h, user) && Dated(h) && Enabled(h, hash, step) && step.Create?
    ensures Capped(Next(h, step), user)
  {
    hide Owned, Dated, Unexpired, Oldest, Created;
    DatedAt(h, step.token);
    CreatedSizes(h.store, step.user, step.uid, step.ttl, step.token, step.victim, user);
  }

  /** Rotation keeps the old session, aged, and adds one of the same user. */
  lemma RotatedSizes(s: Store, prior: Token, uid: nat, token: Token, user: User)
    requires Rotatable(s, prior, uid) && token !in s.sessions
    ensures var s' := Rotated(s, prior, uid, token);
      && |s'.sessions| == |s.sessions| + 1
      && |Owned(s'.sessions, user)| == |Owned(s.sessions, user)| + if s.sessions[prior].user == user then 1 else 0
  {
    var e := s.sessions[prior];
    var aged := s.sessions[prior := e.(expiresAt := Min(s.now + GRACE, e.absolute))];
    SmallerTable(aged, s.sessions, user);
    SmallerTable(s.sessions, aged, user);
    hide Owned;
    OneMore(aged, token, Session(e.user, uid, s.now, Min(s.now + DEFAULT_TTL, e.absolute), e.absolute), user);
  }

  lemma RotateKeepsCaps(h: History, hash: Token -> Digest, step: Step, user: User)
    requires Capped(h, user) && Dated(h) && Enabled(h, hash, step) && step.Rotate?
    ensures Capped(Next(h, step), user)
  {
    hide Owned, Dated;
    DatedAt(h, step.token);
    if Rotatable(h.store, step.prior, step.uid) {
      hide Rotated;
      RotatedSizes(h.store, step.prior, step.uid, step.token, user);
    }
  }

  lemma StepKeepsCaps(h: History, hash: Token -> Digest, step: Step, user: User)
    requires Capped(h, user) && Dated(h) && Enabled(h, hash, step)
    ensures Capped(Next(h, step), user)
  {
    match step {
      case Create(_, _, _, _, _) => CreateKeepsCaps(h, hash, step, user);
      case Rotate(_, _, _) => RotateKeepsCaps(h, hash, step, user);
      case _ => SmallerTable(Next(h, step).store.sessions, h.store.sessions, user);
    }
  }

  /** With k rotations in the run a user never holds more than 8 + k sessions, and the store 1000 + k. */
  lemma {:induction false} CapsHold(h: History, hash: Token -> Digest, steps: seq<Step>, user: User)
    requires Capped(h, user) && Dated(h) && Legal(h, hash, steps)
    ensures Capped(Play(h, steps), user)
    decreases |steps|
  {
    hide Next, Enabled, Capped, Dated;
    if steps == [] {
    } else {
      StepKeepsCaps(h, hash, steps[0], user);
      StepKeepsDated(h, hash, steps[0]);
      CapsHold(Next(h, steps[0]), hash, steps[1..], user);
    }
  }

  /** The k is real: rotation checks no cap and always adds a session. */
  lemma RotationAddsOne(h: History, hash: Token -> Digest, prior: Token, uid: nat, token: Token)
    requires Dated(h) && Enabled(h, hash, Rotate(prior, uid, token)) && Rotatable(h.store, prior, uid)
    ensures var user := h.store.sessions[prior].user;
      |Owned(Next(h, Rotate(prior, uid, token)).store.sessions, user)| == |Owned(h.store.sessions, user)| + 1
  {
    hide Owned, Dated, Rotated;
    DatedAt(h, token);
    RotatedSizes(h.store, prior, uid, token, h.store.sessions[prior].user);
  }

  /** Every run from an empty store: lineages, the revoked list and the caps are as stated. */
  lemma FromEmptyStore(hash: Token -> Digest, steps: seq<Step>, user: User)
    requires Legal(FRESH, hash, steps)
    ensures var h := Play(FRESH, steps); Dated(h) && ListsGone(h, hash) && Capped(h, user)
  {
    RunKeepsListsGone(FRESH, hash, steps);
    CapsHold(FRESH, hash, steps, user);
  }

  // ---------------------------------------------------------------- how long tokens are valid

  /** The step acts on the token: touches or rotates it, revokes it, or evicts it to make room. */
  predicate Disturbs(h: History, step: Step, token: Token) {
    match step
    case Tick(_) => false
    case Touch(t, _) => t == token
    case Rotate(prior, _, _) => prior == token
    case RevokeAll => true
    case RevokeAllExcept(user, keep, _) => token in h.store.sessions && h.store.sessions[token].user == user && token != keep
    case Create(user, _, _, _, victim) =>
      victim == token && |Owned(Unexpired(h.store.sessions, h.store.now), user)| >= 8
  }

  predicate Undisturbed(h: History, steps: seq<Step>, token: Token)
    decreases |steps|
  {
    steps == [] || (!Disturbs(h, steps[0], token) && Undisturbed(Next(h, steps[0]), steps[1..], token))
  }

  /** The token's session is stored as it was, or has run out of time and may be gone. */
  predicate StillThere(s: Store, token: Token, e: Session) {
    if token in s.sessions then s.sessions[token] == e else !InTime(e, s.now)
  }

  lemma CreateLeavesOthers(s: Store, user: User, uid: nat, ttl: nat, drawn: Token, victim: Token, token: Token, e: Session)
    requires StillThere(s, token, e) && token != drawn
    requires !(victim == token && |Owned(Unexpired(s.sessions, s.now), user)| >= 8)
    ensures StillThere(Created(s, user, uid, ttl, drawn, victim), token, e)
  {
    hide Owned;
  }

  lemma StepStillThere(h: History, hash: Token -> Digest, step: Step, token: Token, e: Session)
    requires Enabled(h, hash, step) && token in h.birth && StillThere(h.store, token, e) && !Disturbs(h, step, token)
    ensures token in Next(h, step).birth && StillThere(Next(h, step).store, token, e)
  {
    hide Owned, Oldest, ListsRevoked, Created, Unexpired;
    if step.Create? {
      CreateLeavesOthers(h.store, step.user, step.uid, step.ttl, step.token, step.victim, token, e);
    }
  }

  lemma {:induction false} RunStillThere(h: History, hash: Token -> Digest, steps: seq<Step>, token: Token, e: Session)
    requires Legal(h, hash, steps) && token in h.birth && StillThere(h.store, token, e) && Undisturbed(h, steps, token)
    ensures StillThere(Play(h, steps).store, token, e)
    decreases |steps|
  {
    hide Next, Enabled, Disturbs, StillThere;
    if steps == [] {
    } else {
      StepStillThere(h, hash, steps[0], token, e);
      RunStillThere(Next(h, steps[0]), hash, steps[1..], token, e);
    }
  }

  /**
   A stored token that nothing acts on validates, for the process it was issued to and for no other,
   exactly until the earlier of its two expiries, whatever else happens in the run.
   */
  lemma ValidUntil(h: History, hash: Token -> Digest, steps: seq<Step>, token: Token, uid: nat)
    requires Dated(h) && ListsGone(h, hash) && Legal(h, hash, steps) && NoCollision(Play(h, steps), hash)
    requires token in h.store.sessions && Undisturbed(h, steps, token)
    ensures var e := h.store.sessions[token];
      Validated(Play(h, steps).store, hash, token, uid).Some?
      <==> uid == e.uid && Play(h, steps).store.now < Min(e.expiresAt, e.absolute)
  {
    hide Next, Dated, ListsGone, NoCollision, Legal, Undisturbed, Play;
    DatedAt(h, token);
    RunStillThere(h, hash, steps, token, h.store.sessions[token]);
    RunKeepsListsGone(h, hash, steps);
    ValidatesExactlyStored(Play(h, steps), hash, token, uid);
  }

  /** What creation stores: with fewer than a thousand sessions it always succeeds. */
  lemma CreateStores(h: History, hash: Token -> Digest, step: Step)
    requires step.Create? && Enabled(h, hash, step) && step.token !in h.store.sessions
    ensures |h.store.sessions| < 1000 ==> step.token in Next(h, step).store.sessions
    ensures var s' := Next(h, step).store;
      step.token in s'.sessions ==>
        var e := s'.sessions[step.token];
        && e.user == step.user && e.uid == step.uid && e.createdAt == h.store.now
        && Min(e.expiresAt, e.absolute) == h.store.now + Min(step.ttl, 86400)
  {
    var s := h.store;
    var live := Unexpired(s.sessions, s.now);
    var kept := MadeRoom(live, step.user, step.victim);
    SmallerTable(live, s.sessions, step.user);
    SmallerTable(kept, live, step.user);
    assert step.token !in kept;
    hide Owned, MadeRoom, Unexpired, Oldest;
  }

  /** A run after one step, with the invariants at both ends. */
  lemma AfterStep(h: History, hash: Token -> Digest, step: Step, steps: seq<Step>)
    requires Dated(h) && ListsGone(h, hash) && Legal(h, hash, [step] + steps)
    ensures Enabled(h, hash, step) && Dated(Next(h, step)) && ListsGone(Next(h, step), hash)
    ensures Legal(Next(h, step), hash, steps) && Play(h, [step] + steps) == Play(Next(h, step), steps)
  {
    hide Next, Dated, ListsGone, Enabled;
    var all := [step] + steps;
    assert all[0] == step && all[1..] == steps;
    StepKeepsDated(h, hash, step);
    StepKeepsListsGone(h, hash, step);
  }

  /**
   A token created at time t with a lifetime validates exactly until t plus that lifetime, or 24 h if
   that is less, unless something acts on it.
   */
  lemma CreatedWindow(h: History, hash: Token -> Digest, step: Step, steps: seq<Step>, uid: nat)
    requires Dated(h) && ListsGone(h, hash) && step.Create? && Legal(h, hash, [step] + steps)
    requires NoCollision(Play(h, [step] + steps), hash)
    requires step.token in Next(h, step).store.sessions && Undisturbed(Next(h, step), steps, step.token)
    ensures var s := Play(h, [step] + steps).store;
      Validated(s, hash, step.token, uid).Some? <==> uid == step.uid && s.now < h.store.now + Min(step.ttl, 86400)
  {
    hide Next, Dated, ListsGone, NoCollision, Legal, Undisturbed, Play, Enabled;
    AfterStep(h, hash, step, steps);
    NewTokenIsNew(h, hash, step);
    CreateStores(h, hash, step);
    ValidUntil(Next(h, step), hash, steps, step.token, uid);
  }

  lemma NewTokenIsNew(h: History, hash: Token -> Digest, step: Step)
    requires Dated(h) && Enabled(h, hash, step) && (step.Create? || step.Rotate?)
    ensures step.token !in h.birth && step.token !in h.store.sessions
  {
    DatedAt(h, step.token);
    hide Dated, Owned, Oldest, Unexpired;
  }

  /** A touch at time t gives the token until t plus the lifetime, but never beyond its absolute expiry. */
  lemma TouchedWindow(h: History, hash: Token -> Digest, token: Token, ttl: nat, steps: seq<Step>, uid: nat)
    requires Dated(h) && ListsGone(h, hash) && Legal(h, hash, [Touch(token, ttl)] + steps)
    requires NoCollision(Play(h, [Touch(token, ttl)] + steps), hash)
    requires token in h.store.sessions && h.store.now < h.store.sessions[token].absolute
    requires Undisturbed(Next(h, Touch(token, ttl)), steps, token)
    ensures var s, e := Play(h, [Touch(token, ttl)] + steps).store, h.store.sessions[token];
      Validated(s, hash, token, uid).Some? <==> uid == e.uid && s.now < Min(h.store.now + ttl, e.absolute)
  {
    AfterStep(h, hash, Touch(token, ttl), steps);
    hide Dated, ListsGone, NoCollision, Legal, Undisturbed, Play, Enabled;
    ValidUntil(Next(h, Touch(token, ttl)), hash, steps, token, uid);
  }

  /** What a rotation stores under the new and under the old token. */
  lemma RotateStores(h: History, hash: Token -> Digest, prior: Token, uid: nat, token: Token)
    requires Dated(h) && Enabled(h, hash, Rotate(prior, uid, token)) && Rotatable(h.store, prior, uid)
    ensures var s, e := Next(h, Rotate(prior, uid, token)).store.sessions, h.store.sessions[prior];
      && token in s && prior in s && token != prior
      && s[token].user == e.user && s[token].uid == uid && s[token].absolute == e.absolute
      && Min(s[token].expiresAt, s[token].absolute) == Min(h.store.now + 900, e.absolute)
      && s[prior].user == e.user && s[prior].uid == uid && s[prior].absolute == e.absolute
      && Min(s[prior].expiresAt, s[prior].absolute) == Min(h.store.now + 60, e.absolute)
  {
    NewTokenIsNew(h, hash, Rotate(prior, uid, token));
    hide Dated;
  }

  /** A rotation at time t gives the new token 900 s and leaves the old one 60 s, both within the absolute expiry. */
  lemma RotatedWindows(h: History, hash: Token -> Digest, prior: Token, uid: nat, token: Token, steps: seq<Step>, caller: nat)
    requires Dated(h) && ListsGone(h, hash) && Legal(h, hash, [Rotate(prior, uid, token)] + steps)
    requires NoCollision(Play(h, [Rotate(prior, uid, token)] + steps), hash) && Rotatable(h.store, prior, uid)
    ensures var s, e := Play(h, [Rotate(prior, uid, token)] + steps).store, h.store.sessions[prior];
      && (Undisturbed(Next(h, Rotate(prior, uid, token)), steps, token) ==>
            (Validated(s, hash, token, caller).Some? <==> caller == uid && s.now < Min(h.store.now + 900, e.absolute)))
      && (Undisturbed(Next(h, Rotate(prior, uid, token)), steps, prior) ==>
            (Validated(s, hash, prior, caller).Some? <==> caller == uid && s.now < Min(h.store.now + 60, e.absolute)))
  {
    hide Next, Dated, ListsGone, NoCollision, Legal, Undisturbed, Play, Enabled;
    var step := Rotate(prior, uid, token);
    AfterStep(h, hash, step, steps);
    RotateStores(h, hash, prior, uid, token);
    if Undisturbed(Next(h, step), steps, token) {
      ValidUntil(Next(h, step), hash, steps, token, caller);
    }
    if Undisturbed(Next(h, step), steps, prior) {
      ValidUntil(Next(h, step), hash, steps, prior, caller);
    }
  }

  /** Making room never makes the table larger. */
  lemma RoomOnlyShrinks(sessions: Table, now: nat, user: User, victim: Token)
    ensures |MadeRoom(Unexpired(sessions, now), user, victim)| <= |sessions|
  {
    SmallerTable(Unexpired(sessions, now), sessions, user);
    SmallerTable(MadeRoom(Unexpired(sessions, now), user, victim), Unexpired(sessions, now), user);
  }
}
