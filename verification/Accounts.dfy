/**
 The user records behind the locked file: insertion, in-place update and deletion, and the duress
 counter that decides a wipe. Every operation runs as one critical section of `LockedFile`.
 */
module Accounts {
  import opened Common
  import opened LockedFile

  /**
   `duress` is the armed limit (absent when not armed), `failures` the stored failure count, and
   `rest` stands for every field that takes no part here.
   */
  datatype User = User(id: string, emailHash: string, duress: Option<real>, failures: nat, rest: string)

  /** What the route handlers do to a matched user. */
  datatype UserOp =
    | Edit(rest: string)
    | DuressFailure
    | LoginSuccess(rest: string)
    | Enforce(armed: bool, limit: Option<real>)
    | Disarm

  datatype Txn = Insert(user: User) | Update(id: string, op: UserOp) | Delete(id: string)

  /** The limit in force for a requested value: absent or zero means three, then clamped to 1..20. */
  function Limit(requested: Option<real>): real {
    var n := if requested.None? || requested.value == 0.0 then 3.0 else requested.value;
    var low := if n < 20.0 then n else 20.0;
    if low > 1.0 then low else 1.0
  }

  /** Whether the next failure of an armed user decides a wipe. */
  predicate WipesNext(u: User)
    requires u.duress.Some?
  {
    (u.failures + 1) as real >= Limit(u.duress)
  }

  function ApplyToUser(op: UserOp, u: User): Applied<User> {
    match op
    case Edit(rest) => Applied(u.(rest := rest), Commit)
    case DuressFailure =>
      if u.duress.None? || WipesNext(u) then Applied(u, Skip)
      else Applied(u.(failures := u.failures + 1), Commit)
    case LoginSuccess(rest) =>
      Applied(u.(rest := rest, failures := if u.failures > 0 then 0 else u.failures), Commit)
    case Enforce(armed, limit) =>
      Applied(u.(duress := if armed then Some(Limit(limit)) else None, failures := 0), Commit)
    case Disarm => Applied(u.(duress := None, failures := 0), Commit)
  }

  /** Position of the first user with the given id, or the length when there is none. */
  function Find(users: seq<User>, id: string): (i: nat)
    ensures i <= |users|
    ensures i < |users| ==> users[i].id == id
    ensures forall j :: 0 <= j < i ==> users[j].id != id
  {
    if users == [] then 0 else if users[0].id == id then 0 else 1 + Find(users[1..], id)
  }

  predicate EmailTaken(users: seq<User>, emailHash: string) {
    exists i :: 0 <= i < |users| && users[i].emailHash == emailHash
  }

  function Apply(t: Txn, users: seq<User>): Applied<seq<User>> {
    match t
    case Insert(user) =>
      if EmailTaken(users, user.emailHash) then Applied(users, Throw) else Applied(users + [user], Commit)
    case Update(id, op) =>
      var i := Find(users, id);
      if i == |users| then Applied(users, Skip)
      else
        var a := ApplyToUser(op, users[i]);
        Applied(users[i := a.data], a.outcome)
    case Delete(id) =>
      var i := Find(users, id);
      if i == |users| then Applied(users, Skip) else Applied(users[..i] + users[i + 1..], Commit)
  }

  // ---------------------------------------------------------------- the callbacks

  class UserList {
    var users: seq<User>

    method FindIndex(id: string) returns (i: nat)
      ensures i == Find(users, id)
    {
      i := 0;
      while i < |users| && users[i].id != id
        invariant 0 <= i <= |users|
        invariant forall j :: 0 <= j < i ==> users[j].id != id
      {
        i := i + 1;
      }
    }

    method Insert(user: User) returns (outcome: Outcome)
      modifies this
      ensures Applied(users, outcome) == Apply(Txn.Insert(user), old(users))
      ensures if exists i :: 0 <= i < |old(users)| && old(users)[i].emailHash == user.emailHash
              then outcome == Throw && users == old(users) else outcome == Commit && users == old(users) + [user]
    {
      var i := 0;
      while i < |users|
        invariant 0 <= i <= |users|
        invariant users == old(users)
        invariant forall j :: 0 <= j < i ==> users[j].emailHash != user.emailHash
      {
        if users[i].emailHash == user.emailHash {
          return Throw;
        }
        i := i + 1;
      }
      users := users + [user];
      return Commit;
    }

    method UpdateById(id: string, op: UserOp) returns (outcome: Outcome)
      modifies this
      ensures Applied(users, outcome) == Apply(Update(id, op), old(users))
    {
      var i := FindIndex(id);
      if i == |users| {
        return Skip;
      }
      var a := ApplyToUser(op, users[i]);
      users := users[i := a.data];
      return a.outcome;
    }

    method DeleteById(id: string) returns (outcome: Outcome)
      modifies this
      ensures Applied(users, outcome) == Apply(Delete(id), old(users))
    {
      var i := FindIndex(id);
      if i == |users| {
        return Skip;
      }
      users := users[..i] + users[i + 1..];
      return Commit;
    }
  }

  // ---------------------------------------------------------------- invariants of the file

  predicate UniqueEmails(users: seq<User>) {
    forall i, j :: 0 <= i < j < |users| ==> users[i].emailHash != users[j].emailHash
  }

  /** An armed account carries a limit between 1 and 20 and a count below it. */
  predicate BelowLimit(u: User) {
    u.duress.Some? ==> 1.0 <= u.duress.value <= 20.0 && u.failures as real < u.duress.value
  }

  predicate Sound(users: seq<User>) {
    UniqueEmails(users) && forall i :: 0 <= i < |users| ==> BelowLimit(users[i])
  }

  /** New accounts are registered without the duress fields. */
  predicate Registers(t: Txn) {
    t.Insert? ==> t.user.duress.None?
  }

  lemma LimitRange(requested: Option<real>)
    ensures 1.0 <= Limit(requested) <= 20.0
    ensures requested.Some? && 1.0 <= requested.value <= 20.0 ==> Limit(requested) == requested.value
  {
  }

  lemma SoundInsert(user: User, users: seq<User>)
    requires Sound(users) && user.duress.None?
    ensures Sound(Effect(Apply, Insert(user), users))
  {
    hide Limit;
  }

  lemma OpKeepsBelowLimit(op: UserOp, u: User)
    requires BelowLimit(u)
    ensures var v := ApplyToUser(op, u).data; v.id == u.id && v.emailHash == u.emailHash && BelowLimit(v)
  {
  }

  lemma SoundUpdate(id: string, op: UserOp, users: seq<User>)
    requires Sound(users)
    ensures Sound(Effect(Apply, Update(id, op), users))
  {
    var i := Find(users, id);
    if i < |users| {
      OpKeepsBelowLimit(op, users[i]);
      hide ApplyToUser, BelowLimit, Find;
      var u := ApplyToUser(op, users[i]).data;
      var users' := Effect(Apply, Update(id, op), users);
      assert users' == users || users' == users[i := u];
      assert forall j :: 0 <= j < |users| ==> users'[j].emailHash == users[j].emailHash;
    }
  }

  /** Positions after a deletion. */
  lemma Removed(id: string, users: seq<User>)
    requires Find(users, id) < |users|
    ensures var d, users' := Find(users, id), Effect(Apply, Delete(id), users);
      && |users'| == |users| - 1
      && forall j :: 0 <= j < |users'| ==> users'[j] == users[if j < d then j else j + 1]
  {
    hide Find;
  }

  lemma SoundDelete(id: string, users: seq<User>)
    requires Sound(users)
    ensures Sound(Effect(Apply, Delete(id), users))
  {
    if Find(users, id) < |users| {
      Removed(id, users);
      hide Find, BelowLimit, Effect;
    }
  }

  lemma SoundStep(t: Txn, users: seq<User>)
    requires Sound(users) && Registers(t)
    ensures Sound(Effect(Apply, t, users))
  {
    hide Effect, Sound;
    match t {
      case Insert(user) => SoundInsert(user, users);
      case Update(id, op) => SoundUpdate(id, op, users);
      case Delete(id) => SoundDelete(id, users);
    }
  }

  lemma {:induction false} SoundFold(users: seq<User>, log: seq<Txn>)
    requires Sound(users) && forall i :: 0 <= i < |log| ==> Registers(log[i])
    ensures Sound(Fold(Apply, users, log))
  {
    if log == [] {
    } else {
      SoundFold(users, log[..|log| - 1]);
      SoundStep(log[|log| - 1], Fold(Apply, users, log[..|log| - 1]));
    }
  }

  /**
   Under every interleaving of workers: no two accounts share an e-mail, and an armed account's
   stored count stays below its limit, both on disk and in everything an unlocked reader sees.
   */
  lemma FileStaysSound(d0: seq<User>, steps: seq<Step<Txn>>)
    requires Sound(d0)
    requires forall i :: 0 <= i < |Run(Apply, Start(d0), steps).acquired| ==>
               Registers(Run(Apply, Start(d0), steps).acquired[i])
    ensures var s := Run(Apply, Start(d0), steps);
      Sound(s.file) && forall i :: 0 <= i < |s.seen| ==> Sound(s.seen[i].data)
  {
    var s := Run(Apply, Start(d0), steps);
    Serializable(Apply, d0, steps);
    SoundFold(d0, s.acquired[..Version(s)]);
    forall i | 0 <= i < |s.seen|
      ensures Sound(s.seen[i].data)
    {
      SoundFold(d0, s.acquired[..s.seen[i].version]);
    }
  }

  // ---------------------------------------------------------------- the duress budget

  /** The stored record of an id. */
  function Lookup(users: seq<User>, id: string): Option<User> {
    if Find(users, id) < |users| then Some(users[Find(users, id)]) else None
  }

  /** Operations that zero or remove an account's count. */
  predicate Resets(t: Txn, id: string) {
    match t
    case Insert(_) => false
    case Update(i, op) => i == id && (op.LoginSuccess? || op.Enforce? || op.Disarm?)
    case Delete(i) => i == id
  }

  predicate NoResets(log: seq<Txn>, id: string) {
    forall i :: 0 <= i < |log| ==> !Resets(log[i], id)
  }

  /** Failures of an account in a log that were counted, and that decided a wipe instead. */
  function Counted(users: seq<User>, log: seq<Txn>, id: string): nat {
    if log == [] then 0
    else
      var init := log[..|log| - 1];
      var u := Lookup(Fold(Apply, users, init), id);
      Counted(users, init, id)
      + if log[|log| - 1] == Update(id, DuressFailure) && u.Some? && u.value.duress.Some? && !WipesNext(u.value)
        then 1 else 0
  }

  function Wipes(users: seq<User>, log: seq<Txn>, id: string): nat {
    if log == [] then 0
    else
      var init := log[..|log| - 1];
      var u := Lookup(Fold(Apply, users, init), id);
      Wipes(users, init, id)
      + if log[|log| - 1] == Update(id, DuressFailure) && u.Some? && u.value.duress.Some? && WipesNext(u.value)
        then 1 else 0
  }

  function Failures(log: seq<Txn>, id: string): nat {
    if log == [] then 0
    else Failures(log[..|log| - 1], id) + if log[|log| - 1] == Update(id, DuressFailure) then 1 else 0
  }

  lemma FindUnique(users: seq<User>, id: string, i: nat)
    requires i < |users| && users[i].id == id
    requires forall j :: 0 <= j < i ==> users[j].id != id
    ensures Find(users, id) == i
  {
  }

  lemma OtherKeptByUpdate(other: string, op: UserOp, users: seq<User>, id: string)
    requires Lookup(users, id).Some? && other != id
    ensures Lookup(Effect(Apply, Update(other, op), users), id) == Lookup(users, id)
  {
    var k, i := Find(users, id), Find(users, other);
    var users' := Effect(Apply, Update(other, op), users);
    if i < |users| {
      var u := ApplyToUser(op, users[i]).data;
      assert u.id == users[i].id;
      hide ApplyToUser, Find;
      assert users' == users || users' == users[i := u];
      assert forall j :: 0 <= j < |users| ==> users'[j].id == users[j].id;
      FindUnique(users', id, k);
    }
  }

  lemma OtherKeptByDelete(other: string, users: seq<User>, id: string)
    requires Lookup(users, id).Some? && other != id
    ensures Lookup(Effect(Apply, Delete(other), users), id) == Lookup(users, id)
  {
    var k, d := Find(users, id), Find(users, other);
    if d < |users| {
      Removed(other, users);
      hide Find, Effect;
      FindUnique(Effect(Apply, Delete(other), users), id, if k < d then k else k - 1);
    }
  }

  lemma OtherKeptByInsert(user: User, users: seq<User>, id: string)
    requires Lookup(users, id).Some?
    ensures Lookup(Effect(Apply, Insert(user), users), id) == Lookup(users, id)
  {
    var k := Find(users, id);
    hide Find;
    FindUnique(Effect(Apply, Insert(user), users), id, k);
  }

  /** A transaction leaves the record of another account alone. */
  lemma OtherRecordsKept(t: Txn, users: seq<User>, id: string)
    requires Lookup(users, id).Some?
    requires (t.Update? || t.Delete?) ==> t.id != id
    ensures Lookup(Effect(Apply, t, users), id) == Lookup(users, id)
  {
    hide Effect, Lookup;
    match t {
      case Insert(user) => OtherKeptByInsert(user, users, id);
      case Update(other, op) => OtherKeptByUpdate(other, op, users, id);
      case Delete(other) => OtherKeptByDelete(other, users, id);
    }
  }

  lemma OwnRecordUpdated(op: UserOp, users: seq<User>, id: string)
    requires Lookup(users, id).Some?
    ensures var u := Lookup(users, id).value;
      Lookup(Effect(Apply, Update(id, op), users), id)
      == Some(if ApplyToUser(op, u).outcome == Commit then ApplyToUser(op, u).data else u)
  {
    FindUnique(Effect(Apply, Update(id, op), users), id, Find(users, id));
  }

  /**
   The duress budget. While an account armed with limit m sees no reset, its counted failures are
   exactly what its stored count grew by, so fewer than m are counted in all; every further
   failure decides a wipe.
   */
  lemma {:induction false} DuressBudget(users: seq<User>, log: seq<Txn>, id: string, m: real)
    requires NoResets(log, id)
    requires Lookup(users, id).Some? && Lookup(users, id).value.duress == Some(m)
    requires BelowLimit(Lookup(users, id).value)
    ensures Counted(users, log, id) + Wipes(users, log, id) == Failures(log, id)
    ensures var u := Lookup(Fold(Apply, users, log), id);
      && u.Some? && u.value.duress == Some(m)
      && u.value.failures == Lookup(users, id).value.failures + Counted(users, log, id)
      && u.value.failures as real < m
    ensures Counted(users, log, id) as real < m
    ensures Failures(log, id) as real >= m ==> Wipes(users, log, id) >= 1
  {
    if log == [] {
    } else {
      var init, t := log[..|log| - 1], log[|log| - 1];
      DuressBudget(users, init, id, m);
      var mid := Fold(Apply, users, init);
      if t.Update? && t.id == id {
        OwnRecordUpdated(t.op, mid, id);
      } else {
        OtherRecordsKept(t, mid, id);
      }
      LimitRange(Some(m));
    }
  }

  lemma {:induction false} FoldSplit(users: seq<User>, a: seq<Txn>, b: seq<Txn>)
    ensures Fold(Apply, users, a + b) == Fold(Apply, Fold(Apply, users, a), b)
  {
    if b == [] {
      assert a + b == a;
    } else {
      FoldSplit(users, a, b[..|b| - 1]);
      assert (a + b)[..|a + b| - 1] == a + b[..|b| - 1];
    }
  }

  /** The same budget inside any interleaving, between any two points of the acquisition order. */
  lemma DuressBudgetInRun(d0: seq<User>, steps: seq<Step<Txn>>, i: nat, j: nat, id: string, m: real)
    requires Sound(d0)
    requires var s := Run(Apply, Start(d0), steps);
      && i <= j <= |s.acquired|
      && (forall k :: 0 <= k < |s.acquired| ==> Registers(s.acquired[k]))
      && NoResets(s.acquired[i..j], id)
      && Lookup(Fold(Apply, d0, s.acquired[..i]), id).Some?
      && Lookup(Fold(Apply, d0, s.acquired[..i]), id).value.duress == Some(m)
    ensures var log := Run(Apply, Start(d0), steps).acquired;
      var at := Fold(Apply, d0, log[..i]);
      && Counted(at, log[i..j], id) as real < m
      && Counted(at, log[i..j], id) + Wipes(at, log[i..j], id) == Failures(log[i..j], id)
      && Lookup(Fold(Apply, d0, log[..j]), id) == Lookup(Fold(Apply, at, log[i..j]), id)
      && var u := Lookup(Fold(Apply, d0, log[..j]), id); u.Some? && u.value.duress == Some(m)
  {
    var log := Run(Apply, Start(d0), steps).acquired;
    SoundFold(d0, log[..i]);
    DuressBudget(Fold(Apply, d0, log[..i]), log[i..j], id, m);
    FoldSplit(d0, log[..i], log[i..j]);
    assert log[..i] + log[i..j] == log[..j];
  }

  /**
   A login decides by an unlocked read whether a failure counts. While an account armed with limit m
   sees no reset, every read in that stretch of the history finds it armed with that limit: every
   login that fails there enters the counter, so the budget above is a budget of failed logins.
   */
  lemma SnapshotsSeeItArmed(d0: seq<User>, steps: seq<Step<Txn>>, i: nat, j: nat, id: string, m: real, r: nat)
    requires Sound(d0)
    requires var s := Run(Apply, Start(d0), steps);
      && i <= j <= |s.acquired|
      && (forall k :: 0 <= k < |s.acquired| ==> Registers(s.acquired[k]))
      && NoResets(s.acquired[i..j], id)
      && Lookup(Fold(Apply, d0, s.acquired[..i]), id).Some?
      && Lookup(Fold(Apply, d0, s.acquired[..i]), id).value.duress == Some(m)
      && r < |s.seen| && i <= s.seen[r].version <= j
    ensures var u := Lookup(Run(Apply, Start(d0), steps).seen[r].data, id);
      u.Some? && u.value.duress == Some(m) && u.value.failures as real < m
  {
    hide Run, Fold, Find, Exclusive;
    var s := Run(Apply, Start(d0), steps);
    var k := s.seen[r].version;
    Serializable(Apply, d0, steps);
    assert s.acquired[i..k] == s.acquired[i..j][..k - i];
    DuressBudgetInRun(d0, steps, i, k, id, m);
    SoundFold(d0, s.acquired[..k]);
  }

  // ---------------------------------------------------------------- what resets and arming do

  /** A successful login, arming or disarming leaves the account with a failure count of zero. */
  lemma ResetsReset(users: seq<User>, id: string, op: UserOp)
    requires Lookup(users, id).Some? && Resets(Update(id, op), id)
    ensures Lookup(Effect(Apply, Update(id, op), users), id).Some?
    ensures Lookup(Effect(Apply, Update(id, op), users), id).value.failures == 0
  {
    OwnRecordUpdated(op, users, id);
  }

  /** Arming stores the requested limit when it lies in 1..20, three when none is given, and the nearer bound otherwise. */
  lemma ArmingStores(users: seq<User>, id: string, limit: Option<real>)
    requires Lookup(users, id).Some?
    ensures var u := Lookup(Effect(Apply, Update(id, Enforce(true, limit)), users), id);
      && u.Some? && u.value.duress.Some?
      && (limit.None? || limit.value == 0.0 ==> u.value.duress.value == 3.0)
      && (limit.Some? && 1.0 <= limit.value <= 20.0 ==> u.value.duress.value == limit.value)
      && (limit.Some? && limit.value > 20.0 ==> u.value.duress.value == 20.0)
      && (limit.Some? && limit.value < 1.0 && limit.value != 0.0 ==> u.value.duress.value == 1.0)
  {
    OwnRecordUpdated(Enforce(true, limit), users, id);
  }

  /** Disarming, by either request, leaves no limit. */
  lemma DisarmingClears(users: seq<User>, id: string, limit: Option<real>)
    requires Lookup(users, id).Some?
    ensures Lookup(Effect(Apply, Update(id, Disarm), users), id).Some?
    ensures Lookup(Effect(Apply, Update(id, Disarm), users), id).value.duress == None
    ensures Lookup(Effect(Apply, Update(id, Enforce(false, limit)), users), id).Some?
    ensures Lookup(Effect(Apply, Update(id, Enforce(false, limit)), users), id).value.duress == None
  {
    OwnRecordUpdated(Disarm, users, id);
    OwnRecordUpdated(Enforce(false, limit), users, id);
  }

  /** An edit or a login changes nothing else: identity, e-mail and arming stay, and the new fields are stored. */
  lemma EditsStore(users: seq<User>, id: string, rest: string)
    requires Lookup(users, id).Some?
    ensures var u := Lookup(users, id).value;
      && Lookup(Effect(Apply, Update(id, Edit(rest)), users), id) == Some(u.(rest := rest))
      && Lookup(Effect(Apply, Update(id, LoginSuccess(rest)), users), id) == Some(u.(rest := rest, failures := 0))
  {
    OwnRecordUpdated(Edit(rest), users, id);
    OwnRecordUpdated(LoginSuccess(rest), users, id);
  }

  /** A new account is found under its id, and its e-mail is taken from then on; a taken e-mail changes nothing. */
  lemma InsertAdds(users: seq<User>, user: User)
    ensures var users' := Effect(Apply, Insert(user), users);
      if exists i :: 0 <= i < |users| && users[i].emailHash == user.emailHash
      then users' == users && Apply(Insert(user), users).outcome == Throw
      else users' == users + [user] && (Lookup(users, user.id).None? ==> Lookup(users', user.id) == Some(user))
    ensures EmailTaken(Effect(Apply, Insert(user), users), user.emailHash)
  {
    var users' := Effect(Apply, Insert(user), users);
    if !EmailTaken(users, user.emailHash) {
      assert users'[|users|] == user;
      if Lookup(users, user.id).None? {
        FindUnique(users', user.id, |users|);
      }
    }
  }

  // ---------------------------------------------------------------- the budget from a reset on

  /** How an integer count relates to a limit once it has stopped growing. */
  predicate JustBelow(count: nat, m: real) { count as real < m <= (count + 1) as real }

  /**
   From a reset on, while no other follows: the stored count is the number of failures as long as
   that is below the limit m, and stops at the last integer below m.
   */
  lemma {:induction false} CountFromReset(users: seq<User>, log: seq<Txn>, id: string, m: real)
    requires NoResets(log, id)
    requires Lookup(users, id).Some? && Lookup(users, id).value.duress == Some(m) && 1.0 <= m <= 20.0
    requires Lookup(users, id).value.failures == 0
    ensures var u := Lookup(Fold(Apply, users, log), id);
      && u.Some? && u.value.duress == Some(m)
      && (Failures(log, id) as real < m ==> u.value.failures == Failures(log, id))
      && (Failures(log, id) as real >= m ==> JustBelow(u.value.failures, m))
  {
    if log == [] {
    } else {
      var init, t := log[..|log| - 1], log[|log| - 1];
      CountFromReset(users, init, id, m);
      var mid := Fold(Apply, users, init);
      LimitRange(Some(m));
      hide Find, Limit, Fold;
      if t.Update? && t.id == id {
        OwnRecordUpdated(t.op, mid, id);
        FoldLast(users, log);
      } else {
        OtherRecordsKept(t, mid, id);
        FoldLast(users, log);
      }
    }
  }

  lemma FoldLast(users: seq<User>, log: seq<Txn>)
    requires log != []
    ensures Fold(Apply, users, log) == Effect(Apply, log[|log| - 1], Fold(Apply, users, log[..|log| - 1]))
  {
  }

  /**
   The k-th failure after a reset, with limit m: for k < m it is counted, and the stored count
   becomes k; for k >= m it decides a wipe, and nothing is stored.
   */
  lemma KthFailure(users: seq<User>, log: seq<Txn>, id: string, m: real, k: nat)
    requires NoResets(log, id) && Failures(log, id) + 1 == k
    requires Lookup(users, id).Some? && Lookup(users, id).value.duress == Some(m) && 1.0 <= m <= 20.0
    requires Lookup(users, id).value.failures == 0
    ensures var before := Fold(Apply, users, log);
      var u, after := Lookup(before, id), Effect(Apply, Update(id, DuressFailure), before);
      && u.Some? && u.value.duress.Some?
      && (WipesNext(u.value) <==> k as real >= m)
      && (k as real < m ==> Lookup(after, id) == Some(u.value.(failures := k)))
      && (k as real >= m ==> after == before)
  {
    CountFromReset(users, log, id, m);
    LimitRange(Some(m));
    var before := Fold(Apply, users, log);
    OwnRecordUpdated(DuressFailure, before, id);
    hide Fold, Limit;
  }
}
