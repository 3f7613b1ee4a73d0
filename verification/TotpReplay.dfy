/**
 One-time-password verification with its set of used periods and the background pruning of that set.
 A verification reads the clock once and then tries three periods, awaiting the code generator before
 each comparison; the comparison and the use of the period are one step. Section 5.2 of RFC 6238 demands
 that no period is accepted twice.
 */
module TotpReplay {
  import opened Common

  const PERIOD := 30000

  /** The number of a 30-second period; the clock starts at the epoch and may be corrected back by one period. */
  type Period = p: int | -1 <= p

  type Secret = string
  type Key = string

  /** The code generator, which depends on the period of its timestamp, and the digest of secrets. */
  datatype Env = Env(otp: (Secret, Period) -> string, hash: Secret -> Key)

  type Used = map<Key, set<Period>>

  function PeriodOf(time: int): Period
    requires time >= -PERIOD
  {
    time / PERIOD
  }

  /** The three clock offsets, in the order they are tried. */
  function Drift(i: nat): int { if i == 0 then -30000 else if i == 1 then 0 else 30000 }

  predicate IsDigit(c: char) { '0' <= c <= '9' }

  predicate WellFormed(code: string) { 6 <= |code| <= 8 && forall i :: 0 <= i < |code| ==> IsDigit(code[i]) }

  // ---------------------------------------------------------------- operations

  predicate Has(used: Used, key: Key, period: Period) { key in used && period in used[key] }

  function Recorded(used: Used, key: Key, period: Period): Used {
    used[key := (if key in used then used[key] else {}) + {period}]
  }

  function Cutoff(now: nat): int { PeriodOf(now) - 4 }

  function Kept(periods: set<Period>, cutoff: int): set<Period> { set p | p in periods && p >= cutoff }

  /** The used periods not older than the cutoff; a secret with none left is forgotten. */
  function Pruned(used: Used, cutoff: int): Used {
    map k | k in used && Kept(used[k], cutoff) != {} :: Kept(used[k], cutoff)
  }

  lemma PrunedHas(used: Used, cutoff: int, key: Key, period: Period)
    ensures Has(Pruned(used, cutoff), key, period) <==> Has(used, key, period) && period >= cutoff
  {
    if Has(used, key, period) && period >= cutoff {
      assert period in Kept(used[key], cutoff);
    }
  }

  /** One secret's periods, pruned one by one. */
  method PruneSet(periods: set<Period>, cutoff: int) returns (kept: set<Period>)
    ensures kept == Kept(periods, cutoff)
  {
    kept := periods;
    var left := periods;
    while left != {}
      invariant left <= periods
      invariant kept == set p | p in periods && (p in left || p >= cutoff)
      decreases |left|
    {
      var p :| p in left;
      if p < cutoff {
        kept := kept - {p};
      }
      left := left - {p};
    }
  }

  class UsedPeriods {
    var used: Used

    constructor ()
      ensures used == map[]
    {
      used := map[];
    }

    /** The interval callback. */
    method Prune(now: nat)
      modifies this
      ensures used == Pruned(old(used), Cutoff(now))
    {
      var cutoff := now / PERIOD - 4;
      var left := used.Keys;
      ghost var before := used;
      while left != {}
        invariant left <= before.Keys
        invariant forall k :: k in left ==> k in used && used[k] == before[k]
        invariant forall k :: k in used ==> k in before
        invariant forall k :: k in before && k !in left ==>
                    (if Kept(before[k], cutoff) == {} then k !in used else k in used && used[k] == Kept(before[k], cutoff))
        decreases |left|
      {
        var k :| k in left;
        var periods := PruneSet(used[k], cutoff);
        used := used[k := periods];
        if |periods| == 0 {
          used := used - {k};
        }
        left := left - {k};
      }
      assert used == Pruned(before, cutoff);
    }

    /** The comparison after one await: no match, a replay, or a first use that is recorded. */
    method Try(env: Env, secret: Secret, code: string, clock: nat, i: nat) returns (verdict: Verdict)
      requires i < 3
      modifies this
      ensures verdict == Judge(env, old(used), secret, code, clock, i)
      ensures used == if verdict.Accepted? then Recorded(old(used), env.hash(secret), verdict.period) else old(used)
    {
      var ts := clock + Drift(i);
      var period := ts / PERIOD;
      var otp := env.otp(secret, period);
      if otp != code {
        return NoMatch;
      }
      var key := env.hash(secret);
      var periods := if key in used then used[key] else {};
      if period in periods {
        return Replayed;
      }
      used := used[key := periods + {period}];
      return Accepted(period);
    }
  }

  datatype Verdict = NoMatch | Replayed | Accepted(period: Period)

  function Judge(env: Env, used: Used, secret: Secret, code: string, clock: nat, i: nat): Verdict {
    var period := PeriodOf(clock + Drift(i));
    if env.otp(secret, period) != code then NoMatch
    else if Has(used, env.hash(secret), period) then Replayed
    else Accepted(period)
  }

  // ---------------------------------------------------------------- interleaved runs

  /** A verification in progress: its clock reading and the next period to try. */
  datatype Pending = Pending(secret: Secret, code: string, clock: nat, next: nat)

  /** The accepted pairs are kept as a history. */
  datatype State = State(now: nat, used: Used, pending: map<nat, Pending>, accepted: seq<(Key, Period)>)

  const START := State(0, map[], map[], [])

  datatype Step = Tick(to: nat) | Prune | Begin(id: nat, secret: Secret, code: string) | Compare(id: nat)

  function Next(env: Env, s: State, step: Step): State {
    match step
    case Tick(to) => s.(now := Max(s.now, to))
    case Prune => s.(used := Pruned(s.used, Cutoff(s.now)))
    case Begin(id, secret, code) =>
      if id in s.pending || !WellFormed(code) then s
      else s.(pending := s.pending[id := Pending(secret, code, s.now, 0)])
    case Compare(id) =>
      if id !in s.pending then s
      else
        var v := s.pending[id];
        match Judge(env, s.used, v.secret, v.code, v.clock, v.next)
        case Accepted(period) =>
          State(s.now, Recorded(s.used, env.hash(v.secret), period), s.pending - {id},
                s.accepted + [(env.hash(v.secret), period)])
        case Replayed => s.(pending := s.pending - {id})
        case NoMatch =>
          s.(pending := if v.next < 2 then s.pending[id := v.(next := v.next + 1)] else s.pending - {id})
  }

  function Run(env: Env, s: State, steps: seq<Step>): State
    decreases |steps|
  {
    if steps == [] then s else Run(env, Next(env, s, steps[0]), steps[1..])
  }

  /** Every comparison comes at most `slack` milliseconds after its verification's clock reading. */
  predicate Punctual(env: Env, s: State, steps: seq<Step>, slack: int)
    decreases |steps|
  {
    steps == [] ||
    (&& (steps[0].Compare? && steps[0].id in s.pending ==> s.now <= s.pending[steps[0].id].clock + slack)
     && Punctual(env, Next(env, s, steps[0]), steps[1..], slack))
  }

  predicate Distinct(log: seq<(Key, Period)>) { forall i, j :: 0 <= i < j < |log| ==> log[i] != log[j] }

  /** An accepted period is still recorded, or no punctual comparison can ask for it any more. */
  predicate Remembered(s: State, pair: (Key, Period)) {
    Has(s.used, pair.0, pair.1) || s.now >= PERIOD * (pair.1 + 5)
  }

  ghost predicate Safe(s: State) {
    && Distinct(s.accepted)
    && (forall pair :: pair in s.accepted ==> Remembered(s, pair))
    && (forall id :: id in s.pending ==> s.pending[id].next < 3)
  }

  lemma PruneKeepsMemory(s: State, pair: (Key, Period))
    requires Remembered(s, pair)
    ensures Remembered(s.(used := Pruned(s.used, Cutoff(s.now))), pair)
  {
    PrunedHas(s.used, Cutoff(s.now), pair.0, pair.1);
  }

  /** The matched period is at most one behind the clock reading. */
  lemma MatchedPeriodIsRecent(clock: nat, i: nat)
    ensures clock < PERIOD * (PeriodOf(clock + Drift(i)) + 2)
  {
  }

  /** A punctual comparison that finds its period unrecorded has never accepted it before. */
  lemma FirstUse(env: Env, s: State, id: nat)
    requires Safe(s) && id in s.pending && s.now <= s.pending[id].clock + 90000
    ensures var v := s.pending[id];
      var verdict := Judge(env, s.used, v.secret, v.code, v.clock, v.next);
      verdict.Accepted? ==> (env.hash(v.secret), verdict.period) !in s.accepted
  {
    var v := s.pending[id];
    MatchedPeriodIsRecent(v.clock, v.next);
    var pair := (env.hash(v.secret), PeriodOf(v.clock + Drift(v.next)));
    assert pair in s.accepted ==> Remembered(s, pair);
  }

  lemma StepKeepsSafe(env: Env, s: State, step: Step)
    requires Safe(s)
    requires step.Compare? && step.id in s.pending ==> s.now <= s.pending[step.id].clock + 90000
    ensures Safe(Next(env, s, step))
  {
    var s' := Next(env, s, step);
    if step.Compare? && step.id in s.pending {
      FirstUse(env, s, step.id);
    }
    forall pair | pair in s'.accepted
      ensures Remembered(s', pair)
    {
      if pair in s.accepted {
        assert Remembered(s, pair);
        PruneKeepsMemory(s, pair);
      }
    }
  }

  /** With at most 90 seconds between clock reading and comparison, no period is accepted twice. */
  lemma {:induction false} NoReplay(env: Env, s: State, steps: seq<Step>, slack: int)
    requires Safe(s) && slack <= 90000 && Punctual(env, s, steps, slack)
    ensures Distinct(Run(env, s, steps).accepted)
    decreases |steps|
  {
    if steps == [] {
    } else {
      StepKeepsSafe(env, s, steps[0]);
      NoReplay(env, Next(env, s, steps[0]), steps[1..], slack);
    }
  }

  // ---------------------------------------------------------------- the slack is exact

  /** The second comparison waits 90001 ms; pruning has just forgotten period zero. */
  function LateRun(env: Env, secret: Secret): seq<Step> {
    var code := env.otp(secret, 0);
    [Tick(30000), Begin(0, secret, code), Compare(0), Tick(59999), Begin(1, secret, code), Tick(150000), Prune, Compare(1)]
  }

  predicate OnTime(s: State, step: Step, slack: int) {
    step.Compare? && step.id in s.pending ==> s.now <= s.pending[step.id].clock + slack
  }

  /** A run given state by state. */
  lemma {:induction false} Trace(env: Env, steps: seq<Step>, states: seq<State>, slack: int)
    requires |states| == |steps| + 1
    requires forall i :: 0 <= i < |steps| ==>
               OnTime(states[i], steps[i], slack) && Next(env, states[i], steps[i]) == states[i + 1]
    ensures Punctual(env, states[0], steps, slack) && Run(env, states[0], steps) == states[|steps|]
    decreases |steps|
  {
    hide Next;
    if steps == [] {
    } else {
      assert OnTime(states[0], steps[0], slack) && Next(env, states[0], steps[0]) == states[1];
      Trace(env, steps[1..], states[1..], slack);
    }
  }

  /** A verification of period zero's code against an empty record accepts it. */
  lemma AcceptsFirst(env: Env, s: State, id: nat)
    requires s.used == map[] && id in s.pending && s.pending[id].next == 0
    requires var v := s.pending[id]; PeriodOf(v.clock - 30000) == 0 && v.code == env.otp(v.secret, 0)
    ensures var key := env.hash(s.pending[id].secret);
      Next(env, s, Compare(id)) == State(s.now, map[key := {0}], s.pending - {id}, s.accepted + [(key, 0)])
  {
    var v := s.pending[id];
    assert Judge(env, s.used, v.secret, v.code, v.clock, v.next) == Accepted(0);
    var empty: set<Period> := {};
    assert empty + {0} == {0};
  }

  lemma LateRunReplays(env: Env, secret: Secret, slack: int)
    requires WellFormed(env.otp(secret, 0)) && slack > 90000
    ensures Punctual(env, START, LateRun(env, secret), slack)
    ensures Run(env, START, LateRun(env, secret)).accepted == [(env.hash(secret), 0), (env.hash(secret), 0)]
  {
    var code, key := env.otp(secret, 0), env.hash(secret);
    var steps := LateRun(env, secret);
    var s1 := State(30000, map[], map[], []);
    var s2 := s1.(pending := map[0 := Pending(secret, code, 30000, 0)]);
    var s3 := State(30000, map[key := {0}], map[], [(key, 0)]);
    var s4 := s3.(now := 59999);
    var s5 := s4.(pending := map[1 := Pending(secret, code, 59999, 0)]);
    var s6 := s5.(now := 150000);
    var s7 := s6.(used := map[]);
    var s8 := State(150000, map[key := {0}], map[], [(key, 0), (key, 0)]);
    assert Next(env, START, steps[0]) == s1;
    assert Next(env, s1, steps[1]) == s2;
    AcceptsFirst(env, s2, 0);
    assert Next(env, s3, steps[3]) == s4;
    assert Next(env, s4, steps[4]) == s5;
    assert Next(env, s5, steps[5]) == s6;
    assert Next(env, s6, steps[6]) == s7 by {
      assert Kept({0}, 1) == {};
    }
    AcceptsFirst(env, s7, 1);
    hide Next, Run, Punctual;
    Trace(env, steps, [START, s1, s2, s3, s4, s5, s6, s7, s8], slack);
  }

  /** No run whose comparisons keep to the slack replays a period, if and only if the slack is at most 90 s. */
  lemma SlackIsExact(env: Env, secret: Secret, slack: int)
    requires WellFormed(env.otp(secret, 0))
    ensures (forall steps :: Punctual(env, START, steps, slack) ==> Distinct(Run(env, START, steps).accepted))
            <==> slack <= 90000
  {
    if slack <= 90000 {
      forall steps | Punctual(env, START, steps, slack)
        ensures Distinct(Run(env, START, steps).accepted)
      {
        NoReplay(env, START, steps, slack);
      }
    } else {
      LateRunReplays(env, secret, slack);
      var log := Run(env, START, LateRun(env, secret)).accepted;
      assert log[0] == log[1];
    }
  }

  // ---------------------------------------------------------------- which codes are accepted

  /** A code for the current period or one of its two neighbours, not used before, is accepted by one comparison. */
  lemma NeighboursAreTried(env: Env, used: Used, secret: Secret, code: string, clock: nat, p: Period)
    requires clock / 30000 - 1 <= p <= clock / 30000 + 1
    requires env.otp(secret, p) == code && !Has(used, env.hash(secret), p)
    ensures exists i :: 0 <= i < 3 && Judge(env, used, secret, code, clock, i) == Accepted(p)
  {
    var i := p - clock / 30000 + 1;
    PeriodTried(clock, i);
    assert Judge(env, used, secret, code, clock, i) == Accepted(p);
  }

  /** The i-th comparison is for the period i - 1 after the current one. */
  lemma PeriodTried(clock: nat, i: nat)
    requires i < 3
    ensures PeriodOf(clock + Drift(i)) == clock / 30000 + i - 1
  {
  }

  /** The earliest of the three periods whose code this is. */
  function FirstMatch(env: Env, secret: Secret, code: string, clock: nat): Option<Period> {
    var p := clock / 30000;
    if env.otp(secret, p - 1) == code then Some(p - 1)
    else if env.otp(secret, p) == code then Some(p)
    else if env.otp(secret, p + 1) == code then Some(p + 1)
    else None
  }

  /** What is left to try after the first n periods. */
  function MatchFrom(env: Env, secret: Secret, code: string, clock: nat, n: nat): Option<Period>
    decreases 3 - n
  {
    if n >= 3 then None
    else if env.otp(secret, clock / 30000 + n - 1) == code then Some(clock / 30000 + n - 1)
    else MatchFrom(env, secret, code, clock, n + 1)
  }

  /** The state when a verification of the given period, if any, has ended. */
  function Verified(env: Env, s: State, secret: Secret, found: Option<Period>): State {
    if found.None? || Has(s.used, env.hash(secret), found.value) then s
    else s.(used := Recorded(s.used, env.hash(secret), found.value),
            accepted := s.accepted + [(env.hash(secret), found.value)])
  }

  function Compares(id: nat, n: nat): seq<Step> { if n == 0 then [] else [Compare(id)] + Compares(id, n - 1) }

  /** Comparing on to the end decides by the first match that is left. */
  lemma {:induction false} ComparesDecide(env: Env, s: State, id: nat, n: nat)
    requires id in s.pending && n < 3 && s.pending[id].next == n
    ensures var v := s.pending[id];
      Run(env, s, Compares(id, 3 - n)) ==
      Verified(env, s.(pending := s.pending - {id}), v.secret, MatchFrom(env, v.secret, v.code, v.clock, n))
    decreases 3 - n
  {
    var v := s.pending[id];
    PeriodTried(v.clock, n);
    var steps := Compares(id, 3 - n);
    assert steps[1..] == Compares(id, 2 - n);
    var s' := Next(env, s, Compare(id));
    if id in s'.pending {
      ComparesDecide(env, s', id, n + 1);
      assert s'.pending - {id} == s.pending - {id};
    } else {
      NothingPending(env, s', id, 2 - n);
    }
  }

  lemma {:induction false} NothingPending(env: Env, s: State, id: nat, n: nat)
    requires id !in s.pending
    ensures Run(env, s, Compares(id, n)) == s
  {
    if n == 0 {
    } else {
      assert Compares(id, n)[1..] == Compares(id, n - 1);
      NothingPending(env, s, id, n - 1);
    }
  }

  /**
   A verification from its start, in any state: a code of six to eight digits is accepted if and only
   if the first of the three periods around the clock that has this code is unrecorded, and then
   exactly that period is recorded. Any other text changes nothing.
   */
  lemma VerificationDecides(env: Env, s: State, id: nat, secret: Secret, code: string)
    requires id !in s.pending
    ensures var s' := Run(env, s, [Begin(id, secret, code)] + Compares(id, 3));
      if 6 <= |code| <= 8 && forall i :: 0 <= i < |code| ==> '0' <= code[i] <= '9'
      then s' == Verified(env, s, secret, FirstMatch(env, secret, code, s.now))
      else s' == s
  {
    var steps := [Begin(id, secret, code)] + Compares(id, 3);
    assert steps[1..] == Compares(id, 3);
    var s1 := Next(env, s, Begin(id, secret, code));
    if id in s1.pending {
      ComparesDecide(env, s1, id, 0);
      assert s1.pending - {id} == s.pending;
      MatchUnrolls(env, secret, code, s.now);
    } else {
      NothingPending(env, s1, id, 3);
    }
  }

  lemma MatchUnrolls(env: Env, secret: Secret, code: string, clock: nat)
    ensures MatchFrom(env, secret, code, clock, 0) == FirstMatch(env, secret, code, clock)
  {
    assert MatchFrom(env, secret, code, clock, 3) == None;
    assert MatchFrom(env, secret, code, clock, 2) ==
           if env.otp(secret, clock / 30000 + 1) == code then Some(clock / 30000 + 1) else None;
  }

  /** Recording adds exactly one pair. */
  lemma RecordedHas(used: Used, key: Key, period: Period, k: Key, p: Period)
    ensures Has(Recorded(used, key, period), k, p) <==> Has(used, k, p) || (k == key && p == period)
  {
  }
}
