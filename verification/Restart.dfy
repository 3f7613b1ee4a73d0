/**
 Restart discipline of the monitor: the risk engine asks for restarts, the action engine counts
 and spaces them, and each keeps its own attempt counter. Instants are whole seconds; a handler
 reads the clock once to test the back-off and once more to stamp the attempt.
 */
module Restart {
  import opened Common

  datatype Healing = Healing(restartDaemon: bool, restartWeb: bool, restartNginx: bool,
                             maxRestarts: nat, backoffInitial: nat)

  datatype Snapshot = Snapshot(daemonActive: bool, daemonSocketOk: bool, webPm2Online: bool, webPortOpen: bool,
                               nginxActive: bool, nginxPortOk: bool)

  datatype Action = RestartDaemon | RestartWeb | RestartNginx | Alert

  datatype ServiceState = ServiceState(attempts: nat, lastAttemptAt: Option<int>)

  const FRESH: ServiceState := ServiceState(0, None)

  datatype Clock = Clock(check: int, stamp: int)

  /** Delay demanded before the next attempt; the product is a u64 and wraps. */
  function Backoff(initial: nat, attempts: nat): nat {
    initial * Pow2(Min(attempts, 7)) % U64
  }

  /** The delay is the documented doubling exactly as long as the product fits. */
  lemma BackoffDoubles(initial: nat, attempts: nat)
    ensures Backoff(initial, attempts) == initial * Pow2(Min(attempts, 7))
            <==> initial * Pow2(Min(attempts, 7)) < U64
  {
    var p := initial * Pow2(Min(attempts, 7));
    assert 0 <= p;
    assert p < U64 ==> p % U64 == p;
  }

  predicate CanRetry(st: ServiceState, initial: nat, maxAttempts: nat, now: int) {
    && st.attempts < maxAttempts
    && (st.lastAttemptAt.Some? ==> Max(0, now - st.lastAttemptAt.value) >= Backoff(initial, st.attempts))
  }

  // ---------------------------------------------------------------- one service

  /** The two counters kept for one service: the risk engine's and the action engine's. */
  datatype Service = Service(risk: nat, act: ServiceState)

  const START: Service := Service(0, FRESH)

  /** What one poll means for one service; `processed` is whether the action engine ran at all. */
  datatype Poll = Poll(ok: bool, enabled: bool, processed: bool, maxRestarts: nat, initial: nat, clock: Clock)

  function AfterEvaluate(s: Service, p: Poll): Service {
    if p.ok then s.(risk := 0) else s
  }

  predicate Requested(s: Service, p: Poll) {
    !p.ok && p.enabled && s.risk < p.maxRestarts
  }

  function Attempted(s: Service, initial: nat, maxRestarts: nat, c: Clock): Service {
    if CanRetry(s.act, initial, maxRestarts, c.check)
    then Service(s.act.attempts + 1, ServiceState(s.act.attempts + 1, Some(c.stamp)))
    else s
  }

  function AfterReset(s: Service): Service {
    if s.risk == 0 && s.act.attempts > 0 then Service(0, FRESH) else s
  }

  /** One poll of a service whose counters are reset on recovery (daemon and web). */
  function Step(s: Service, p: Poll): Service {
    var s1 := AfterEvaluate(s, p);
    var s2 := if Requested(s1, p) then Attempted(s1, p.initial, p.maxRestarts, p.clock) else s1;
    if p.processed then AfterReset(s2) else s2
  }

  predicate Issues(s: Service, p: Poll) {
    Requested(AfterEvaluate(s, p), p) && CanRetry(s.act, p.initial, p.maxRestarts, p.clock.check)
  }

  /** A restart that was issued: its time, its attempt number and the base delay in force. */
  datatype Issue = Issue(at: int, attempt: nat, initial: nat)

  function Run(s: Service, polls: seq<Poll>): Service
    decreases |polls|
  {
    if polls == [] then s else Run(Step(s, polls[0]), polls[1..])
  }

  function Restarts(s: Service, polls: seq<Poll>): seq<Issue>
    decreases |polls|
  {
    if polls == [] then []
    else (if Issues(s, polls[0]) then [Issue(polls[0].clock.stamp, s.act.attempts + 1, polls[0].initial)] else [])
         + Restarts(Step(s, polls[0]), polls[1..])
  }

  /** A non-zero risk counter equals the action counter, and a counted attempt has a time. */
  predicate InStep(s: Service) {
    && (s.risk != 0 ==> s.risk == s.act.attempts)
    && (s.act.attempts > 0 <==> s.act.lastAttemptAt.Some?)
  }

  lemma {:induction false} CountersAgree(s: Service, polls: seq<Poll>)
    requires InStep(s)
    ensures InStep(Run(s, polls))
    decreases |polls|
  {
    if polls == [] {
    } else {
      CountersAgree(Step(s, polls[0]), polls[1..]);
    }
  }

  /** Clock readings never go backwards along the run. */
  predicate Timed(s: Service, polls: seq<Poll>) {
    && (forall i :: 0 <= i < |polls| ==> polls[i].clock.check <= polls[i].clock.stamp)
    && (forall i, j :: 0 <= i < j < |polls| ==> polls[i].clock.stamp <= polls[j].clock.check)
    && (s.act.lastAttemptAt.Some? ==> forall i :: 0 <= i < |polls| ==> s.act.lastAttemptAt.value <= polls[i].clock.check)
  }

  predicate Outage(polls: seq<Poll>) {
    forall i :: 0 <= i < |polls| ==> !polls[i].ok && polls[i].processed
  }

  predicate Capped(polls: seq<Poll>, cap: nat) {
    forall i :: 0 <= i < |polls| ==> polls[i].maxRestarts <= cap
  }

  lemma {:induction false} RestartsLeft(s: Service, polls: seq<Poll>, cap: nat)
    requires InStep(s) && Outage(polls) && Capped(polls, cap)
    ensures |Restarts(s, polls)| <= if s.risk == 0 then cap else Max(0, cap - s.risk)
    decreases |polls|
  {
    if polls == [] {
    } else {
      RestartsLeft(Step(s, polls[0]), polls[1..], cap);
    }
  }

  /** After any history, one outage sees at most the configured number of restarts. */
  lemma RestartsPerOutage(history: seq<Poll>, outage: seq<Poll>, cap: nat)
    requires Outage(outage) && Capped(outage, cap)
    ensures |Restarts(Run(START, history), outage)| <= cap
  {
    CountersAgree(START, history);
    RestartsLeft(Run(START, history), outage, cap);
  }

  /** The next restart carries the next attempt number and waits out the back-off. */
  predicate Follows(attempt: nat, at: int, next: Issue) {
    next.attempt == attempt + 1 && next.at >= at + Backoff(next.initial, attempt)
  }

  predicate Spaced(rs: seq<Issue>) {
    forall i :: 0 < i < |rs| ==> Follows(rs[i - 1].attempt, rs[i - 1].at, rs[i])
  }

  lemma SpacedPrepend(r: Issue, rs: seq<Issue>)
    requires Spaced(rs)
    requires rs != [] ==> Follows(r.attempt, r.at, rs[0])
    ensures Spaced([r] + rs)
  {
    hide Follows;
    var all := [r] + rs;
    forall i | 0 < i < |all|
      ensures Follows(all[i - 1].attempt, all[i - 1].at, all[i])
    {
      assert all[i] == rs[i - 1];
    }
  }

  /** While the risk counter is non-zero, an issued restart waited out the back-off. */
  lemma IssueFollows(s: Service, p: Poll)
    requires InStep(s) && s.risk != 0 && Issues(s, p)
    requires s.act.lastAttemptAt.value <= p.clock.check <= p.clock.stamp
    ensures Follows(s.act.attempts, s.act.lastAttemptAt.value, Issue(p.clock.stamp, s.act.attempts + 1, p.initial))
  {
  }

  lemma {:induction false} SpacingFrom(s: Service, polls: seq<Poll>)
    requires InStep(s) && Outage(polls) && Timed(s, polls)
    ensures Spaced(Restarts(s, polls))
    ensures Restarts(s, polls) != [] && s.risk != 0
            ==> Follows(s.act.attempts, s.act.lastAttemptAt.value, Restarts(s, polls)[0])
    decreases |polls|
  {
    hide Backoff, Spaced, Follows;
    if polls == [] {
      assert Spaced([]) by { SpacedEmpty(); }
    } else {
      var p, s', rest := polls[0], Step(s, polls[0]), polls[1..];
      SpacingFrom(s', rest);
      if Issues(s, p) {
        SpacedPrepend(Issue(p.clock.stamp, s.act.attempts + 1, p.initial), Restarts(s', rest));
        if s.risk != 0 {
          IssueFollows(s, p);
        }
      } else {
        assert Restarts(s, polls) == Restarts(s', rest);
      }
    }
  }

  lemma SpacedEmpty()
    ensures Spaced([])
  {
  }

  /** Within one outage, consecutive restarts respect the back-off of the attempt before. */
  lemma RestartsAreSpaced(history: seq<Poll>, outage: seq<Poll>)
    requires Outage(outage) && Timed(Run(START, history), outage)
    ensures Spaced(Restarts(Run(START, history), outage))
  {
    CountersAgree(START, history);
    SpacingFrom(Run(START, history), outage);
  }

  // ---------------------------------------------------------------- exactly when restarts are spaced

  /** A failing poll has an event, so the action engine runs on it. */
  predicate Coupled(polls: seq<Poll>) {
    forall i :: 0 <= i < |polls| ==> !polls[i].ok ==> polls[i].processed
  }

  /** The poll makes the action engine drop its counter and its clock. */
  predicate ResetFires(s: Service, p: Poll) {
    var s1 := AfterEvaluate(s, p);
    var s2 := if Requested(s1, p) then Attempted(s1, p.initial, p.maxRestarts, p.clock) else s1;
    p.processed && s2.risk == 0 && s2.act.attempts > 0
  }

  /** No reset fires at the polls of the given range. */
  predicate NoReset(s: Service, polls: seq<Poll>, from: nat, to: nat)
    requires to <= |polls|
  {
    forall j :: from <= j < to ==> !ResetFires(Run(s, polls[..j]), polls[j])
  }

  /** The poll that issued the k-th restart. */
  function PollOf(s: Service, polls: seq<Poll>, k: nat): (i: nat)
    requires k < |Restarts(s, polls)|
    ensures i < |polls|
    decreases |polls|
  {
    if Issues(s, polls[0]) then
      if k == 0 then 0 else 1 + PollOf(Step(s, polls[0]), polls[1..], k - 1)
    else 1 + PollOf(Step(s, polls[0]), polls[1..], k)
  }

  lemma NoResetShifts(s: Service, polls: seq<Poll>, from: nat, to: nat)
    requires 0 < |polls| && from <= to < |polls|
    ensures NoReset(s, polls, from + 1, to + 1) <==> NoReset(Step(s, polls[0]), polls[1..], from, to)
  {
    hide ResetFires, Step;
    forall j | from <= j < to
      ensures Run(s, polls[..j + 1]) == Run(Step(s, polls[0]), polls[1..][..j])
    {
      assert polls[..j + 1][1..] == polls[1..][..j];
    }
    if NoReset(s, polls, from + 1, to + 1) {
      forall j | from <= j < to
        ensures !ResetFires(Run(Step(s, polls[0]), polls[1..][..j]), polls[1..][j])
      {
        assert !ResetFires(Run(s, polls[..j + 1]), polls[j + 1]);
      }
    }
    if NoReset(Step(s, polls[0]), polls[1..], from, to) {
      forall j | from + 1 <= j < to + 1
        ensures !ResetFires(Run(s, polls[..j]), polls[j])
      {
        assert !ResetFires(Run(Step(s, polls[0]), polls[1..][..j - 1]), polls[1..][j - 1]);
      }
    }
  }

  /** With a cleared counter the next restart is a first attempt. */
  lemma {:induction false} FirstAttempt(s: Service, polls: seq<Poll>)
    requires s.act.attempts == 0 && Restarts(s, polls) != []
    ensures Restarts(s, polls)[0].attempt == 1
    decreases |polls|
  {
    if Issues(s, polls[0]) {
    } else {
      assert Restarts(s, polls) == Restarts(Step(s, polls[0]), polls[1..]);
      FirstAttempt(Step(s, polls[0]), polls[1..]);
    }
  }

  /** A poll without restart and without reset leaves the action engine's counter and clock alone. */
  lemma QuietPoll(s: Service, p: Poll)
    requires InStep(s)
    ensures InStep(Step(s, p))
    ensures !Issues(s, p) && !ResetFires(s, p) ==> Step(s, p).act == s.act
    ensures !Issues(s, p) && ResetFires(s, p) ==> Step(s, p) == START
    ensures Issues(s, p) ==> Step(s, p).act == ServiceState(s.act.attempts + 1, Some(p.clock.stamp))
  {
    hide Backoff;
  }

  lemma TimedStep(s: Service, polls: seq<Poll>)
    requires InStep(s) && Timed(s, polls) && polls != []
    ensures Timed(Step(s, polls[0]), polls[1..])
  {
    hide Backoff, CanRetry;
    QuietPoll(s, polls[0]);
    var s', rest := Step(s, polls[0]), polls[1..];
    assert s'.act.lastAttemptAt.Some? ==> s'.act == s.act || s'.act.lastAttemptAt.value == polls[0].clock.stamp;
    forall i | 0 <= i < |rest|
      ensures rest[i] == polls[i + 1]
      ensures polls[0].clock.stamp <= rest[i].clock.check
    {
    }
  }

  /** An issued restart always waited out the back-off of the attempt the engine remembers. */
  lemma IssueWaits(s: Service, p: Poll)
    requires InStep(s) && s.act.attempts > 0 && Issues(s, p)
    requires s.act.lastAttemptAt.value <= p.clock.check <= p.clock.stamp
    ensures Follows(s.act.attempts, s.act.lastAttemptAt.value, Issue(p.clock.stamp, s.act.attempts + 1, p.initial))
  {
  }

  /** The next restart follows the remembered attempt if and only if no reset fires before it. */
  lemma {:induction false} NextFollowsIff(s: Service, polls: seq<Poll>)
    requires InStep(s) && s.act.attempts > 0 && Timed(s, polls) && Coupled(polls) && Restarts(s, polls) != []
    ensures Follows(s.act.attempts, s.act.lastAttemptAt.value, Restarts(s, polls)[0])
            <==> NoReset(s, polls, 0, PollOf(s, polls, 0))
    ensures !NoReset(s, polls, 0, PollOf(s, polls, 0)) ==> Restarts(s, polls)[0].attempt == 1
    decreases |polls|
  {
    var p, s', rest := polls[0], Step(s, polls[0]), polls[1..];
    QuietPoll(s, p);
    if Issues(s, p) {
      IssueWaits(s, p);
    } else {
      assert Restarts(s, polls) == Restarts(s', rest);
      assert polls[..0] == [] && Run(s, polls[..0]) == s;
      var to := PollOf(s', rest, 0);
      hide Step, Issues, Follows;
      if ResetFires(s, p) {
        FirstAttempt(s', rest);
        FirstIsNoFollower(s, Restarts(s', rest)[0]);
        assert !NoReset(s, polls, 0, to + 1);
      } else {
        TimedStep(s, polls);
        NextFollowsIff(s', rest);
        NoResetShifts(s, polls, 0, to);
        NoResetSplits(s, polls, to + 1);
      }
    }
  }

  lemma FirstIsNoFollower(s: Service, r: Issue)
    requires s.act.attempts > 0 && s.act.lastAttemptAt.Some? && r.attempt == 1
    ensures !Follows(s.act.attempts, s.act.lastAttemptAt.value, r)
  {
  }

  lemma NoResetSplits(s: Service, polls: seq<Poll>, to: nat)
    requires 0 < to <= |polls| && !ResetFires(Run(s, polls[..0]), polls[0])
    ensures NoReset(s, polls, 0, to) <==> NoReset(s, polls, 1, to)
  {
  }

  /**
   Exactly when two consecutive restarts of a run are spaced: if and only if the action engine did
   not drop its counter at a poll between them. After a drop the later one is a first attempt again.
   */
  lemma {:induction false} SpacedIffNoReset(s: Service, polls: seq<Poll>, k: nat)
    requires InStep(s) && Timed(s, polls) && Coupled(polls) && 0 < k < |Restarts(s, polls)|
    ensures var rs := Restarts(s, polls);
      var from, to := PollOf(s, polls, k - 1), PollOf(s, polls, k);
      && from < to
      && (Follows(rs[k - 1].attempt, rs[k - 1].at, rs[k]) <==> NoReset(s, polls, from + 1, to))
      && (!NoReset(s, polls, from + 1, to) ==> rs[k].attempt == 1)
    decreases |polls|
  {
    hide Step, Issues, Follows, NoReset, Timed, InStep;
    var p, s', rest := polls[0], Step(s, polls[0]), polls[1..];
    AfterPoll(s, polls);
    if Issues(s, p) {
      if k == 1 {
        NextFollowsIff(s', rest);
        NoResetShifts(s, polls, 0, PollOf(s', rest, 0));
      } else {
        SpacedIffNoReset(s', rest, k - 1);
        NoResetShifts(s, polls, PollOf(s', rest, k - 2) + 1, PollOf(s', rest, k - 1));
      }
    } else {
      SpacedIffNoReset(s', rest, k);
      NoResetShifts(s, polls, PollOf(s', rest, k - 1) + 1, PollOf(s', rest, k));
    }
  }

  /** What is left of a run after its first poll. */
  lemma AfterPoll(s: Service, polls: seq<Poll>)
    requires InStep(s) && Timed(s, polls) && Coupled(polls) && polls != []
    ensures var p, s' := polls[0], Step(s, polls[0]);
      var issue := Issue(p.clock.stamp, s.act.attempts + 1, p.initial);
      && InStep(s') && Timed(s', polls[1..]) && Coupled(polls[1..])
      && (Issues(s, p) ==> s'.act == ServiceState(issue.attempt, Some(issue.at)))
      && Restarts(s, polls) == (if Issues(s, p) then [issue] else []) + Restarts(s', polls[1..])
  {
    QuietPoll(s, polls[0]);
    TimedStep(s, polls);
    hide Step, Issues, Timed;
  }

  /** The same for the life of the monitor. */
  lemma SpacingOverLife(polls: seq<Poll>, k: nat)
    requires Timed(START, polls) && Coupled(polls) && 0 < k < |Restarts(START, polls)|
    ensures var rs := Restarts(START, polls);
      Follows(rs[k - 1].attempt, rs[k - 1].at, rs[k])
      <==> NoReset(START, polls, PollOf(START, polls, k - 1) + 1, PollOf(START, polls, k))
  {
    SpacedIffNoReset(START, polls, k);
  }

  /** A restart, one healthy poll without events, a poll refused because of the stale counter, and a failing poll. */
  function RecoveryPolls(): seq<Poll> {
    [Poll(false, true, true, 5, 5, Clock(0, 0)), Poll(true, true, false, 5, 5, Clock(0, 0)),
     Poll(false, true, true, 5, 5, Clock(1, 1)), Poll(false, true, true, 5, 5, Clock(2, 2))]
  }

  /** The spacing does not carry over a recovery: the fourth of these polls restarts two seconds after the first. */
  lemma SpacingEndsWithTheOutage()
    ensures Timed(START, RecoveryPolls()) && Coupled(RecoveryPolls())
    ensures Restarts(START, RecoveryPolls()) == [Issue(0, 1, 5), Issue(2, 1, 5)]
    ensures 2 < 0 + Backoff(5, 1)
  {
    var polls := RecoveryPolls();
    assert Backoff(5, 1) == 10 by { assert Pow2(1) == 2; }
    assert Backoff(5, 0) == 5 by { assert Pow2(0) == 1; }
    hide Backoff;
    var s1 := Step(START, polls[0]);
    assert s1 == Service(1, ServiceState(1, Some(0)));
    var s2 := Step(s1, polls[1]);
    assert s2 == Service(0, ServiceState(1, Some(0)));
    var s3 := Step(s2, polls[2]);
    assert s3 == START;
    assert polls[1..][1..][1..] == [polls[3]];
    assert Restarts(s3, [polls[3]]) == [Issue(2, 1, 5)];
    assert Restarts(s2, polls[1..][1..]) == [Issue(2, 1, 5)];
    assert Restarts(s1, polls[1..]) == [Issue(2, 1, 5)];
  }

  // ---------------------------------------------------------------- when restarts are issued

  /**
   Exactly when a failing, enabled poll issues a restart: while the attempts are below the limit and
   initial * 2^min(attempts, 7) seconds have passed since the last one.
   */
  lemma IssuesIff(s: Service, p: Poll)
    requires InStep(s) && !p.ok && p.enabled && p.initial * Pow2(Min(s.act.attempts, 7)) < U64
    requires s.act.lastAttemptAt.Some? ==> s.act.lastAttemptAt.value <= p.clock.check
    ensures Issues(s, p) <==>
            && s.act.attempts < p.maxRestarts
            && (s.act.attempts > 0 ==>
                  p.clock.check >= s.act.lastAttemptAt.value + p.initial * Pow2(Min(s.act.attempts, 7)))
    ensures Issues(s, p) ==> Step(s, p) == Service(s.act.attempts + 1, ServiceState(s.act.attempts + 1, Some(p.clock.stamp)))
  {
    BackoffDoubles(p.initial, s.act.attempts);
    hide Backoff, Pow2;
  }

  /** A healthy or disabled service is never restarted. */
  lemma HealthyIsLeftAlone(s: Service, p: Poll)
    requires p.ok || !p.enabled
    ensures !Issues(s, p)
  {
  }

  /** Failing, enabled polls of one configuration, each at least the longest back-off after the one before. */
  predicate Patient(s: Service, polls: seq<Poll>, cap: nat, initial: nat) {
    && Outage(polls) && Timed(s, polls)
    && (forall i :: 0 <= i < |polls| ==> polls[i].enabled && polls[i].maxRestarts == cap && polls[i].initial == initial)
    && (forall i, j :: 0 <= i < j < |polls| ==> polls[i].clock.stamp + initial * 128 <= polls[j].clock.check)
    && (s.act.lastAttemptAt.Some? ==>
          forall i :: 0 <= i < |polls| ==> s.act.lastAttemptAt.value + initial * 128 <= polls[i].clock.check)
  }

  lemma LongestBackoff(initial: nat, k: nat)
    ensures initial * Pow2(Min(k, 7)) <= initial * 128
  {
    Pow2UpTo7(Min(k, 7));
    MulBound(initial, Pow2(Min(k, 7)), 128);
  }

  lemma Pow2UpTo7(k: nat)
    requires k <= 7
    ensures Pow2(k) <= 128
  {
    assert Pow2(4) == 16 && Pow2(3) == 8 && Pow2(2) == 4 && Pow2(1) == 2 && Pow2(0) == 1;
    assert Pow2(7) == 2 * Pow2(6) && Pow2(6) == 2 * Pow2(5) && Pow2(5) == 2 * Pow2(4);
  }

  lemma MulBound(a: nat, b: nat, c: nat)
    requires b <= c
    ensures a * b <= a * c
  {
  }

  lemma PatientStep(s: Service, polls: seq<Poll>, cap: nat, initial: nat)
    requires InStep(s) && s.risk == s.act.attempts && Patient(s, polls, cap, initial) && polls != [] && initial * 128 < U64
    ensures Issues(s, polls[0]) <==> s.act.attempts < cap
    ensures var s' := Step(s, polls[0]);
      && InStep(s') && s'.risk == s'.act.attempts == (if s.act.attempts < cap then s.act.attempts + 1 else s.act.attempts)
      && Patient(s', polls[1..], cap, initial)
  {
    var p, s' := polls[0], Step(s, polls[0]);
    LongestBackoff(initial, s.act.attempts);
    IssuesIff(s, p);
    QuietPoll(s, p);
    TimedStep(s, polls);
    assert s'.risk == s'.act.attempts;
    assert s'.act == s.act || s'.act.lastAttemptAt == Some(p.clock.stamp);
    hide Step, Issues, Pow2, Timed;
    forall i | 0 <= i < |polls[1..]|
      ensures polls[1..][i] == polls[i + 1]
      ensures p.clock.stamp + initial * 128 <= polls[1..][i].clock.check
    {
    }
  }

  /** An outage polled slowly enough uses exactly the restarts it has left: one per poll, up to the limit. */
  lemma {:induction false} AllRestartsAreUsed(s: Service, polls: seq<Poll>, cap: nat, initial: nat)
    requires InStep(s) && s.risk == s.act.attempts && Patient(s, polls, cap, initial) && initial * 128 < U64
    ensures |Restarts(s, polls)| == Min(|polls|, Max(0, cap - s.act.attempts))
    decreases |polls|
  {
    hide Patient, Issues, Step, InStep;
    if polls == [] {
    } else {
      PatientStep(s, polls, cap, initial);
      AllRestartsAreUsed(Step(s, polls[0]), polls[1..], cap, initial);
    }
  }

  // ---------------------------------------------------------------- nginx

  /** One poll of nginx, whose counters neither engine ever resets. */
  function NginxStep(s: Service, p: Poll): Service {
    if Requested(s, p) then Attempted(s, p.initial, p.maxRestarts, p.clock) else s
  }

  function NginxRestarts(s: Service, polls: seq<Poll>): nat
    decreases |polls|
  {
    if polls == [] then 0
    else (if Requested(s, polls[0]) && CanRetry(s.act, polls[0].initial, polls[0].maxRestarts, polls[0].clock.check)
          then 1 else 0)
         + NginxRestarts(NginxStep(s, polls[0]), polls[1..])
  }

  lemma {:induction false} NginxRestartsLeft(s: Service, polls: seq<Poll>, cap: nat)
    requires s.risk == s.act.attempts && Capped(polls, cap)
    ensures NginxRestarts(s, polls) <= Max(0, cap - s.risk)
    decreases |polls|
  {
    if polls == [] {
    } else {
      NginxRestartsLeft(NginxStep(s, polls[0]), polls[1..], cap);
    }
  }

  /** For nginx the limit holds over the whole life of the monitor, recoveries included. */
  lemma NginxRestartsForLife(polls: seq<Poll>, cap: nat)
    requires Capped(polls, cap)
    ensures NginxRestarts(START, polls) <= cap
  {
    NginxRestartsLeft(START, polls, cap);
  }

  // ---------------------------------------------------------------- the two engines

  datatype Clocks = Clocks(daemon: Clock, web: Clock, nginx: Clock)

  predicate DaemonOk(snap: Snapshot) { snap.daemonActive && snap.daemonSocketOk }

  predicate WebOk(snap: Snapshot) { snap.webPm2Online && snap.webPortOpen }

  predicate NginxOk(snap: Snapshot) { !(snap.nginxActive && !snap.nginxPortOk) }

  class RiskEngine {
    var daemonAttempts: nat
    var webAttempts: nat
    var nginxAttempts: nat

    constructor ()
      ensures daemonAttempts == 0 && webAttempts == 0 && nginxAttempts == 0
    {
      daemonAttempts, webAttempts, nginxAttempts := 0, 0, 0;
    }

    /** The restart requests of one poll, with the given number of further events behind them. */
    method Evaluate(snap: Snapshot, h: Healing, alerts: nat) returns (events: seq<Action>)
      modifies this
      ensures daemonAttempts == if DaemonOk(snap) then 0 else old(daemonAttempts)
      ensures webAttempts == if WebOk(snap) then 0 else old(webAttempts)
      ensures nginxAttempts == old(nginxAttempts)
      ensures events == Ask(DaemonOk(snap), h.restartDaemon && daemonAttempts < h.maxRestarts, RestartDaemon)
                        + Ask(WebOk(snap), h.restartWeb && webAttempts < h.maxRestarts, RestartWeb)
                        + Ask(NginxOk(snap), h.restartNginx && nginxAttempts < h.maxRestarts, RestartNginx)
                        + seq(alerts, _ => Alert)
    {
      hide DaemonOk, WebOk, NginxOk;
      events := [];
      if DaemonOk(snap) {
        if daemonAttempts > 0 { daemonAttempts := 0; }
      } else {
        events := events + [if h.restartDaemon && daemonAttempts < h.maxRestarts then RestartDaemon else Alert];
      }
      ghost var d := Ask(DaemonOk(snap), h.restartDaemon && daemonAttempts < h.maxRestarts, RestartDaemon);
      assert events == d;
      if WebOk(snap) {
        if webAttempts > 0 { webAttempts := 0; }
      } else {
        events := events + [if h.restartWeb && webAttempts < h.maxRestarts then RestartWeb else Alert];
      }
      ghost var w := Ask(WebOk(snap), h.restartWeb && webAttempts < h.maxRestarts, RestartWeb);
      assert events == d + w;
      if !NginxOk(snap) {
        events := events + [if h.restartNginx && nginxAttempts < h.maxRestarts then RestartNginx else Alert];
      }
      ghost var n := Ask(NginxOk(snap), h.restartNginx && nginxAttempts < h.maxRestarts, RestartNginx);
      assert events == d + w + n;
      events := events + seq(alerts, _ => Alert);
    }
  }

  /** The event for one service: none when healthy, an alert when no restart may be asked for. */
  function Ask(ok: bool, may: bool, restart: Action): seq<Action> {
    if ok then [] else [if may then restart else Alert]
  }

  lemma AskedOnce(d: seq<Action>, w: seq<Action>, n: seq<Action>, alerts: seq<Action>)
    requires d == [] || d == [Alert] || d == [RestartDaemon]
    requires w == [] || w == [Alert] || w == [RestartWeb]
    requires n == [] || n == [Alert] || n == [RestartNginx]
    requires forall a :: a in alerts ==> a == Alert
    ensures var events := d + w + n + alerts;
      && Once(events)
      && (RestartDaemon in events <==> d == [RestartDaemon])
      && (RestartWeb in events <==> w == [RestartWeb])
      && (RestartNginx in events <==> n == [RestartNginx])
  {
    var events := d + w + n + alerts;
    var a, b, c := |d|, |d| + |w|, |d| + |w| + |n|;
    forall k | 0 <= k < |events|
      ensures events[k] == if k < a then d[k] else if k < b then w[k - a] else if k < c then n[k - b] else Alert
    {
      if k >= c {
        assert alerts[k - c] in alerts;
      }
    }
    assert d != [] ==> events[0] == d[0];
    assert w != [] ==> events[a] == w[0];
    assert n != [] ==> events[b] == n[0];
  }

  /** Each restart is requested at most once per poll. */
  predicate Once(events: seq<Action>) {
    forall i, j :: 0 <= i < j < |events| && events[i] == events[j] ==> events[i] == Alert
  }

  class ActionEngine {
    var daemon: ServiceState
    var web: ServiceState
    var nginx: ServiceState

    constructor ()
      ensures daemon == FRESH && web == FRESH && nginx == FRESH
    {
      daemon, web, nginx := FRESH, FRESH, FRESH;
    }

    /** Acts on the events of one poll, then drops local counters the risk engine has cleared. */
    method Process(events: seq<Action>, h: Healing, c: Clocks, risk: RiskEngine)
      requires Once(events)
      modifies this, risk
      ensures Service(risk.daemonAttempts, daemon)
           == AfterReset(Maybe(RestartDaemon in events, old(Service(risk.daemonAttempts, daemon)), h, c.daemon))
      ensures Service(risk.webAttempts, web)
           == AfterReset(Maybe(RestartWeb in events, old(Service(risk.webAttempts, web)), h, c.web))
      ensures Service(risk.nginxAttempts, nginx)
           == Maybe(RestartNginx in events, old(Service(risk.nginxAttempts, nginx)), h, c.nginx)
    {
      var i := 0;
      while i < |events|
        invariant 0 <= i <= |events|
        invariant Service(risk.daemonAttempts, daemon)
               == Maybe(RestartDaemon in events[..i], old(Service(risk.daemonAttempts, daemon)), h, c.daemon)
        invariant Service(risk.webAttempts, web)
               == Maybe(RestartWeb in events[..i], old(Service(risk.webAttempts, web)), h, c.web)
        invariant Service(risk.nginxAttempts, nginx)
               == Maybe(RestartNginx in events[..i], old(Service(risk.nginxAttempts, nginx)), h, c.nginx)
      {
        assert events[..i + 1] == events[..i] + [events[i]];
        match events[i] {
          case RestartDaemon =>
            if CanRetry(daemon, h.backoffInitial, h.maxRestarts, c.daemon.check) {
              daemon := ServiceState(daemon.attempts + 1, Some(c.daemon.stamp));
              risk.daemonAttempts := daemon.attempts;
            }
          case RestartWeb =>
            if CanRetry(web, h.backoffInitial, h.maxRestarts, c.web.check) {
              web := ServiceState(web.attempts + 1, Some(c.web.stamp));
              risk.webAttempts := web.attempts;
            }
          case RestartNginx =>
            if CanRetry(nginx, h.backoffInitial, h.maxRestarts, c.nginx.check) {
              nginx := ServiceState(nginx.attempts + 1, Some(c.nginx.stamp));
              risk.nginxAttempts := nginx.attempts;
            }
          case Alert =>
        }
        i := i + 1;
      }
      assert events[..i] == events;
      if risk.daemonAttempts == 0 && daemon.attempts > 0 { daemon := FRESH; }
      if risk.webAttempts == 0 && web.attempts > 0 { web := FRESH; }
    }
  }

  function Maybe(requested: bool, s: Service, h: Healing, c: Clock): Service {
    if requested then Attempted(s, h.backoffInitial, h.maxRestarts, c) else s
  }

  /** One monitoring cycle: evaluate, and act only when there are events. */
  method PollCycle(risk: RiskEngine, action: ActionEngine, snap: Snapshot, h: Healing, alerts: nat, c: Clocks)
    modifies risk, action
    ensures var processed := !(DaemonOk(snap) && WebOk(snap) && NginxOk(snap) && alerts == 0);
      && Service(risk.daemonAttempts, action.daemon)
         == Step(old(Service(risk.daemonAttempts, action.daemon)),
                 Poll(DaemonOk(snap), h.restartDaemon, processed, h.maxRestarts, h.backoffInitial, c.daemon))
      && Service(risk.webAttempts, action.web)
         == Step(old(Service(risk.webAttempts, action.web)),
                 Poll(WebOk(snap), h.restartWeb, processed, h.maxRestarts, h.backoffInitial, c.web))
      && Service(risk.nginxAttempts, action.nginx)
         == NginxStep(old(Service(risk.nginxAttempts, action.nginx)),
                      Poll(NginxOk(snap), h.restartNginx, processed, h.maxRestarts, h.backoffInitial, c.nginx))
  {
    var events := risk.Evaluate(snap, h, alerts);
    AskedOnce(Ask(DaemonOk(snap), h.restartDaemon && risk.daemonAttempts < h.maxRestarts, RestartDaemon),
              Ask(WebOk(snap), h.restartWeb && risk.webAttempts < h.maxRestarts, RestartWeb),
              Ask(NginxOk(snap), h.restartNginx && risk.nginxAttempts < h.maxRestarts, RestartNginx),
              seq(alerts, _ => Alert));
    if events != [] {
      action.Process(events, h, c, risk);
    }
  }
}
