/**
 The concurrency gate in front of password hashing: a caller increments a shared counter, is turned
 away when the count exceeds three, and decrements again when done, refused or failed. Between the two
 awaits anything may happen: other callers, other keys, the clock, the store's timers.
 */
module HashGate {
  import opened Common
  import opened StateStore

  const KEY: Key := "argon2:active"
  const TTL := 120_000
  const MAX_CONCURRENT := 3

  /** Callers past the increment: hashing, or refused and about to decrement. */
  datatype Gate = Gate(store: State, running: set<nat>, rejecting: set<nat>, next: nat)

  datatype Move = Enter | Leave(id: nat) | Other(step: Step)

  const IDLE := Gate(EMPTY, {}, {}, 0)

  function InFlight(g: Gate): set<nat> { g.running + g.rejecting }

  predicate Admits(store: State) {
    var count := Out(store, IncrExpire(KEY, TTL)).count;
    count.Some? && count.value <= MAX_CONCURRENT
  }

  function Entered(g: Gate): Gate {
    var store := Next(g.store, IncrExpire(KEY, TTL));
    if Admits(g.store) then Gate(store, g.running + {g.next}, g.rejecting, g.next + 1)
    else Gate(store, g.running, g.rejecting + {g.next}, g.next + 1)
  }

  function Left(g: Gate, id: nat): Gate {
    if id in InFlight(g) then Gate(Next(g.store, Decr(KEY)), g.running - {id}, g.rejecting - {id}, g.next) else g
  }

  /** Only the gate uses its key. */
  predicate Foreign(step: Step) { step.Tick? || step.Fire? || step.key != KEY }

  function Moved(g: Gate, move: Move): Gate {
    match move
    case Enter => Entered(g)
    case Leave(id) => Left(g, id)
    case Other(step) => if Foreign(step) then g.(store := Next(g.store, step)) else g
  }

  function Play(g: Gate, moves: seq<Move>): Gate
    decreases |moves|
  {
    if moves == [] then g else Play(Moved(g, moves[0]), moves[1..])
  }

  class PasswordHasher {
    const store: InMemoryStateStore
    var running: set<nat>
    var rejecting: set<nat>
    var next: nat

    function View(now: nat): Gate
      reads this, store
    {
      Gate(store.View(now), running, rejecting, next)
    }

    constructor (store: InMemoryStateStore)
      ensures this.store == store && running == {} && rejecting == {} && next == 0
    {
      this.store := store;
      running, rejecting, next := {}, {}, 0;
    }

    /** Up to the first await: count up, then hash or be refused. */
    method Start(now: nat) returns (id: nat, admitted: bool)
      modifies this, store
      ensures View(now) == Entered(old(View(now))) && id == old(next)
      ensures admitted <==> Admits(old(store.View(now)))
    {
      var count := store.IncrExpire(KEY, TTL, now);
      admitted := count.Some? && count.value <= MAX_CONCURRENT;
      id := next;
      next := next + 1;
      if admitted {
        running := running + {id};
      } else {
        rejecting := rejecting + {id};
      }
    }

    /** The decrement, on the refused path and in the finally block alike. */
    method Finish(id: nat, now: nat)
      requires id in running + rejecting
      modifies this, store
      ensures View(now) == Left(old(View(now)), id)
    {
      var _ := store.Decr(KEY, now);
      running, rejecting := running - {id}, rejecting - {id};
    }
  }

  // ---------------------------------------------------------------- the counter never exceeds the callers in flight

  ghost predicate Numbered(g: Gate) {
    && Matched(g.store)
    && (forall id :: id in InFlight(g) ==> id < g.next)
    && g.running !! g.rejecting
  }

  /** The stored count, present or not. */
  function Counter(store: State): Option<int> {
    if KEY in store.entries then CountOf(store.entries[KEY].value) else Some(0)
  }

  ghost predicate Bounded(g: Gate) {
    Numbered(g) && Counter(g.store).Some? && 0 <= Counter(g.store).value <= |InFlight(g)|
  }

  lemma OtherKeepsCounter(store: State, step: Step)
    requires Matched(store) && Foreign(step)
    ensures Matched(Next(store, step))
    ensures KEY in Next(store, step).entries ==>
              KEY in store.entries && Next(store, step).entries[KEY] == store.entries[KEY]
  {
    StepMatched(store, step);
  }

  /** What the two calls of the gate do to the stored count. */
  lemma CounterMoves(store: State)
    requires Matched(store) && Counter(store).Some?
    ensures var n := if Live(store, KEY) then Counter(store).value else 0;
      && Matched(Next(store, IncrExpire(KEY, TTL))) && Matched(Next(store, Decr(KEY)))
      && Counter(Next(store, IncrExpire(KEY, TTL))) == Some(n + 1) && Live(Next(store, IncrExpire(KEY, TTL)), KEY)
      && (Admits(store) <==> n + 1 <= MAX_CONCURRENT)
      && Counter(Next(store, Decr(KEY))) == Some(Max(0, n - 1))
      && (Live(store, KEY) ==> Live(Next(store, Decr(KEY)), KEY))
  {
    StepMatched(store, IncrExpire(KEY, TTL));
    StepMatched(store, Decr(KEY));
  }

  /** Entering adds one caller in flight; leaving removes one. */
  lemma FlightSizes(g: Gate, id: nat)
    requires Numbered(g)
    ensures InFlight(Entered(g)) == InFlight(g) + {g.next} && |InFlight(Entered(g))| == |InFlight(g)| + 1
    ensures |Entered(g).running| == |g.running| + if Admits(g.store) then 1 else 0
    ensures id in InFlight(g) ==> InFlight(Left(g, id)) == InFlight(g) - {id}
    ensures id in InFlight(g) ==> |InFlight(Left(g, id))| == |InFlight(g)| - 1
    ensures Left(g, id).running <= g.running
  {
    hide Admits;
    assert g.next !in InFlight(g);
    assert InFlight(Entered(g)) == InFlight(g) + {g.next};
    if id in InFlight(g) {
      assert InFlight(Left(g, id)) == InFlight(g) - {id};
    }
  }

  /** The callers keep distinct numbers below the next one. */
  lemma NumbersKept(g: Gate, id: nat)
    requires Numbered(g)
    ensures Matched(Entered(g).store) ==> Numbered(Entered(g))
    ensures Matched(Left(g, id).store) ==> Numbered(Left(g, id))
  {
    hide Next, Admits, Matched;
    assert g.next !in InFlight(g);
    assert InFlight(Entered(g)) == InFlight(g) + {g.next};
    assert Entered(g).running !! Entered(g).rejecting;
  }

  lemma EnterKeepsBounded(g: Gate)
    requires Bounded(g)
    ensures Bounded(Entered(g))
  {
    CounterMoves(g.store);
    FlightSizes(g, 0);
    NumbersKept(g, 0);
    hide Next, Admits, Live, Counter, Numbered, InFlight;
  }

  lemma LeaveKeepsBounded(g: Gate, id: nat)
    requires Bounded(g)
    ensures Bounded(Left(g, id))
  {
    CounterMoves(g.store);
    FlightSizes(g, id);
    NumbersKept(g, id);
    hide Next, Live, Counter, Numbered, InFlight;
  }

  lemma OtherKeepsBounded(g: Gate, step: Step)
    requires Bounded(g) && Foreign(step)
    ensures Bounded(g.(store := Next(g.store, step)))
  {
    OtherKeepsCounter(g.store, step);
    hide Next;
    assert InFlight(g.(store := Next(g.store, step))) == InFlight(g);
  }

  lemma MoveKeepsBounded(g: Gate, move: Move)
    requires Bounded(g)
    ensures Bounded(Moved(g, move))
  {
    hide Bounded, Entered, Left;
    match move {
      case Other(step) =>
        if Foreign(step) {
          OtherKeepsBounded(g, step);
        }
      case Enter => EnterKeepsBounded(g);
      case Leave(id) => LeaveKeepsBounded(g, id);
    }
  }

  /**
   In every interleaving, also across expiry of the key, the stored count is between zero and the
   number of callers in flight; with none in flight it is zero or absent.
   */
  lemma {:induction false} CounterWithinFlight(g: Gate, moves: seq<Move>)
    requires Bounded(g)
    ensures Bounded(Play(g, moves))
    ensures InFlight(Play(g, moves)) == {} ==> Counter(Play(g, moves).store) == Some(0)
    decreases |moves|
  {
    if moves == [] {
    } else {
      MoveKeepsBounded(g, moves[0]);
      CounterWithinFlight(Moved(g, moves[0]), moves[1..]);
    }
  }

  // ---------------------------------------------------------------- at most three, while the key lives

  /** A caller is in flight and the counter is gone or past its lifetime. */
  predicate Lapsed(g: Gate) { InFlight(g) != {} && !Live(g.store, KEY) }

  predicate NeverLapses(g: Gate, moves: seq<Move>)
    decreases |moves|
  {
    !Lapsed(g) && (moves != [] ==> NeverLapses(Moved(g, moves[0]), moves[1..]))
  }

  /** The count is exactly the number of callers in flight, and at most three of them hash. */
  ghost predicate Exact(g: Gate) {
    Numbered(g) && Counter(g.store) == Some(|InFlight(g)|) && |g.running| <= MAX_CONCURRENT
  }

  lemma RunningInFlight(g: Gate)
    ensures |g.running| <= |InFlight(g)|
  {
    assert InFlight(g) == g.running + (g.rejecting - g.running);
  }

  /** A gate with nobody in flight counts zero; otherwise an unlapsed counter is live. */
  lemma ExactCounter(g: Gate)
    requires Exact(g) && !Lapsed(g)
    ensures Counter(g.store) == Some(|InFlight(g)|)
    ensures (if Live(g.store, KEY) then Counter(g.store).value else 0) == |InFlight(g)|
  {
    hide Next, Live, Counter, Numbered;
  }

  lemma ExactIsNumbered(g: Gate)
    requires Exact(g)
    ensures Numbered(g) && Matched(g.store)
  {
    hide Counter, InFlight, Matched;
  }

  lemma EnterKeepsExact(g: Gate)
    requires Exact(g) && !Lapsed(g)
    ensures Exact(Entered(g))
  {
    hide Next, Admits, Live, Counter, Numbered, InFlight, Lapsed, Matched;
    ExactCounter(g);
    ExactIsNumbered(g);
    CounterMoves(g.store);
    FlightSizes(g, 0);
    NumbersKept(g, 0);
    RunningInFlight(g);
  }

  lemma LeaveKeepsExact(g: Gate, id: nat)
    requires Exact(g) && !Lapsed(g)
    ensures Exact(Left(g, id))
  {
    hide Next, Live, Counter, Numbered, InFlight, Lapsed, Admits, Matched;
    ExactCounter(g);
    ExactIsNumbered(g);
    if id in InFlight(g) {
      CounterMoves(g.store);
      FlightSizes(g, id);
      NumbersKept(g, id);
      SubsetSize(Left(g, id).running, g.running);
      assert |InFlight(g)| >= 1;
    }
  }

  lemma MoveKeepsExact(g: Gate, move: Move)
    requires Exact(g) && !Lapsed(g) && !Lapsed(Moved(g, move))
    ensures Exact(Moved(g, move))
  {
    match move {
      case Other(step) =>
        if Foreign(step) {
          OtherKeepsCounter(g.store, step);
          hide Next;
          assert InFlight(Moved(g, move)) == InFlight(g);
        }
      case Enter => EnterKeepsExact(g);
      case Leave(id) => LeaveKeepsExact(g, id);
    }
  }

  /** While the counter never lapses, it counts the callers in flight and at most three hash at once. */
  lemma {:induction false} AtMostThreeHash(g: Gate, moves: seq<Move>)
    requires Exact(g) && NeverLapses(g, moves)
    ensures Exact(Play(g, moves)) && |Play(g, moves).running| <= 3
    decreases |moves|
  {
    if moves == [] {
    } else {
      MoveKeepsExact(g, moves[0]);
      AtMostThreeHash(Moved(g, moves[0]), moves[1..]);
    }
  }

  /** The counter, once there, outlives the given instant. */
  ghost predicate Lasting(g: Gate, until: nat) {
    && Matched(g.store)
    && (InFlight(g) != {} ==> KEY in g.store.entries)
    && (KEY in g.store.entries ==> g.store.entries[KEY].expiresAt >= until)
    && g.store.now + TTL >= until
  }

  /** The counter after one of the gate's own calls, or a step that leaves its key alone. */
  lemma StepKeepsLasting(s: State, step: Step, until: nat)
    requires Matched(s) && s.now < until && s.now + TTL >= until
    requires KEY in s.entries ==> s.entries[KEY].expiresAt >= until
    requires Foreign(step) || step == IncrExpire(KEY, TTL) || step == Decr(KEY)
    ensures var s' := Next(s, step);
      && Matched(s') && s.now <= s'.now
      && (KEY in s.entries ==> KEY in s'.entries)
      && (KEY in s'.entries ==> s'.entries[KEY].expiresAt >= until)
      && (step == IncrExpire(KEY, TTL) ==> KEY in s'.entries)
  {
    StepMatched(s, step);
    if KEY in s.entries {
      KeptBeforeDeadline(s, step, KEY);
    }
    hide Matched;
  }

  lemma MoveKeepsLasting(g: Gate, move: Move, until: nat)
    requires Lasting(g, until) && g.store.now < until
    ensures Lasting(Moved(g, move), until) && g.store.now <= Moved(g, move).store.now
  {
    hide Next, Matched, Admits, Foreign;
    match move {
      case Enter => StepKeepsLasting(g.store, IncrExpire(KEY, TTL), until);
      case Leave(id) => StepKeepsLasting(g.store, Decr(KEY), until);
      case Other(step) =>
        if Foreign(step) {
          StepKeepsLasting(g.store, step, until);
        }
    }
  }

  lemma {:induction false} PlayClock(g: Gate, moves: seq<Move>)
    ensures g.store.now <= Play(g, moves).store.now
    decreases |moves|
  {
    if moves == [] {
    } else {
      PlayClock(Moved(g, moves[0]), moves[1..]);
    }
  }

  /** A run that starts idle without the key and stays within its lifetime never lapses. */
  lemma {:induction false} ShortRunsNeverLapse(g: Gate, moves: seq<Move>, until: nat)
    requires Lasting(g, until) && Play(g, moves).store.now < until
    ensures NeverLapses(g, moves)
    decreases |moves|
  {
    PlayClock(g, moves);
    if moves == [] {
    } else {
      MoveKeepsLasting(g, moves[0], until);
      ShortRunsNeverLapse(Moved(g, moves[0]), moves[1..], until);
    }
  }

  // ---------------------------------------------------------------- and only then

  lemma {:induction false} PlayConcat(g: Gate, a: seq<Move>, b: seq<Move>)
    ensures Play(g, a + b) == Play(Play(g, a), b)
    decreases |a|
  {
    if a == [] {
      assert a + b == b;
    } else {
      assert (a + b)[1..] == a[1..] + b;
      PlayConcat(Moved(g, a[0]), a[1..], b);
    }
  }

  /** Entering a gate whose live count is n < 3 adds one hashing caller. */
  lemma EnterAdmitted(g: Gate, n: int)
    requires Bounded(g) && n == (if Live(g.store, KEY) then Counter(g.store).value else 0) && n < MAX_CONCURRENT
    ensures Bounded(Entered(g)) && Live(Entered(g).store, KEY) && Counter(Entered(g).store) == Some(n + 1)
    ensures Entered(g).running == g.running + {g.next} && |Entered(g).running| == |g.running| + 1
    ensures Entered(g).rejecting == g.rejecting
  {
    EnterKeepsBounded(g);
    CounterMoves(g.store);
    FlightSizes(g, 0);
    hide Next, Admits, Live, Counter, Numbered;
  }

  /** After a lapse three more callers are admitted on top of those in flight. */
  lemma ThreeMore(g: Gate)
    requires Bounded(g) && Lapsed(g)
    ensures var h := Entered(Entered(Entered(g)));
      && h == Play(g, [Enter, Enter, Enter])
      && Bounded(h) && Live(h.store, KEY) && Counter(h.store) == Some(3)
      && |h.running| == |g.running| + 3 && h.rejecting == g.rejecting
  {
    EnterAdmitted(g, 0);
    hide Entered, Bounded, Live, Counter;
    EnterAdmitted(Entered(g), 1);
    EnterAdmitted(Entered(Entered(g)), 2);
    PlayThree(g);
  }

  lemma PlayThree(g: Gate)
    ensures Play(g, [Enter, Enter, Enter]) == Entered(Entered(Entered(g)))
  {
    hide Entered;
    var moves := [Enter, Enter, Enter];
    assert moves[1..] == [Enter, Enter] && moves[1..][1..] == [Enter] && [Enter][1..] == [];
    assert [Enter, Enter][1..] == [Enter];
    assert Play(Entered(Entered(g)), [Enter]) == Entered(Entered(Entered(g)));
  }

  /** A refused caller that decrements a counter it no longer owns makes room for a fourth. */
  lemma RefusedLeavesRoom(h: Gate, id: nat)
    requires Bounded(h) && Live(h.store, KEY) && Counter(h.store) == Some(3) && id in h.rejecting
    ensures |Play(h, [Leave(id), Enter]).running| == |h.running| + 1
  {
    CounterMoves(h.store);
    LeaveKeepsBounded(h, id);
    var k := Left(h, id);
    assert k.running == h.running;
    hide Next, Counter, Live, Bounded, Left, Entered;
    EnterAdmitted(k, 2);
    assert [Leave(id), Enter][1..] == [Enter];
    assert Play(k, [Enter]) == Entered(k);
  }

  lemma SomeoneInFlight(g: Gate)
    requires Lapsed(g)
    ensures g.running != {} || g.rejecting != {}
  {
  }

  lemma FourthAfterRefused(g: Gate, id: nat)
    requires Bounded(g) && Lapsed(g) && id in g.rejecting
    ensures |Play(g, [Enter, Enter, Enter] + [Leave(id), Enter]).running| > 3
  {
    hide *;
    ThreeMore(g);
    var first, second := [Enter, Enter, Enter], [Leave(id), Enter];
    RefusedLeavesRoom(Play(g, first), id);
    PlayConcat(g, first, second);
  }

  /**
   The condition is exact: from every state in which the counter has lapsed there is a continuation
   with more than three callers hashing.
   */
  lemma LapseBreaksTheBound(g: Gate)
    requires Bounded(g) && Lapsed(g)
    ensures exists moves :: |Play(g, moves).running| > 3
  {
    hide *;
    SomeoneInFlight(g);
    ThreeMore(g);
    if g.running == {} {
      var id :| id in g.rejecting;
      FourthAfterRefused(g, id);
    } else {
      assert |Play(g, [Enter, Enter, Enter]).running| > 3;
    }
  }

  /** From an idle start: the count stays within the callers in flight, and without a lapse at most three hash. */
  lemma GateFromIdle(moves: seq<Move>)
    ensures Bounded(Play(IDLE, moves))
    ensures NeverLapses(IDLE, moves) ==> |Play(IDLE, moves).running| <= 3
    ensures Play(IDLE, moves).store.now < TTL ==> NeverLapses(IDLE, moves)
  {
    CounterWithinFlight(IDLE, moves);
    if Play(IDLE, moves).store.now < TTL {
      ShortRunsNeverLapse(IDLE, moves, TTL);
    }
    if NeverLapses(IDLE, moves) {
      AtMostThreeHash(IDLE, moves);
    }
  }

  /** Lapsed states are reached: one caller hashing for longer than the counter lives is enough. */
  lemma LapseIsReached()
    ensures Lapsed(Play(IDLE, [Enter, Other(Tick(TTL + 1))]))
  {
    var g := Entered(IDLE);
    assert KEY in g.store.entries && g.store.entries[KEY].expiresAt == TTL;
    assert 0 in InFlight(g);
    var late := Other(Tick(TTL + 1));
    assert [Enter, late][1..] == [late] && [late][1..] == [];
    assert Play(g, [late]) == Moved(g, late);
    assert Play(IDLE, [Enter, late]) == Play(g, [late]);
  }
}
