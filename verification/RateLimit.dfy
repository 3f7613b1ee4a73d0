/**
 The fixed-window limiters: a check increments a counter that the store drops one window after its
 first increment, and admits the caller while the count is within the limit. The store may do anything
 else meanwhile, on other keys, with its clock and with its timers.
 */
module RateLimit {
  import opened Common
  import opened StateStore

  datatype Limit = Limit(max: nat, window: int)

  const LOGIN := Limit(10, 5 * 60 * 1000)
  const HINTS := Limit(60, 5 * 60 * 1000)
  const REGISTER := Limit(5, 60 * 60 * 1000)
  const RPC := Limit(60, 60 * 1000)
  const REGISTER_EMAIL := Limit(3, 24 * 60 * 60 * 1000)
  const EMERGENCY := Limit(5, 60 * 1000)
  const SETUP_EXEC := Limit(5, 5 * 60 * 1000)
  const DNS_CHECK := Limit(10, 60 * 1000)
  const SHARE_CREATE := Limit(20, 60 * 60 * 1000)

  predicate Within(count: Option<int>, max: nat) { count.Some? && count.value <= max }

  /** One check against the store; a counter that is not a number admits nobody. */
  method CheckRate(store: InMemoryStateStore, key: Key, limit: Limit, now: nat) returns (ok: bool)
    modifies store
    ensures store.View(now) == Next(old(store.View(now)), IncrExpire(key, limit.window))
    ensures ok <==> Within(Out(old(store.View(now)), IncrExpire(key, limit.window)).count, limit.max)
  {
    var count := store.IncrExpire(key, limit.window, now);
    ok := count.Some? && count.value <= limit.max;
  }

  // ---------------------------------------------------------------- the admitted checks of a run

  /** An admitted check: when, in which counter window (numbered as they open), and its count there. */
  datatype Hit = Hit(time: nat, win: nat, count: int)

  /** The admitted checks on a key, in order, given the number of windows opened before. */
  function Admitted(s: State, steps: seq<Step>, key: Key, max: nat, win: nat): seq<Hit>
    decreases |steps|
  {
    if steps == [] then []
    else if !(steps[0].IncrExpire? && steps[0].key == key) then Admitted(Next(s, steps[0]), steps[1..], key, max, win)
    else
      var w := if Live(s, key) then win else win + 1;
      var count := Out(s, steps[0]).count;
      var rest := Admitted(Next(s, steps[0]), steps[1..], key, max, w);
      if Within(count, max) then [Hit(s.now, w, count.value)] + rest else rest
  }

  /** The step leaves the key alone, or is a check on it. */
  predicate OnlyChecks(step: Step, key: Key, window: int) {
    step.Tick? || step.Fire? || step.key != key || step == IncrExpire(key, window)
  }

  predicate AllChecks(steps: seq<Step>, key: Key, window: int) {
    forall i :: 0 <= i < |steps| ==> OnlyChecks(steps[i], key, window)
  }

  /** The latest window opened at `start` and has counted to `count`, or is over. */
  ghost predicate Current(s: State, key: Key, window: int, start: int, count: int) {
    && window > 0 && count >= 1 && start <= s.now && Matched(s)
    && (if key in s.entries then s.entries[key].value == Num(count) && s.entries[key].expiresAt == start + window
        else s.now >= start + window)
  }

  lemma OtherStepKeepsWindow(s: State, step: Step, key: Key, window: int, start: int, count: int)
    requires Current(s, key, window, start, count)
    requires step.Tick? || step.Fire? || step.key != key
    ensures Current(Next(s, step), key, window, start, count)
  {
    StepMatched(s, step);
    if step.Fire? && step.id in s.timers && s.timers[step.id].due <= s.now {
      FireEvictsItsEntry(s, step.id);
    }
  }

  /** What a check does to the window: it opens a new one only once the old one is over. */
  lemma CheckMovesWindow(s: State, key: Key, window: int, start: int, count: int)
    requires Current(s, key, window, start, count)
    ensures var s' := Next(s, IncrExpire(key, window));
      var out := Out(s, IncrExpire(key, window)).count;
      && Live(s', key)
      && if Live(s, key) then out == Some(count + 1) && Current(s', key, window, start, count + 1)
         else s.now >= start + window && out == Some(1) && Current(s', key, window, s.now, 1)
  {
    StepMatched(s, IncrExpire(key, window));
  }

  /** What the state says about any admitted check still to come. */
  predicate After(h: Hit, now: nat, win: nat, window: int, start: int, count: int, max: nat) {
    && h.time >= now && h.win >= win && 1 <= h.count <= max
    && (h.win == win ==> h.count > count)
    && (h.win > win ==> h.time >= start + window)
    && (h.win > win + 1 ==> h.time >= now + window)
  }

  lemma {:induction false} LaterHits(s: State, steps: seq<Step>, key: Key, max: nat, win: nat,
                                     window: int, start: int, count: int, h: Hit)
    requires Current(s, key, window, start, count)
    requires AllChecks(steps, key, window)
    requires h in Admitted(s, steps, key, max, win)
    ensures After(h, s.now, win, window, start, count, max)
    decreases |steps|
  {
    hide Next, Out, Current, Live;
    var step := steps[0];
    if step != IncrExpire(key, window) {
      OtherStepKeepsWindow(s, step, key, window, start, count);
      LaterHits(Next(s, step), steps[1..], key, max, win, window, start, count, h);
      NowMonotone(s, step);
    } else {
      CheckMovesWindow(s, key, window, start, count);
      NowMonotone(s, step);
      var w := if Live(s, key) then win else win + 1;
      var c := if Live(s, key) then count + 1 else 1;
      var b := if Live(s, key) then start else s.now;
      if h in Admitted(Next(s, step), steps[1..], key, max, w) {
        LaterHits(Next(s, step), steps[1..], key, max, w, window, b, c, h);
      } else {
        CurrentBasics(s, key, window, start, count);
      }
    }
  }

  lemma CurrentBasics(s: State, key: Key, window: int, start: int, count: int)
    requires Current(s, key, window, start, count)
    ensures window > 0 && count >= 1 && start <= s.now
  {
  }

  lemma NowMonotone(s: State, step: Step)
    ensures s.now <= Next(s, step).now
    ensures !step.Tick? ==> Next(s, step).now == s.now
  {
  }

  /** How an earlier admitted check relates to a later one. */
  predicate Before(g: Hit, h: Hit, window: int) {
    && g.time <= h.time && g.win <= h.win
    && (g.win == h.win ==> g.count < h.count)
    && (g.win < h.win && g.count == 1 ==> g.time + window <= h.time)
    && (g.win + 1 < h.win ==> g.time + window <= h.time)
  }

  predicate Ordered(hits: seq<Hit>, max: nat, window: int) {
    hits == [] || (&& 1 <= hits[0].count <= max
                   && (forall h :: h in hits[1..] ==> Before(hits[0], h, window))
                   && Ordered(hits[1..], max, window))
  }

  lemma {:induction false} HitsAreOrdered(s: State, steps: seq<Step>, key: Key, max: nat, win: nat,
                                          window: int, start: int, count: int)
    requires Current(s, key, window, start, count)
    requires AllChecks(steps, key, window)
    ensures Ordered(Admitted(s, steps, key, max, win), max, window)
    decreases |steps|
  {
    hide Next, Out, Current, Live;
    if steps == [] {
    } else {
      var step := steps[0];
      var s', rest := Next(s, step), steps[1..];
      if step != IncrExpire(key, window) {
        OtherStepKeepsWindow(s, step, key, window, start, count);
        HitsAreOrdered(s', rest, key, max, win, window, start, count);
      } else {
        CheckMovesWindow(s, key, window, start, count);
        CurrentBasics(s, key, window, start, count);
        NowMonotone(s, step);
        var w := if Live(s, key) then win else win + 1;
        var c := if Live(s, key) then count + 1 else 1;
        var b := if Live(s, key) then start else s.now;
        HitsAreOrdered(s', rest, key, max, w, window, b, c);
        var later := Admitted(s', rest, key, max, w);
        forall h | h in later
          ensures Before(Hit(s.now, w, c), h, window)
        {
          LaterHits(s', rest, key, max, w, window, b, c, h);
        }
        var all := Admitted(s, steps, key, max, win);
        assert c <= max ==> all == [Hit(s.now, w, c)] + later && all[1..] == later;
      }
    }
  }

  // ---------------------------------------------------------------- counting

  predicate InSpan(h: Hit, from: int, window: int) { from <= h.time < from + window }

  function Span(hits: seq<Hit>, from: int, window: int): seq<Hit> {
    if hits == [] then []
    else if InSpan(hits[0], from, window) then [hits[0]] + Span(hits[1..], from, window)
    else Span(hits[1..], from, window)
  }

  function OfWindow(hits: seq<Hit>, win: nat): seq<Hit> {
    if hits == [] then []
    else if hits[0].win == win then [hits[0]] + OfWindow(hits[1..], win)
    else OfWindow(hits[1..], win)
  }

  lemma {:induction false} SpanMembers(hits: seq<Hit>, from: int, window: int)
    ensures forall h :: h in Span(hits, from, window) ==> h in hits && InSpan(h, from, window)
  {
    if hits == [] {
    } else {
      SpanMembers(hits[1..], from, window);
    }
  }

  lemma {:induction false} SpanOrdered(hits: seq<Hit>, max: nat, from: int, window: int)
    requires Ordered(hits, max, window)
    ensures Ordered(Span(hits, from, window), max, window)
  {
    if hits == [] {
    } else {
      SpanOrdered(hits[1..], max, from, window);
      SpanMembers(hits[1..], from, window);
      var rest := Span(hits[1..], from, window);
      assert ([hits[0]] + rest)[1..] == rest;
    }
  }

  lemma {:induction false} OfWindowOrdered(hits: seq<Hit>, max: nat, win: nat, window: int)
    requires Ordered(hits, max, window)
    ensures Ordered(OfWindow(hits, win), max, window)
    ensures forall h :: h in OfWindow(hits, win) ==> h in hits && h.win == win
  {
    if hits == [] {
    } else {
      OfWindowOrdered(hits[1..], max, win, window);
      var rest := OfWindow(hits[1..], win);
      assert ([hits[0]] + rest)[1..] == rest;
    }
  }

  /** The position of a check within two consecutive windows. */
  function Rank(h: Hit, win: nat, max: nat): int { if h.win == win then h.count else max + h.count }

  lemma {:induction false} RanksBoundLength(hits: seq<Hit>, win: nat, max: nat, window: int, low: int, high: int)
    requires Ordered(hits, max, window) && low <= high
    requires forall h :: h in hits ==> win <= h.win <= win + 1 && low < Rank(h, win, max) <= high
    ensures |hits| <= high - low
    decreases |hits|
  {
    if hits == [] {
    } else {
      var r := Rank(hits[0], win, max);
      forall h | h in hits[1..]
        ensures r < Rank(h, win, max)
      {
        CountInRange(hits[1..], max, window, h);
        assert Before(hits[0], h, window);
      }
      RanksBoundLength(hits[1..], win, max, window, r, high);
    }
  }

  lemma {:induction false} CountInRange(hits: seq<Hit>, max: nat, window: int, h: Hit)
    requires Ordered(hits, max, window) && h in hits
    ensures 1 <= h.count <= max
  {
    if h == hits[0] {
    } else {
      CountInRange(hits[1..], max, window, h);
    }
  }

  /** Checks that fit in one window length: at most one short of twice the limit. */
  lemma SpanBound(hits: seq<Hit>, max: nat, from: int, window: int)
    requires Ordered(hits, max, window) && (forall h :: h in hits ==> InSpan(h, from, window))
    ensures |hits| <= Max(0, 2 * max - 1)
  {
    if hits != [] {
      var first := hits[0];
      var low, high := if first.count == 1 then 0 else 1, if first.count == 1 then max else 2 * max;
      forall h | h in hits
        ensures first.win <= h.win <= first.win + 1 && low < Rank(h, first.win, max) <= high
      {
        CountInRange(hits, max, window, h);
        if h != first {
          assert h in hits[1..];
          assert Before(first, h, window);
        }
        assert InSpan(first, from, window) && InSpan(h, from, window);
      }
      RanksBoundLength(hits, first.win, max, window, low, high);
    }
  }

  /** The state before a key was ever used counts as one whose window is over. */
  lemma UnusedKey(s: State, key: Key, window: int)
    requires Matched(s) && key !in s.entries && window > 0
    ensures Current(s, key, window, s.now - window, 1)
  {
  }

  /**
   The limiter's guarantee, for every run of the store in which the key is used only for checks:
   one counter window admits at most `max` checks, and any half-open span of one window length at
   most 2 * max - 1, whichever windows it straddles.
   */
  lemma FixedWindowBound(s: State, steps: seq<Step>, key: Key, limit: Limit, from: int, win: nat)
    requires Matched(s) && key !in s.entries && limit.window > 0
    requires AllChecks(steps, key, limit.window)
    ensures var hits := Admitted(s, steps, key, limit.max, 0);
      && |OfWindow(hits, win)| <= limit.max
      && |Span(hits, from, limit.window)| <= Max(0, 2 * limit.max - 1)
  {
    hide Current;
    var hits, max, window := Admitted(s, steps, key, limit.max, 0), limit.max, limit.window;
    UnusedKey(s, key, window);
    HitsAreOrdered(s, steps, key, max, 0, window, s.now - window, 1);
    SpanOrdered(hits, max, from, window);
    SpanMembers(hits, from, window);
    SpanBound(Span(hits, from, window), max, from, window);
    WindowBound(hits, max, win, window);
  }

  lemma WindowBound(hits: seq<Hit>, max: nat, win: nat, window: int)
    requires Ordered(hits, max, window)
    ensures |OfWindow(hits, win)| <= max
  {
    OfWindowOrdered(hits, max, win, window);
    var mine := OfWindow(hits, win);
    forall h | h in mine
      ensures 1 <= h.count <= max
    {
      CountInRange(mine, max, window, h);
    }
    RanksBoundLength(mine, win, max, window, 0, max);
  }

  // ---------------------------------------------------------------- the bound is reached

  function Checks(key: Key, window: int, n: nat): seq<Step> {
    if n == 0 then [] else [IncrExpire(key, window)] + Checks(key, window, n - 1)
  }

  function HitsAt(time: nat, win: nat, count: int, n: nat): seq<Hit>
    decreases n
  {
    if n == 0 then [] else [Hit(time, win, count + 1)] + HitsAt(time, win, count + 1, n - 1)
  }

  /** One check in a live window, peeled off a run. */
  lemma CheckIsAdmitted(s: State, key: Key, max: nat, win: nat, window: int, start: int, count: int, rest: seq<Step>)
    requires Current(s, key, window, start, count) && Live(s, key) && count < max
    ensures var s' := Next(s, IncrExpire(key, window));
      && s'.now == s.now && Live(s', key) && Current(s', key, window, start, count + 1)
      && Admitted(s, [IncrExpire(key, window)] + rest, key, max, win) ==
           [Hit(s.now, win, count + 1)] + Admitted(s', rest, key, max, win)
  {
    hide Next, Out, Current, Live;
    CheckMovesWindow(s, key, window, start, count);
    NowMonotone(s, IncrExpire(key, window));
    assert ([IncrExpire(key, window)] + rest)[1..] == rest;
  }

  /** Checks made at one instant within the limit are all admitted. */
  lemma {:induction false} BurstIsAdmitted(s: State, key: Key, max: nat, win: nat, window: int, start: int, count: int,
                                           n: nat, tail: seq<Step>)
    requires Current(s, key, window, start, count) && Live(s, key) && count + n <= max
    ensures var s' := Run(s, Checks(key, window, n));
      && s'.now == s.now && Live(s', key) && Current(s', key, window, start, count + n)
      && Admitted(s, Checks(key, window, n) + tail, key, max, win) ==
           HitsAt(s.now, win, count, n) + Admitted(s', tail, key, max, win)
    decreases n
  {
    hide Next, Out, Current, Live, Admitted;
    if n == 0 {
      assert Checks(key, window, 0) + tail == tail;
    } else {
      var step := IncrExpire(key, window);
      CheckIsAdmitted(s, key, max, win, window, start, count, Checks(key, window, n - 1) + tail);
      assert Checks(key, window, n) + tail == [step] + (Checks(key, window, n - 1) + tail);
      assert Checks(key, window, n)[1..] == Checks(key, window, n - 1);
      BurstIsAdmitted(Next(s, step), key, max, win, window, start, count + 1, n - 1, tail);
    }
  }

  lemma {:induction false} BurstInSpan(time: nat, win: nat, count: int, n: nat, from: int, window: int, tail: seq<Hit>)
    requires from <= time < from + window
    ensures |Span(HitsAt(time, win, count, n) + tail, from, window)| == n + |Span(tail, from, window)|
    decreases n
  {
    if n == 0 {
      assert HitsAt(time, win, count, 0) + tail == tail;
    } else {
      var hits := HitsAt(time, win, count, n) + tail;
      assert hits[1..] == HitsAt(time, win, count + 1, n - 1) + tail;
      BurstInSpan(time, win, count + 1, n - 1, from, window, tail);
    }
  }

  /** One check opens a window, the rest of its budget follows two milliseconds later, and a full burst its end. */
  function Straddle(key: Key, limit: Limit): seq<Step>
    requires limit.max > 0 && limit.window > 1
  {
    var burst := Checks(key, limit.window, limit.max - 1);
    [IncrExpire(key, limit.window), Tick(2)] + (burst + ([Tick(limit.window + 1), IncrExpire(key, limit.window)] + burst))
  }

  /** A check that opens a window, and the clock moving to or from it, peeled off a run. */
  lemma OpensWindow(s: State, key: Key, max: nat, win: nat, window: int, rest: seq<Step>)
    requires Matched(s) && !Live(s, key) && window > 0 && max > 0
    ensures var s' := Next(s, IncrExpire(key, window));
      && Current(s', key, window, s.now, 1) && Live(s', key) && s'.now == s.now
      && Admitted(s, [IncrExpire(key, window)] + rest, key, max, win) ==
           [Hit(s.now, win + 1, 1)] + Admitted(s', rest, key, max, win + 1)
  {
    StepMatched(s, IncrExpire(key, window));
    var steps := [IncrExpire(key, window)] + rest;
    assert steps[1..] == rest;
  }

  lemma ClockMoves(s: State, key: Key, max: nat, win: nat, to: nat, rest: seq<Step>)
    ensures Admitted(s, [Tick(to)] + rest, key, max, win) == Admitted(Next(s, Tick(to)), rest, key, max, win)
  {
    assert ([Tick(to)] + rest)[1..] == rest;
  }

  lemma LiveIffInTime(s: State, key: Key, window: int, start: int, count: int)
    requires Current(s, key, window, start, count) && start >= 0
    ensures s.now > start + window ==> !Live(s, key)
    ensures key in s.entries && s.now <= start + window ==> Live(s, key)
    ensures Matched(s)
  {
  }

  /** The second half of the run: the window is over, and a new one takes a full burst. */
  lemma SecondBurst(b: State, key: Key, max: nat, window: int, count: int)
    requires Current(b, key, window, 0, count) && max > 0 && b.now <= window + 1
    ensures Admitted(b, [Tick(window + 1), IncrExpire(key, window)] + Checks(key, window, max - 1), key, max, 1) ==
            [Hit(window + 1, 2, 1)] + HitsAt(window + 1, 2, 1, max - 1)
  {
    CurrentBasics(b, key, window, 0, count);
    var burst := Checks(key, window, max - 1);
    var b' := Next(b, Tick(window + 1));
    assert b'.now == window + 1;
    hide Next, Out, Current, Live;
    OtherStepKeepsWindow(b, Tick(window + 1), key, window, 0, count);
    LiveIffInTime(b', key, window, 0, count);
    assert [Tick(window + 1), IncrExpire(key, window)] + burst == [Tick(window + 1)] + ([IncrExpire(key, window)] + burst);
    ClockMoves(b, key, max, 1, window + 1, [IncrExpire(key, window)] + burst);
    OpensWindow(b', key, max, 1, window, burst);
    BurstIsAdmitted(Next(b', IncrExpire(key, window)), key, max, 2, window, window + 1, 1, max - 1, []);
    assert burst + [] == burst;
    assert HitsAt(window + 1, 2, 1, max - 1) + [] == HitsAt(window + 1, 2, 1, max - 1);
  }

  /** The first half: a window opens at once, and the clock moves on two milliseconds. */
  lemma FirstOpening(key: Key, limit: Limit, rest: seq<Step>)
    requires limit.max > 0 && limit.window > 1
    ensures var a := Next(Next(EMPTY, IncrExpire(key, limit.window)), Tick(2));
      && a.now == 2 && Live(a, key) && Current(a, key, limit.window, 0, 1)
      && Admitted(EMPTY, [IncrExpire(key, limit.window), Tick(2)] + rest, key, limit.max, 0) ==
           [Hit(0, 1, 1)] + Admitted(a, rest, key, limit.max, 1)
  {
    var max, window := limit.max, limit.window;
    var a0 := Next(EMPTY, IncrExpire(key, window));
    var a := Next(a0, Tick(2));
    assert a.now == 2 && key in a.entries;
    hide Next, Out, Current, Live;
    assert [IncrExpire(key, window), Tick(2)] + rest == [IncrExpire(key, window)] + ([Tick(2)] + rest);
    OpensWindow(EMPTY, key, max, 0, window, [Tick(2)] + rest);
    ClockMoves(a0, key, max, 1, 2, rest);
    OtherStepKeepsWindow(a0, Tick(2), key, window, 0, 1);
    LiveIffInTime(a, key, window, 0, 1);
  }

  function StraddleHits(max: nat, window: nat): seq<Hit>
    requires max > 0
  {
    [Hit(0, 1, 1)] + (HitsAt(2, 1, 1, max - 1) + ([Hit(window + 1, 2, 1)] + HitsAt(window + 1, 2, 1, max - 1)))
  }

  lemma StraddleIsAdmitted(key: Key, limit: Limit)
    requires limit.max > 0 && limit.window > 1
    ensures Admitted(EMPTY, Straddle(key, limit), key, limit.max, 0) == StraddleHits(limit.max, limit.window)
  {
    var max, window := limit.max, limit.window;
    var burst := Checks(key, window, max - 1);
    var second := [Tick(window + 1), IncrExpire(key, window)] + burst;
    assert Straddle(key, limit) == [IncrExpire(key, window), Tick(2)] + (burst + second);
    hide *;
    var a := Next(Next(EMPTY, IncrExpire(key, window)), Tick(2));
    FirstOpening(key, limit, burst + second);
    BurstIsAdmitted(a, key, max, 1, window, 0, 1, max - 1, second);
    SecondBurst(Run(a, burst), key, max, window, max);
  }

  lemma StraddleSpan(max: nat, window: nat)
    requires max > 0 && window > 1
    ensures |Span(StraddleHits(max, window), 2, window)| == 2 * max - 1
  {
    var late := [Hit(window + 1, 2, 1)] + HitsAt(window + 1, 2, 1, max - 1);
    var hits := HitsAt(2, 1, 1, max - 1) + late;
    assert StraddleHits(max, window)[1..] == hits;
    BurstInSpan(2, 1, 1, max - 1, 2, window, late);
    assert late == HitsAt(window + 1, 2, 0, max) + [];
    BurstInSpan(window + 1, 2, 0, max, 2, window, []);
  }

  lemma {:induction false} ChecksOnlyCheck(key: Key, window: int, n: nat)
    ensures AllChecks(Checks(key, window, n), key, window)
  {
    if n == 0 {
    } else {
      ChecksOnlyCheck(key, window, n - 1);
    }
  }

  lemma StraddleOnlyChecks(key: Key, limit: Limit)
    requires limit.max > 0 && limit.window > 1
    ensures AllChecks(Straddle(key, limit), key, limit.window)
  {
    var burst := Checks(key, limit.window, limit.max - 1);
    ChecksOnlyCheck(key, limit.window, limit.max - 1);
    var steps := Straddle(key, limit);
    forall i | 0 <= i < |steps|
      ensures OnlyChecks(steps[i], key, limit.window)
    {
      assert steps[i] in burst || steps[i].Tick? || steps[i] == IncrExpire(key, limit.window);
    }
  }

  /** The bound cannot be improved: for every limit this run of checks admits 2 * max - 1 checks in one window length. */
  lemma BoundIsReached(key: Key, limit: Limit)
    requires limit.max > 0 && limit.window > 1
    ensures AllChecks(Straddle(key, limit), key, limit.window)
    ensures |Span(Admitted(EMPTY, Straddle(key, limit), key, limit.max, 0), 2, limit.window)| == 2 * limit.max - 1
  {
    StraddleOnlyChecks(key, limit);
    StraddleIsAdmitted(key, limit);
    StraddleSpan(limit.max, limit.window);
  }

  const LIMITS := [LOGIN, HINTS, REGISTER, RPC, REGISTER_EMAIL, EMERGENCY, SETUP_EXEC, DNS_CHECK, SHARE_CREATE]

  /** For each limiter of the program: the exact number of checks one window length can admit. */
  lemma LimitersAreExact(limit: Limit, key: Key, from: int)
    requires limit in LIMITS
    ensures forall steps :: AllChecks(steps, key, limit.window) ==>
              |Span(Admitted(EMPTY, steps, key, limit.max, 0), from, limit.window)| <= 2 * limit.max - 1
    ensures exists steps, start :: AllChecks(steps, key, limit.window) &&
              |Span(Admitted(EMPTY, steps, key, limit.max, 0), start, limit.window)| == 2 * limit.max - 1
  {
    forall steps | AllChecks(steps, key, limit.window)
      ensures |Span(Admitted(EMPTY, steps, key, limit.max, 0), from, limit.window)| <= 2 * limit.max - 1
    {
      FixedWindowBound(EMPTY, steps, key, limit, from, 0);
    }
    BoundIsReached(key, limit);
  }
}
