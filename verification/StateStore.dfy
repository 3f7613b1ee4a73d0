/**
 The in-memory key-value store with expiry. An entry disappears in two ways: lazily, when an operation
 finds it past its deadline, and by a timer. The model has the clock, the map and the host's pending
 timers; one operation is one step and reads the clock once. Timers fire at or after their due time.
 */
module StateStore {
  import opened Common

  type Key = string

  /** A stored string: a decimal number, or text that does not read as one. */
  datatype Value = Num(n: int) | Text(s: string)

  /** A deadline of zero means none. */
  datatype Entry = Entry(value: Value, expiresAt: nat, timer: Option<nat>)

  datatype Timer = Timer(key: Key, due: nat)

  datatype State = State(entries: map<Key, Entry>, timers: map<nat, Timer>, nextTimer: nat, now: nat)

  datatype Step =
    | Tick(to: nat)
    | Fire(id: nat)
    | Get(key: Key)
    | Put(key: Key, value: Value, ttl: int)
    | Del(key: Key)
    | IncrExpire(key: Key, ttl: int)
    | Decr(key: Key)
    | GetDel(key: Key)

  /** What a call returns; a count is absent when the stored text is not a number. */
  datatype Output = Silent | Found(value: Option<Value>) | Count(count: Option<int>)

  const EMPTY: State := State(map[], map[], 0, 0)

  // ---------------------------------------------------------------- specification

  predicate Expired(e: Entry, now: nat) { e.expiresAt != 0 && now > e.expiresAt }

  predicate Live(s: State, key: Key) { key in s.entries && !Expired(s.entries[key], s.now) }

  function Evict(s: State, key: Key): State {
    if key !in s.entries then s
    else s.(entries := s.entries - {key},
            timers := if s.entries[key].timer.Some? then s.timers - {s.entries[key].timer.value} else s.timers)
  }

  /** Stores a new entry for a key that holds none, with a timer when it has a lifetime. */
  function Insert(s: State, key: Key, value: Value, ttl: int): State {
    if ttl > 0 then
      State(s.entries[key := Entry(value, s.now + ttl, Some(s.nextTimer))],
            s.timers[s.nextTimer := Timer(key, s.now + ttl)], s.nextTimer + 1, s.now)
    else s.(entries := s.entries[key := Entry(value, 0, None)])
  }

  function Rewrite(s: State, key: Key, value: Value): State
    requires key in s.entries
  {
    s.(entries := s.entries[key := s.entries[key].(value := value)])
  }

  function Bump(v: Value): Value { if v.Num? then Num(v.n + 1) else Text("NaN") }

  function Lower(v: Value): Value { if v.Num? then Num(Max(0, v.n - 1)) else Text("NaN") }

  function CountOf(v: Value): Option<int> { if v.Num? then Some(v.n) else None }

  function Next(s: State, step: Step): State {
    match step
    case Tick(to) => s.(now := Max(s.now, to))
    case Fire(id) =>
      if id in s.timers && s.timers[id].due <= s.now
      then Evict(s.(timers := s.timers - {id}), s.timers[id].key)
      else s
    case Put(key, value, ttl) => Insert(Evict(s, key), key, value, ttl)
    case Del(key) => Evict(s, key)
    case GetDel(key) => Evict(s, key)
    case Get(key) => if Live(s, key) then s else Evict(s, key)
    case IncrExpire(key, ttl) =>
      if Live(s, key) then Rewrite(s, key, Bump(s.entries[key].value)) else Insert(Evict(s, key), key, Num(1), ttl)
    case Decr(key) =>
      if Live(s, key) then Rewrite(s, key, Lower(s.entries[key].value)) else Evict(s, key)
  }

  function Out(s: State, step: Step): Output {
    match step
    case Tick(_) => Silent
    case Fire(_) => Silent
    case Put(_, _, _) => Silent
    case Del(_) => Silent
    case Get(key) => Found(if Live(s, key) then Some(s.entries[key].value) else None)
    case GetDel(key) => Found(if Live(s, key) then Some(s.entries[key].value) else None)
    case IncrExpire(key, _) => Count(if Live(s, key) then CountOf(Bump(s.entries[key].value)) else Some(1))
    case Decr(key) => Count(if Live(s, key) then CountOf(Lower(s.entries[key].value)) else Some(0))
  }

  // ---------------------------------------------------------------- the class

  class InMemoryStateStore {
    var entries: map<Key, Entry>
    var timers: map<nat, Timer>
    var nextTimer: nat

    function View(now: nat): State
      reads this
    {
      State(entries, timers, nextTimer, now)
    }

    constructor ()
      ensures View(0) == EMPTY
    {
      entries, timers, nextTimer := map[], map[], 0;
    }

    method EvictKey(key: Key, ghost now: nat)
      modifies this
      ensures View(now) == Evict(old(View(now)), key)
    {
      if key !in entries {
        return;
      }
      var e := entries[key];
      if e.timer.Some? {
        timers := timers - {e.timer.value};
      }
      entries := entries - {key};
    }

    method Get(key: Key, now: nat) returns (r: Option<Value>)
      modifies this
      ensures View(now) == Next(old(View(now)), Step.Get(key)) && Found(r) == Out(old(View(now)), Step.Get(key))
    {
      if key !in entries {
        return None;
      }
      var e := entries[key];
      if e.expiresAt != 0 && now > e.expiresAt {
        EvictKey(key, now);
        return None;
      }
      return Some(e.value);
    }

    method Set(key: Key, value: Value, ttl: int, now: nat)
      modifies this
      ensures View(now) == Next(old(View(now)), Put(key, value, ttl))
    {
      EvictKey(key, now);
      var expiresAt: nat := if ttl > 0 then now + ttl else 0;
      var timer: Option<nat> := None;
      if ttl > 0 {
        timer := Some(nextTimer);
        timers := timers[nextTimer := Timer(key, now + ttl)];
        nextTimer := nextTimer + 1;
      }
      entries := entries[key := Entry(value, expiresAt, timer)];
    }

    method Del(key: Key, ghost now: nat)
      modifies this
      ensures View(now) == Next(old(View(now)), Step.Del(key))
    {
      EvictKey(key, now);
    }

    method IncrExpire(key: Key, ttl: int, now: nat) returns (n: Option<int>)
      modifies this
      ensures View(now) == Next(old(View(now)), Step.IncrExpire(key, ttl))
      ensures Count(n) == Out(old(View(now)), Step.IncrExpire(key, ttl))
    {
      if key !in entries || (entries[key].expiresAt != 0 && now > entries[key].expiresAt) {
        EvictKey(key, now);
        Set(key, Num(1), ttl, now);
        return Some(1);
      }
      var e := entries[key];
      var value := if e.value.Num? then Num(e.value.n + 1) else Text("NaN");
      entries := entries[key := e.(value := value)];
      return CountOf(value);
    }

    method Decr(key: Key, now: nat) returns (n: Option<int>)
      modifies this
      ensures View(now) == Next(old(View(now)), Step.Decr(key))
      ensures Count(n) == Out(old(View(now)), Step.Decr(key))
    {
      if key !in entries {
        return Some(0);
      }
      var e := entries[key];
      if e.expiresAt != 0 && now > e.expiresAt {
        EvictKey(key, now);
        return Some(0);
      }
      var value := if e.value.Num? then Num(Max(0, e.value.n - 1)) else Text("NaN");
      entries := entries[key := e.(value := value)];
      return CountOf(value);
    }

    method GetDel(key: Key, now: nat) returns (r: Option<Value>)
      modifies this
      ensures View(now) == Next(old(View(now)), Step.GetDel(key)) && Found(r) == Out(old(View(now)), Step.GetDel(key))
    {
      if key !in entries {
        return None;
      }
      var e := entries[key];
      if e.expiresAt != 0 && now > e.expiresAt {
        EvictKey(key, now);
        return None;
      }
      EvictKey(key, now);
      return Some(e.value);
    }

    /** The host runs a due timer's callback. */
    method FireTimer(id: nat, now: nat)
      requires id in timers && timers[id].due <= now
      modifies this
      ensures View(now) == Next(old(View(now)), Fire(id))
    {
      var key := timers[id].key;
      timers := timers - {id};
      EvictKey(key, now);
    }
  }

  // ---------------------------------------------------------------- timers match entries

  /** An entry's timer is pending and due at its deadline; an entry without deadline has none. */
  predicate Timed(s: State, key: Key)
    requires key in s.entries
  {
    var e := s.entries[key];
    if e.expiresAt == 0 then e.timer == None
    else e.timer.Some? && e.timer.value in s.timers && s.timers[e.timer.value] == Timer(key, e.expiresAt)
  }

  /** A pending timer belongs to the entry its callback will remove. */
  predicate Owned(s: State, id: nat)
    requires id in s.timers
  {
    var key := s.timers[id].key;
    id < s.nextTimer && key in s.entries && s.entries[key].timer == Some(id)
  }

  ghost predicate Matched(s: State) {
    && (forall key :: key in s.entries ==> Timed(s, key))
    && (forall id :: id in s.timers ==> Owned(s, id))
  }

  lemma EvictMatched(s: State, key: Key)
    requires Matched(s)
    ensures Matched(Evict(s, key))
    ensures key !in Evict(s, key).entries
  {
    var s' := Evict(s, key);
    forall k | k in s'.entries
      ensures Timed(s', k)
    {
      assert Timed(s, k);
    }
    forall id | id in s'.timers
      ensures Owned(s', id)
    {
      assert Owned(s, id) && (key in s.entries ==> Timed(s, key));
    }
  }

  lemma InsertMatched(s: State, key: Key, value: Value, ttl: int)
    requires Matched(s) && key !in s.entries
    ensures Matched(Insert(s, key, value, ttl))
  {
    var s' := Insert(s, key, value, ttl);
    forall k | k in s'.entries
      ensures Timed(s', k)
    {
      assert k != key ==> Timed(s, k) && (s.entries[k].timer.Some? ==> Owned(s, s.entries[k].timer.value));
    }
    forall id | id in s'.timers
      ensures Owned(s', id)
    {
      assert id in s.timers ==> Owned(s, id);
    }
  }

  /** Running a due timer is exactly an eviction of its own entry: a timer is never stale. */
  lemma FireEvictsItsEntry(s: State, id: nat)
    requires Matched(s) && id in s.timers && s.timers[id].due <= s.now
    ensures var key := s.timers[id].key;
      && Next(s, Fire(id)) == Evict(s, key)
      && key in s.entries && s.entries[key].timer == Some(id) && 0 < s.entries[key].expiresAt <= s.now
  {
    assert Owned(s, id) && Timed(s, s.timers[id].key);
    assert s.timers - {id} - {id} == s.timers - {id};
  }

  lemma StepMatched(s: State, step: Step)
    requires Matched(s)
    ensures Matched(Next(s, step))
  {
    hide Evict, Insert;
    match step {
      case Tick(_) => assert forall k :: k in s.entries ==> Timed(s, k) == Timed(Next(s, step), k);
        assert forall id :: id in s.timers ==> Owned(s, id) == Owned(Next(s, step), id);
      case Fire(id) =>
        if id in s.timers && s.timers[id].due <= s.now {
          FireEvictsItsEntry(s, id);
          EvictMatched(s, s.timers[id].key);
        }
      case Put(key, v, ttl) =>
        EvictMatched(s, key);
        InsertMatched(Evict(s, key), key, v, ttl);
      case IncrExpire(key, ttl) =>
        if Live(s, key) {
          RewriteMatched(s, key, Bump(s.entries[key].value));
        } else {
          EvictMatched(s, key);
          InsertMatched(Evict(s, key), key, Num(1), ttl);
        }
      case Decr(key) =>
        if Live(s, key) {
          RewriteMatched(s, key, Lower(s.entries[key].value));
        } else {
          EvictMatched(s, key);
        }
      case Get(key) => EvictMatched(s, key);
      case Del(key) => EvictMatched(s, key);
      case GetDel(key) => EvictMatched(s, key);
    }
  }

  lemma RewriteMatched(s: State, key: Key, value: Value)
    requires Matched(s) && key in s.entries
    ensures Matched(Rewrite(s, key, value))
  {
    var s' := Rewrite(s, key, value);
    assert forall k :: k in s'.entries ==> Timed(s, k) == Timed(s', k);
    assert forall id :: id in s.timers ==> Owned(s, id) == Owned(s', id);
  }

  // ---------------------------------------------------------------- runs

  function Run(s: State, steps: seq<Step>): State
    decreases |steps|
  {
    if steps == [] then s else Run(Next(s, steps[0]), steps[1..])
  }

  lemma {:induction false} TimersMatchEntries(s: State, steps: seq<Step>)
    requires Matched(s)
    ensures Matched(Run(s, steps))
    decreases |steps|
  {
    if steps == [] {
    } else {
      StepMatched(s, steps[0]);
      TimersMatchEntries(Next(s, steps[0]), steps[1..]);
    }
  }

  // ---------------------------------------------------------------- the abstract timed map

  /** A value and the last instant at which it may be seen; zero means for ever. */
  datatype Slot = Slot(value: Value, deadline: nat)

  datatype TimedMap = TimedMap(slots: map<Key, Slot>, now: nat)

  /** The same calls; instead of timers, a key may drop out at the very instant of its deadline. */
  datatype Label = Call(step: Step) | Drop(key: Key) | Idle

  function Until(now: nat, ttl: int): nat { if ttl > 0 then now + ttl else 0 }

  function TimedNext(t: TimedMap, act: Label): TimedMap {
    match act
    case Idle => t
    case Drop(key) => t.(slots := t.slots - {key})
    case Call(step) =>
      match step
      case Tick(to) =>
        var now := Max(t.now, to);
        TimedMap(map k | k in t.slots && (t.slots[k].deadline == 0 || now <= t.slots[k].deadline) :: t.slots[k], now)
      case Fire(_) => t
      case Get(_) => t
      case Put(key, value, ttl) => t.(slots := t.slots[key := Slot(value, Until(t.now, ttl))])
      case Del(key) => t.(slots := t.slots - {key})
      case GetDel(key) => t.(slots := t.slots - {key})
      case IncrExpire(key, ttl) =>
        if key in t.slots then t.(slots := t.slots[key := t.slots[key].(value := Bump(t.slots[key].value))])
        else t.(slots := t.slots[key := Slot(Num(1), Until(t.now, ttl))])
      case Decr(key) =>
        if key in t.slots then t.(slots := t.slots[key := t.slots[key].(value := Lower(t.slots[key].value))]) else t
  }

  function TimedOut(t: TimedMap, act: Label): Output {
    if !act.Call? then Silent else
    match act.step
    case Get(key) => Found(if key in t.slots then Some(t.slots[key].value) else None)
    case GetDel(key) => Found(if key in t.slots then Some(t.slots[key].value) else None)
    case IncrExpire(key, _) => Count(if key in t.slots then CountOf(Bump(t.slots[key].value)) else Some(1))
    case Decr(key) => Count(if key in t.slots then CountOf(Lower(t.slots[key].value)) else Some(0))
    case _ => Silent
  }

  /** Only a key whose deadline is the present instant may drop out. */
  predicate Allowed(t: TimedMap, act: Label) {
    act.Drop? ==> act.key in t.slots && t.slots[act.key].deadline == t.now
  }

  function Abs(s: State): TimedMap {
    TimedMap(map k | k in s.entries && !Expired(s.entries[k], s.now) :: Slot(s.entries[k].value, s.entries[k].expiresAt),
          s.now)
  }

  function LabelOf(s: State, step: Step): Label {
    if !step.Fire? then Call(step)
    else if step.id in s.timers && s.timers[step.id].due <= s.now && Live(s, s.timers[step.id].key)
    then Drop(s.timers[step.id].key)
    else Idle
  }

  lemma AbsEvict(s: State, key: Key)
    ensures Abs(Evict(s, key)) == Abs(s).(slots := Abs(s).slots - {key})
  {
  }

  lemma AbsInsert(s: State, key: Key, value: Value, ttl: int)
    ensures Abs(Insert(s, key, value, ttl)) ==
            Abs(s).(slots := Abs(s).slots[key := Slot(value, Until(s.now, ttl))])
  {
  }

  lemma AbsRewrite(s: State, key: Key, value: Value)
    requires Live(s, key)
    ensures Abs(Rewrite(s, key, value)) ==
            Abs(s).(slots := Abs(s).slots[key := Abs(s).slots[key].(value := value)])
  {
  }

  /** Each step of the store is a step of the timed map with the same answer. */
  lemma StepRefines(s: State, step: Step)
    requires Matched(s)
    ensures Allowed(Abs(s), LabelOf(s, step))
    ensures Abs(Next(s, step)) == TimedNext(Abs(s), LabelOf(s, step))
    ensures Out(s, step) == TimedOut(Abs(s), LabelOf(s, step))
  {
    match step {
      case Tick(_) =>
      case Fire(id) =>
        if id in s.timers && s.timers[id].due <= s.now {
          FireEvictsItsEntry(s, id);
          AbsEvict(s, s.timers[id].key);
        }
      case _ => CallRefines(s, step);
    }
  }

  lemma CallRefines(s: State, step: Step)
    requires !step.Tick? && !step.Fire?
    ensures Abs(Next(s, step)) == TimedNext(Abs(s), Call(step))
    ensures Out(s, step) == TimedOut(Abs(s), Call(step))
  {
    hide Evict, Insert;
    var key := step.key;
    AbsEvict(s, key);
    assert Live(s, key) <==> key in Abs(s).slots;
    if Live(s, key) {
      AbsRewrite(s, key, Bump(s.entries[key].value));
      AbsRewrite(s, key, Lower(s.entries[key].value));
    } else {
      assert Abs(s).slots - {key} == Abs(s).slots;
    }
    match step {
      case Put(_, v, ttl) => AbsInsert(Evict(s, key), key, v, ttl);
      case IncrExpire(_, ttl) => AbsInsert(Evict(s, key), key, Num(1), ttl);
      case _ =>
    }
  }

  function Labels(s: State, steps: seq<Step>): seq<Label>
    decreases |steps|
  {
    if steps == [] then [] else [LabelOf(s, steps[0])] + Labels(Next(s, steps[0]), steps[1..])
  }

  function Outputs(s: State, steps: seq<Step>): seq<Output>
    decreases |steps|
  {
    if steps == [] then [] else [Out(s, steps[0])] + Outputs(Next(s, steps[0]), steps[1..])
  }

  /** A run of the timed map: every drop is allowed, and these are its answers and its final state. */
  predicate TimedRun(t: TimedMap, labels: seq<Label>, outputs: seq<Output>, final: TimedMap)
    decreases |labels|
  {
    if labels == [] then outputs == [] && final == t
    else
      && Allowed(t, labels[0])
      && outputs != [] && outputs[0] == TimedOut(t, labels[0])
      && TimedRun(TimedNext(t, labels[0]), labels[1..], outputs[1..], final)
  }

  /** The store refines the timed map: every run of it is a run of the timed map with the same answers. */
  lemma {:induction false} StoreRefinesTimedMap(s: State, steps: seq<Step>)
    requires Matched(s)
    ensures TimedRun(Abs(s), Labels(s, steps), Outputs(s, steps), Abs(Run(s, steps)))
    decreases |steps|
  {
    if steps == [] {
    } else {
      StepRefines(s, steps[0]);
      StepMatched(s, steps[0]);
      StoreRefinesTimedMap(Next(s, steps[0]), steps[1..]);
    }
  }

  // ---------------------------------------------------------------- visibility

  lemma {:induction false} ClockNeverGoesBack(s: State, steps: seq<Step>)
    ensures s.now <= Run(s, steps).now
    decreases |steps|
  {
    if steps == [] {
    } else {
      ClockNeverGoesBack(Next(s, steps[0]), steps[1..]);
    }
  }

  predicate Removes(step: Step, key: Key) { (step.Put? || step.Del? || step.GetDel?) && step.key == key }

  predicate Counts(step: Step, key: Key) { (step.IncrExpire? || step.Decr?) && step.key == key }

  predicate Creates(step: Step, key: Key) { (step.Put? || step.IncrExpire?) && step.key == key }

  lemma KeptBeforeDeadline(s: State, step: Step, key: Key)
    requires Matched(s) && key in s.entries && !Removes(step, key)
    requires s.entries[key].expiresAt == 0 || s.now < s.entries[key].expiresAt
    ensures key in Next(s, step).entries && Next(s, step).entries[key].expiresAt == s.entries[key].expiresAt
    ensures !Counts(step, key) ==> Next(s, step).entries[key] == s.entries[key]
  {
    if step.Fire? && step.id in s.timers && s.timers[step.id].due <= s.now {
      FireEvictsItsEntry(s, step.id);
    }
  }

  /**
   Strictly before its deadline, and for ever without one, an entry that nobody replaces or deletes
   is found, whatever else happens; its value changes only by counting.
   */
  lemma {:induction false} VisibleBeforeDeadline(s: State, steps: seq<Step>, key: Key)
    requires Matched(s) && key in s.entries && (forall i :: 0 <= i < |steps| ==> !Removes(steps[i], key))
    requires s.entries[key].expiresAt == 0 || Run(s, steps).now < s.entries[key].expiresAt
    ensures Live(Run(s, steps), key) && Run(s, steps).entries[key].expiresAt == s.entries[key].expiresAt
    ensures (forall i :: 0 <= i < |steps| ==> !Counts(steps[i], key)) ==>
              Out(Run(s, steps), Get(key)) == Found(Some(s.entries[key].value))
    decreases |steps|
  {
    ClockNeverGoesBack(s, steps);
    if steps == [] {
    } else {
      KeptBeforeDeadline(s, steps[0], key);
      StepMatched(s, steps[0]);
      VisibleBeforeDeadline(Next(s, steps[0]), steps[1..], key);
    }
  }

  /** Strictly after the deadline nothing is found, timer or no timer, until somebody stores anew. */
  lemma {:induction false} InvisibleAfterDeadline(s: State, steps: seq<Step>, key: Key, deadline: nat)
    requires key in s.entries ==> s.entries[key].expiresAt == deadline != 0
    requires forall i :: 0 <= i < |steps| ==> !Creates(steps[i], key)
    requires Run(s, steps).now > deadline
    ensures Out(Run(s, steps), Get(key)) == Found(None)
    decreases |steps|
  {
    if steps == [] {
    } else {
      InvisibleAfterDeadline(Next(s, steps[0]), steps[1..], key, deadline);
    }
  }

  // ---------------------------------------------------------------- single use

  function Bit(b: bool): nat { if b then 1 else 0 }

  /** How many calls of `getdel` in the run returned a value. */
  function Takes(s: State, steps: seq<Step>, key: Key): nat
    decreases |steps|
  {
    if steps == [] then 0
    else Bit(steps[0] == GetDel(key) && Out(s, steps[0]) != Found(None)) + Takes(Next(s, steps[0]), steps[1..], key)
  }

  /** How many steps of the run stored a new entry. */
  function Creations(s: State, steps: seq<Step>, key: Key): nat
    decreases |steps|
  {
    if steps == [] then 0
    else Bit(Creates(steps[0], key) && (steps[0].Put? || !Live(s, key))) + Creations(Next(s, steps[0]), steps[1..], key)
  }

  /** Values handed out by `getdel`, plus the one still visible, never outnumber the entries stored. */
  lemma {:induction false} TakenAtMostOnce(s: State, steps: seq<Step>, key: Key)
    ensures Takes(s, steps, key) + Bit(Live(Run(s, steps), key)) <= Bit(Live(s, key)) + Creations(s, steps, key)
    decreases |steps|
  {
    if steps == [] {
    } else {
      TakenAtMostOnce(Next(s, steps[0]), steps[1..], key);
    }
  }
}
