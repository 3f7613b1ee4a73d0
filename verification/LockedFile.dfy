/**
 The locked read-modify-write protocol on an encrypted file: take the lock, read, run the callback,
 write a temporary file, rename it over the original, release. Any number of workers interleave at
 every step; unlocked readers may read at any moment. Encryption followed by decryption is the
 identity here, and the lock gives mutual exclusion.
 */
module LockedFile {
  import opened Common

  /** How a callback ends: it asks for the write, opts out of it, or throws. */
  datatype Outcome = Commit | Skip | Throw

  datatype Applied<D> = Applied(data: D, outcome: Outcome)

  /** What one complete critical section does to the file. */
  function Effect<D, T>(apply: (T, D) -> Applied<D>, t: T, d: D): D {
    var a := apply(t, d);
    if a.outcome == Commit then a.data else d
  }

  /** The critical sections, one after the other. */
  function Fold<D, T>(apply: (T, D) -> Applied<D>, d: D, ts: seq<T>): D {
    if ts == [] then d else Effect(apply, ts[|ts| - 1], Fold(apply, d, ts[..|ts| - 1]))
  }

  // ---------------------------------------------------------------- the protocol

  datatype Phase<D, T> =
    | Waiting(t: T)
    | Holding(t: T)
    | Loaded(t: T, data: D)
    | Ready(t: T, data: D, outcome: Outcome)
    | Staged(t: T)
    | Finished(t: T)

  /** An unlocked read: what was seen, and how many critical sections the file reflected. */
  datatype Read<D> = Read(data: D, version: nat)

  datatype State<D, T> = State(file: D, tmp: Option<D>, holder: Option<nat>, workers: map<nat, Phase<D, T>>,
                               acquired: seq<T>, seen: seq<Read<D>>)

  datatype Step<T> =
    | Begin(w: nat, t: T)
    | GiveUp(w: nat)
    | Acquire(w: nat)
    | Load(w: nat)
    | Compute(w: nat)
    | WriteTmp(w: nat)
    | Rename(w: nat)
    | Release(w: nat)
    | ReadUnlocked

  function Start<D, T>(d: D): State<D, T> { State(d, None, None, map[], [], []) }

  /** How many of the acquired critical sections the file on disk reflects. */
  function Version<D, T>(s: State<D, T>): nat {
    if s.holder.None? || s.acquired == [] then |s.acquired|
    else if s.holder.value in s.workers && s.workers[s.holder.value].Finished? then |s.acquired|
    else |s.acquired| - 1
  }

  /** One step of one worker; a step that is not possible in its phase changes nothing. */
  function Next<D, T>(apply: (T, D) -> Applied<D>, s: State<D, T>, step: Step<T>): State<D, T> {
    match step
    case Begin(w, t) =>
      if w in s.workers then s else s.(workers := s.workers[w := Waiting(t)])
    case GiveUp(w) =>
      if w in s.workers && s.workers[w].Waiting? then s.(workers := s.workers - {w}) else s
    case Acquire(w) =>
      if w in s.workers && s.workers[w].Waiting? && s.holder.None? then
        var t := s.workers[w].t;
        s.(holder := Some(w), workers := s.workers[w := Holding(t)], acquired := s.acquired + [t])
      else s
    case Load(w) =>
      if w in s.workers && s.workers[w].Holding?
      then s.(workers := s.workers[w := Loaded(s.workers[w].t, s.file)])
      else s
    case Compute(w) =>
      if w in s.workers && s.workers[w].Loaded? then
        var a := apply(s.workers[w].t, s.workers[w].data);
        s.(workers := s.workers[w := Ready(s.workers[w].t, a.data, a.outcome)])
      else s
    case WriteTmp(w) =>
      if w in s.workers && s.workers[w].Ready? && s.workers[w].outcome == Commit
      then s.(tmp := Some(s.workers[w].data), workers := s.workers[w := Staged(s.workers[w].t)])
      else s
    case Rename(w) =>
      if w in s.workers && s.workers[w].Staged? && s.tmp.Some?
      then s.(file := s.tmp.value, tmp := None, workers := s.workers[w := Finished(s.workers[w].t)])
      else s
    case Release(w) =>
      if w in s.workers && (s.workers[w].Finished? || (s.workers[w].Ready? && s.workers[w].outcome != Commit))
      then s.(holder := None, workers := s.workers - {w})
      else s
    case ReadUnlocked => s.(seen := s.seen + [Read(s.file, Version(s))])
  }

  function Run<D, T>(apply: (T, D) -> Applied<D>, s: State<D, T>, steps: seq<Step<T>>): State<D, T> {
    if steps == [] then s else Next(apply, Run(apply, s, steps[..|steps| - 1]), steps[|steps| - 1])
  }

  /** The worker inside the critical section and its private data, against the fold. */
  ghost predicate Critical<D(!new), T(!new)>(apply: (T, D) -> Applied<D>, d0: D, s: State<D, T>, p: Phase<D, T>) {
    && s.acquired != []
    && var t, before := s.acquired[|s.acquired| - 1], s.acquired[..|s.acquired| - 1];
      && p.t == t
      && match p
         case Waiting(_) => false
         case Holding(_) => s.file == Fold(apply, d0, before)
         case Loaded(_, d) => s.file == d == Fold(apply, d0, before)
         case Ready(_, d, o) => s.file == Fold(apply, d0, before) && apply(t, s.file) == Applied(d, o)
         case Staged(_) => s.file == Fold(apply, d0, before) && s.tmp.Some? && apply(t, s.file) == Applied(s.tmp.value, Commit)
         case Finished(_) => s.file == Fold(apply, d0, s.acquired)
  }

  ghost predicate Exclusive<D(!new), T(!new)>(apply: (T, D) -> Applied<D>, d0: D, s: State<D, T>) {
    && (forall w :: w in s.workers && s.holder != Some(w) ==> s.workers[w].Waiting?)
    && (s.holder.None? ==> s.file == Fold(apply, d0, s.acquired))
    && (s.holder.Some? ==> s.holder.value in s.workers && Critical(apply, d0, s, s.workers[s.holder.value]))
  }

  lemma ExclusiveStep<D(!new), T(!new)>(apply: (T, D) -> Applied<D>, d0: D, s: State<D, T>, step: Step<T>)
    requires Exclusive(apply, d0, s)
    ensures Exclusive(apply, d0, Next(apply, s, step))
  {
    var s' := Next(apply, s, step);
    if step.Acquire? && s' != s {
      assert s'.acquired[..|s'.acquired| - 1] == s.acquired;
    }
  }

  /** At every moment of every interleaving, the file is the fold of the finished sections. */
  lemma FileIsFold<D(!new), T(!new)>(apply: (T, D) -> Applied<D>, d0: D, s: State<D, T>)
    requires Exclusive(apply, d0, s)
    ensures s.file == Fold(apply, d0, s.acquired[..Version(s)])
    ensures |s.acquired| - 1 <= Version(s) <= |s.acquired|
    ensures s.holder.None? ==> Version(s) == |s.acquired|
  {
    assert s.acquired[..|s.acquired|] == s.acquired;
  }

  /** Every unlocked read saw the fold of some prefix, and later reads see later prefixes. */
  ghost predicate ReadsInOrder<D(!new), T(!new)>(apply: (T, D) -> Applied<D>, d0: D, s: State<D, T>) {
    && (forall i :: 0 <= i < |s.seen| ==>
          s.seen[i].version <= Version(s) && s.seen[i].data == Fold(apply, d0, s.acquired[..s.seen[i].version]))
    && (forall i, j :: 0 <= i < j < |s.seen| ==> s.seen[i].version <= s.seen[j].version)
  }

  lemma VersionGrows<D(!new), T(!new)>(apply: (T, D) -> Applied<D>, d0: D, s: State<D, T>, step: Step<T>)
    requires Exclusive(apply, d0, s)
    ensures Version(s) <= Version(Next(apply, s, step))
    ensures s.acquired <= Next(apply, s, step).acquired
  {
  }

  lemma ReadsStep<D(!new), T(!new)>(apply: (T, D) -> Applied<D>, d0: D, s: State<D, T>, step: Step<T>)
    requires Exclusive(apply, d0, s) && ReadsInOrder(apply, d0, s)
    ensures ReadsInOrder(apply, d0, Next(apply, s, step))
  {
    var s' := Next(apply, s, step);
    VersionGrows(apply, d0, s, step);
    FileIsFold(apply, d0, s);
    forall i | 0 <= i < |s.seen|
      ensures s'.acquired[..s.seen[i].version] == s.acquired[..s.seen[i].version]
    {
    }
  }

  /**
   Serializability: after any interleaving of any workers, the file is the initial contents with
   the acquired critical sections applied in lock-acquisition order (all of them once the lock is
   free), and every unlocked read saw a prefix of that history, never going backwards.
   */
  lemma {:induction false} Serializable<D(!new), T(!new)>(apply: (T, D) -> Applied<D>, d0: D, steps: seq<Step<T>>)
    ensures var s := Run(apply, Start(d0), steps);
      && Exclusive(apply, d0, s)
      && s.file == Fold(apply, d0, s.acquired[..Version(s)])
      && |s.acquired| - 1 <= Version(s) <= |s.acquired|
      && (s.holder.None? ==> s.file == Fold(apply, d0, s.acquired))
      && ReadsInOrder(apply, d0, s)
  {
    if steps == [] {
    } else {
      var init, last := steps[..|steps| - 1], steps[|steps| - 1];
      Serializable(apply, d0, init);
      ExclusiveStep(apply, d0, Run(apply, Start(d0), init), last);
      ReadsStep(apply, d0, Run(apply, Start(d0), init), last);
    }
    FileIsFold(apply, d0, Run(apply, Start(d0), steps));
  }

  // ---------------------------------------------------------------- one caller

  class EncryptedFile<D> {
    var content: D
    var staged: Option<D>
    var locked: bool

    constructor (d: D)
      ensures content == d && staged == None && !locked
    {
      content, staged, locked := d, None, false;
    }

    /** The helper as one caller sees it when the lock is granted at once. */
    method WithLock<T>(apply: (T, D) -> Applied<D>, t: T) returns (outcome: Outcome)
      requires !locked
      modifies this
      ensures !locked
      ensures content == Effect(apply, t, old(content))
      ensures outcome == apply(t, old(content)).outcome
    {
      locked := true;
      var users := content;
      var result := apply(t, users);
      outcome := result.outcome;
      if outcome == Commit {
        staged := Some(result.data);
        content, staged := staged.value, None;
      }
      locked := false;
    }
  }
}
