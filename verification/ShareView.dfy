/**
 Viewing a shared secret. Viewers take a lock on the record, revocation does not; a single-view
 record is claimed by writing a viewed copy and renaming it over the original, which may re-create
 a record that was revoked in between. Every file operation is its own step, all processes
 interleave freely, and index entries may come and go at any time.
 */
module ShareView {
  import opened Common

  datatype Record = Record(blob: string, expiresAt: int, singleView: bool, viewed: bool)

  datatype Phase =
    | Away
    | Found
    | Waiting
    | Locked
    | Loaded(rec: Record)
    | Claiming(rec: Record, at: int)
    | Staged(rec: Record, at: int)
    | Closing(reply: Option<Grant>)

  /** A share body that was returned, and the clock reading of its expiry test. */
  datatype Grant = Grant(blob: string, at: int)

  datatype State = State(record: Option<Record>, tmp: Option<Record>, indexed: bool, holder: Option<nat>,
                         viewers: map<nat, Phase>, now: int, revoked: bool, granted: seq<Grant>)

  datatype Step =
    | Publish
    | Unindex
    | Revoke
    | Tick(seconds: nat)
    | Lookup(v: nat)
    | Exists(v: nat)
    | Acquire(v: nat)
    | Load(v: nat)
    | Check(v: nat)
    | WriteTmp(v: nat)
    | Rename(v: nat)
    | WriteFails(v: nat)
    | Release(v: nat)

  /** A share just written by its owner, not yet in the index. */
  function Created(r: Record, now: int): State {
    State(Some(r.(viewed := false)), None, false, None, map[], now, false, [])
  }

  function At(s: State, v: nat): Phase { if v in s.viewers then s.viewers[v] else Away }

  function To(s: State, v: nat, p: Phase): State { s.(viewers := s.viewers[v := p]) }

  /** One step of one request; a step that is not possible in its phase changes nothing. */
  function Next(s: State, step: Step): State {
    match step
    case Publish => s.(indexed := true)
    case Unindex => s.(indexed := false)
    case Revoke => if s.record.Some? then s.(record := None, revoked := true) else s
    case Tick(seconds) => s.(now := s.now + seconds)
    case Lookup(v) => if v !in s.viewers && s.indexed then To(s, v, Found) else s
    case Exists(v) =>
      if !At(s, v).Found? then s
      else if s.record.Some? then To(s, v, Waiting) else s.(viewers := s.viewers - {v})
    case Acquire(v) =>
      if !At(s, v).Waiting? || s.holder.Some? then s
      else if s.record.Some? then To(s.(holder := Some(v)), v, Locked) else s.(viewers := s.viewers - {v})
    case Load(v) =>
      if !At(s, v).Locked? then s
      else if s.record.Some? then To(s, v, Loaded(s.record.value)) else To(s, v, Closing(None))
    case Check(v) =>
      if !At(s, v).Loaded? then s
      else
        var r := s.viewers[v].rec;
        if s.now > r.expiresAt then To(s.(record := None), v, Closing(None))
        else if !r.singleView then To(s, v, Closing(Some(Grant(r.blob, s.now))))
        else if r.viewed then To(s, v, Closing(None))
        else To(s, v, Claiming(r.(viewed := true), s.now))
    case WriteTmp(v) =>
      if !At(s, v).Claiming? then s
      else To(s.(tmp := Some(s.viewers[v].rec)), v, Staged(s.viewers[v].rec, s.viewers[v].at))
    case Rename(v) =>
      if !At(s, v).Staged? || s.tmp.None? then s
      else To(s.(record := s.tmp, tmp := None), v, Closing(Some(Grant(s.viewers[v].rec.blob, s.viewers[v].at))))
    case WriteFails(v) =>
      if At(s, v).Claiming? || At(s, v).Staged? then To(s, v, Closing(None)) else s
    case Release(v) =>
      if !At(s, v).Closing? then s
      else
        var reply := s.viewers[v].reply;
        s.(holder := None, viewers := s.viewers - {v},
           granted := if reply.Some? then s.granted + [reply.value] else s.granted)
  }

  function Run(s: State, steps: seq<Step>): State {
    if steps == [] then s else Next(Run(s, steps[..|steps| - 1]), steps[|steps| - 1])
  }

  // ---------------------------------------------------------------- invariants

  /** A record that carries the owner's data, whatever its viewed flag. */
  predicate Genuine(r: Record, r0: Record) {
    r.blob == r0.blob && r.expiresAt == r0.expiresAt && r.singleView == r0.singleView && (r.viewed ==> r.singleView)
  }

  predicate Timely(g: Grant, r0: Record) {
    g.blob == r0.blob && g.at <= r0.expiresAt
  }

  predicate PhaseOk(p: Phase, r0: Record) {
    match p
    case Loaded(r) => Genuine(r, r0)
    case Claiming(r, at) => Genuine(r, r0) && r.viewed && at <= r0.expiresAt
    case Staged(r, at) => Genuine(r, r0) && r.viewed && at <= r0.expiresAt
    case Closing(reply) => reply.Some? ==> Timely(reply.value, r0)
    case _ => true
  }

  predicate Inside(p: Phase) { !p.Away? && !p.Found? && !p.Waiting? }

  /** Only the lock holder is past the lock. */
  predicate Exclusive(s: State) {
    && (forall v :: v in s.viewers && s.holder != Some(v) ==> !Inside(s.viewers[v]))
    && (s.holder.Some? ==> s.holder.value in s.viewers && Inside(s.viewers[s.holder.value]))
  }

  /** Everything the viewers hold carries the owner's data. */
  predicate PhasesGenuine(s: State, r0: Record) {
    forall v :: v in s.viewers ==> PhaseOk(s.viewers[v], r0)
  }

  /** So does everything on disk and everything returned. */
  predicate FilesGenuine(s: State, r0: Record) {
    && (s.record.Some? ==> Genuine(s.record.value, r0))
    && (s.tmp.Some? ==> Genuine(s.tmp.value, r0) && s.tmp.value.viewed)
    && (forall i :: 0 <= i < |s.granted| ==> Timely(s.granted[i], r0))
    && (s.revoked && s.record.Some? ==> s.record.value.viewed)
  }

  predicate Ordered(s: State, r0: Record) { Exclusive(s) && PhasesGenuine(s, r0) && FilesGenuine(s, r0) }

  /** The phase of the viewer that holds the record lock. */
  function HolderPhase(s: State): Phase { if s.holder.Some? then At(s, s.holder.value) else Away }

  /** The reply the lock holder is about to send. */
  function Pending(s: State): nat {
    var p := HolderPhase(s);
    if p.Closing? && p.reply.Some? then 1 else 0
  }

  /** The holder may still turn an unviewed record into a grant. */
  predicate MayClaim(s: State) {
    match HolderPhase(s)
    case Loaded(r) => !r.viewed
    case Claiming(_, _) => true
    case Staged(_, _) => true
    case _ => false
  }

  predicate Unclaimed(s: State) {
    (s.record.Some? && !s.record.value.viewed) || MayClaim(s)
  }

  /** A single-view share is granted, being granted, or still claimable, but never two of these. */
  predicate SingleUse(s: State, r0: Record) {
    r0.singleView ==> |s.granted| + Pending(s) <= 1 && (|s.granted| + Pending(s) == 1 ==> !Unclaimed(s))
  }

  lemma OrderedStep(s: State, step: Step, r0: Record)
    requires Ordered(s, r0)
    ensures Ordered(Next(s, step), r0)
  {
    ExclusiveStep(s, step);
    PhasesStep(s, step, r0);
    FilesStep(s, step, r0);
  }

  /** A step of one viewer leaves the others where they are. */
  lemma OthersStay(s: State, step: Step, w: nat)
    requires step.Publish? || step.Unindex? || step.Revoke? || step.Tick? || step.v != w
    ensures At(Next(s, step), w) == At(s, w) && (w in Next(s, step).viewers <==> w in s.viewers)
    ensures s.holder == Some(w) ==> Next(s, step).holder == s.holder || step.Release?
  {
  }

  /** Of a viewer's own step: only acquiring the lock takes it inside, and only then is it the holder. */
  lemma OwnStep(s: State, step: Step)
    requires Exclusive(s) && !(step.Publish? || step.Unindex? || step.Revoke? || step.Tick?)
    ensures var s', v := Next(s, step), step.v;
      && (v in s'.viewers && Inside(s'.viewers[v]) <==> s'.holder == Some(v))
      && (s'.holder == s.holder || s'.holder == Some(v) || (s'.holder.None? && s.holder == Some(v)))
  {
    var v := step.v;
    assert v in s.viewers && s.holder != Some(v) ==> !Inside(s.viewers[v]);
    hide Exclusive;
  }

  lemma ExclusiveStep(s: State, step: Step)
    requires Exclusive(s)
    ensures Exclusive(Next(s, step))
  {
    var s' := Next(s, step);
    if step.Publish? || step.Unindex? || step.Revoke? || step.Tick? {
    } else {
      OwnStep(s, step);
      hide Next;
      forall w | w in s'.viewers && s'.holder != Some(w)
        ensures !Inside(s'.viewers[w])
      {
        if w != step.v {
          OthersStay(s, step, w);
        }
      }
      if s'.holder.Some? && s'.holder.value != step.v {
        OthersStay(s, step, s'.holder.value);
      }
    }
  }

  lemma PhasesStep(s: State, step: Step, r0: Record)
    requires PhasesGenuine(s, r0) && FilesGenuine(s, r0)
    ensures PhasesGenuine(Next(s, step), r0)
  {
    hide Next, PhaseOk;
    var s' := Next(s, step);
    forall v | v in s'.viewers
      ensures PhaseOk(s'.viewers[v], r0)
    {
      assert v in s.viewers ==> PhaseOk(s.viewers[v], r0);
      PhaseStepAt(s, step, v, r0);
    }
  }

  lemma PhaseStepAt(s: State, step: Step, v: nat, r0: Record)
    requires v in s.viewers ==> PhaseOk(s.viewers[v], r0)
    requires s.record.Some? ==> Genuine(s.record.value, r0)
    ensures v in Next(s, step).viewers ==> PhaseOk(Next(s, step).viewers[v], r0)
  {
    if step.Publish? || step.Unindex? || step.Revoke? || step.Tick? || step.v != v {
      OthersStay(s, step, v);
      hide Next, PhaseOk;
    } else if step.Lookup? || step.Exists? || step.Acquire? || step.Load? {
      BeforeCheck(s, step, r0);
    } else if step.Check? {
      AtCheck(s, step, r0);
    } else {
      AfterCheck(s, step, r0);
    }
  }

  lemma BeforeCheck(s: State, step: Step, r0: Record)
    requires step.Lookup? || step.Exists? || step.Acquire? || step.Load?
    requires step.v in s.viewers ==> PhaseOk(s.viewers[step.v], r0)
    requires s.record.Some? ==> Genuine(s.record.value, r0)
    ensures step.v in Next(s, step).viewers ==> PhaseOk(Next(s, step).viewers[step.v], r0)
  {
    hide Genuine, Timely;
  }

  lemma AtCheck(s: State, step: Step, r0: Record)
    requires step.Check? && (step.v in s.viewers ==> PhaseOk(s.viewers[step.v], r0))
    ensures step.v in Next(s, step).viewers ==> PhaseOk(Next(s, step).viewers[step.v], r0)
  {
  }

  lemma AfterCheck(s: State, step: Step, r0: Record)
    requires step.WriteTmp? || step.Rename? || step.WriteFails? || step.Release?
    requires step.v in s.viewers ==> PhaseOk(s.viewers[step.v], r0)
    ensures step.v in Next(s, step).viewers ==> PhaseOk(Next(s, step).viewers[step.v], r0)
  {
  }

  /** What is on disk changes only by removal, and by the files a claiming viewer writes. */
  lemma DiskStep(s: State, step: Step, r0: Record)
    requires PhasesGenuine(s, r0) && FilesGenuine(s, r0)
    ensures var s' := Next(s, step);
      && (s'.record.Some? ==> Genuine(s'.record.value, r0))
      && (s'.tmp.Some? ==> Genuine(s'.tmp.value, r0) && s'.tmp.value.viewed)
      && (s'.revoked && s'.record.Some? ==> s'.record.value.viewed)
  {
    if step.WriteTmp? && step.v in s.viewers {
      assert PhaseOk(s.viewers[step.v], r0);
    }
    hide PhasesGenuine, Genuine;
  }

  lemma GrantedStep(s: State, step: Step, r0: Record)
    requires PhasesGenuine(s, r0) && FilesGenuine(s, r0)
    ensures var s' := Next(s, step); forall i :: 0 <= i < |s'.granted| ==> Timely(s'.granted[i], r0)
  {
    if step.Release? && step.v in s.viewers {
      assert PhaseOk(s.viewers[step.v], r0);
    }
    hide PhasesGenuine, Genuine, Timely;
  }

  lemma FilesStep(s: State, step: Step, r0: Record)
    requires PhasesGenuine(s, r0) && FilesGenuine(s, r0)
    ensures FilesGenuine(Next(s, step), r0)
  {
    DiskStep(s, step, r0);
    GrantedStep(s, step, r0);
    hide Next, PhasesGenuine, Genuine, Timely;
  }

  /** Off the lock, a step touches neither the record on disk nor the lock holder. */
  lemma OutsideStep(s: State, step: Step)
    requires Exclusive(s)
    requires step.Publish? || step.Unindex? || step.Revoke? || step.Tick? || s.holder != Some(step.v)
    requires !(step.Acquire? && Next(s, step).holder != s.holder)
    ensures var s' := Next(s, step);
      HolderPhase(s') == HolderPhase(s) && s'.granted == s.granted && (s'.record == s.record || s'.record == None)
  {
  }

  lemma SingleUseStep(s: State, step: Step, r0: Record)
    requires Ordered(s, r0) && SingleUse(s, r0)
    ensures SingleUse(Next(s, step), r0)
  {
    var s' := Next(s, step);
    if step.Acquire? && s'.holder != s.holder {
      assert HolderPhase(s) == Away && HolderPhase(s') == Locked;
    } else if step.Publish? || step.Unindex? || step.Revoke? || step.Tick? || s.holder != Some(step.v) {
      OutsideStep(s, step);
    } else {
      HolderStep(s, step, r0);
    }
  }

  lemma HolderStep(s: State, step: Step, r0: Record)
    requires Ordered(s, r0) && SingleUse(s, r0)
    requires !(step.Publish? || step.Unindex? || step.Revoke? || step.Tick?) && s.holder == Some(step.v)
    ensures SingleUse(Next(s, step), r0)
  {
    assert PhaseOk(At(s, step.v), r0);
  }

  /**
   In every interleaving of views, revocations and expiry, a single-view share is returned at most
   once; whatever is returned is the owner's data, tested before its deadline; and once revoked, the
   only record that can be on disk is a viewed one.
   */
  lemma {:induction false} ViewedAtMostOnce(r0: Record, now: int, steps: seq<Step>)
    ensures var s := Run(Created(r0, now), steps);
      && Ordered(s, r0) && SingleUse(s, r0)
      && (r0.singleView ==> |s.granted| <= 1)
      && (forall i :: 0 <= i < |s.granted| ==> s.granted[i].blob == r0.blob && s.granted[i].at <= r0.expiresAt)
      && (s.revoked && s.record.Some? ==> s.record.value.viewed)
  {
    if steps == [] {
    } else {
      var init, last := steps[..|steps| - 1], steps[|steps| - 1];
      ViewedAtMostOnce(r0, now, init);
      OrderedStep(Run(Created(r0, now), init), last, r0);
      SingleUseStep(Run(Created(r0, now), init), last, r0);
    }
  }

  /** A view that finds its record expired removes it and gets nothing; up to the very deadline it goes on. */
  lemma ExpiredIsRemoved(s: State, v: nat)
    requires At(s, v).Loaded?
    ensures var s', r := Next(s, Check(v)), s.viewers[v].rec;
      && (s.now > r.expiresAt ==> s'.record == None && s'.viewers[v] == Closing(None))
      && (s.now <= r.expiresAt ==> s'.record == s.record)
      && (s.now <= r.expiresAt && !r.singleView ==> s'.viewers[v] == Closing(Some(Grant(r.blob, s.now))))
      && (s.now <= r.expiresAt && r.singleView ==> (s'.viewers[v] == Closing(None) <==> r.viewed))
  {
  }

  /** No view is past its lock with something to hand out. */
  predicate Quiet(s: State) { Pending(s) == 0 && !MayClaim(s) }

  /** What a revoked share may still give: one grant, to the view that holds the lock and has loaded. */
  function Owed(s: State): nat { if Quiet(s) then 0 else 1 }

  lemma HolderOwes(s: State, step: Step, r0: Record)
    requires Ordered(s, r0) && s.revoked
    requires !(step.Publish? || step.Unindex? || step.Revoke? || step.Tick?) && s.holder == Some(step.v)
    ensures var s' := Next(s, step);
      && |s'.granted| + Owed(s') <= |s.granted| + Owed(s)
      && (Owed(s') == 1 ==> s'.holder == s.holder)
      && (s'.granted != s.granted ==> step.Release?)
  {
    assert PhaseOk(At(s, step.v), r0);
  }

  /** After a revocation no step adds to what is granted or owed, and only the holder is owed. */
  lemma OwedStep(s: State, step: Step, r0: Record)
    requires Ordered(s, r0) && s.revoked
    ensures var s' := Next(s, step);
      && s'.revoked
      && |s'.granted| + Owed(s') <= |s.granted| + Owed(s)
      && (Owed(s') == 1 ==> s'.holder == s.holder)
      && (s'.granted != s.granted ==> step.Release? && s.holder == Some(step.v))
  {
    var s' := Next(s, step);
    if step.Acquire? && s'.holder != s.holder {
      assert HolderPhase(s) == Away && HolderPhase(s') == Locked;
    } else if step.Publish? || step.Unindex? || step.Revoke? || step.Tick? || s.holder != Some(step.v) {
      OutsideStep(s, step);
      if !Quiet(s') {
        assert s.holder.Some?;
      }
    } else {
      HolderOwes(s, step, r0);
    }
  }

  /**
   A revocation is final. From any state after it at most one more grant happens, and it goes to the
   view that held the lock and had already loaded the record; without such a view there is none.
   */
  lemma {:induction false} RevocationIsFinal(s: State, steps: seq<Step>, r0: Record)
    requires Ordered(s, r0) && s.revoked
    ensures var s' := Run(s, steps);
      && Ordered(s', r0) && s'.revoked
      && |s.granted| <= |s'.granted| && |s'.granted| + Owed(s') <= |s.granted| + Owed(s)
      && (Owed(s') == 1 ==> s'.holder == s.holder)
      && (Quiet(s) ==> s'.granted == s.granted && Quiet(s'))
  {
    if steps == [] {
    } else {
      var init, last := steps[..|steps| - 1], steps[|steps| - 1];
      RevocationIsFinal(s, init, r0);
      OrderedStep(Run(s, init), last, r0);
      OwedStep(Run(s, init), last, r0);
      GrantsGrow(Run(s, init), last);
    }
  }

  lemma GrantsGrow(s: State, step: Step)
    ensures s.granted <= Next(s, step).granted
  {
  }

  function SoloView(v: nat): seq<Step> {
    [Lookup(v), Exists(v), Acquire(v), Load(v), Check(v), WriteTmp(v), Rename(v), Release(v)]
  }

  /** Without interference the first view of an indexed, unexpired share is granted. */
  lemma FirstViewIsGranted(r0: Record, now: int, v: nat)
    requires now <= r0.expiresAt
    ensures var s := Run(Created(r0, now).(indexed := true), SoloView(v));
      s.granted == [Grant(r0.blob, now)] && s.holder.None? && v !in s.viewers
  {
    hide Next;
    var s0, all := Created(r0, now).(indexed := true), SoloView(v);
    RunUnfolds(s0, all, 7);
    RunUnfolds(s0, all, 6);
    RunUnfolds(s0, all, 5);
    RunUnfolds(s0, all, 4);
    RunUnfolds(s0, all, 3);
    RunUnfolds(s0, all, 2);
    RunUnfolds(s0, all, 1);
    RunUnfolds(s0, all, 0);
    assert all[..8] == all && Run(s0, all[..0]) == s0;
    var s4 := SoloToLoad(r0, now, v);
    SoloFromLoad(s4, r0, now, v);
  }

  lemma SoloToLoad(r0: Record, now: int, v: nat) returns (s4: State)
    ensures var s0 := Created(r0, now).(indexed := true);
      s4 == Next(Next(Next(Next(s0, Lookup(v)), Exists(v)), Acquire(v)), Load(v))
      == To(s0.(holder := Some(v)), v, Loaded(r0.(viewed := false)))
  {
    var s0 := Created(r0, now).(indexed := true);
    var s1 := Next(s0, Lookup(v));
    assert s1.viewers == map[v := Found];
    var s2 := Next(s1, Exists(v));
    assert s2.viewers == map[v := Waiting];
    var s3 := Next(s2, Acquire(v));
    assert s3.viewers == map[v := Locked];
    s4 := Next(s3, Load(v));
  }

  lemma SoloFromLoad(s4: State, r0: Record, now: int, v: nat)
    requires now <= r0.expiresAt
    requires s4 == To(Created(r0, now).(indexed := true, holder := Some(v)), v, Loaded(r0.(viewed := false)))
    ensures var s := Next(Next(Next(Next(s4, Check(v)), WriteTmp(v)), Rename(v)), Release(v));
      s.granted == [Grant(r0.blob, now)] && s.holder.None? && v !in s.viewers
  {
    var s5 := Next(s4, Check(v));
    var s6 := Next(s5, WriteTmp(v));
    var s7 := Next(s6, Rename(v));
    assert s7.granted == [];
    assert At(s7, v) == Closing(Some(Grant(r0.blob, now)));
  }

  lemma RunUnfolds(s: State, steps: seq<Step>, k: nat)
    requires k < |steps|
    ensures Run(s, steps[..k + 1]) == Next(Run(s, steps[..k]), steps[k])
  {
    assert steps[..k + 1][..k] == steps[..k];
  }
}
