/**
 One-time backup codes: the stored list of hashed codes, and the scan that accepts a code and marks
 its record used. Hash parsing and password verification are parameters; the encrypted blob that
 holds the list is taken to decrypt to what was last written.
 */
module BackupCodes {
  import opened Common

  datatype BackupCode = BackupCode(hash: string, usedAt: Option<int>)

  datatype Hashing = Hashing(parses: string -> bool, verifies: (string, string) -> bool)

  datatype Verdict = Accepted(index: nat) | Rejected | Malformed

  /** The first unused record whose hash does not parse, or whose hash the code satisfies. */
  predicate Stops(r: BackupCode, code: string, h: Hashing) {
    r.usedAt.None? && (!h.parses(r.hash) || h.verifies(r.hash, code))
  }

  /** What scanning the list must answer. */
  ghost predicate Answers(v: Verdict, rs: seq<BackupCode>, code: string, h: Hashing) {
    match v
    case Accepted(i) =>
      && i < |rs| && Stops(rs[i], code, h) && h.parses(rs[i].hash)
      && forall j :: 0 <= j < i ==> !Stops(rs[j], code, h)
    case Rejected => forall j :: 0 <= j < |rs| ==> !Stops(rs[j], code, h)
    case Malformed =>
      exists i :: 0 <= i < |rs| && Stops(rs[i], code, h) && !h.parses(rs[i].hash)
                  && forall j :: 0 <= j < i ==> !Stops(rs[j], code, h)
  }

  function Scan(rs: seq<BackupCode>, code: string, h: Hashing, from: nat): (v: Verdict)
    requires from <= |rs|
    requires forall j :: 0 <= j < from ==> !Stops(rs[j], code, h)
    ensures Answers(v, rs, code, h)
    decreases |rs| - from
  {
    if from == |rs| then Rejected
    else if !Stops(rs[from], code, h) then Scan(rs, code, h, from + 1)
    else if h.parses(rs[from].hash) then Accepted(from) else Malformed
  }

  function Marked(rs: seq<BackupCode>, v: Verdict, now: int): seq<BackupCode>
    requires v.Accepted? ==> v.index < |rs|
  {
    if v.Accepted? then rs[v.index := rs[v.index].(usedAt := Some(now))] else rs
  }

  class BackupCodeStore {
    var records: seq<BackupCode>

    /** Accepts a code at most once: the matching record is marked in place. */
    method Verify(code: string, now: int, h: Hashing) returns (v: Verdict)
      modifies this
      ensures v == Scan(old(records), code, h, 0)
      ensures records == Marked(old(records), v, now)
      ensures v.Accepted? ==>
                && v.index < |old(records)| && old(records)[v.index].usedAt == None
                && h.parses(old(records)[v.index].hash) && h.verifies(old(records)[v.index].hash, code)
                && records == old(records)[v.index := BackupCode(old(records)[v.index].hash, Some(now))]
      ensures !v.Accepted? ==> records == old(records)
    {
      var i := 0;
      while i < |records|
        invariant 0 <= i <= |records|
        invariant records == old(records)
        invariant forall j :: 0 <= j < i ==> !Stops(records[j], code, h)
        invariant Scan(records, code, h, 0) == Scan(records, code, h, i)
      {
        if records[i].usedAt.None? {
          if !h.parses(records[i].hash) {
            return Malformed;
          }
          if h.verifies(records[i].hash, code) {
            records := records[i := records[i].(usedAt := Some(now))];
            return Accepted(i);
          }
        }
        i := i + 1;
      }
      return Rejected;
    }
  }

  // ---------------------------------------------------------------- runs

  datatype Attempt = Attempt(code: string, now: int)

  function Unused(rs: seq<BackupCode>): nat {
    if rs == [] then 0 else Unused(rs[..|rs| - 1]) + if rs[|rs| - 1].usedAt.None? then 1 else 0
  }

  /** The record indices accepted along a run of attempts. */
  function AcceptedBy(rs: seq<BackupCode>, attempts: seq<Attempt>, h: Hashing): seq<nat>
    decreases |attempts|
  {
    if attempts == [] then []
    else
      var v := Scan(rs, attempts[0].code, h, 0);
      (if v.Accepted? then [v.index] else []) + AcceptedBy(Marked(rs, v, attempts[0].now), attempts[1..], h)
  }

  function RecordsAfter(rs: seq<BackupCode>, attempts: seq<Attempt>, h: Hashing): seq<BackupCode>
    decreases |attempts|
  {
    if attempts == [] then rs
    else RecordsAfter(Marked(rs, Scan(rs, attempts[0].code, h, 0), attempts[0].now), attempts[1..], h)
  }

  lemma {:induction false} MarkUsesOne(rs: seq<BackupCode>, i: nat, now: int)
    requires i < |rs| && rs[i].usedAt.None?
    ensures Unused(rs[i := rs[i].(usedAt := Some(now))]) == Unused(rs) - 1
  {
    var k := |rs| - 1;
    var rs' := rs[i := rs[i].(usedAt := Some(now))];
    if i < k {
      MarkUsesOne(rs[..k], i, now);
      assert rs'[..k] == rs[..k][i := rs[i].(usedAt := Some(now))];
    } else {
      assert rs'[..k] == rs[..k];
    }
  }

  /**
   Every acceptance consumes exactly one unused record, and no record is accepted twice, in any
   run of attempts.
   */
  lemma {:induction false} EachCodeOnce(rs: seq<BackupCode>, attempts: seq<Attempt>, h: Hashing)
    ensures var a := AcceptedBy(rs, attempts, h);
      && |a| + Unused(RecordsAfter(rs, attempts, h)) == Unused(rs)
      && (forall i :: 0 <= i < |a| ==> a[i] < |rs| && rs[a[i]].usedAt.None?)
      && (forall i, j :: 0 <= i < j < |a| ==> a[i] != a[j])
    decreases |attempts|
  {
    if attempts == [] {
    } else {
      var v := Scan(rs, attempts[0].code, h, 0);
      var rs' := Marked(rs, v, attempts[0].now);
      EachCodeOnce(rs', attempts[1..], h);
      if v.Accepted? {
        MarkUsesOne(rs, v.index, attempts[0].now);
        var a, a' := AcceptedBy(rs, attempts, h), AcceptedBy(rs', attempts[1..], h);
        assert a == [v.index] + a';
      }
    }
  }

  /**
   Exactly which codes are accepted: if the unused records all parse, a code is accepted if and only
   if some unused record's hash verifies it, and the first such record is the one used up.
   */
  lemma AcceptedIff(rs: seq<BackupCode>, code: string, h: Hashing)
    requires forall i :: 0 <= i < |rs| && rs[i].usedAt == None ==> h.parses(rs[i].hash)
    ensures var v := Scan(rs, code, h, 0);
      && (v.Accepted? <==> exists i :: 0 <= i < |rs| && rs[i].usedAt == None && h.verifies(rs[i].hash, code))
      && (v.Accepted? ==> forall j :: 0 <= j < v.index && rs[j].usedAt == None ==> !h.verifies(rs[j].hash, code))
      && v != Malformed
  {
    var v := Scan(rs, code, h, 0);
    assert Answers(v, rs, code, h);
    if i :| 0 <= i < |rs| && rs[i].usedAt == None && h.verifies(rs[i].hash, code) {
      assert Stops(rs[i], code, h);
    }
  }

  /** A code that was accepted is not accepted a second time, unless another unused record verifies it too. */
  lemma UsedUp(rs: seq<BackupCode>, code: string, h: Hashing, now: int)
    requires forall i :: 0 <= i < |rs| && rs[i].usedAt == None ==> h.parses(rs[i].hash)
    requires forall i, j :: 0 <= i < j < |rs| && h.verifies(rs[i].hash, code) ==> !h.verifies(rs[j].hash, code)
    ensures !Scan(Marked(rs, Scan(rs, code, h, 0), now), code, h, 0).Accepted?
  {
    var v := Scan(rs, code, h, 0);
    AcceptedIff(rs, code, h);
    var rs' := Marked(rs, v, now);
    AcceptedIff(rs', code, h);
  }
}
