/**
 The per-user audit log of the web tier: every appended event is chained to the hash of the event
 before it, the log keeps the newest 2000 events, and clearing leaves one unhashed marker. The keyed
 hash is a parameter. Loading re-checks the chain and flags what does not fit.
 */
module WebAuditChain {
  import opened Common
  import LockedFile

  const CAPACITY: nat := 2000

  /** The start value of the chain: 64 zero digits. */
  const ZERO: string := Zeros(64)

  function Zeros(n: nat): string { if n == 0 then "" else Zeros(n - 1) + "0" }

  type Mac = (string, string) -> string

  datatype Event = Event(data: string, hash: Option<string>, flagged: bool)

  // ---------------------------------------------------------------- operations

  /** The check of one event against the previous hash; an unhashed event is always flagged. */
  function CheckOne(mac: Mac, prev: string, e: Event): Event {
    if e.hash.None? || e.hash.value != mac(e.data, prev) then e.(flagged := true) else e
  }

  function NextPrev(prev: string, e: Event): string { if e.hash.None? then prev else e.hash.value }

  /** Re-checks the chain from the given previous hash. */
  function Checked(mac: Mac, prev: string, events: seq<Event>): (r: seq<Event>)
    ensures |r| == |events|
    decreases |events|
  {
    if events == [] then []
    else [CheckOne(mac, prev, events[0])] + Checked(mac, NextPrev(prev, events[0]), events[1..])
  }

  function Loaded(mac: Mac, stored: seq<Event>): seq<Event> { Checked(mac, ZERO, stored) }

  function LastHash(events: seq<Event>): string {
    if events != [] && events[|events| - 1].hash.Some? then events[|events| - 1].hash.value else ZERO
  }

  /** The untrimmed log after one more event. */
  function Chained(mac: Mac, events: seq<Event>, data: string): seq<Event> {
    events + [Event(data, Some(mac(data, LastHash(events))), false)]
  }

  function Trimmed(events: seq<Event>): seq<Event> {
    if |events| > CAPACITY then events[|events| - CAPACITY..] else events
  }

  function Appended(mac: Mac, stored: seq<Event>, data: string): seq<Event> {
    Trimmed(Chained(mac, Loaded(mac, stored), data))
  }

  function Marker(data: string): Event { Event(data, None, false) }

  /** The previous hash in force at a position. */
  function PrevAt(prev: string, events: seq<Event>, i: nat): string
    requires i <= |events|
    decreases i
  {
    if i == 0 then prev else NextPrev(PrevAt(prev, events, i - 1), events[i - 1])
  }

  lemma {:induction false} PrevShift(prev: string, events: seq<Event>, i: nat)
    requires 0 < i <= |events|
    ensures PrevAt(prev, events, i) == PrevAt(NextPrev(prev, events[0]), events[1..], i - 1)
    decreases i
  {
    if i == 1 {
    } else {
      PrevShift(prev, events, i - 1);
    }
  }

  lemma {:induction false} CheckedAt(mac: Mac, prev: string, events: seq<Event>, i: nat)
    requires i < |events|
    ensures Checked(mac, prev, events)[i] == CheckOne(mac, PrevAt(prev, events, i), events[i])
    decreases i
  {
    if i == 0 {
    } else {
      CheckedAt(mac, NextPrev(prev, events[0]), events[1..], i - 1);
      PrevShift(prev, events, i);
    }
  }

  class AuditLog {
    var stored: seq<Event>

    constructor ()
      ensures stored == []
    {
      stored := [];
    }

    method Load(mac: Mac) returns (events: seq<Event>)
      ensures events == Loaded(mac, stored)
    {
      hide Checked;
      events := stored;
      var prevHash, i := ZERO, 0;
      while i < |events|
        invariant 0 <= i <= |events| == |stored|
        invariant prevHash == PrevAt(ZERO, stored, i)
        invariant forall j :: i <= j < |events| ==> events[j] == stored[j]
        invariant forall j :: 0 <= j < i ==> events[j] == Loaded(mac, stored)[j]
      {
        var e := events[i];
        CheckedAt(mac, ZERO, stored, i);
        if e.hash.None? {
          events := events[i := e.(flagged := true)];
        } else {
          if e.hash.value != mac(e.data, prevHash) {
            events := events[i := e.(flagged := true)];
          }
          prevHash := e.hash.value;
        }
        i := i + 1;
      }
    }

    method Append(mac: Mac, data: string)
      modifies this
      ensures stored == Appended(mac, old(stored), data)
    {
      hide Checked, Zeros;
      var events := Load(mac);
      var prevHash := if events != [] && events[|events| - 1].hash.Some? then events[|events| - 1].hash.value else ZERO;
      events := events + [Event(data, Some(mac(data, prevHash)), false)];
      stored := if |events| > CAPACITY then events[|events| - CAPACITY..] else events;
    }

    method Clear(data: string)
      modifies this
      ensures stored == [Marker(data)]
    {
      stored := [Marker(data)];
    }
  }

  // ---------------------------------------------------------------- runs

  datatype Op = Append(data: string) | Clear(data: string)

  function Stored(mac: Mac, ops: seq<Op>): seq<Event> {
    if ops == [] then []
    else
      match ops[|ops| - 1]
      case Append(d) => Appended(mac, Stored(mac, ops[..|ops| - 1]), d)
      case Clear(d) => [Marker(d)]
  }

  /** The chain as it would be if nothing were ever trimmed. */
  function Untrimmed(mac: Mac, ops: seq<Op>): seq<Event> {
    if ops == [] then []
    else
      match ops[|ops| - 1]
      case Append(d) => Chained(mac, Untrimmed(mac, ops[..|ops| - 1]), d)
      case Clear(d) => [Marker(d)]
  }

  /** The hash an event at position i is chained to. */
  function Before(full: seq<Event>, i: nat): string
    requires i <= |full|
  {
    LastHash(full[..i])
  }

  /** Every event but a leading marker carries the hash of its data and its predecessor. */
  predicate ChainOk(mac: Mac, full: seq<Event>) {
    forall i :: 0 <= i < |full| ==>
      && (full[i].hash.None? ==> i == 0)
      && (full[i].hash.Some? ==> full[i].hash.value == mac(full[i].data, Before(full, i)))
  }

  predicate SameEvent(e: Event, f: Event) { e.data == f.data && e.hash == f.hash }

  /** The stored log is the newest part of the chain; only an unhashed marker is ever saved flagged. */
  predicate Tracks(stored: seq<Event>, full: seq<Event>) {
    && |stored| == Min(|full|, CAPACITY)
    && (forall i :: 0 <= i < |stored| ==> SameEvent(stored[i], full[|full| - |stored| + i]))
    && (forall i :: 0 <= i < |stored| && stored[i].flagged ==> stored[i].hash.None?)
  }

  /** Within the stored log, each event is re-checked against the hash it was chained to. */
  lemma PrevOfStored(mac: Mac, stored: seq<Event>, full: seq<Event>, i: nat)
    requires ChainOk(mac, full) && Tracks(stored, full) && i < |stored|
    ensures i > 0 ==> stored[i].hash.Some? && PrevAt(ZERO, stored, i) == Before(full, |full| - |stored| + i)
  {
    if i > 0 {
      var k := |full| - |stored| + i;
      assert SameEvent(stored[i], full[k]) && SameEvent(stored[i - 1], full[k - 1]);
      assert full[..k][k - 1] == full[k - 1];
      assert i > 1 ==> full[k - 1].hash.Some?;
    }
  }

  /**
   Loading an untampered log flags the clear marker, and otherwise at most the oldest retained
   event: that one exactly when its predecessor in the chain was trimmed and checking it against
   the start value no longer gives its hash.
   */
  lemma FlagsOf(mac: Mac, stored: seq<Event>, full: seq<Event>, i: nat)
    requires ChainOk(mac, full) && Tracks(stored, full) && i < |stored|
    ensures SameEvent(Loaded(mac, stored)[i], stored[i])
    ensures Loaded(mac, stored)[i].flagged <==>
            || stored[i].hash.None?
            || (i == 0 && |stored| < |full| && mac(stored[0].data, ZERO) != stored[0].hash.value)
    ensures i > 0 ==> stored[i].hash.Some?
  {
    hide Checked;
    CheckedAt(mac, ZERO, stored, i);
    PrevOfStored(mac, stored, full, i);
    assert SameEvent(stored[i], full[|full| - |stored| + i]);
  }

  lemma ChainGrows(mac: Mac, full: seq<Event>, data: string)
    requires ChainOk(mac, full)
    ensures ChainOk(mac, Chained(mac, full, data))
  {
    var full' := Chained(mac, full, data);
    forall i | 0 <= i < |full'|
      ensures full'[i].hash.None? ==> i == 0
      ensures full'[i].hash.Some? ==> full'[i].hash.value == mac(full'[i].data, Before(full', i))
    {
      assert full'[..i] == full[..i];
      assert full[..|full|] == full;
    }
  }

  /** One event of the log is re-loaded with its contents, and flagged only for a reason. */
  predicate Follows(e: Event, f: Event, first: bool) { SameEvent(e, f) && (e.flagged ==> e.hash.None? || first) }

  /** A log follows the end of the chain that starts at position k. */
  predicate FollowsFrom(events: seq<Event>, full: seq<Event>, k: nat) {
    |full| == k + |events| && forall i :: 0 <= i < |events| ==> Follows(events[i], full[k + i], i == 0 && k > 0)
  }

  lemma TracksLength(stored: seq<Event>, full: seq<Event>)
    requires Tracks(stored, full)
    ensures |stored| == Min(|full|, CAPACITY)
  {
  }

  lemma LoadedFollowsAt(mac: Mac, stored: seq<Event>, full: seq<Event>, i: nat)
    requires ChainOk(mac, full) && Tracks(stored, full) && i < |stored|
    ensures var k := |full| - |stored|;
      i < |Loaded(mac, stored)| && Follows(Loaded(mac, stored)[i], full[k + i], i == 0 && k > 0)
  {
    hide ChainOk, Checked, Zeros;
    FlagsOf(mac, stored, full, i);
    assert SameEvent(stored[i], full[|full| - |stored| + i]);
  }

  /** What appending starts from: the loaded log still follows the chain. */
  lemma LoadedFollows(mac: Mac, stored: seq<Event>, full: seq<Event>)
    requires ChainOk(mac, full) && Tracks(stored, full)
    ensures FollowsFrom(Loaded(mac, stored), full, |full| - |stored|)
  {
    hide ChainOk, Tracks, Checked, Follows;
    TracksLength(stored, full);
    var loaded, k := Loaded(mac, stored), |full| - |stored|;
    forall i | 0 <= i < |loaded|
      ensures Follows(loaded[i], full[k + i], i == 0 && k > 0)
    {
      LoadedFollowsAt(mac, stored, full, i);
    }
  }

  lemma SameLastHash(events: seq<Event>, full: seq<Event>, k: nat)
    requires FollowsFrom(events, full, k) && (events == [] ==> full == [])
    ensures LastHash(events) == LastHash(full)
  {
    hide Zeros;
    if events != [] {
      assert Follows(events[|events| - 1], full[k + (|events| - 1)], |events| - 1 == 0 && k > 0);
    }
  }

  /** A log that follows the chain still does after both are extended alike. */
  lemma FollowsGrows(mac: Mac, events: seq<Event>, full: seq<Event>, k: nat, data: string)
    requires FollowsFrom(events, full, k) && LastHash(events) == LastHash(full)
    ensures FollowsFrom(Chained(mac, events, data), Chained(mac, full, data), k)
  {
    hide LastHash;
    var events', full' := Chained(mac, events, data), Chained(mac, full, data);
    forall i | 0 <= i < |events'|
      ensures Follows(events'[i], full'[k + i], i == 0 && k > 0)
    {
      if i < |events| {
        assert Follows(events[i], full[k + i], i == 0 && k > 0);
        assert events'[i] == events[i] && full'[k + i] == full[k + i];
      }
    }
  }

  /** Trimming drops the one event that may have been flagged for its missing predecessor. */
  lemma TrimKeepsTrack(chained: seq<Event>, full: seq<Event>, k: nat)
    requires FollowsFrom(chained, full, k) && |chained| <= CAPACITY + 1 && (k > 0 ==> |chained| == CAPACITY + 1)
    ensures Tracks(Trimmed(chained), full)
  {
    var stored := Trimmed(chained);
    var cut := |chained| - |stored|;
    forall i | 0 <= i < |stored|
      ensures SameEvent(stored[i], full[|full| - |stored| + i])
      ensures stored[i].flagged ==> stored[i].hash.None?
    {
      assert stored[i] == chained[cut + i];
      assert Follows(chained[cut + i], full[k + (cut + i)], cut + i == 0 && k > 0);
    }
  }

  lemma TracksGrows(mac: Mac, stored: seq<Event>, full: seq<Event>, data: string)
    requires ChainOk(mac, full) && Tracks(stored, full)
    ensures Tracks(Appended(mac, stored, data), Chained(mac, full, data))
  {
    hide ChainOk, Tracks, Checked, FollowsFrom, Trimmed, LastHash;
    var loaded, k := Loaded(mac, stored), |full| - |stored|;
    TracksLength(stored, full);
    LoadedFollows(mac, stored, full);
    SameLastHash(loaded, full, k);
    FollowsGrows(mac, loaded, full, k, data);
    TrimKeepsTrack(Chained(mac, loaded, data), Chained(mac, full, data), k);
  }

  lemma {:induction false} RunTracks(mac: Mac, ops: seq<Op>)
    ensures ChainOk(mac, Untrimmed(mac, ops))
    ensures Tracks(Stored(mac, ops), Untrimmed(mac, ops))
  {
    if ops == [] {
    } else {
      var init, last := ops[..|ops| - 1], ops[|ops| - 1];
      RunTracks(mac, init);
      if last.Append? {
        ChainGrows(mac, Untrimmed(mac, init), last.data);
        TracksGrows(mac, Stored(mac, init), Untrimmed(mac, init), last.data);
      }
    }
  }

  /**
   On the events of this chain the hash does its work: none equals the start value, and none would
   come out the same had its event been chained to the start value instead.
   */
  predicate Strong(mac: Mac, full: seq<Event>) {
    forall i :: 0 <= i < |full| && full[i].hash.Some? ==>
      && full[i].hash.value != ZERO
      && (mac(full[i].data, ZERO) == mac(full[i].data, Before(full, i)) ==> Before(full, i) == ZERO)
  }

  /**
   In every untampered run of appends and clears the log holds at most 2000 events, and loading it
   flags only the marker or the oldest event, the latter only when trimming cut its predecessor off.
   If the hash does not collide on the events of the run, that is exact: the oldest is flagged if and
   only if it is the marker or a hashed predecessor was cut off.
   */
  lemma UntamperedFlags(mac: Mac, ops: seq<Op>, i: nat)
    requires i < |Stored(mac, ops)|
    ensures |Stored(mac, ops)| == Min(|Untrimmed(mac, ops)|, 2000)
    ensures var stored, full := Stored(mac, ops), Untrimmed(mac, ops);
      var cut := |full| - |stored|;
      var flagged := Loaded(mac, stored)[i].flagged;
      && cut >= 0
      && (flagged ==> i == 0 && (stored[0].hash.None? || (cut > 0 && full[cut - 1].hash.Some?)))
      && (i == 0 && stored[0].hash.None? ==> flagged)
      && (i == 0 && cut > 0 && full[cut - 1].hash.Some? && Strong(mac, full) ==> flagged)
  {
    hide Stored, Untrimmed, Checked, Zeros;
    var stored, full := Stored(mac, ops), Untrimmed(mac, ops);
    RunTracks(mac, ops);
    TracksLength(stored, full);
    FlagsOf(mac, stored, full, i);
    if i == 0 && |full| > |stored| {
      OldestAfterTrim(mac, stored, full);
    }
  }

  /** The oldest event of a trimmed log fits the start value if its predecessor has no hash, or the hash collides. */
  lemma OldestAfterTrim(mac: Mac, stored: seq<Event>, full: seq<Event>)
    requires ChainOk(mac, full) && Tracks(stored, full) && stored != [] && |full| > |stored|
    ensures var cut := |full| - |stored|;
      && stored[0].hash.Some?
      && (full[cut - 1].hash.None? ==> mac(stored[0].data, ZERO) == stored[0].hash.value)
      && (full[cut - 1].hash.Some? && Strong(mac, full) ==> mac(stored[0].data, ZERO) != stored[0].hash.value)
  {
    hide Zeros;
    var cut := |full| - |stored|;
    assert SameEvent(stored[0], full[cut]);
    assert full[cut].hash.Some?;
    assert full[..cut][cut - 1] == full[cut - 1];
    assert Before(full, cut) == if full[cut - 1].hash.Some? then full[cut - 1].hash.value else ZERO;
  }

  // ---------------------------------------------------------------- under every interleaving

  /** One operation as a critical section under the lock on the user's directory. */
  function Section(mac: Mac): (Op, seq<Event>) -> LockedFile.Applied<seq<Event>> {
    (op: Op, stored: seq<Event>) =>
      LockedFile.Applied(if op.Append? then Appended(mac, stored, op.data) else [Marker(op.data)], LockedFile.Commit)
  }

  lemma {:induction false} FoldIsStored(mac: Mac, ops: seq<Op>)
    ensures LockedFile.Fold(Section(mac), [], ops) == Stored(mac, ops)
  {
    hide Appended;
    if ops == [] {
    } else {
      FoldIsStored(mac, ops[..|ops| - 1]);
    }
  }

  /** A log whose flags are as stated for the run of these operations. */
  ghost predicate FlagsAsStated(mac: Mac, ops: seq<Op>, stored: seq<Event>) {
    && stored == Stored(mac, ops) && |stored| <= CAPACITY
    && forall i :: 0 <= i < |stored| && Loaded(mac, stored)[i].flagged ==>
         i == 0 && (stored[0].hash.None? || |Untrimmed(mac, ops)| > |stored|)
  }

  lemma FlagsOfRun(mac: Mac, ops: seq<Op>)
    ensures FlagsAsStated(mac, ops, Stored(mac, ops))
  {
    var stored := Stored(mac, ops);
    RunTracks(mac, ops);
    TracksLength(stored, Untrimmed(mac, ops));
    hide Stored, Untrimmed, Tracks, ChainOk, Checked;
    forall i | 0 <= i < |stored| && Loaded(mac, stored)[i].flagged
      ensures i == 0 && (stored[0].hash.None? || |Untrimmed(mac, ops)| > |stored|)
    {
      UntamperedFlags(mac, ops, i);
    }
  }

  /**
   Workers append and clear under a lock, readers load without one. Under every interleaving the file
   is the log of the operations in lock order, every load sees the log of a prefix of them, and each
   of these logs is flagged as stated for sequential runs.
   */
  lemma FlagsUnderInterleaving(mac: Mac, steps: seq<LockedFile.Step<Op>>)
    ensures var s := LockedFile.Run(Section(mac), LockedFile.Start([]), steps);
      && FlagsAsStated(mac, s.acquired[..LockedFile.Version(s)], s.file)
      && forall r :: 0 <= r < |s.seen| ==>
           s.seen[r].version <= |s.acquired| && FlagsAsStated(mac, s.acquired[..s.seen[r].version], s.seen[r].data)
  {
    var s := LockedFile.Run(Section(mac), LockedFile.Start([]), steps);
    LockedFile.Serializable(Section(mac), [], steps);
    hide FlagsAsStated, Stored;
    var done := s.acquired[..LockedFile.Version(s)];
    FoldIsStored(mac, done);
    FlagsOfRun(mac, done);
    forall r | 0 <= r < |s.seen|
      ensures s.seen[r].version <= |s.acquired|
      ensures FlagsAsStated(mac, s.acquired[..s.seen[r].version], s.seen[r].data)
    {
      FoldIsStored(mac, s.acquired[..s.seen[r].version]);
      FlagsOfRun(mac, s.acquired[..s.seen[r].version]);
    }
  }

  // ---------------------------------------------------------------- tampering

  /** The previous hash in force is that of the nearest hashed event before, or the start value. */
  lemma {:induction false} PrevIsNearest(s: seq<Event>, i: nat, j: nat)
    requires j <= i <= |s| && forall k :: j <= k < i ==> s[k].hash.None?
    ensures PrevAt(ZERO, s, i) == PrevAt(ZERO, s, j)
    ensures j > 0 && s[j - 1].hash.Some? ==> PrevAt(ZERO, s, i) == s[j - 1].hash.value
    ensures j == 0 ==> PrevAt(ZERO, s, i) == ZERO
    decreases i
  {
    if i == j {
    } else {
      PrevIsNearest(s, i - 1, j);
    }
  }

  /**
   What loading says of an event of any stored log, tampered with or not: contents are kept, and it
   is flagged exactly when it was, when it has no hash, or when its hash is not that of its data and
   the previous hash in force.
   */
  lemma FlaggedIff(mac: Mac, s: seq<Event>, i: nat)
    requires i < |s|
    ensures SameEvent(Loaded(mac, s)[i], s[i])
    ensures Loaded(mac, s)[i].flagged <==>
            s[i].flagged || s[i].hash.None? || s[i].hash.value != mac(s[i].data, PrevAt(ZERO, s, i))
  {
    hide Checked;
    CheckedAt(mac, ZERO, s, i);
  }

  /** On a log of hashed events: an event is flagged exactly when it does not fit the event before it. */
  lemma FlaggedIffBroken(mac: Mac, s: seq<Event>, i: nat)
    requires i < |s| && forall k :: 0 <= k < |s| ==> s[k].hash.Some? && !s[k].flagged
    ensures Loaded(mac, s)[i].flagged <==>
            s[i].hash.value != mac(s[i].data, if i == 0 then ZERO else s[i - 1].hash.value)
  {
    FlaggedIff(mac, s, i);
  }

  /** Loading the log flags nothing. */
  ghost predicate Clean(mac: Mac, s: seq<Event>) { forall i :: 0 <= i < |s| ==> !Loaded(mac, s)[i].flagged }

  /** Loading flags nothing but, at most, the oldest event: what trimming and clearing leave behind. */
  ghost predicate Linked(mac: Mac, s: seq<Event>) { forall i :: 0 < i < |s| ==> !Loaded(mac, s)[i].flagged }

  /** No hash of the log is the start value. */
  predicate NeverZero(s: seq<Event>) { forall i :: 0 <= i < |s| ==> s[i].hash != Some(ZERO) }

  /** On the checked events of these two logs the hash does not collide. */
  ghost predicate NoCollision(mac: Mac, a: seq<Event>, b: seq<Event>) {
    forall i, j :: 0 <= i < |a| && 0 <= j < |b| && SameMac(mac, a, i, b, j) ==>
      a[i].data == b[j].data && PrevAt(ZERO, a, i) == PrevAt(ZERO, b, j)
  }

  ghost predicate SameMac(mac: Mac, a: seq<Event>, i: nat, b: seq<Event>, j: nat)
    requires i < |a| && j < |b|
  {
    mac(a[i].data, PrevAt(ZERO, a, i)) == mac(b[j].data, PrevAt(ZERO, b, j))
  }

  lemma LinkedAt(mac: Mac, s: seq<Event>, i: nat)
    requires Linked(mac, s) && 0 < i < |s|
    ensures s[i].hash == Some(mac(s[i].data, PrevAt(ZERO, s, i)))
  {
    hide Checked;
    FlaggedIff(mac, s, i);
  }

  /** The previous hash decides the hash of the event before, unhashed ones included. */
  lemma PrevDecides(mac: Mac, s: seq<Event>, i: nat)
    requires Linked(mac, s) && NeverZero(s) && 0 < i < |s|
    ensures PrevAt(ZERO, s, i) == if s[i - 1].hash.Some? then s[i - 1].hash.value else ZERO
    ensures s[i - 1].hash.Some? ==> s[i - 1].hash.value != ZERO
  {
    hide Checked;
    assert s[i - 1].hash != Some(ZERO);
    if i > 1 {
      LinkedAt(mac, s, i - 1);
    }
  }

  /** Two checked events with the same hash have the same data and the same hash before them. */
  lemma SameHashBack(mac: Mac, a: seq<Event>, b: seq<Event>, i: nat, j: nat)
    requires Linked(mac, a) && Linked(mac, b) && NeverZero(a) && NeverZero(b) && NoCollision(mac, a, b)
    requires 0 < i < |a| && 0 < j < |b| && a[i].hash == b[j].hash
    ensures a[i].data == b[j].data && a[i - 1].hash == b[j - 1].hash
  {
    hide Linked, NeverZero, NoCollision;
    LinkedAt(mac, a, i);
    LinkedAt(mac, b, j);
    CollisionAt(mac, a, i, b, j);
    PrevDecides(mac, a, i);
    PrevDecides(mac, b, j);
  }

  /**
   The last hash commits to the tail: two logs of which at most the oldest event is flagged, and
   which end in the same hash, agree event by event from the end back to the oldest of the shorter
   one, whose hash they still share.
   */
  lemma {:induction false} LastHashFixesTail(mac: Mac, a: seq<Event>, b: seq<Event>, m: nat)
    requires Linked(mac, a) && Linked(mac, b) && NeverZero(a) && NeverZero(b) && NoCollision(mac, a, b)
    requires a != [] && b != [] && a[|a| - 1].hash == b[|b| - 1].hash && m < |a| && m < |b|
    ensures a[|a| - 1 - m].hash == b[|b| - 1 - m].hash
    ensures m + 1 < |a| && m + 1 < |b| ==> a[|a| - 1 - m].data == b[|b| - 1 - m].data
    decreases m
  {
    hide Linked, NeverZero, NoCollision;
    var i, j := |a| - 1 - m, |b| - 1 - m;
    if m == 0 {
    } else {
      LastHashFixesTail(mac, a, b, m - 1);
      SameHashBack(mac, a, b, i + 1, j + 1);
    }
    if i > 0 && j > 0 {
      SameHashBack(mac, a, b, i, j);
    }
  }

  lemma CleanFirst(mac: Mac, s: seq<Event>)
    requires Clean(mac, s) && s != []
    ensures Linked(mac, s) && s[0].hash == Some(mac(s[0].data, ZERO))
  {
    hide Checked;
    FlaggedIff(mac, s, 0);
  }

  lemma CollisionAt(mac: Mac, a: seq<Event>, i: nat, b: seq<Event>, j: nat)
    requires NoCollision(mac, a, b) && i < |a| && j < |b|
    requires mac(a[i].data, PrevAt(ZERO, a, i)) == mac(b[j].data, PrevAt(ZERO, b, j))
    ensures a[i].data == b[j].data && PrevAt(ZERO, a, i) == PrevAt(ZERO, b, j)
  {
    assert SameMac(mac, a, i, b, j);
  }

  /** A log that loads without a flag cannot end in the middle of another one. */
  lemma CleanIsNoSuffix(mac: Mac, a: seq<Event>, b: seq<Event>)
    requires Clean(mac, a) && Clean(mac, b) && NeverZero(a) && NeverZero(b) && NoCollision(mac, a, b)
    requires a != [] && b != [] && a[|a| - 1].hash == b[|b| - 1].hash
    ensures |a| >= |b|
  {
    hide Clean, Linked, NeverZero, Checked, NoCollision;
    CleanFirst(mac, a);
    CleanFirst(mac, b);
    if |a| < |b| {
      var j := |b| - |a|;
      LastHashFixesTail(mac, a, b, |a| - 1);
      LinkedAt(mac, b, j);
      PrevDecides(mac, b, j);
      if j > 1 {
        LinkedAt(mac, b, j - 1);
      }
      CollisionAt(mac, a, 0, b, j);
    }
  }

  lemma CollisionFlips(mac: Mac, a: seq<Event>, b: seq<Event>)
    requires NoCollision(mac, a, b)
    ensures NoCollision(mac, b, a)
  {
    forall i, j | 0 <= i < |b| && 0 <= j < |a| && SameMac(mac, b, i, a, j)
      ensures b[i].data == a[j].data && PrevAt(ZERO, b, i) == PrevAt(ZERO, a, j)
    {
      assert SameMac(mac, a, j, b, i);
    }
  }

  predicate SameLog(a: seq<Event>, b: seq<Event>) {
    |a| == |b| && forall i :: 0 <= i < |a| ==> SameEvent(a[i], b[i])
  }

  /** Two logs that load without a flag and end in the same hash agree event by event. */
  lemma LastHashFixesCleanLog(mac: Mac, a: seq<Event>, b: seq<Event>)
    requires Clean(mac, a) && Clean(mac, b) && NeverZero(a) && NeverZero(b) && NoCollision(mac, a, b)
    requires a != [] && b != [] && a[|a| - 1].hash == b[|b| - 1].hash
    ensures SameLog(a, b)
  {
    CleanIsNoSuffix(mac, a, b);
    CollisionFlips(mac, a, b);
    CleanIsNoSuffix(mac, b, a);
    CleanFirst(mac, a);
    CleanFirst(mac, b);
    hide Clean, Linked, NeverZero, NoCollision;
    forall i | 0 <= i < |a|
      ensures SameEvent(a[i], b[i])
    {
      LastHashFixesTail(mac, a, b, |a| - 1 - i);
      if i == 0 {
        CollisionAt(mac, a, 0, b, 0);
      }
    }
  }

  /** Whatever else is done to a clean log: while it still ends in the same hash, some event is flagged. */
  lemma TamperingIsFlagged(mac: Mac, a: seq<Event>, b: seq<Event>)
    requires Clean(mac, a) && NeverZero(a) && NeverZero(b) && NoCollision(mac, a, b)
    requires a != [] && b != [] && a[|a| - 1].hash == b[|b| - 1].hash && !SameLog(a, b)
    ensures exists i :: 0 <= i < |b| && Loaded(mac, b)[i].flagged
  {
    if Clean(mac, b) {
      LastHashFixesCleanLog(mac, a, b);
    }
  }

  /** Changing the contents of one event, or removing or inserting one before the last, leaves a flag. */
  lemma EditsAreFlagged(mac: Mac, a: seq<Event>, k: nat, e: Event, b: seq<Event>)
    requires Clean(mac, a) && NeverZero(a) && NeverZero(b) && NoCollision(mac, a, b) && k < |a|
    requires || (b == a[k := e] && !SameEvent(e, a[k]) && (k == |a| - 1 ==> e.hash == a[k].hash))
             || (b == a[..k] + a[k + 1..] && k < |a| - 1)
             || b == a[..k] + [e] + a[k..]
    ensures exists i :: 0 <= i < |b| && Loaded(mac, b)[i].flagged
  {
    hide Clean, NeverZero, NoCollision, Checked;
    assert b != [] && a[|a| - 1].hash == b[|b| - 1].hash;
    if |a| == |b| {
      assert !SameEvent(a[k], b[k]);
    }
    TamperingIsFlagged(mac, a, b);
  }
}
