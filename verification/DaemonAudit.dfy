/**
 The daemon's audit table: every row carries the hash of the row before it and a keyed hash over its
 own contents and that previous hash. Both build variants are covered: the suite fixes the leading
 tag bytes and the hash length. The keyed hash is a parameter.
 */
module DaemonAudit {
  import opened Common
  import opened Arith

  type Bytes = seq<Byte>
  type Mac = Bytes -> Bytes

  type I64 = x: int | -0x8000_0000_0000_0000 <= x < 0x8000_0000_0000_0000

  datatype Suite = Blake3 | CnsaStrict

  function Tag(suite: Suite): Bytes { if suite.Blake3? then [] else [0x02] }

  function HashLength(suite: Suite): nat { if suite.Blake3? then 32 else 48 }

  function Zeros(n: nat): (z: Bytes)
    ensures |z| == n
  {
    if n == 0 then [] else Zeros(n - 1) + [0]
  }

  /** The value the first row is chained to. */
  function ZeroHash(suite: Suite): Bytes { Zeros(HashLength(suite)) }

  datatype Row = Row(id: int, ts: I64, action: Bytes, resource: Option<Bytes>, prevHash: Bytes, rowHash: Bytes)

  datatype ChainError = IdGap | PrevHashMismatch | RowHashMismatch

  // ---------------------------------------------------------------- operations

  /** Big-endian two's complement on eight bytes. */
  function TsBytes(ts: I64): Bytes { ToBytes(if ts < 0 then ts + U64 else ts, 8) }

  /** Action and resource as the hash sees them: one byte string, with no separator. */
  function Text(row: Row): Bytes { row.action + if row.resource.Some? then row.resource.value else [] }

  function Message(suite: Suite, row: Row, prev: Bytes): Bytes {
    Tag(suite) + TsBytes(row.ts) + Text(row) + prev
  }

  function LastHash(suite: Suite, rows: seq<Row>): Bytes {
    if rows == [] then ZeroHash(suite) else rows[|rows| - 1].rowHash
  }

  /** The hash row i must be chained to. */
  function PrevOf(suite: Suite, rows: seq<Row>, i: nat): Bytes
    requires i <= |rows|
  {
    if i == 0 then ZeroHash(suite) else rows[i - 1].rowHash
  }

  /** What is wrong with row i, judged against the row before it. */
  function RowError(suite: Suite, mac: Mac, rows: seq<Row>, i: nat): Option<ChainError>
    requires i < |rows|
  {
    if i > 0 && rows[i].id != rows[i - 1].id + 1 then Some(IdGap)
    else if rows[i].prevHash != PrevOf(suite, rows, i) then Some(PrevHashMismatch)
    else if rows[i].rowHash != mac(Message(suite, rows[i], PrevOf(suite, rows, i))) then Some(RowHashMismatch)
    else None
  }

  ghost predicate ChainOk(suite: Suite, mac: Mac, rows: seq<Row>) {
    forall i :: 0 <= i < |rows| ==> RowError(suite, mac, rows, i) == None
  }

  /** The first faulty row decides the error; a log without one passes. */
  method VerifyChain(suite: Suite, mac: Mac, rows: seq<Row>) returns (r: Option<ChainError>)
    ensures r == None <==> ChainOk(suite, mac, rows)
    ensures r.Some? ==> exists k :: 0 <= k < |rows| && RowError(suite, mac, rows, k) == r
                                    && ChainOk(suite, mac, rows[..k])
  {
    hide Message, ZeroHash;
    var expectedPrev := ZeroHash(suite);
    var lastId: Option<int> := None;
    var i := 0;
    while i < |rows|
      invariant 0 <= i <= |rows|
      invariant expectedPrev == PrevOf(suite, rows, i)
      invariant lastId == if i == 0 then None else Some(rows[i - 1].id)
      invariant forall j :: 0 <= j < i ==> RowError(suite, mac, rows, j) == None
    {
      var row := rows[i];
      assert ChainOk(suite, mac, rows[..i]) by {
        PassingPrefix(suite, mac, rows, i);
      }
      ghost var fault := RowError(suite, mac, rows, i);
      if lastId.Some? && row.id != lastId.value + 1 {
        assert fault == Some(IdGap);
        return Some(IdGap);
      }
      lastId := Some(row.id);
      if row.prevHash != expectedPrev {
        return Some(PrevHashMismatch);
      }
      var expectedHash := mac(Message(suite, row, expectedPrev));
      if row.rowHash != expectedHash {
        return Some(RowHashMismatch);
      }
      expectedPrev := expectedHash;
      i := i + 1;
    }
    r := None;
  }

  /** A prefix is judged row by row as the whole is. */
  lemma PassingPrefix(suite: Suite, mac: Mac, rows: seq<Row>, k: nat)
    requires k <= |rows|
    requires forall i :: 0 <= i < k ==> RowError(suite, mac, rows, i) == None
    ensures ChainOk(suite, mac, rows[..k])
  {
    forall i | 0 <= i < k
      ensures RowError(suite, mac, rows[..k], i) == RowError(suite, mac, rows, i)
    {
    }
  }

  datatype Entry = Entry(ts: I64, action: Bytes, resource: Option<Bytes>)

  /** The table after one more entry; the store numbers rows consecutively from the last one. */
  function Logged(suite: Suite, mac: Mac, rows: seq<Row>, e: Entry): seq<Row> {
    var prev := LastHash(suite, rows);
    var bare := Row(if rows == [] then 1 else rows[|rows| - 1].id + 1, e.ts, e.action, e.resource, prev, []);
    rows + [bare.(rowHash := mac(Message(suite, bare, prev)))]
  }

  class AuditTable {
    const suite: Suite
    var rows: seq<Row>
    var lastId: int

    ghost predicate Valid() reads this { lastId == if rows == [] then 0 else rows[|rows| - 1].id }

    constructor (suite: Suite)
      ensures Valid() && rows == [] && this.suite == suite
    {
      this.suite := suite;
      rows := [];
      lastId := 0;
    }

    method Log(mac: Mac, ts: I64, action: Bytes, resource: Option<Bytes>)
      requires Valid()
      modifies this
      ensures Valid() && rows == Logged(suite, mac, old(rows), Entry(ts, action, resource))
      ensures ChainOk(suite, mac, old(rows)) ==> ChainOk(suite, mac, rows)
    {
      hide Message, ChainOk, ZeroHash;
      LogKeepsChain(suite, mac, rows, Entry(ts, action, resource));
      var prevHash := if rows == [] then ZeroHash(suite) else rows[|rows| - 1].rowHash;
      var row := Row(lastId + 1, ts, action, resource, prevHash, []);
      var rowHash := mac(Message(suite, row, prevHash));
      rows := rows + [row.(rowHash := rowHash)];
      lastId := lastId + 1;
    }
  }

  // ---------------------------------------------------------------- runs of log pass

  lemma LogKeepsChain(suite: Suite, mac: Mac, rows: seq<Row>, e: Entry)
    ensures ChainOk(suite, mac, rows) ==> ChainOk(suite, mac, Logged(suite, mac, rows, e))
  {
    var rows' := Logged(suite, mac, rows, e);
    if ChainOk(suite, mac, rows) {
      forall i | 0 <= i < |rows'|
        ensures RowError(suite, mac, rows', i) == None
      {
        if i < |rows| {
          assert RowError(suite, mac, rows, i) == None;
        }
      }
    }
  }

  function Run(suite: Suite, mac: Mac, entries: seq<Entry>): seq<Row> {
    if entries == [] then []
    else Logged(suite, mac, Run(suite, mac, entries[..|entries| - 1]), entries[|entries| - 1])
  }

  /** Every run of `log` under one key passes, and records exactly what was logged, in order. */
  lemma {:induction false} EveryRunPasses(suite: Suite, mac: Mac, entries: seq<Entry>)
    ensures ChainOk(suite, mac, Run(suite, mac, entries))
    ensures var rows := Run(suite, mac, entries);
      |rows| == |entries| && forall i :: 0 <= i < |rows| ==>
        rows[i].id == i + 1 && Entry(rows[i].ts, rows[i].action, rows[i].resource) == entries[i]
  {
    hide Message, ChainOk, ZeroHash;
    if entries == [] {
      PassingPrefix(suite, mac, [], 0);
    } else {
      var init := entries[..|entries| - 1];
      EveryRunPasses(suite, mac, init);
      LogKeepsChain(suite, mac, Run(suite, mac, init), entries[|entries| - 1]);
    }
  }

  // ---------------------------------------------------------------- the last hash fixes the log

  ghost predicate Sized(suite: Suite, mac: Mac) { forall m :: |mac(m)| == HashLength(suite) }

  /** The messages a passing log hashes. */
  function MessageAt(suite: Suite, rows: seq<Row>, i: nat): Bytes
    requires i < |rows|
  {
    Message(suite, rows[i], PrevOf(suite, rows, i))
  }

  /** On the messages of these two logs the hash does not collide. */
  ghost predicate NoCollision(suite: Suite, mac: Mac, a: seq<Row>, b: seq<Row>) {
    forall i, j :: 0 <= i < |a| && 0 <= j < |b| && mac(MessageAt(suite, a, i)) == mac(MessageAt(suite, b, j)) ==>
      MessageAt(suite, a, i) == MessageAt(suite, b, j)
  }

  /** No message of the log hashes to the start value. */
  ghost predicate NeverZero(suite: Suite, mac: Mac, rows: seq<Row>) {
    forall i :: 0 <= i < |rows| ==> mac(MessageAt(suite, rows, i)) != ZeroHash(suite)
  }

  /** The two logs agree, row by row, on what the hash sees. */
  predicate SameTexts(a: seq<Row>, b: seq<Row>) {
    |a| == |b| && forall i :: 0 <= i < |a| ==> a[i].ts == b[i].ts && Text(a[i]) == Text(b[i])
  }

  /** The eight-byte form determines the timestamp. */
  lemma TsBytesInjective(x: I64, y: I64)
    requires TsBytes(x) == TsBytes(y)
    ensures x == y
  {
    Pow2At64();
    assert 8 * 8 == 64;
    ToBytesRead(if x < 0 then x + U64 else x, 8);
    ToBytesRead(if y < 0 then y + U64 else y, 8);
  }

  /** With previous hashes of one length, a message determines its parts. */
  lemma MessageParts(suite: Suite, a: Row, b: Row, p: Bytes, q: Bytes)
    requires Message(suite, a, p) == Message(suite, b, q) && |p| == |q|
    ensures a.ts == b.ts && Text(a) == Text(b) && p == q
  {
    var m, n := Message(suite, a, p), Message(suite, b, q);
    var t := |Tag(suite)|;
    assert m[t..t + 8] == TsBytes(a.ts) && n[t..t + 8] == TsBytes(b.ts);
    TsBytesInjective(a.ts, b.ts);
    assert m[t + 8..|m| - |p|] == Text(a) && n[t + 8..|n| - |q|] == Text(b);
    assert m[|m| - |p|..] == p && n[|n| - |q|..] == q;
  }

  lemma LastHashOfNonEmpty(suite: Suite, mac: Mac, rows: seq<Row>)
    requires ChainOk(suite, mac, rows) && NeverZero(suite, mac, rows)
    ensures rows != [] ==> LastHash(suite, rows) == mac(MessageAt(suite, rows, |rows| - 1)) != ZeroHash(suite)
  {
    if rows != [] {
      assert RowError(suite, mac, rows, |rows| - 1) == None;
    }
  }

  /** Only the first row is chained to the start value. */
  lemma LaterRowsAreChained(suite: Suite, mac: Mac, rows: seq<Row>, i: nat)
    requires ChainOk(suite, mac, rows) && NeverZero(suite, mac, rows) && i < |rows|
    ensures rows[i].prevHash == ZeroHash(suite) <==> i == 0
  {
    assert RowError(suite, mac, rows, i) == None;
    if i > 0 {
      assert RowError(suite, mac, rows, i - 1) == None;
      assert mac(MessageAt(suite, rows, i - 1)) != ZeroHash(suite);
    }
  }

  lemma PrevLength(suite: Suite, mac: Mac, rows: seq<Row>, i: nat)
    requires ChainOk(suite, mac, rows) && Sized(suite, mac) && i <= |rows|
    ensures |PrevOf(suite, rows, i)| == HashLength(suite)
  {
    if i > 0 {
      assert RowError(suite, mac, rows, i - 1) == None;
    }
  }

  /**
   Two passing logs with the same last hash have the same length and agree, row by row, on the
   timestamp and on action followed by resource: provided the hash has no collision and no zero on
   the messages of the two logs, the last hash commits to the whole history.
   */
  lemma {:induction false} LastHashFixesLog(suite: Suite, mac: Mac, a: seq<Row>, b: seq<Row>)
    requires ChainOk(suite, mac, a) && ChainOk(suite, mac, b)
    requires Sized(suite, mac) && NoCollision(suite, mac, a, b)
    requires NeverZero(suite, mac, a) && NeverZero(suite, mac, b)
    requires LastHash(suite, a) == LastHash(suite, b)
    ensures SameTexts(a, b)
    decreases |a|
  {
    hide ChainOk, Message, MessageAt, Text, NoCollision, NeverZero, ZeroHash, Sized;
    LastHashOfNonEmpty(suite, mac, a);
    LastHashOfNonEmpty(suite, mac, b);
    if a == [] || b == [] {
    } else {
      LastRowsAgree(suite, mac, a, b);
      Shorten(suite, mac, a, b);
      var a', b' := a[..|a| - 1], b[..|b| - 1];
      LastHashFixesLog(suite, mac, a', b');
      forall i | 0 <= i < |a|
        ensures a[i].ts == b[i].ts && Text(a[i]) == Text(b[i])
      {
        if i < |a'| {
          assert a[i] == a'[i] && b[i] == b'[i];
        }
      }
    }
  }

  lemma LastRowsAgree(suite: Suite, mac: Mac, a: seq<Row>, b: seq<Row>)
    requires a != [] && b != [] && ChainOk(suite, mac, a) && ChainOk(suite, mac, b)
    requires Sized(suite, mac) && NoCollision(suite, mac, a, b) && LastHash(suite, a) == LastHash(suite, b)
    ensures var x, y := a[|a| - 1], b[|b| - 1]; x.ts == y.ts && Text(x) == Text(y)
    ensures LastHash(suite, a[..|a| - 1]) == LastHash(suite, b[..|b| - 1])
  {
    var m, n := |a| - 1, |b| - 1;
    assert RowError(suite, mac, a, m) == None && RowError(suite, mac, b, n) == None;
    assert MessageAt(suite, a, m) == MessageAt(suite, b, n);
    PrevLength(suite, mac, a, m);
    PrevLength(suite, mac, b, n);
    MessageParts(suite, a[m], b[n], PrevOf(suite, a, m), PrevOf(suite, b, n));
  }

  lemma Shorten(suite: Suite, mac: Mac, a: seq<Row>, b: seq<Row>)
    requires a != [] && b != []
    requires ChainOk(suite, mac, a) && ChainOk(suite, mac, b) && NoCollision(suite, mac, a, b)
    requires NeverZero(suite, mac, a) && NeverZero(suite, mac, b)
    ensures var a', b' := a[..|a| - 1], b[..|b| - 1];
      && ChainOk(suite, mac, a') && ChainOk(suite, mac, b') && NoCollision(suite, mac, a', b')
      && NeverZero(suite, mac, a') && NeverZero(suite, mac, b')
  {
    var a', b' := a[..|a| - 1], b[..|b| - 1];
    PassingPrefix(suite, mac, a, |a| - 1);
    PassingPrefix(suite, mac, b, |b| - 1);
    assert forall i :: 0 <= i < |a'| ==> MessageAt(suite, a', i) == MessageAt(suite, a, i);
    assert forall i :: 0 <= i < |b'| ==> MessageAt(suite, b', i) == MessageAt(suite, b, i);
  }

  /** Equal texts have equal hashes: the chain sees nothing else of a row. */
  lemma {:induction false} SameTextsSameHash(suite: Suite, mac: Mac, a: seq<Row>, b: seq<Row>)
    requires ChainOk(suite, mac, a) && ChainOk(suite, mac, b) && SameTexts(a, b)
    ensures LastHash(suite, a) == LastHash(suite, b)
    decreases |a|
  {
    if a == [] {
    } else {
      var n := |a| - 1;
      PassingPrefix(suite, mac, a, n);
      PassingPrefix(suite, mac, b, n);
      assert SameTexts(a[..n], b[..n]);
      SameTextsSameHash(suite, mac, a[..n], b[..n]);
      assert RowError(suite, mac, a, n) == None && RowError(suite, mac, b, n) == None;
      hide ChainOk, SameTexts, ZeroHash;
    }
  }

  /** The last hash of a passing log is equivalent to its length, its time stamps and its texts. */
  lemma LastHashIff(suite: Suite, mac: Mac, a: seq<Row>, b: seq<Row>)
    requires ChainOk(suite, mac, a) && ChainOk(suite, mac, b)
    requires Sized(suite, mac) && NoCollision(suite, mac, a, b)
    requires NeverZero(suite, mac, a) && NeverZero(suite, mac, b)
    ensures LastHash(suite, a) == LastHash(suite, b) <==> SameTexts(a, b)
  {
    hide ChainOk, NoCollision, NeverZero, Sized, LastHash;
    if LastHash(suite, a) == LastHash(suite, b) {
      LastHashFixesLog(suite, mac, a, b);
    }
    if SameTexts(a, b) {
      SameTextsSameHash(suite, mac, a, b);
    }
  }

  /** Of rows with the same text, the actions agree exactly when their lengths do. */
  lemma SameTextSplits(a: Row, b: Row)
    requires Text(a) == Text(b)
    ensures a.action == b.action <==> |a.action| == |b.action|
    ensures a.action == b.action && a.resource == b.resource
            <==> |a.action| == |b.action| && (a.resource.Some? <==> b.resource.Some?)
  {
    var m, n := |a.action|, |b.action|;
    assert Text(a)[..m] == a.action && Text(b)[..n] == b.action;
    if a.resource.Some? {
      assert Text(a)[m..] == a.resource.value;
    }
    if b.resource.Some? {
      assert Text(b)[n..] == b.resource.value;
    }
  }

  /**
   Exactly when two logs with the same last hash agree in full: at each row the actions agree if and
   only if they are equally long, and action and resource agree if and only if moreover both or
   neither of the rows have a resource.
   */
  lemma FullAgreementIff(suite: Suite, mac: Mac, a: seq<Row>, b: seq<Row>, i: nat)
    requires ChainOk(suite, mac, a) && ChainOk(suite, mac, b)
    requires Sized(suite, mac) && NoCollision(suite, mac, a, b)
    requires NeverZero(suite, mac, a) && NeverZero(suite, mac, b)
    requires LastHash(suite, a) == LastHash(suite, b) && i < |a|
    ensures |a| == |b|
    ensures a[i].action == b[i].action <==> |a[i].action| == |b[i].action|
    ensures a[i].action == b[i].action && a[i].resource == b[i].resource
            <==> |a[i].action| == |b[i].action| && (a[i].resource.Some? <==> b[i].resource.Some?)
  {
    LastHashFixesLog(suite, mac, a, b);
    SameTextSplits(a[i], b[i]);
  }

  function TextOf(e: Entry): Bytes { e.action + if e.resource.Some? then e.resource.value else [] }

  /**
   What the hash does not fix, for logs of any length: moving the boundary between action and
   resource, or leaving out an empty resource, changes no hash.
   */
  lemma BoundaryIsNotFixed(suite: Suite, mac: Mac, es: seq<Entry>, fs: seq<Entry>)
    requires |es| == |fs| && forall i :: 0 <= i < |es| ==> es[i].ts == fs[i].ts && TextOf(es[i]) == TextOf(fs[i])
    ensures var a, b := Run(suite, mac, es), Run(suite, mac, fs);
      ChainOk(suite, mac, a) && ChainOk(suite, mac, b) && LastHash(suite, a) == LastHash(suite, b)
  {
    EveryRunPasses(suite, mac, es);
    EveryRunPasses(suite, mac, fs);
    var a, b := Run(suite, mac, es), Run(suite, mac, fs);
    hide Run, ChainOk, LastHash;
    forall i | 0 <= i < |a|
      ensures a[i].ts == b[i].ts && Text(a[i]) == Text(b[i])
    {
      assert Entry(a[i].ts, a[i].action, a[i].resource) == es[i];
      assert Entry(b[i].ts, b[i].action, b[i].resource) == fs[i];
    }
    SameTextsSameHash(suite, mac, a, b);
  }

  // ---------------------------------------------------------------- removing rows

  predicate Increasing(picks: seq<nat>, n: nat) {
    && (forall i :: 0 <= i < |picks| ==> picks[i] < n)
    && (forall i :: 0 < i < |picks| ==> picks[i - 1] < picks[i])
  }

  /** The rows left when only the picked positions are kept. */
  function Select(rows: seq<Row>, picks: seq<nat>): (s: seq<Row>)
    requires forall i :: 0 <= i < |picks| ==> picks[i] < |rows|
    ensures |s| == |picks| && forall i :: 0 <= i < |picks| ==> s[i] == rows[picks[i]]
  {
    seq(|picks|, i requires 0 <= i < |picks| => rows[picks[i]])
  }

  lemma {:induction false} IdsAreConsecutive(suite: Suite, mac: Mac, rows: seq<Row>, i: nat)
    requires ChainOk(suite, mac, rows) && i < |rows|
    ensures rows[i].id == rows[0].id + i
  {
    if i == 0 {
    } else {
      IdsAreConsecutive(suite, mac, rows, i - 1);
      assert RowError(suite, mac, rows, i) == None;
    }
  }

  lemma {:induction false} PassingPicks(suite: Suite, mac: Mac, rows: seq<Row>, picks: seq<nat>, i: nat)
    requires ChainOk(suite, mac, rows) && NeverZero(suite, mac, rows)
    requires Increasing(picks, |rows|) && ChainOk(suite, mac, Select(rows, picks)) && i < |picks|
    ensures picks[i] == i
  {
    var s := Select(rows, picks);
    assert RowError(suite, mac, s, i) == None;
    if i == 0 {
      LaterRowsAreChained(suite, mac, rows, picks[0]);
    } else {
      PassingPicks(suite, mac, rows, picks, i - 1);
      IdsAreConsecutive(suite, mac, rows, picks[i - 1]);
      IdsAreConsecutive(suite, mac, rows, picks[i]);
    }
  }

  lemma {:induction false} PicksRise(picks: seq<nat>, n: nat, i: nat)
    requires Increasing(picks, n) && i < |picks|
    ensures i <= picks[i]
  {
    if i == 0 {
    } else {
      PicksRise(picks, n, i - 1);
    }
  }

  /**
   Deleting rows from a passing log is noticed exactly when it is not just the end that is cut off:
   what is left passes if and only if it is a prefix.
   */
  lemma DeletionIsNoticed(suite: Suite, mac: Mac, rows: seq<Row>, picks: seq<nat>)
    requires ChainOk(suite, mac, rows) && NeverZero(suite, mac, rows) && Increasing(picks, |rows|)
    ensures |picks| <= |rows|
    ensures ChainOk(suite, mac, Select(rows, picks)) <==> Select(rows, picks) == rows[..|picks|]
  {
    if picks != [] {
      PicksRise(picks, |rows|, |picks| - 1);
    }
    var s := Select(rows, picks);
    if ChainOk(suite, mac, s) {
      forall i | 0 <= i < |picks|
        ensures picks[i] == i
      {
        PassingPicks(suite, mac, rows, picks, i);
      }
      assert s == rows[..|picks|];
    }
    if s == rows[..|picks|] {
      PassingPrefix(suite, mac, rows, |picks|);
    }
  }

  /** Removing any single row but the last makes verification fail; removing the last one does not. */
  lemma RemovingOneRow(suite: Suite, mac: Mac, rows: seq<Row>, k: nat)
    requires ChainOk(suite, mac, rows) && NeverZero(suite, mac, rows) && k < |rows|
    ensures ChainOk(suite, mac, rows[..k] + rows[k + 1..]) <==> k == |rows| - 1
  {
    var picks := seq(|rows| - 1, i requires 0 <= i < |rows| - 1 => if i < k then i else i + 1);
    var left := rows[..k] + rows[k + 1..];
    assert left == Select(rows, picks);
    DeletionIsNoticed(suite, mac, rows, picks);
    if k < |rows| - 1 {
      IdsAreConsecutive(suite, mac, rows, k);
      IdsAreConsecutive(suite, mac, rows, k + 1);
      assert left[k] == rows[k + 1] && rows[..|picks|][k] == rows[k];
    } else {
      assert left == rows[..|picks|];
    }
  }
}
