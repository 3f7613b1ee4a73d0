/**
 The cuckoo filter of breached passwords and the builder that places and relocates fingerprints in it.
 The SHA-1 digests of the passwords are given, the builder's random choices are arguments, and the hash
 that scatters fingerprints is a parameter.
 */
module Cuckoo {
  import opened Common
  import opened Arith

  type Bytes = seq<Byte>

  const SLOTS: nat := 4
  const MAX_KICKS: nat := 500
  const FP_LIMIT: nat := 65536

  // ---------------------------------------------------------------- exclusive or

  function Xor(a: nat, b: nat): nat
    decreases a + b
  {
    if a == 0 && b == 0 then 0 else (if a % 2 == b % 2 then 0 else 1) + 2 * Xor(a / 2, b / 2)
  }

  lemma {:induction false} XorCancels(a: nat, b: nat)
    ensures Xor(Xor(a, b), b) == a
    decreases a + b
  {
    if a != 0 || b != 0 {
      XorCancels(a / 2, b / 2);
      var x := Xor(a, b);
      assert x / 2 == Xor(a / 2, b / 2) && x % 2 == if a % 2 == b % 2 then 0 else 1;
    }
  }

  lemma {:induction false} XorBound(a: nat, b: nat, k: nat)
    requires a < Pow2(k) && b < Pow2(k)
    ensures Xor(a, b) < Pow2(k)
    decreases k
  {
    if k == 0 || (a == 0 && b == 0) {
    } else {
      XorBound(a / 2, b / 2, k - 1);
    }
  }

  /** A bit above all bits of the other operand is simply added. */
  lemma {:induction false} XorTopBit(i: nat, k: nat)
    requires i < Pow2(k)
    ensures Xor(i, Pow2(k)) == i + Pow2(k)
    decreases k
  {
    if k == 0 {
      assert Xor(0, 1) == 1;
    } else {
      assert Pow2(k) % 2 == 0 && Pow2(k) / 2 == Pow2(k - 1);
      XorTopBit(i / 2, k - 1);
    }
  }

  // ---------------------------------------------------------------- alternate buckets

  /** The other bucket of an item, from either of its two buckets and the hash of its fingerprint. */
  function AltBucket(i: nat, h: nat, n: nat): (r: nat)
    requires n > 0
    ensures r < n
  {
    Xor(i, h % n) % n
  }

  ghost predicate IsPow2(n: nat) { exists k: nat :: n == Pow2(k) }

  ghost predicate Involutive(n: nat)
    requires n > 0
  {
    forall i: nat, h: nat :: i < n ==> AltBucket(AltBucket(i, h, n), h, n) == i
  }

  lemma SmallMod(x: nat, n: nat)
    requires x < n
    ensures x % n == x && n % n == 0
  {
  }

  lemma AltTwice(i: nat, h: nat, n: nat)
    requires IsPow2(n) && n > 0 && i < n
    ensures AltBucket(AltBucket(i, h, n), h, n) == i
  {
    hide Xor, Pow2;
    var k: nat :| n == Pow2(k);
    var d := h % n;
    XorBound(i, d, k);
    SmallMod(Xor(i, d), n);
    XorCancels(i, d);
    SmallMod(i, n);
  }

  /** Every count lies between two neighbouring powers of two. */
  lemma {:induction false} Log2(n: nat) returns (k: nat)
    requires n > 0
    ensures Pow2(k) <= n < Pow2(k + 1)
  {
    if n == 1 {
      k := 0;
      assert Pow2(1) == 2;
    } else {
      var j := Log2(n / 2);
      k := j + 1;
      assert Pow2(k + 1) == 2 * Pow2(k) && Pow2(k) == 2 * Pow2(j);
    }
  }

  lemma AltOfSmallHash(i: nat, h: nat, n: nat)
    requires h < n
    ensures AltBucket(i, h, n) == Xor(i, h) % n
  {
    hide Xor;
    SmallMod(h, n);
  }

  /** With any other count the map takes bucket n - 2^k to bucket 0 and that one to 2^k. */
  lemma AltNotTwice(n: nat, k: nat)
    requires Pow2(k) < n < Pow2(k + 1)
    ensures AltBucket(n - Pow2(k), Pow2(k), n) == 0
    ensures AltBucket(0, Pow2(k), n) == Pow2(k) != n - Pow2(k)
  {
    var p := Pow2(k);
    assert Pow2(k + 1) == 2 * p;
    hide Xor, Pow2, AltBucket;
    XorTopBit(n - p, k);
    AltOfSmallHash(n - p, p, n);
    XorTopBit(0, k);
    AltOfSmallHash(0, p, n);
    SmallMod(p, n);
  }

  /** The alternate-bucket map is its own inverse if and only if the number of buckets is a power of two. */
  lemma InvolutiveIffPow2(n: nat)
    requires n > 0
    ensures Involutive(n) <==> IsPow2(n)
  {
    if IsPow2(n) {
      forall i: nat, h: nat | i < n
        ensures AltBucket(AltBucket(i, h, n), h, n) == i
      {
        AltTwice(i, h, n);
      }
    } else {
      var k := Log2(n);
      assert n != Pow2(k);
      AltNotTwice(n, k);
      assert AltBucket(AltBucket(n - Pow2(k), Pow2(k), n), Pow2(k), n) != n - Pow2(k);
    }
  }

  // ---------------------------------------------------------------- the table and its builder

  /** Fingerprints bucket by bucket, four slots each; zero marks an empty slot. */
  type Table = seq<nat>

  /** The scattering hash of fingerprints. */
  type FpHash = nat -> nat

  predicate Sized(t: Table, n: nat) { n > 0 && |t| == 4 * n }

  predicate InBucket(t: Table, b: nat, f: nat)
    requires 4 * b + 4 <= |t|
  {
    t[4 * b] == f || t[4 * b + 1] == f || t[4 * b + 2] == f || t[4 * b + 3] == f
  }

  function Other(n: nat, h: FpHash, f: nat, b: nat): nat
    requires n > 0
  {
    AltBucket(b, h(f), n)
  }

  /** A fingerprint is found in its primary bucket or in the alternate one. */
  predicate Found(t: Table, n: nat, h: FpHash, f: nat, i: nat)
    requires Sized(t, n) && i < n
  {
    InBucket(t, i, f) || InBucket(t, Other(n, h, f, i), f)
  }

  /** The table with a fingerprint in the first empty slot of a bucket, if there is one. */
  function Place(t: Table, b: nat, f: nat): (r: Option<Table>)
    requires 4 * b + 4 <= |t|
    ensures r.Some? ==> |r.value| == |t|
  {
    if t[4 * b] == 0 then Some(t[4 * b := f])
    else if t[4 * b + 1] == 0 then Some(t[4 * b + 1 := f])
    else if t[4 * b + 2] == 0 then Some(t[4 * b + 2 := f])
    else if t[4 * b + 3] == 0 then Some(t[4 * b + 3 := f])
    else None
  }

  /** What an insertion leaves: the table, whether all was placed, and the fingerprint in hand with its next bucket. */
  datatype Outcome = Outcome(table: Table, placed: bool, hand: nat, bucket: nat)

  predicate Slots(slots: seq<nat>) { forall k :: 0 <= k < |slots| ==> slots[k] < 4 }

  /** Relocation: one kick per random slot, until the evicted fingerprint finds an empty slot. */
  function Kicked(n: nat, h: FpHash, t: Table, hand: nat, b: nat, slots: seq<nat>): (o: Outcome)
    requires Sized(t, n) && b < n && Slots(slots)
    ensures Sized(o.table, n) && o.bucket < n
    decreases |slots|
  {
    if slots == [] then Outcome(t, false, hand, b)
    else
      var evicted := t[4 * b + slots[0]];
      var t' := t[4 * b + slots[0] := hand];
      var b' := Other(n, h, evicted, b);
      var placed := Place(t', b', evicted);
      if placed.Some? then Outcome(placed.value, true, evicted, b')
      else Kicked(n, h, t', evicted, b', slots[1..])
  }

  lemma KickedUnfolds(n: nat, h: FpHash, t: Table, hand: nat, b: nat, slots: seq<nat>)
    requires Sized(t, n) && b < n && Slots(slots)
    ensures slots == [] ==> Kicked(n, h, t, hand, b, slots) == Outcome(t, false, hand, b)
    ensures slots != [] ==>
              var k := 4 * b + slots[0];
              var b' := Other(n, h, t[k], b);
              var placed := Place(t[k := hand], b', t[k]);
              Kicked(n, h, t, hand, b, slots) ==
              if placed.Some? then Outcome(placed.value, true, t[k], b')
              else Kicked(n, h, t[k := hand], t[k], b', slots[1..])
  {
  }

  function Inserted(n: nat, h: FpHash, t: Table, f: nat, i: nat, primary: bool, slots: seq<nat>): (o: Outcome)
    requires Sized(t, n) && i < n && Slots(slots)
    ensures Sized(o.table, n) && o.bucket < n
  {
    var i2 := Other(n, h, f, i);
    var p1, p2 := Place(t, i, f), Place(t, i2, f);
    if p1.Some? then Outcome(p1.value, true, f, i)
    else if p2.Some? then Outcome(p2.value, true, f, i2)
    else Kicked(n, h, t, f, if primary then i else i2, slots)
  }

  /** The item is found, or the fingerprint in hand is its own and on the way to one of its buckets. */
  predicate Safe(t: Table, n: nat, h: FpHash, hand: nat, b: nat, f: nat, i: nat)
    requires Sized(t, n) && i < n
  {
    Found(t, n, h, f, i) || (f == hand && (b == i || b == Other(n, h, f, i)))
  }

  lemma PlaceKeeps(t: Table, n: nat, b: nat, f: nat, c: nat, g: nat)
    requires Sized(t, n) && b < n && c < n && g > 0 && Place(t, b, f).Some?
    ensures InBucket(Place(t, b, f).value, b, f)
    ensures InBucket(t, c, g) ==> InBucket(Place(t, b, f).value, c, g)
  {
  }

  /** Placing the fingerprint in hand makes every safe item found. */
  lemma PlaceFinds(t: Table, n: nat, h: FpHash, hand: nat, b: nat, f: nat, i: nat)
    requires Sized(t, n) && b < n && i < n && f > 0 && Place(t, b, hand).Some? && Safe(t, n, h, hand, b, f, i)
    ensures Found(Place(t, b, hand).value, n, h, f, i)
  {
    PlaceKeeps(t, n, b, hand, i, f);
    PlaceKeeps(t, n, b, hand, Other(n, h, f, i), f);
    hide Place, InBucket, Other;
  }

  /** Overwriting one slot loses at most the fingerprint it held. */
  lemma SwapKeeps(t: Table, n: nat, b: nat, s: nat, hand: nat, c: nat, g: nat)
    requires Sized(t, n) && b < n && s < 4 && c < n
    ensures InBucket(t[4 * b + s := hand], b, hand)
    ensures InBucket(t, c, g) && !(g == t[4 * b + s] && c == b) ==> InBucket(t[4 * b + s := hand], c, g)
  {
  }

  /** A kick passes the danger on to the fingerprint it evicts: here the map must be its own inverse. */
  lemma KickKeepsSafe(t: Table, n: nat, h: FpHash, hand: nat, b: nat, s: nat, f: nat, i: nat)
    requires Sized(t, n) && IsPow2(n) && b < n && s < 4 && i < n && Safe(t, n, h, hand, b, f, i)
    ensures var evicted := t[4 * b + s];
      Safe(t[4 * b + s := hand], n, h, evicted, Other(n, h, evicted, b), f, i)
  {
    var j := Other(n, h, f, i);
    SwapKeeps(t, n, b, s, hand, i, f);
    SwapKeeps(t, n, b, s, hand, j, f);
    AltTwice(i, h(f), n);
    hide InBucket, AltBucket, IsPow2;
  }

  lemma {:induction false} KicksKeepSafe(n: nat, h: FpHash, t: Table, hand: nat, b: nat, slots: seq<nat>, f: nat, i: nat)
    requires Sized(t, n) && IsPow2(n) && b < n && Slots(slots) && i < n && f > 0 && Safe(t, n, h, hand, b, f, i)
    ensures var o := Kicked(n, h, t, hand, b, slots);
      if o.placed then Found(o.table, n, h, f, i) else Safe(o.table, n, h, o.hand, o.bucket, f, i)
    decreases |slots|
  {
    hide Safe, Found, Place, AltBucket, IsPow2;
    if slots == [] {
    } else {
      var s := slots[0];
      var evicted, t' := t[4 * b + s], t[4 * b + s := hand];
      var b' := Other(n, h, evicted, b);
      KickKeepsSafe(t, n, h, hand, b, s, f, i);
      if Place(t', b', evicted).Some? {
        PlaceFinds(t', n, h, evicted, b', f, i);
      } else {
        KicksKeepSafe(n, h, t', evicted, b', slots[1..], f, i);
      }
    }
  }

  /**
   Inserting keeps every item found, and finds the new one, whatever is relocated. If it gives up,
   exactly the items that share the fingerprint left in hand and its bucket may be lost.
   */
  lemma InsertKeepsMembers(n: nat, h: FpHash, t: Table, f: nat, i: nat, primary: bool, slots: seq<nat>, g: nat, j: nat)
    requires Sized(t, n) && IsPow2(n) && i < n && Slots(slots) && j < n && g > 0
    requires Found(t, n, h, g, j) || (g == f && j == i)
    ensures var o := Inserted(n, h, t, f, i, primary, slots);
      if o.placed then Found(o.table, n, h, g, j) else Safe(o.table, n, h, o.hand, o.bucket, g, j)
  {
    var i2 := Other(n, h, f, i);
    hide InBucket, Place, AltBucket, IsPow2, Kicked;
    if Place(t, i, f).Some? {
      PlaceFinds(t, n, h, f, i, g, j);
    } else if Place(t, i2, f).Some? {
      PlaceFinds(t, n, h, f, i2, g, j);
    } else {
      KicksKeepSafe(n, h, t, f, if primary then i else i2, slots, g, j);
    }
  }

  // ---------------------------------------------------------------- nothing is duplicated or dropped

  lemma SwapContents(t: Table, k: nat, f: nat)
    requires k < |t|
    ensures multiset(t[k := f]) + multiset{t[k]} == multiset(t) + multiset{f}
  {
  }

  lemma PlaceContents(t: Table, b: nat, f: nat)
    requires 4 * b + 4 <= |t| && Place(t, b, f).Some?
    ensures multiset(Place(t, b, f).value) + multiset{0} == multiset(t) + multiset{f}
  {
    var k := if t[4 * b] == 0 then 4 * b else if t[4 * b + 1] == 0 then 4 * b + 1
             else if t[4 * b + 2] == 0 then 4 * b + 2 else 4 * b + 3;
    SwapContents(t, k, f);
  }

  /** What the insertion took out of the table for good: an empty slot, or the fingerprint it gave up on. */
  function Leftover(o: Outcome): nat { if o.placed then 0 else o.hand }

  lemma SwapsContents(n: nat, h: FpHash, t: Table, hand: nat, k: nat, after: Outcome)
    requires k < |t|
    requires multiset(after.table) + multiset{Leftover(after)} == multiset(t[k := hand]) + multiset{t[k]}
    ensures multiset(after.table) + multiset{Leftover(after)} == multiset(t) + multiset{hand}
  {
    SwapContents(t, k, hand);
    Exchange(multiset(t[k := hand]), multiset(t), multiset(after.table), t[k], hand, Leftover(after));
  }

  lemma {:induction false} KickContents(n: nat, h: FpHash, t: Table, hand: nat, b: nat, slots: seq<nat>)
    requires Sized(t, n) && b < n && Slots(slots)
    ensures var o := Kicked(n, h, t, hand, b, slots);
      multiset(o.table) + multiset{Leftover(o)} == multiset(t) + multiset{hand}
    decreases |slots|
  {
    hide Place, AltBucket;
    if slots == [] {
    } else {
      var k := 4 * b + slots[0];
      var evicted, t' := t[k], t[k := hand];
      var b' := Other(n, h, evicted, b);
      if Place(t', b', evicted).Some? {
        PlaceContents(t', b', evicted);
      } else {
        KickContents(n, h, t', evicted, b', slots[1..]);
      }
      SwapsContents(n, h, t, hand, k, Kicked(n, h, t, hand, b, slots));
    }
  }

  lemma Exchange(mid: multiset<nat>, before: multiset<nat>, after: multiset<nat>, e: nat, hand: nat, x: nat)
    requires mid + multiset{e} == before + multiset{hand}
    requires after + multiset{x} == mid + multiset{e}
    ensures after + multiset{x} == before + multiset{hand}
  {
  }

  /** An insertion replaces one empty slot by the new fingerprint, or trades it for the one left in hand. */
  lemma InsertContents(n: nat, h: FpHash, t: Table, f: nat, i: nat, primary: bool, slots: seq<nat>)
    requires Sized(t, n) && i < n && Slots(slots)
    ensures var o := Inserted(n, h, t, f, i, primary, slots);
      multiset(o.table) + multiset{Leftover(o)} == multiset(t) + multiset{f}
  {
    var i2 := Other(n, h, f, i);
    hide Place, Other, Kicked;
    if Place(t, i, f).Some? {
      PlaceContents(t, i, f);
    } else if Place(t, i2, f).Some? {
      PlaceContents(t, i2, f);
    } else {
      KickContents(n, h, t, f, if primary then i else i2, slots);
    }
  }

  function Zeros(k: nat): (z: seq<nat>)
    ensures |z| == k && forall i :: 0 <= i < k ==> z[i] == 0
  {
    if k == 0 then [] else [0] + Zeros(k - 1)
  }

  // ---------------------------------------------------------------- copies of a fingerprint in a pair of buckets

  /** One if the fingerprint sits in one of the two buckets. */
  function Share(f: nat, i: nat, j: nat, x: nat, b: nat): nat { if x == f && (b == i || b == j) then 1 else 0 }

  /** How many slots of the two buckets hold the fingerprint. */
  function Copies(t: Table, f: nat, i: nat, j: nat): nat {
    if t == [] then 0 else Copies(t[..|t| - 1], f, i, j) + Share(f, i, j, t[|t| - 1], (|t| - 1) / 4)
  }

  lemma {:induction false} CopiesSwap(t: Table, f: nat, i: nat, j: nat, k: nat, x: nat)
    requires k < |t|
    ensures Copies(t[k := x], f, i, j) + Share(f, i, j, t[k], k / 4) == Copies(t, f, i, j) + Share(f, i, j, x, k / 4)
  {
    hide Share;
    var m := |t| - 1;
    if k == m {
      assert t[k := x][..m] == t[..m];
    } else {
      CopiesSwap(t[..m], f, i, j, k, x);
      assert t[k := x][..m] == t[..m][k := x];
    }
  }

  lemma {:induction false} CopiesPositive(t: Table, f: nat, i: nat, j: nat)
    ensures Copies(t, f, i, j) > 0 <==> exists k :: 0 <= k < |t| && Share(f, i, j, t[k], k / 4) == 1
  {
    if t == [] {
    } else {
      var m := |t| - 1;
      CopiesPositive(t[..m], f, i, j);
      if Share(f, i, j, t[m], m / 4) == 0 && Copies(t, f, i, j) > 0 {
        var k :| 0 <= k < m && Share(f, i, j, t[..m][k], k / 4) == 1;
        assert t[k] == t[..m][k];
      }
      if k :| 0 <= k < m && Share(f, i, j, t[k], k / 4) == 1 {
        assert t[..m][k] == t[k];
      }
    }
  }

  /** An item is found exactly when its two buckets hold a copy of its fingerprint. */
  lemma FoundIffCopies(t: Table, n: nat, h: FpHash, f: nat, i: nat)
    requires Sized(t, n) && i < n
    ensures Found(t, n, h, f, i) <==> Copies(t, f, i, Other(n, h, f, i)) > 0
  {
    var j := Other(n, h, f, i);
    CopiesPositive(t, f, i, j);
    if InBucket(t, i, f) {
      InBucketSlot(t, i, f);
    }
    if InBucket(t, j, f) {
      InBucketSlot(t, j, f);
    }
    if k :| 0 <= k < |t| && Share(f, i, j, t[k], k / 4) == 1 {
      assert k == 4 * (k / 4) + k % 4;
    }
  }

  lemma InBucketSlot(t: Table, b: nat, f: nat)
    requires 4 * b + 4 <= |t| && InBucket(t, b, f)
    ensures exists k :: 0 <= k < |t| && t[k] == f && k / 4 == b
  {
    var k := if t[4 * b] == f then 4 * b else if t[4 * b + 1] == f then 4 * b + 1
             else if t[4 * b + 2] == f then 4 * b + 2 else 4 * b + 3;
    assert t[k] == f && k / 4 == b;
  }

  lemma CopiesPlace(t: Table, b: nat, x: nat, f: nat, i: nat, j: nat)
    requires 4 * b + 4 <= |t| && f > 0 && Place(t, b, x).Some?
    ensures Copies(Place(t, b, x).value, f, i, j) == Copies(t, f, i, j) + Share(f, i, j, x, b)
  {
    var k := if t[4 * b] == 0 then 4 * b else if t[4 * b + 1] == 0 then 4 * b + 1
             else if t[4 * b + 2] == 0 then 4 * b + 2 else 4 * b + 3;
    CopiesSwap(t, f, i, j, k, x);
    assert k / 4 == b;
  }

  /** Moving a fingerprint to its other bucket stays within the pair or outside it. */
  lemma ShareMoves(n: nat, h: FpHash, f: nat, i: nat, x: nat, b: nat)
    requires IsPow2(n) && n > 0 && i < n && b < n
    ensures var j := Other(n, h, f, i); Share(f, i, j, x, Other(n, h, x, b)) == Share(f, i, j, x, b)
  {
    AltTwice(i, h(f), n);
    AltTwice(b, h(x), n);
    hide AltBucket, IsPow2;
  }

  lemma KickKeepsCopies(n: nat, h: FpHash, t: Table, hand: nat, b: nat, s: nat, f: nat, i: nat)
    requires Sized(t, n) && IsPow2(n) && b < n && s < 4 && i < n
    ensures var j, evicted := Other(n, h, f, i), t[4 * b + s];
      Copies(t[4 * b + s := hand], f, i, j) + Share(f, i, j, evicted, Other(n, h, evicted, b))
      == Copies(t, f, i, j) + Share(f, i, j, hand, b)
  {
    var k := 4 * b + s;
    assert k / 4 == b;
    CopiesSwap(t, f, i, Other(n, h, f, i), k, hand);
    ShareMoves(n, h, f, i, t[k], b);
    hide *;
  }

  /** Relocation neither makes nor loses copies, counting the fingerprint in hand. */
  lemma {:induction false} KicksKeepCopies(n: nat, h: FpHash, t: Table, hand: nat, b: nat, slots: seq<nat>, f: nat, i: nat)
    requires Sized(t, n) && IsPow2(n) && b < n && Slots(slots) && i < n && f > 0
    ensures var o, j := Kicked(n, h, t, hand, b, slots), Other(n, h, f, i);
      Copies(o.table, f, i, j) + (if o.placed then 0 else Share(f, i, j, o.hand, o.bucket))
      == Copies(t, f, i, j) + Share(f, i, j, hand, b)
    decreases |slots|
  {
    hide Place, Share, Copies, IsPow2, AltBucket;
    if slots == [] {
    } else {
      var k, j := 4 * b + slots[0], Other(n, h, f, i);
      var evicted, t' := t[k], t[k := hand];
      var b' := Other(n, h, evicted, b);
      KickKeepsCopies(n, h, t, hand, b, slots[0], f, i);
      if Place(t', b', evicted).Some? {
        CopiesPlace(t', b', evicted, f, i, j);
      } else {
        KicksKeepCopies(n, h, t', evicted, b', slots[1..], f, i);
      }
    }
  }

  /** An insertion adds one copy of its item; if it gives up, it takes away one copy of what is left in hand. */
  lemma InsertKeepsCopies(n: nat, h: FpHash, t: Table, x: nat, p: nat, primary: bool, slots: seq<nat>, f: nat, i: nat)
    requires Sized(t, n) && IsPow2(n) && p < n && Slots(slots) && i < n && f > 0
    ensures var o, j := Inserted(n, h, t, x, p, primary, slots), Other(n, h, f, i);
      Copies(o.table, f, i, j) + (if o.placed then 0 else Share(f, i, j, o.hand, o.bucket))
      == Copies(t, f, i, j) + Share(f, i, j, x, p)
  {
    var p2, j := Other(n, h, x, p), Other(n, h, f, i);
    ShareMoves(n, h, f, i, x, p);
    hide Place, Other, Share, Copies, IsPow2, Kicked;
    if Place(t, p, x).Some? {
      CopiesPlace(t, p, x, f, i, j);
    } else if Place(t, p2, x).Some? {
      CopiesPlace(t, p2, x, f, i, j);
    } else {
      KicksKeepCopies(n, h, t, x, if primary then p else p2, slots, f, i);
    }
  }

  // ---------------------------------------------------------------- the builder

  function Be16(hi: int, lo: int): int { 256 * hi + lo }

  /** Fingerprint and primary bucket of a SHA-1 digest. */
  function Fingerprint(d: Bytes): (f: nat)
    requires |d| >= 2
    ensures 0 < f < FP_LIMIT
  {
    Max(Be16(d[0], d[1]), 1)
  }

  function Primary(d: Bytes, n: nat): (i: nat)
    requires |d| >= 10 && n > 0
    ensures i < n
  {
    BigEndian(d[2..10]) % n
  }

  /** What a digest says: its first two bytes the fingerprint, zero standing for one, its next eight the primary bucket. */
  lemma DigestParts(f: nat, x: nat, rest: Bytes, n: nat)
    requires f < FP_LIMIT && x < U64 && |rest| == 10 && n > 0
    ensures var d: Bytes := [f / 256, f % 256] + ToBytes(x, 8) + rest;
      Fingerprint(d) == (if f == 0 then 1 else f) && Primary(d, n) == x % n
  {
    var d: Bytes := [f / 256, f % 256] + ToBytes(x, 8) + rest;
    assert d[0] == f / 256 && d[1] == f % 256;
    assert d[2..10] == ToBytes(x, 8);
    Pow2At64();
    assert 8 * 8 == 64;
    ToBytesRead(x, 8);
    hide BigEndian, ToBytes;
  }

  predicate Digests(ds: seq<Bytes>) { forall k :: 0 <= k < |ds| ==> |ds[k]| == 20 }

  /** The random choices of one insertion: which bucket to start from, and the slots to kick. */
  datatype Luck = Luck(primary: bool, slots: seq<nat>)

  predicate Fair(luck: seq<Luck>) { forall k :: 0 <= k < |luck| ==> Slots(luck[k].slots) && |luck[k].slots| == MAX_KICKS }

  class FilterBuilder {
    const n: nat
    const h: FpHash
    var table: Table

    ghost predicate Valid()
      reads this
    {
      Sized(table, n)
    }

    constructor (n: nat, h: FpHash)
      requires n > 0
      ensures Valid() && this.n == n && this.h == h && table == Zeros(4 * n)
    {
      this.n, this.h := n, h;
      table := Zeros(4 * n);
    }

    /** The scan for an empty slot. */
    method PutIfRoom(b: nat, f: nat) returns (ok: bool)
      requires Valid() && b < n
      modifies this
      ensures Valid() && ok == Place(old(table), b, f).Some?
      ensures table == if ok then Place(old(table), b, f).value else old(table)
    {
      var slot := 0;
      while slot < SLOTS
        invariant 0 <= slot <= 4 && table == old(table)
        invariant slot > 0 ==> table[4 * b] != 0
        invariant slot > 1 ==> table[4 * b + 1] != 0
        invariant slot > 2 ==> table[4 * b + 2] != 0
        invariant slot > 3 ==> table[4 * b + 3] != 0
      {
        if table[4 * b + slot] == 0 {
          table := table[4 * b + slot := f];
          return true;
        }
        slot := slot + 1;
      }
      return false;
    }

    method Insert(f: nat, i1: nat, i2: nat, luck: Luck) returns (ok: bool)
      requires Valid() && i1 < n && i2 == Other(n, h, f, i1) && Slots(luck.slots) && |luck.slots| == MAX_KICKS
      modifies this
      ensures Valid()
      ensures var o := Inserted(n, h, old(table), f, i1, luck.primary, luck.slots); table == o.table && ok == o.placed
    {
      hide Place, AltBucket, Kicked;
      ok := PutIfRoom(i1, f);
      if ok {
        return;
      }
      ok := PutIfRoom(i2, f);
      if ok {
        return;
      }
      var fp := f;
      var b: nat := if luck.primary then i1 else i2;
      ghost var goal := Kicked(n, h, table, fp, b, luck.slots);
      assert luck.slots[0..] == luck.slots;
      var kick := 0;
      while kick < MAX_KICKS
        invariant 0 <= kick <= MAX_KICKS && Valid() && b < n
        invariant Kicked(n, h, table, fp, b, luck.slots[kick..]) == goal
      {
        var slot := luck.slots[kick];
        assert luck.slots[kick..][0] == slot && luck.slots[kick..][1..] == luck.slots[kick + 1..];
        KickedUnfolds(n, h, table, fp, b, luck.slots[kick..]);
        var evicted := table[4 * b + slot];
        table := table[4 * b + slot := fp];
        fp := evicted;
        b := Other(n, h, fp, b);
        ok := PutIfRoom(b, fp);
        if ok {
          return;
        }
        kick := kick + 1;
      }
      assert luck.slots[MAX_KICKS..] == [];
      KickedUnfolds(n, h, table, fp, b, []);
      return false;
    }
  }

  // ---------------------------------------------------------------- the size of the filter

  /** Ten per cent of headroom over four slots a bucket, rounded up. */
  function MinBuckets(total: nat): nat { (11 * total + 39) / 40 }

  /** The least power of two that is not below a number. */
  function PowerAtLeast(m: nat): (r: nat)
    requires m > 0
    ensures m <= r < 2 * m
  {
    if m == 1 then 1 else 2 * PowerAtLeast((m + 1) / 2)
  }

  lemma {:induction false} PowerAtLeastIsPow2(m: nat)
    requires m > 0
    ensures IsPow2(PowerAtLeast(m))
  {
    if m == 1 {
      assert PowerAtLeast(1) == Pow2(0);
    } else {
      PowerAtLeastIsPow2((m + 1) / 2);
      var k: nat :| PowerAtLeast((m + 1) / 2) == Pow2(k);
      assert PowerAtLeast(m) == Pow2(k + 1);
    }
  }

  /** The number of buckets for a number of hashes: a power of two with the headroom asked for. */
  function BucketCount(total: nat): (n: nat)
    requires total > 0
    ensures 40 * n >= 11 * total
  {
    PowerAtLeast(MinBuckets(total))
  }

  // ---------------------------------------------------------------- the main loop

  /** The table, the number of insertions that gave up, and what each of them was left with. */
  datatype Progress = Progress(table: Table, skipped: nat, lost: seq<(nat, nat)>)

  function Filled(n: nat, h: FpHash, ds: seq<Bytes>, luck: seq<Luck>): (b: Progress)
    requires n > 0 && Digests(ds) && |luck| == |ds| && Fair(luck)
    ensures Sized(b.table, n) && b.skipped == |b.lost|
  {
    if ds == [] then Progress(Zeros(4 * n), 0, [])
    else
      var k := |ds| - 1;
      var b := Filled(n, h, ds[..k], luck[..k]);
      var o := Inserted(n, h, b.table, Fingerprint(ds[k]), Primary(ds[k], n), luck[k].primary, luck[k].slots);
      if o.placed then b.(table := o.table)
      else Progress(o.table, b.skipped + 1, b.lost + [(o.hand, o.bucket)])
  }

  lemma FilledEmpty(n: nat, h: FpHash)
    requires n > 0
    ensures Filled(n, h, [], []) == Progress(Zeros(4 * n), 0, [])
  {
  }

  lemma FilledUnfolds(n: nat, h: FpHash, ds: seq<Bytes>, luck: seq<Luck>, k: nat)
    requires n > 0 && Digests(ds) && |luck| == |ds| && Fair(luck) && k < |ds|
    ensures var b := Filled(n, h, ds[..k], luck[..k]);
      var o := Inserted(n, h, b.table, Fingerprint(ds[k]), Primary(ds[k], n), luck[k].primary, luck[k].slots);
      Filled(n, h, ds[..k + 1], luck[..k + 1]) ==
      if o.placed then b.(table := o.table) else Progress(o.table, b.skipped + 1, b.lost + [(o.hand, o.bucket)])
  {
    hide Inserted, Fingerprint, Primary;
    assert ds[..k + 1][..k] == ds[..k] && luck[..k + 1][..k] == luck[..k];
  }

  /** How many of the digests belong to the given fingerprint and pair of buckets. */
  function Members(ds: seq<Bytes>, n: nat, f: nat, i: nat, j: nat): nat
    requires n > 0 && Digests(ds)
  {
    if ds == [] then 0
    else
      var k := |ds| - 1;
      Members(ds[..k], n, f, i, j) + Share(f, i, j, Fingerprint(ds[k]), Primary(ds[k], n))
  }

  /** How many of the fingerprints given up do. */
  function Losses(lost: seq<(nat, nat)>, f: nat, i: nat, j: nat): nat {
    if lost == [] then 0
    else Losses(lost[..|lost| - 1], f, i, j) + Share(f, i, j, lost[|lost| - 1].0, lost[|lost| - 1].1)
  }

  /** Conservation: every digest inserted is in the table as a copy, or among the losses. */
  lemma {:induction false} CopiesAndLosses(n: nat, h: FpHash, ds: seq<Bytes>, luck: seq<Luck>, f: nat, i: nat)
    requires IsPow2(n) && n > 0 && Digests(ds) && |luck| == |ds| && Fair(luck) && f > 0 && i < n
    ensures var b, j := Filled(n, h, ds, luck), Other(n, h, f, i);
      Copies(b.table, f, i, j) + Losses(b.lost, f, i, j) == Members(ds, n, f, i, j)
    decreases |ds|
  {
    var j := Other(n, h, f, i);
    if ds == [] {
      NoCopies(4 * n, f, i, j);
    } else {
      var k := |ds| - 1;
      var b := Filled(n, h, ds[..k], luck[..k]);
      var x, p := Fingerprint(ds[k]), Primary(ds[k], n);
      CopiesAndLosses(n, h, ds[..k], luck[..k], f, i);
      InsertKeepsCopies(n, h, b.table, x, p, luck[k].primary, luck[k].slots, f, i);
      hide Inserted, Copies, Share, Other, Fingerprint, Primary, IsPow2;
      var o := Inserted(n, h, b.table, x, p, luck[k].primary, luck[k].slots);
      var lost := b.lost + [(o.hand, o.bucket)];
      assert lost[..|lost| - 1] == b.lost;
    }
  }

  lemma NoCopies(k: nat, f: nat, i: nat, j: nat)
    requires f > 0
    ensures Copies(Zeros(k), f, i, j) == 0
  {
    CopiesPositive(Zeros(k), f, i, j);
  }

  /**
   Exactly which digests the finished filter finds: those of whose fingerprint and buckets more were
   inserted than given up.
   */
  lemma FoundIffNotLost(n: nat, h: FpHash, ds: seq<Bytes>, luck: seq<Luck>, d: Bytes)
    requires IsPow2(n) && n > 0 && Digests(ds) && |luck| == |ds| && Fair(luck) && |d| == 20
    ensures var b, f, i := Filled(n, h, ds, luck), Fingerprint(d), Primary(d, n);
      var j := Other(n, h, f, i);
      Found(b.table, n, h, f, i) <==> Members(ds, n, f, i, j) > Losses(b.lost, f, i, j)
  {
    var f, i := Fingerprint(d), Primary(d, n);
    CopiesAndLosses(n, h, ds, luck, f, i);
    FoundIffCopies(Filled(n, h, ds, luck).table, n, h, f, i);
    hide *;
  }

  lemma {:induction false} MemberCounts(ds: seq<Bytes>, n: nat, k: nat, j: nat)
    requires n > 0 && Digests(ds) && k < |ds|
    ensures Members(ds, n, Fingerprint(ds[k]), Primary(ds[k], n), j) >= 1
    decreases |ds|
  {
    if k == |ds| - 1 {
    } else {
      hide Fingerprint, Primary;
      MemberCounts(ds[..|ds| - 1], n, k, j);
    }
  }

  lemma {:induction false} NoLosses(lost: seq<(nat, nat)>, f: nat, i: nat, j: nat)
    requires forall k :: 0 <= k < |lost| ==> Share(f, i, j, lost[k].0, lost[k].1) == 0
    ensures Losses(lost, f, i, j) == 0
  {
    if lost == [] {
    } else {
      NoLosses(lost[..|lost| - 1], f, i, j);
    }
  }

  /**
   However many insertions gave up, a digest is found unless one of them was left with its
   fingerprint on the way to one of its buckets.
   */
  lemma FoundUnlessGivenUp(n: nat, h: FpHash, ds: seq<Bytes>, luck: seq<Luck>, k: nat)
    requires IsPow2(n) && n > 0 && Digests(ds) && |luck| == |ds| && Fair(luck) && k < |ds|
    ensures var b, f, i := Filled(n, h, ds, luck), Fingerprint(ds[k]), Primary(ds[k], n);
      || Found(b.table, n, h, f, i)
      || exists m :: 0 <= m < |b.lost| && Share(f, i, Other(n, h, f, i), b.lost[m].0, b.lost[m].1) == 1
  {
    var b, f, i := Filled(n, h, ds, luck), Fingerprint(ds[k]), Primary(ds[k], n);
    var j := Other(n, h, f, i);
    FoundIffNotLost(n, h, ds, luck, ds[k]);
    MemberCounts(ds, n, k, j);
    if forall m :: 0 <= m < |b.lost| ==> Share(f, i, j, b.lost[m].0, b.lost[m].1) == 0 {
      NoLosses(b.lost, f, i, j);
    }
  }

  /** The builder: it sizes the filter, inserts every digest and counts the insertions that gave up. */
  method Build(h: FpHash, ds: seq<Bytes>, luck: seq<Luck>) returns (r: Option<(nat, Table, nat)>)
    requires Digests(ds) && |luck| == |ds| && Fair(luck)
    ensures r.None? <==> ds == []
    ensures r.Some? ==> var (n, table, skipped) := r.value;
      var b := Filled(BucketCount(|ds|), h, ds, luck);
      && n == BucketCount(|ds|) && IsPow2(n) && table == b.table && skipped == b.skipped
      && Small(table)
      && (skipped == 0 ==> forall k :: 0 <= k < |ds| ==> Found(table, n, h, Fingerprint(ds[k]), Primary(ds[k], n)))
  {
    hide Found, Small, IsPow2, Fingerprint, Primary, Inserted, Filled, BucketCount, Other;
    if |ds| == 0 {
      return None;
    }
    var n := BucketCount(|ds|);
    var builder := new FilterBuilder(n, h);
    var skipped, k := 0, 0;
    FilledEmpty(n, h);
    while k < |ds|
      invariant 0 <= k <= |ds| && builder.n == n && builder.h == h && builder.Valid()
      invariant builder.table == Filled(n, h, ds[..k], luck[..k]).table
      invariant skipped == Filled(n, h, ds[..k], luck[..k]).skipped
    {
      FilledUnfolds(n, h, ds, luck, k);
      var f, i := Fingerprint(ds[k]), Primary(ds[k], n);
      var ok := builder.Insert(f, i, Other(n, h, f, i), luck[k]);
      if !ok {
        skipped := skipped + 1;
      }
      k := k + 1;
    }
    assert ds[..k] == ds && luck[..k] == luck;
    BuiltFacts(n, h, ds, luck);
    return Some((n, builder.table, skipped));
  }

  lemma BuiltFacts(n: nat, h: FpHash, ds: seq<Bytes>, luck: seq<Luck>)
    requires Digests(ds) && |luck| == |ds| && Fair(luck) && ds != [] && n == BucketCount(|ds|)
    ensures var b := Filled(n, h, ds, luck);
      && IsPow2(n) && Small(b.table)
      && (b.skipped == 0 ==> forall k :: 0 <= k < |ds| ==> Found(b.table, n, h, Fingerprint(ds[k]), Primary(ds[k], n)))
  {
    var b := Filled(n, h, ds, luck);
    PowerAtLeastIsPow2(MinBuckets(|ds|));
    FilledIsSmall(n, h, ds, luck);
    hide IsPow2, Small, Found, Filled, Share;
    if b.skipped == 0 {
      forall k | 0 <= k < |ds|
        ensures Found(b.table, n, h, Fingerprint(ds[k]), Primary(ds[k], n))
      {
        FoundUnlessGivenUp(n, h, ds, luck, k);
      }
    }
  }

  /** Every stored fingerprint fits in two bytes. */
  predicate Small(t: Table) { forall k :: 0 <= k < |t| ==> t[k] < FP_LIMIT }

  lemma InsertKeepsSmall(n: nat, h: FpHash, t: Table, f: nat, i: nat, primary: bool, slots: seq<nat>)
    requires Sized(t, n) && i < n && Slots(slots) && f < FP_LIMIT
    ensures Small(t) ==> Small(Inserted(n, h, t, f, i, primary, slots).table)
  {
    var o := Inserted(n, h, t, f, i, primary, slots);
    InsertContents(n, h, t, f, i, primary, slots);
    hide Inserted;
    forall k | 0 <= k < |o.table|
      ensures o.table[k] in t || o.table[k] == f
    {
      assert o.table[k] in multiset(o.table);
      assert o.table[k] in multiset(t) + multiset{f};
    }
  }

  lemma {:induction false} FilledIsSmall(n: nat, h: FpHash, ds: seq<Bytes>, luck: seq<Luck>)
    requires n > 0 && Digests(ds) && |luck| == |ds| && Fair(luck)
    ensures Small(Filled(n, h, ds, luck).table)
    decreases |ds|
  {
    if ds == [] {
    } else {
      var k := |ds| - 1;
      var b := Filled(n, h, ds[..k], luck[..k]);
      FilledIsSmall(n, h, ds[..k], luck[..k]);
      InsertKeepsSmall(n, h, b.table, Fingerprint(ds[k]), Primary(ds[k], n), luck[k].primary, luck[k].slots);
      hide Inserted, Small, Fingerprint, Primary;
    }
  }

  // ---------------------------------------------------------------- a failed insertion loses a member

  /** Fingerprints that can live only in the first bucket. */
  ghost predicate Bound(n: nat, h: FpHash, fps: set<nat>)
    requires n > 0
  {
    forall x :: x in fps ==> x > 0 && Other(n, h, x, 0) == 0
  }

  predicate FullOf(t: Table, fps: set<nat>)
    requires |t| >= 4
  {
    t[0] in fps && t[1] in fps && t[2] in fps && t[3] in fps
  }

  /** While the first bucket is full of fingerprints bound to it, no sequence of kicks places one. */
  lemma {:induction false} KicksStayFull(n: nat, h: FpHash, t: Table, hand: nat, slots: seq<nat>, fps: set<nat>)
    requires Sized(t, n) && Slots(slots) && Bound(n, h, fps) && FullOf(t, fps) && hand in fps
    ensures var o := Kicked(n, h, t, hand, 0, slots); !o.placed && o.bucket == 0 && o.hand in fps
    decreases |slots|
  {
    hide Kicked, Other;
    KickedUnfolds(n, h, t, hand, 0, slots);
    if slots == [] {
    } else {
      var k := slots[0];
      var t' := t[k := hand];
      assert t[k] in fps && FullOf(t', fps);
      assert Place(t', 0, t[k]) == None;
      KicksStayFull(n, h, t', t[k], slots[1..], fps);
    }
  }

  lemma InsertStaysFull(n: nat, h: FpHash, t: Table, f: nat, luck: Luck, fps: set<nat>)
    requires Sized(t, n) && Slots(luck.slots) && Bound(n, h, fps) && FullOf(t, fps) && f in fps
    ensures var o := Inserted(n, h, t, f, 0, luck.primary, luck.slots); !o.placed && o.bucket == 0 && o.hand in fps
  {
    hide Kicked, Other;
    assert Place(t, 0, f) == None;
    KicksStayFull(n, h, t, f, luck.slots, fps);
  }

  /** Five different fingerprints that can live only in the first of two buckets. */
  predicate Crowded(h: FpHash, ds: seq<Bytes>) {
    && |ds| == 5 && Digests(ds)
    && (forall k :: 0 <= k < 5 ==> Primary(ds[k], 2) == 0 && h(Fingerprint(ds[k])) % 2 == 0)
    && (forall k, m :: 0 <= k < m < 5 ==> Fingerprint(ds[k]) != Fingerprint(ds[m]))
  }

  lemma StaysInFirst(h: FpHash, f: nat)
    requires h(f) % 2 == 0
    ensures Other(2, h, f, 0) == 0
  {
    assert Xor(0, 0) == 0;
  }

  /** A digest with a given fingerprint and primary bucket zero. */
  function Alike(f: nat): (d: Bytes)
    requires f < FP_LIMIT
    ensures |d| == 20
  {
    [f / 256, f % 256] + ToBytes(0, 8) + ToBytes(0, 10)
  }

  lemma AlikeLiveTogether(f: nat)
    requires 0 < f < FP_LIMIT
    ensures Fingerprint(Alike(f)) == f && Primary(Alike(f), 2) == 0
  {
    hide ToBytes, Fingerprint, Primary;
    DigestParts(f, 0, ToBytes(0, 10), 2);
  }

  /** Any five different fingerprints whose hashes are even give such digests. */
  lemma CrowdedDigests(h: FpHash, fs: seq<nat>, ds: seq<Bytes>)
    requires |fs| == 5 && forall k :: 0 <= k < 5 ==> 0 < fs[k] < FP_LIMIT && h(fs[k]) % 2 == 0
    requires forall k, m :: 0 <= k < m < 5 ==> fs[k] != fs[m]
    requires |ds| == 5 && forall k :: 0 <= k < 5 ==> ds[k] == Alike(fs[k])
    ensures Crowded(h, ds)
  {
    hide Alike, Fingerprint, Primary;
    forall k | 0 <= k < 5
      ensures |ds[k]| == 20 && Fingerprint(ds[k]) == fs[k] && Primary(ds[k], 2) == 0
    {
      AlikeLiveTogether(fs[k]);
    }
  }

  /** The first four digests fill the first bucket. */
  lemma {:induction false} FourFill(h: FpHash, ds: seq<Bytes>, luck: seq<Luck>, k: nat)
    requires Crowded(h, ds) && |luck| == 5 && Fair(luck) && k <= 4
    ensures var b := Filled(2, h, ds[..k], luck[..k]);
      && b.skipped == 0 && b.lost == []
      && forall m :: 0 <= m < 8 ==> b.table[m] == if m < k then Fingerprint(ds[m]) else 0
  {
    if k == 0 {
    } else {
      FourFill(h, ds, luck, k - 1);
      assert ds[..k][..k - 1] == ds[..k - 1] && luck[..k][..k - 1] == luck[..k - 1];
      hide Fingerprint, Primary, Kicked, Other;
      var t := Filled(2, h, ds[..k - 1], luck[..k - 1]).table;
      assert Place(t, 0, Fingerprint(ds[k - 1])) == Some(t[k - 1 := Fingerprint(ds[k - 1])]);
    }
  }

  lemma FiveGetTwo()
    ensures BucketCount(5) == 2
  {
    assert PowerAtLeast(2) == 2;
  }

  /** The five fingerprints, each bound to the first bucket. */
  lemma CrowdIsBound(h: FpHash, ds: seq<Bytes>, fps: set<nat>)
    requires Crowded(h, ds) && fps == set k | 0 <= k < 5 :: Fingerprint(ds[k])
    ensures Bound(2, h, fps)
  {
    hide Fingerprint, Primary, Other;
    forall x | x in fps
      ensures x > 0 && Other(2, h, x, 0) == 0
    {
      StaysInFirst(h, x);
    }
  }

  /** Whatever the random choices, the fifth insertion gives up with one of the five in hand. */
  lemma FifthGivesUp(h: FpHash, ds: seq<Bytes>, luck: seq<Luck>)
    requires Crowded(h, ds) && |luck| == 5 && Fair(luck)
    ensures var b := Filled(2, h, ds, luck);
      b.skipped == 1 && b.lost[0].1 == 0 && exists k :: 0 <= k < 5 && b.lost[0].0 == Fingerprint(ds[k])
  {
    hide Fingerprint, Primary, Filled, Other, Inserted;
    FourFill(h, ds, luck, 4);
    var t := Filled(2, h, ds[..4], luck[..4]).table;
    var fps := set k | 0 <= k < 5 :: Fingerprint(ds[k]);
    CrowdIsBound(h, ds, fps);
    InsertStaysFull(2, h, t, Fingerprint(ds[4]), luck[4], fps);
    FilledUnfolds(2, h, ds, luck, 4);
    assert ds[..5] == ds && luck[..5] == luck;
  }

  lemma {:induction false} OneMember(h: FpHash, ds: seq<Bytes>, k: nat, m: nat)
    requires Crowded(h, ds) && k < 5 && m <= 5
    ensures Digests(ds[..m])
    ensures Members(ds[..m], 2, Fingerprint(ds[k]), 0, 0) == if k < m then 1 else 0
  {
    hide Fingerprint, Primary;
    if m == 0 {
    } else {
      OneMember(h, ds, k, m - 1);
      assert ds[..m][..m - 1] == ds[..m - 1];
    }
  }

  /**
   The builder gives five digests two buckets. If all five live in the first one, then for every
   sequence of random choices exactly one insertion gives up, and exactly one of the five, the one
   whose fingerprint was left in hand, is not found in the finished filter.
   */
  lemma FailedInsertLosesMember(h: FpHash, ds: seq<Bytes>, luck: seq<Luck>, k: nat)
    requires Crowded(h, ds) && |luck| == 5 && Fair(luck) && k < 5
    ensures BucketCount(5) == 2
    ensures var b := Filled(2, h, ds, luck);
      && b.skipped == 1 && (exists m :: 0 <= m < 5 && b.lost[0].0 == Fingerprint(ds[m]))
      && (Found(b.table, 2, h, Fingerprint(ds[k]), Primary(ds[k], 2)) <==> Fingerprint(ds[k]) != b.lost[0].0)
  {
    hide Fingerprint, Primary, Filled, Other, Found, BucketCount, IsPow2, Members;
    FiveGetTwo();
    FifthGivesUp(h, ds, luck);
    StaysInFirst(h, Fingerprint(ds[k]));
    assert IsPow2(2) by { TwoIsPow2(); }
    FoundIffNotLost(2, h, ds, luck, ds[k]);
    OneMember(h, ds, k, 5);
    assert ds[..5] == ds;
    var lost := Filled(2, h, ds, luck).lost;
    assert lost[..0] == [];
  }

  lemma TwoIsPow2()
    ensures IsPow2(2)
  {
    assert Pow2(1) == 2;
  }
}
