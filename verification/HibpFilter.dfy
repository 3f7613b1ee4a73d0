/**
 The filter file and the daemon's side of it: parsing the header, the bounds of the slot reads, and the
 lookup. Machine words are 64 bits wide and wrap around, and a slice with its end before its start
 panics. The SHA-256 of the file is a parameter.
 */
module HibpFilter {
  import opened Common
  import opened Arith
  import opened Cuckoo

  const HEADER: nat := 24
  const MAGIC: Bytes := [0x48, 0x49, 0x42, 0x50, 0x43, 0x46, 0x30, 0x31]

  datatype Filter = Filter(buckets: nat, data: Bytes)

  datatype LoadError = NoSidecar | MalformedSidecar | DigestMismatch
                     | TruncatedHeader | InvalidMagic | UnsupportedParams | TruncatedData

  datatype LoadResult = Loaded(filter: Filter) | Rejected(error: LoadError) | Panics

  // ---------------------------------------------------------------- parsing

  function LittleEndian(s: Bytes): nat { if s == [] then 0 else s[0] + 256 * LittleEndian(s[1..]) }

  function ToLittle(x: nat, m: nat): (s: Bytes)
    ensures |s| == m
  {
    if m == 0 then [] else [x % 256] + ToLittle(x / 256, m - 1)
  }

  function Parsed(full: Bytes): LoadResult {
    if |full| < HEADER then Rejected(TruncatedHeader)
    else if full[..8] != MAGIC then Rejected(InvalidMagic)
    else if full[16] != 4 || full[17] != 16 then Rejected(UnsupportedParams)
    else
      var buckets := LittleEndian(full[8..16]);
      var end := (HEADER + (8 * buckets) % U64) % U64;
      if |full| < end then Rejected(TruncatedData)
      else if end < HEADER then Panics
      else Loaded(Filter(buckets, full[HEADER..end]))
  }

  predicate IsHex(c: char) { '0' <= c <= '9' || 'a' <= c <= 'f' }

  predicate WellFormedDigest(s: string) { |s| == 64 && forall i :: 0 <= i < 64 ==> IsHex(s[i]) }

  /** The manifest's first word, in lower case, must be the digest of the whole file. */
  function Admitted(sha: Bytes -> string, manifest: Option<string>, full: Bytes): LoadResult {
    if manifest.None? then Rejected(NoSidecar)
    else if !WellFormedDigest(manifest.value) then Rejected(MalformedSidecar)
    else if manifest.value != sha(full) then Rejected(DigestMismatch)
    else Parsed(full)
  }

  /** The bytes delivered up to the first empty read. */
  function Content(chunks: seq<Bytes>): Bytes {
    if chunks == [] || chunks[0] == [] then [] else chunks[0] + Content(chunks[1..])
  }

  /** However a file is cut into non-empty chunks, reading gives it back. */
  lemma {:induction false} ContentJoins(chunks: seq<Bytes>, more: seq<Bytes>)
    requires forall k :: 0 <= k < |chunks| ==> chunks[k] != []
    ensures Content(chunks + more) == Content(chunks) + Content(more)
    ensures forall c: Bytes :: c != [] ==> Content([c]) == c
  {
    assert forall c: Bytes :: c + [] == c;
    if chunks == [] {
      assert chunks + more == more;
    } else {
      ContentJoins(chunks[1..], more);
      assert (chunks + more)[1..] == chunks[1..] + more;
      assert chunks[0] + Content(chunks[1..]) + Content(more) == chunks[0] + (Content(chunks[1..]) + Content(more));
    }
  }

  method Parse(full: Bytes) returns (r: LoadResult)
    ensures r == Parsed(full)
  {
    hide LittleEndian;
    if |full| < HEADER {
      return Rejected(TruncatedHeader);
    }
    if full[..8] != MAGIC {
      return Rejected(InvalidMagic);
    }
    var buckets, slots, fpBits := LittleEndian(full[8..16]), full[16], full[17];
    if slots != 4 || fpBits != 16 {
      return Rejected(UnsupportedParams);
    }
    var end := (HEADER + (8 * buckets) % U64) % U64;
    if |full| < end {
      return Rejected(TruncatedData);
    }
    if end < HEADER {
      return Panics;
    }
    return Loaded(Filter(buckets, full[HEADER..end]));
  }

  method ReadAll(chunks: seq<Bytes>) returns (full: Bytes)
    ensures full == Content(chunks)
  {
    full := [];
    var k := 0;
    while k < |chunks| && chunks[k] != []
      invariant 0 <= k <= |chunks|
      invariant Content(chunks) == full + Content(chunks[k..])
    {
      var rest := Content(chunks[k + 1..]);
      assert chunks[k..][1..] == chunks[k + 1..];
      assert full + (chunks[k] + rest) == full + chunks[k] + rest;
      full := full + chunks[k];
      k := k + 1;
    }
    assert full + [] == full;
  }

  method Load(chunks: seq<Bytes>, sha: Bytes -> string, manifest: Option<string>) returns (r: LoadResult)
    ensures r == Admitted(sha, manifest, Content(chunks))
    ensures !r.Rejected? ==> manifest.Some? && |manifest.value| == 64 && manifest.value == sha(Content(chunks))
    ensures manifest.Some? && |manifest.value| == 64 && manifest.value == sha(Content(chunks))
            && (forall i :: 0 <= i < 64 ==> '0' <= manifest.value[i] <= '9' || 'a' <= manifest.value[i] <= 'f')
            ==> r == Parsed(Content(chunks))
  {
    hide Parsed, Content;
    var full := ReadAll(chunks);
    if manifest.None? {
      return Rejected(NoSidecar);
    }
    if |manifest.value| != 64 || exists i :: 0 <= i < 64 && !IsHex(manifest.value[i]) {
      return Rejected(MalformedSidecar);
    }
    if manifest.value != sha(full) {
      return Rejected(DigestMismatch);
    }
    r := Parse(full);
  }

  // ---------------------------------------------------------------- slot reads

  /** Where the slots of a bucket start, computed in a machine word. */
  function Base(bucket: nat): nat { (8 * bucket) % U64 }

  ghost predicate ReadsInBounds(f: Filter) { forall b: nat :: b < f.buckets ==> Base(b) + 8 <= |f.data| }

  /** An accepted file's data has the wrapped size the header asks for. */
  lemma LoadedShape(full: Bytes)
    requires Parsed(full).Loaded?
    ensures var f := Parsed(full).filter; |f.data| == (8 * f.buckets) % U64
  {
  }

  /**
   For every accepted file, all slot reads of all buckets are in bounds if and only if the size of
   the table does not overflow a machine word.
   */
  lemma InBoundsIffNoOverflow(full: Bytes)
    requires Parsed(full).Loaded?
    ensures var f := Parsed(full).filter; ReadsInBounds(f) <==> 8 * f.buckets < U64
  {
    LoadedShape(full);
    var f := Parsed(full).filter;
    hide Parsed;
    if 8 * f.buckets < U64 {
      forall b: nat | b < f.buckets
        ensures Base(b) + 8 <= |f.data|
      {
      }
    } else {
      var b := |f.data| / 8;
      assert |f.data| < U64 && 8 * b == |f.data| by { WrappedMultiple(f.buckets); }
      assert b < f.buckets && Base(b) == |f.data|;
    }
  }

  lemma WrappedMultiple(n: nat)
    ensures (8 * n) % U64 < U64 && (8 * n) % U64 % 8 == 0
  {
  }

  // ---------------------------------------------------------------- lookup

  /** What a lookup gives: an answer, or a panic on a read out of bounds or a division by zero. */
  datatype Answer = Says(pwned: bool) | Crashed

  /** The scan of a bucket from a slot on; it stops at the first match or at the first bad read. */
  function Scan(data: Bytes, base: nat, fp: nat, slot: nat): Answer
    requires slot <= 4
    decreases 4 - slot
  {
    if slot == 4 then Says(false)
    else if base + 2 * slot + 2 > |data| then Crashed
    else if Be16(data[base + 2 * slot], data[base + 2 * slot + 1]) == fp then Says(true)
    else Scan(data, base, fp, slot + 1)
  }

  function BucketAnswer(f: Filter, bucket: nat, fp: nat): Answer { Scan(f.data, Base(bucket), fp, 0) }

  /** Both buckets of an item; the second is read only if the first does not hold it. */
  function ItemAnswer(f: Filter, h: FpHash, fp: nat, i: nat): Answer
    requires f.buckets > 0
  {
    var first := BucketAnswer(f, i, fp);
    if first != Says(false) then first else BucketAnswer(f, Other(f.buckets, h, fp, i), fp)
  }

  function Lookup(f: Filter, h: FpHash, digest: Bytes): Answer
    requires |digest| == 20
  {
    if f.buckets == 0 then Crashed else ItemAnswer(f, h, Fingerprint(digest), Primary(digest, f.buckets))
  }

  method BucketContains(f: Filter, bucket: nat, fp: nat) returns (r: Answer)
    ensures r == BucketAnswer(f, bucket, fp)
  {
    var base := (8 * bucket) % U64;
    var slot := 0;
    while slot < 4
      invariant 0 <= slot <= 4
      invariant Scan(f.data, base, fp, slot) == BucketAnswer(f, bucket, fp)
    {
      var off := base + 2 * slot;
      if off + 2 > |f.data| {
        return Crashed;
      }
      var stored := Be16(f.data[off], f.data[off + 1]);
      if stored == fp {
        return Says(true);
      }
      slot := slot + 1;
    }
    return Says(false);
  }

  method MightBePwned(f: Filter, h: FpHash, digest: Bytes) returns (r: Answer)
    requires |digest| == 20
    ensures r == Lookup(f, h, digest)
  {
    if f.buckets == 0 {
      return Crashed;
    }
    var fp := Max(Be16(digest[0], digest[1]), 1);
    var i1 := BigEndian(digest[2..10]) % f.buckets;
    var i2 := AltBucket(i1, h(fp), f.buckets);
    r := BucketContains(f, i1, fp);
    if r == Says(false) {
      r := BucketContains(f, i2, fp);
    }
  }

  predicate SlotIs(data: Bytes, base: nat, s: nat, fp: nat)
    requires base + 8 <= |data| && s < 4
  {
    Be16(data[base + 2 * s], data[base + 2 * s + 1]) == fp
  }

  /** A scan within bounds says whether one of the four slots holds the fingerprint. */
  lemma ScanInBounds(data: Bytes, base: nat, fp: nat)
    requires base + 8 <= |data|
    ensures Scan(data, base, fp, 0) == Says(exists s :: 0 <= s < 4 && SlotIs(data, base, s, fp))
  {
    assert Scan(data, base, fp, 3) == Says(SlotIs(data, base, 3, fp));
    assert Scan(data, base, fp, 2) == Says(SlotIs(data, base, 2, fp) || SlotIs(data, base, 3, fp));
    assert Scan(data, base, fp, 1) ==
           Says(SlotIs(data, base, 1, fp) || SlotIs(data, base, 2, fp) || SlotIs(data, base, 3, fp));
    var all := SlotIs(data, base, 0, fp) || SlotIs(data, base, 1, fp) || SlotIs(data, base, 2, fp) || SlotIs(data, base, 3, fp);
    assert Scan(data, base, fp, 0) == Says(all);
    assert all <==> exists s :: 0 <= s < 4 && SlotIs(data, base, s, fp);
  }

  /** The digest whose primary bucket lies just past the data of an overflowing table. */
  function Beyond(f: Filter): (digest: Bytes)
    ensures |digest| == 20
  {
    [0, 0] + ToBytes(|f.data| / 8, 8) + ToBytes(0, 10)
  }

  lemma BeyondCrashes(f: Filter, h: FpHash)
    requires |f.data| == (8 * f.buckets) % U64 && f.buckets > 0 && 8 * f.buckets >= U64
    ensures Lookup(f, h, Beyond(f)) == Crashed
  {
    var b, d := |f.data| / 8, Beyond(f);
    WrappedMultiple(f.buckets);
    assert 8 * b == |f.data| < U64 && b < f.buckets;
    assert BigEndian(d[2..10]) == b by {
      assert d[2..10] == ToBytes(b, 8);
      Pow2At64();
      assert 8 * 8 == 64;
      ToBytesRead(b, 8);
    }
    hide Beyond, BigEndian;
    SmallMod(b, f.buckets);
    assert Primary(d, f.buckets) == b;
    assert Base(b) == |f.data| by { SmallMod(8 * b, U64); }
  }

  lemma InBoundsNeverCrashes(f: Filter, h: FpHash, digest: Bytes)
    requires f.buckets > 0 && ReadsInBounds(f) && |digest| == 20
    ensures Lookup(f, h, digest) != Crashed
  {
    var fp, i := Fingerprint(digest), Primary(digest, f.buckets);
    ScanInBounds(f.data, Base(i), fp);
    ScanInBounds(f.data, Base(Other(f.buckets, h, fp, i)), fp);
    hide Scan, Primary, Fingerprint, AltBucket;
  }

  /**
   Exactly which accepted files are safe to query: no digest makes a lookup panic if and only if
   there is a bucket and the size of the table does not overflow a machine word.
   */
  lemma NeverCrashesIff(full: Bytes, h: FpHash)
    requires Parsed(full).Loaded?
    ensures var f := Parsed(full).filter;
      (forall digest :: |digest| == 20 ==> Lookup(f, h, digest) != Crashed)
      <==> 0 < f.buckets && 8 * f.buckets < U64
  {
    var f := Parsed(full).filter;
    LoadedShape(full);
    InBoundsIffNoOverflow(full);
    hide Parsed, ReadsInBounds, ItemAnswer;
    if f.buckets == 0 {
      assert Lookup(f, h, Beyond(f)) == Crashed;
    } else if 8 * f.buckets >= U64 {
      BeyondCrashes(f, h);
    } else {
      forall digest: Bytes | |digest| == 20
        ensures Lookup(f, h, digest) != Crashed
      {
        InBoundsNeverCrashes(f, h, digest);
      }
    }
  }

  // ---------------------------------------------------------------- the file

  /** The table as bytes, two per slot, high byte first. */
  function Pack(t: Table): (d: Bytes)
    requires Small(t)
    ensures |d| == 2 * |t|
  {
    if t == [] then [] else Pack(t[..|t| - 1]) + [t[|t| - 1] / 256, t[|t| - 1] % 256]
  }

  function Header(n: nat): (s: Bytes)
    ensures |s| == HEADER
  {
    MAGIC + ToLittle(n, 8) + [4, 16] + [0, 0, 0, 0, 0, 0]
  }

  function FileOf(n: nat, t: Table): Bytes
    requires Small(t)
  {
    Header(n) + Pack(t)
  }

  lemma {:induction false} LittleRoundTrip(x: nat, m: nat)
    requires x < Pow2(8 * m)
    ensures LittleEndian(ToLittle(x, m)) == x
    decreases m
  {
    if m == 0 {
    } else {
      Pow2Add(8, 8 * (m - 1));
      assert Pow2(8) == 256 by { Pow2Small(); }
      LittleRoundTrip(x / 256, m - 1);
      assert ToLittle(x, m)[1..] == ToLittle(x / 256, m - 1);
    }
  }

  lemma HeaderShape(n: nat, rest: Bytes)
    ensures var full := Header(n) + rest;
      && full[..8] == MAGIC && full[8..16] == ToLittle(n, 8) && full[16] == 4 && full[17] == 16 && full[HEADER..] == rest
  {
  }

  lemma {:induction false} PackAt(t: Table, k: nat)
    requires Small(t) && k < |t|
    ensures Be16(Pack(t)[2 * k], Pack(t)[2 * k + 1]) == t[k]
  {
    if k == |t| - 1 {
    } else {
      PackAt(t[..|t| - 1], k);
      assert Pack(t)[..2 * (|t| - 1)] == Pack(t[..|t| - 1]);
    }
  }

  /** A slot of the file holds a fingerprint exactly when the slot of the table does. */
  lemma SlotIffAt(t: Table, b: nat, s: nat, f: nat)
    requires Small(t) && 4 * b + 4 <= |t| && s < 4
    ensures SlotIs(Pack(t), 8 * b, s, f) <==> t[4 * b + s] == f
  {
    hide Pack, Be16;
    var k := 4 * b + s;
    PackAt(t, k);
    assert 8 * b + 2 * s == 2 * k;
  }

  /** A bucket of the file holds a fingerprint exactly when the bucket of the table does. */
  lemma AnswerIffInBucket(t: Table, n: nat, b: nat, f: nat)
    requires Sized(t, n) && Small(t) && b < n && 8 * n < U64
    ensures BucketAnswer(Filter(n, Pack(t)), b, f) == Says(InBucket(t, b, f))
  {
    hide Pack, Scan, SlotIs;
    assert Base(b) == 8 * b by { SmallMod(8 * b, U64); }
    hide Base;
    SlotIffAt(t, b, 0, f);
    SlotIffAt(t, b, 1, f);
    SlotIffAt(t, b, 2, f);
    SlotIffAt(t, b, 3, f);
    ScanInBounds(Pack(t), 8 * b, f);
  }

  lemma HeaderReadsBack(n: nat)
    requires n < U64
    ensures LittleEndian(ToLittle(n, 8)) == n
  {
    Pow2At64();
    hide Pow2, LittleEndian, ToLittle;
    assert 8 * 8 == 64;
    LittleRoundTrip(n, 8);
  }

  lemma ParsesWhole(full: Bytes, n: nat)
    requires |full| == HEADER + 8 * n < U64
    requires full[..8] == MAGIC && LittleEndian(full[8..16]) == n && full[16] == 4 && full[17] == 16
    ensures Parsed(full) == Loaded(Filter(n, full[HEADER..]))
  {
    hide LittleEndian;
    assert full[HEADER..HEADER + 8 * n] == full[HEADER..];
  }

  /** Loading the file written for a table gives back that table's filter. */
  lemma FileRoundTrip(n: nat, t: Table)
    requires Sized(t, n) && Small(t) && 8 * n + HEADER < U64
    ensures Parsed(FileOf(n, t)) == Loaded(Filter(n, Pack(t)))
    ensures ReadsInBounds(Filter(n, Pack(t)))
  {
    hide Pack, LittleEndian, ToLittle, Parsed, ReadsInBounds, Header;
    HeaderShape(n, Pack(t));
    HeaderReadsBack(n);
    ParsesWhole(FileOf(n, t), n);
    InBoundsIffNoOverflow(FileOf(n, t));
  }

  /** A file with zero buckets is accepted, and every lookup in it panics. */
  lemma ZeroBucketsAccepted(h: FpHash, digest: Bytes)
    requires |digest| == 20
    ensures Parsed(Header(0)) == Loaded(Filter(0, [])) && Lookup(Filter(0, []), h, digest) == Crashed
  {
    hide LittleEndian, ToLittle, Parsed, Header;
    HeaderShape(0, []);
    HeaderReadsBack(0);
    assert Header(0) + [] == Header(0);
    ParsesWhole(Header(0), 0);
  }

  /** Exactly which files make parsing itself panic: a well-formed header whose wrapped size is within 24 of the word. */
  lemma ParsePanicsIff(full: Bytes)
    ensures Parsed(full) == Panics <==>
            && |full| >= HEADER && full[..8] == MAGIC && full[16] == 4 && full[17] == 16
            && (8 * LittleEndian(full[8..16])) % U64 >= U64 - HEADER
  {
    hide LittleEndian;
  }

  /** An overflowing size can be accepted: 2^61 buckets wrap to an empty table. */
  lemma OverflowAccepted()
    ensures Parsed(Header(U64 / 8)) == Loaded(Filter(U64 / 8, []))
  {
    hide LittleEndian, ToLittle, Header;
    HeaderShape(U64 / 8, []);
    HeaderReadsBack(U64 / 8);
    assert Header(U64 / 8) + [] == Header(U64 / 8);
  }

  /** From table to answer: the daemon's lookup on the written and loaded file agrees with the table. */
  lemma LookupIffFound(n: nat, h: FpHash, t: Table, digest: Bytes)
    requires Sized(t, n) && Small(t) && 8 * n + HEADER < U64 && |digest| == 20
    ensures Parsed(FileOf(n, t)) == Loaded(Filter(n, Pack(t)))
    ensures Lookup(Filter(n, Pack(t)), h, digest) ==
            Says(Found(t, n, h, Fingerprint(digest), Primary(digest, n)))
  {
    var f, i := Fingerprint(digest), Primary(digest, n);
    FileRoundTrip(n, t);
    AnswerIffInBucket(t, n, i, f);
    AnswerIffInBucket(t, n, Other(n, h, f, i), f);
    hide Parsed, Pack, BucketAnswer, InBucket, AltBucket, Fingerprint, Primary;
  }

  /**
   From hashes to answer: the daemon reports a digest exactly when of its fingerprint and buckets
   more were inserted than given up; without skipped insertions every member is reported.
   */
  lemma MembersAreReported(h: FpHash, ds: seq<Bytes>, luck: seq<Luck>, digest: Bytes)
    requires ds != [] && Digests(ds) && |luck| == |ds| && Fair(luck) && |digest| == 20
    requires 8 * BucketCount(|ds|) + HEADER < U64
    ensures var n := BucketCount(|ds|);
      var b, f, i := Filled(n, h, ds, luck), Fingerprint(digest), Primary(digest, n);
      var j := Other(n, h, f, i);
      && Small(b.table) && Parsed(FileOf(n, b.table)) == Loaded(Filter(n, Pack(b.table)))
      && Lookup(Filter(n, Pack(b.table)), h, digest) == Says(Members(ds, n, f, i, j) > Losses(b.lost, f, i, j))
      && (b.skipped == 0 && digest in ds ==> Lookup(Filter(n, Pack(b.table)), h, digest) == Says(true))
  {
    var n := BucketCount(|ds|);
    BuiltFacts(n, h, ds, luck);
    var b := Filled(n, h, ds, luck);
    FoundIffNotLost(n, h, ds, luck, digest);
    hide Small, Sized, Filled, Parsed, Lookup, Found, Members, Losses, BucketCount, IsPow2, Fingerprint, Primary, Other;
    LookupIffFound(n, h, b.table, digest);
  }
}
