/** Batch lookup without deletion: entries are read in the kernel's order, in requests whose reply fits 16 bits, each
    starting after the last key of the one before. */
module BatchLookup {
  import opened Wrappers
  import opened BatchRequests

  const REPLY_DATA_OFFSET := 8

  /** The entries of a map in the kernel's order: each a key followed by a value. */
  ghost predicate IsMap(entries: seq<seq<Byte>>, keySize: nat, valueSize: nat) {
    && keySize > 0 && valueSize > 0 && Sized(entries, keySize + valueSize)
    && forall i, j :: 0 <= i < j < |entries| ==> entries[i][..keySize] != entries[j][..keySize]
  }

  /** The key is that of the entry before position p, or there is none and p is the start. */
  ghost predicate Before(entries: seq<seq<Byte>>, keySize: nat, key: Option<seq<Byte>>, p: nat) {
    if key.None? then p == 0
    else 0 < p <= |entries| && |entries[p - 1]| >= keySize && entries[p - 1][..keySize] == key.value
  }

  /** The key is given and no entry has it. */
  ghost predicate Unknown(entries: seq<seq<Byte>>, keySize: nat, key: Option<seq<Byte>>) {
    key.Some? && forall i :: 0 <= i < |entries| && |entries[i]| >= keySize ==> entries[i][..keySize] != key.value
  }

  function Min(a: nat, b: nat): nat {
    if a < b then a else b
  }

  // ---- the kernel's side ----

  /** Copies as many entries after the previous key as fit; finding none, though one would fit, is an error, and so is
      a previous key that is not in the map. */
  method NextBatch(entries: seq<seq<Byte>>, keySize: nat, valueSize: nat, previous: Option<seq<Byte>>, room: nat,
                   ghost p: nat)
    returns (found: bool, data: seq<Byte>)
    requires IsMap(entries, keySize, valueSize)
    requires Before(entries, keySize, previous, p) || Unknown(entries, keySize, previous)
    ensures Before(entries, keySize, previous, p) ==>
      var n := Min(room / (keySize + valueSize), |entries| - p);
      data == Concat(entries[p..p + n]) && (found <==> n > 0 || room < keySize + valueSize)
    ensures Unknown(entries, keySize, previous) ==> data == [] && (found <==> room < keySize + valueSize)
  {
    var size := keySize + valueSize;
    var after := FindAfter(entries, keySize, valueSize, previous, p);
    data := [];
    if after.None? {
      return room < size, [];
    }
    var position := after.value;
    ghost var n := 0;
    assert entries[p..p] == [];
    while |data| + size <= room
      invariant n <= |entries| - p && position == p + n && |data| == n * size <= room
      invariant data == Concat(entries[p..p + n])
      decreases |entries| - position
    {
      if position == |entries| {
        Counted(room, size, n, |entries| - p);
        return |data| != 0, data;
      }
      ConcatMore(entries, p, position);
      data := data + entries[position];
      assert (n + 1) * size == n * size + size;
      position, n := position + 1, n + 1;
    }
    Counted(room, size, n, |entries| - p);
    return true, data;
  }

  /** n entries were copied, because no more fit or there are no more. */
  lemma Counted(room: nat, size: nat, n: nat, left: nat)
    requires size > 0 && n <= left && n * size <= room && (n == left || n * size + size > room)
    ensures n == Min(room / size, left) && (n == 0 && n < left ==> room < size)
    ensures n * size == 0 <==> n == 0
  {
    if n > 0 {
      AtMost(0, n, size);
    }
    var q := room / size;
    assert room == q * size + room % size;
    if n > q {
      AtMost(q, n, size);
    } else if n < q {
      AtMost(n, q, size);
    }
  }

  lemma NotBoth(entries: seq<seq<Byte>>, keySize: nat, valueSize: nat, key: Option<seq<Byte>>, p: nat)
    requires IsMap(entries, keySize, valueSize)
    ensures !(Before(entries, keySize, key, p) && Unknown(entries, keySize, key))
  {
  }

  method FindAfter(entries: seq<seq<Byte>>, keySize: nat, valueSize: nat, previous: Option<seq<Byte>>, ghost p: nat)
    returns (after: Option<nat>)
    requires IsMap(entries, keySize, valueSize)
    requires Before(entries, keySize, previous, p) || Unknown(entries, keySize, previous)
    ensures after == if Unknown(entries, keySize, previous) then None else Some(p)
  {
    if previous.None? {
      return Some(0);
    }
    for position := 0 to |entries|
      invariant forall i :: 0 <= i < position ==> entries[i][..keySize] != previous.value
    {
      if entries[position][..keySize] == previous.value {
        return Some(position + 1);
      }
    }
    return None;
  }

  // ---- user mode ----

  /** How many entries one reply holds. */
  function PerReply(size: nat): nat
    requires size > 0
  {
    PerBatch(REPLY_DATA_OFFSET, size)
  }

  /** The batch succeeds exactly when there is something left and it fills the request, or ends inside a reply. When the
      entries end exactly with a full reply, the next request finds nothing and the whole batch fails. */
  predicate Succeeds(left: nat, requested: nat, perReply: nat) {
    requested > 0 && perReply > 0 && left > 0 && (requested <= left || left % perReply != 0)
  }

  /** The length field of a reply with n entries gives n back. */
  lemma ReplyCount(n: nat, size: nat)
    requires size > 0 && n <= PerReply(size)
    ensures Truncate16(REPLY_DATA_OFFSET + n * size) == REPLY_DATA_OFFSET + n * size
    ensures (n * size) / size == n
  {
  }

  /** Cuts the entries out of a reply. */
  method CutReply(data: seq<Byte>, size: nat, ghost expected: seq<seq<Byte>>) returns (got: seq<seq<Byte>>)
    requires size > 0 && Sized(expected, size) && data == Concat(expected) && |expected| <= PerReply(size)
    ensures got == expected
  {
    ConcatLength(expected, size);
    ReplyCount(|expected|, size);
    CutConcat(expected, size);
    var length := Truncate16(REPLY_DATA_OFFSET + |data|);
    var returned := (length - REPLY_DATA_OFFSET) / size;
    hide Cut, Concat;
    got := [];
    for index := 0 to returned
      invariant got == expected[..index]
    {
      CutAt(data, size, index);
      got := got + [data[index * size..index * size + size]];
    }
  }

  /** One request: the next entries after the previous key. */
  method Fetch(entries: seq<seq<Byte>>, keySize: nat, valueSize: nat, previous: Option<seq<Byte>>, wanted: nat,
               ghost p: nat)
    returns (ok: bool, got: seq<seq<Byte>>)
    requires IsMap(entries, keySize, valueSize) && wanted <= PerReply(keySize + valueSize)
    requires Before(entries, keySize, previous, p) || Unknown(entries, keySize, previous)
    ensures Unknown(entries, keySize, previous) ==> !ok
    ensures Before(entries, keySize, previous, p) ==> (ok <==> wanted > 0 && p < |entries|)
    ensures ok ==> p < |entries| && got == entries[p..p + Min(wanted, |entries| - p)]
  {
    var size := keySize + valueSize;
    ReplyCount(wanted, size);
    ghost var expected := if Unknown(entries, keySize, previous) then [] else entries[p..p + Min(wanted, |entries| - p)];
    var found, data := NextBatch(entries, keySize, valueSize, previous, wanted * size, p);
    if !found {
      return false, [];
    }
    got := CutReply(data, size, expected);
    ok := |got| != 0;
  }

  /** What has been read is what comes after position p, and the key is where to go on. */
  ghost predicate ReadSoFar(entries: seq<seq<Byte>>, keySize: nat, p: nat, got: seq<seq<Byte>>, key: Option<seq<Byte>>) {
    && p + |got| <= |entries| && got == entries[p..p + |got|]
    && Before(entries, keySize, key, p + |got|)
  }

  lemma ReadMore(entries: seq<seq<Byte>>, keySize: nat, valueSize: nat, p: nat, got: seq<seq<Byte>>,
                 more: seq<seq<Byte>>, key: Option<seq<Byte>>)
    requires IsMap(entries, keySize, valueSize) && ReadSoFar(entries, keySize, p, got, key) && more != []
    requires p + |got| + |more| <= |entries| && more == entries[p + |got|..p + |got| + |more|]
    ensures |(got + more)[|got + more| - 1]| >= keySize
    ensures ReadSoFar(entries, keySize, p, got + more, Some((got + more)[|got + more| - 1][..keySize]))
  {
  }

  /** Reads the next entries after `inBatch`; `outBatch` is where a next call resumes. */
  method Lookup(entries: seq<seq<Byte>>, keySize: nat, valueSize: nat, inBatch: Option<seq<Byte>>, requested: nat,
                ghost p: nat)
    returns (ok: bool, got: seq<seq<Byte>>, outBatch: Option<seq<Byte>>)
    requires IsMap(entries, keySize, valueSize) && p <= |entries|
    requires Before(entries, keySize, inBatch, p) || Unknown(entries, keySize, inBatch)
    ensures Unknown(entries, keySize, inBatch) ==> !ok
    ensures Before(entries, keySize, inBatch, p) ==>
      (ok <==> Succeeds(|entries| - p, requested, PerReply(keySize + valueSize)))
    ensures ok ==> |got| == Min(requested, |entries| - p) && ReadSoFar(entries, keySize, p, got, outBatch)
  {
    got, outBatch, ok := [], inBatch, false;
    if requested == 0 {
      return;
    }
    var max := PerReply(keySize + valueSize);
    ghost var rounds := 0;
    NotBoth(entries, keySize, valueSize, inBatch, p);
    ghost var known := Before(entries, keySize, inBatch, p);
    assert known ==> ReadSoFar(entries, keySize, p, [], inBatch);
    hide IsMap, PerReply, ReadSoFar, Before, Unknown;
    while |got| < requested
      invariant |got| <= requested && p + |got| <= |entries|
      invariant if known then ReadSoFar(entries, keySize, p, got, outBatch)
                else got == [] && Unknown(entries, keySize, outBatch)
      invariant |got| < requested ==> |got| == rounds * max
      invariant |got| > 0 ==> max > 0
      decreases requested - |got|
    {
      var wanted := Min(requested - |got|, max);
      var before := |got|;
      ok, got, outBatch := ReadPage(entries, keySize, valueSize, got, outBatch, wanted, p);
      if !ok {
        if known {
          NothingMore(|entries| - p, requested, max, rounds, before);
        }
        return;
      }
      if |got| != before + wanted {
        PartialReply(|entries| - p, requested, max, rounds, |got|);
        return true, got, outBatch;
      }
      assert (rounds + 1) * max == rounds * max + max;
      rounds := rounds + 1;
    }
    return true, got, outBatch;
  }

  /** One request, and its entries added to what has been read. */
  method ReadPage(entries: seq<seq<Byte>>, keySize: nat, valueSize: nat, got: seq<seq<Byte>>, key: Option<seq<Byte>>,
                  wanted: nat,
                  ghost p: nat)
    returns (ok: bool, all: seq<seq<Byte>>, next: Option<seq<Byte>>)
    requires IsMap(entries, keySize, valueSize) && wanted <= PerReply(keySize + valueSize)
    requires ReadSoFar(entries, keySize, p, got, key) || Unknown(entries, keySize, key)
    ensures Unknown(entries, keySize, key) ==> !ok
    ensures ReadSoFar(entries, keySize, p, got, key) ==> (ok <==> wanted > 0 && p + |got| < |entries|)
    ensures ok ==>
      && ReadSoFar(entries, keySize, p, all, next) && p + |all| <= |entries|
      && |all| == |got| + Min(wanted, |entries| - p - |got|)
    ensures !ok ==> all == got && next == key
  {
    var more;
    all, next := got, key;
    ok, more := Fetch(entries, keySize, valueSize, key, wanted, p + |got|);
    if ok {
      ReadMore(entries, keySize, valueSize, p, got, more, key);
      all := got + more;
      next := Some(all[|all| - 1][..keySize]);
    }
  }

  /** A request found nothing: the entries ended with a full reply, or there were none. */
  lemma NothingMore(left: nat, requested: nat, max: nat, rounds: nat, n: nat)
    requires n < requested && n == rounds * max && (max == 0 || left == n)
    ensures !Succeeds(left, requested, max)
  {
    if max > 0 {
      DivisionIsUnique(left, max, rounds, 0);
    }
  }

  /** A reply with fewer entries than asked for: the entries ended inside it. */
  lemma PartialReply(left: nat, requested: nat, max: nat, rounds: nat, n: nat)
    requires left == n && rounds * max < n < requested && n < rounds * max + max
    ensures Succeeds(left, requested, max) && Min(requested, left) == n
  {
    DivisionIsUnique(left, max, rounds, n - rounds * max);
  }

  /** Two calls, the second resuming where the first ended: together they read what comes after the start, without a
      gap and without an overlap. */
  lemma ResumeWithoutGap(entries: seq<seq<Byte>>, keySize: nat, valueSize: nat, p: nat, q: nat, a: seq<seq<Byte>>,
                         b: seq<seq<Byte>>,
                         between: Option<seq<Byte>>, end: Option<seq<Byte>>)
    requires IsMap(entries, keySize, valueSize) && ReadSoFar(entries, keySize, p, a, between)
    requires a != [] && q <= |entries| && Before(entries, keySize, between, q) && ReadSoFar(entries, keySize, q, b, end)
    ensures q == p + |a| && ReadSoFar(entries, keySize, p, a + b, end)
  {
  }

  /** The family of failing calls: the entries left are a multiple of what one reply holds, and fewer than requested. */
  lemma FullReplyThenNothing(left: nat, requested: nat, perReply: nat)
    requires perReply > 0 && 0 < left < requested
    ensures !Succeeds(left, requested, perReply) <==> exists k: nat :: left == k * perReply
  {
    var k := left / perReply;
    assert left == k * perReply + left % perReply;
    forall j: nat | left == j * perReply ensures left % perReply == 0 {
      DivisionIsUnique(left, perReply, j, 0);
    }
  }

  /** A 4-byte key and a 4-byte value, numbered. */
  function Numbered(i: nat): (entry: seq<Byte>)
    requires i < 65536
    ensures |entry| == 8
  {
    [i % 256, i / 256, 0, 0, 0, 0, 0, 0]
  }

  lemma NumberedAreDistinct(i: nat, j: nat)
    requires i < j < 65536
    ensures Numbered(i)[..4] != Numbered(j)[..4]
  {
    assert Numbered(i)[..4][0] == i % 256 && Numbered(i)[..4][1] == i / 256;
    assert Numbered(j)[..4][0] == j % 256 && Numbered(j)[..4][1] == j / 256;
  }

  /** A map whose 8190 entries of 8 bytes fill one reply: a call that asks for more, from the start, fails. */
  method FullReplyFails(requested: nat) returns (ok: bool)
    requires requested > 8190
    ensures !ok
  {
    var entries: seq<seq<Byte>> := seq(8190, i requires 0 <= i < 8190 => Numbered(i));
    forall i, j | 0 <= i < j < |entries| ensures entries[i][..4] != entries[j][..4] {
      NumberedAreDistinct(i, j);
    }
    assert Sized(entries, 8);
    var got, outBatch;
    ok, got, outBatch := Lookup(entries, 4, 4, None, requested, 0);
  }
}
