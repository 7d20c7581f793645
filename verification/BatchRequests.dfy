/** Batch update and delete: a list of records is cut into requests whose length fits 16 bits; the kernel cuts each
    request back into records and applies them one by one. */
module BatchRequests {
  import opened Wrappers

  type Byte = b: int | 0 <= b < 256

  const UINT16_MAX := 65535
  const UPDATE_DATA_OFFSET := 20
  const DELETE_KEYS_OFFSET := 16

  /** A request: the 16-bit length field of its header, and what follows the fixed part. */
  datatype Request = Request(length: nat, data: seq<Byte>)

  function Truncate16(n: nat): nat {
    n % (UINT16_MAX + 1)
  }

  /** How many records of this size fit one request. */
  function PerBatch(offset: nat, size: nat): nat
    requires offset <= UINT16_MAX && size > 0
  {
    (UINT16_MAX - offset) / size
  }

  // ---- records ----

  ghost predicate Sized(records: seq<seq<Byte>>, size: nat) {
    forall i :: 0 <= i < |records| ==> |records[i]| == size
  }

  ghost function Concat(records: seq<seq<Byte>>): seq<Byte> {
    if records == [] then [] else records[0] + Concat(records[1..])
  }

  lemma {:induction false} ConcatLength(records: seq<seq<Byte>>, size: nat)
    requires Sized(records, size)
    ensures |Concat(records)| == |records| * size
  {
    if records != [] {
      ConcatLength(records[1..], size);
      assert |records| * size == size + (|records| - 1) * size;
    }
  }

  lemma {:induction false} ConcatAppend(records: seq<seq<Byte>>, record: seq<Byte>)
    ensures Concat(records + [record]) == Concat(records) + record
  {
    if records == [] {
      assert records + [record] == [record];
      assert Concat([record]) == record + Concat([]);
    } else {
      ConcatAppend(records[1..], record);
      assert (records + [record])[1..] == records[1..] + [record];
    }
  }

  /** Cuts bytes into records of the given size; a rest that is too short is left over. */
  ghost function Cut(data: seq<Byte>, size: nat): seq<seq<Byte>>
    requires size > 0
    decreases |data|
  {
    if |data| < size then [] else [data[..size]] + Cut(data[size..], size)
  }

  /** Cutting undoes concatenating. */
  lemma {:induction false} CutConcat(records: seq<seq<Byte>>, size: nat)
    requires size > 0 && Sized(records, size)
    ensures Cut(Concat(records), size) == records
  {
    if records != [] {
      var rest := Concat(records[1..]);
      CutConcat(records[1..], size);
      assert (records[0] + rest)[..size] == records[0] && (records[0] + rest)[size..] == rest;
    }
  }

  lemma NextMultiple(i: nat, size: nat)
    ensures (i + 1) * size == i * size + size
  {
  }

  lemma SliceDrop(data: seq<Byte>, n: nat, lo: nat, hi: nat)
    requires n <= |data| && lo <= hi <= |data| - n
    ensures data[n..][lo..hi] == data[n + lo..n + hi]
  {
  }

  lemma AtMost(i: nat, n: nat, size: nat)
    requires i < n
    ensures i * size + size <= n * size
  {
    assert (i + 1) * size <= n * size;
  }

  lemma DivisionIsUnique(x: nat, size: nat, q: nat, r: nat)
    requires size > 0 && x == q * size + r && r < size
    ensures x / size == q && x % size == r
  {
    var p := x / size;
    assert x == p * size + x % size;
    if p < q {
      AtMost(p, q, size);
    } else if q < p {
      AtMost(q, p, size);
    }
  }

  lemma OneRecordLess(x: nat, size: nat)
    requires 0 < size <= x
    ensures x / size == (x - size) / size + 1 && x % size == (x - size) % size
  {
    var q, r := (x - size) / size, (x - size) % size;
    NextMultiple(q, size);
    DivisionIsUnique(x, size, q + 1, r);
  }

  /** The records are the slices at multiples of the size. */
  lemma {:induction false} CutAt(data: seq<Byte>, size: nat, i: nat)
    requires size > 0
    ensures |Cut(data, size)| == |data| / size
    ensures i < |Cut(data, size)| ==>
              i * size + size <= |data| && Cut(data, size)[i] == data[i * size..i * size + size]
    decreases |data|
  {
    if |data| < size {
      DivisionIsUnique(|data|, size, 0, |data|);
    } else {
      OneRecordLess(|data|, size);
      CutAt(data[size..], size, if i > 0 then i - 1 else 0);
      if 0 < i < |Cut(data, size)| {
        NextMultiple(i - 1, size);
        SliceDrop(data, size, (i - 1) * size, (i - 1) * size + size);
      }
    }
  }

  // ---- single operations, one after the other ----

  /** The state after applying records until one fails, and how many were applied. */
  function Applied<S>(op: (S, seq<Byte>) -> Option<S>, s: S, records: seq<seq<Byte>>): (S, nat) {
    if records == [] then (s, 0)
    else match op(s, records[0])
      case None => (s, 0)
      case Some(t) => var rest := Applied(op, t, records[1..]); (rest.0, rest.1 + 1)
  }

  lemma {:induction false} AppliedAtMost<S>(op: (S, seq<Byte>) -> Option<S>, s: S, records: seq<seq<Byte>>)
    ensures Applied(op, s, records).1 <= |records|
  {
    if records != [] && op(s, records[0]).Some? {
      AppliedAtMost(op, op(s, records[0]).value, records[1..]);
    }
  }

  /** Applying a list is applying its first part and, if all of that was applied, the rest. */
  lemma {:induction false} AppliedConcat<S>(op: (S, seq<Byte>) -> Option<S>, s: S, a: seq<seq<Byte>>, b: seq<seq<Byte>>)
    ensures Applied(op, s, a + b) ==
            if Applied(op, s, a).1 == |a|
            then (Applied(op, Applied(op, s, a).0, b).0, |a| + Applied(op, Applied(op, s, a).0, b).1)
            else Applied(op, s, a)
  {
    if a == [] {
      assert a + b == b;
    } else {
      assert (a + b)[0] == a[0] && (a + b)[1..] == a[1..] + b;
      if op(s, a[0]).Some? {
        AppliedConcat(op, op(s, a[0]).value, a[1..], b);
      }
    }
  }

  lemma AppliedToOne<S>(op: (S, seq<Byte>) -> Option<S>, s: S, record: seq<Byte>)
    ensures Applied(op, s, [record]) == if op(s, record).Some? then (op(s, record).value, 1) else (s, 0)
  {
  }

  lemma AppliedToFirst<S>(op: (S, seq<Byte>) -> Option<S>, s: S, records: seq<seq<Byte>>)
    requires records != []
    ensures op(s, records[0]).None? ==> Applied(op, s, records) == (s, 0)
  {
  }

  lemma AppliedOneMore<S>(op: (S, seq<Byte>) -> Option<S>, s: S, records: seq<seq<Byte>>, i: nat)
    requires i < |records| && Applied(op, s, records[..i]).1 == i
    ensures var t := op(Applied(op, s, records[..i]).0, records[i]);
            && (t.Some? ==> Applied(op, s, records[..i + 1]) == (t.value, i + 1))
            && (t.None? ==> Applied(op, s, records) == (Applied(op, s, records[..i]).0, i))
  {
    hide Applied;
    var at := Applied(op, s, records[..i]).0;
    assert records[..i + 1] == records[..i] + [records[i]];
    AppliedConcat(op, s, records[..i], [records[i]]);
    AppliedToOne(op, at, records[i]);
    assert records == records[..i] + records[i..];
    AppliedConcat(op, s, records[..i], records[i..]);
    AppliedToFirst(op, at, records[i..]);
  }

  // ---- the kernel's side ----

  /** The payload, as long as the length field says. */
  function Payload(request: Request, offset: nat): seq<Byte>
    requires offset <= request.length <= offset + |request.data|
  {
    request.data[..request.length - offset]
  }

  /** Cuts the request by its length field and applies its records in order; stops at the first that fails. A length
      that is too short, or no multiple of the size, is refused before anything is applied. */
  method Handle<S>(request: Request, offset: nat, size: nat, op: (S, seq<Byte>) -> Option<S>, s: S)
    returns (ok: bool, after: S, processed: nat)
    requires size > 0 && request.length <= offset + |request.data|
    ensures request.length < offset || (request.length - offset) % size != 0 ==> !ok && after == s
    ensures request.length >= offset && (request.length - offset) % size == 0 ==>
      var records := Cut(Payload(request, offset), size);
      (after, processed) == Applied(op, s, records) && (ok <==> processed == |records|)
  {
    after, processed := s, 0;
    if request.length < offset || (request.length - offset) % size != 0 {
      return false, s, 0;
    }
    var data := request.data[..request.length - offset];
    ghost var records := Cut(data, size);
    var count := |data| / size;
    CutAt(data, size, 0);
    assert records[..0] == [];
    while processed < count
      invariant processed <= count == |records|
      invariant Applied(op, s, records[..processed]) == (after, processed)
    {
      CutAt(data, size, processed);
      AppliedOneMore(op, s, records, processed);
      var next := op(after, data[processed * size..processed * size + size]);
      if next.None? {
        return false, after, processed;
      }
      after := next.value;
      processed := processed + 1;
    }
    assert records[..processed] == records;
    return true, after, processed;
  }

  // ---- one request ----

  lemma Fits(n: nat, offset: nat, size: nat)
    requires offset <= UINT16_MAX && size > 0 && n <= PerBatch(offset, size)
    ensures offset + n * size <= UINT16_MAX
  {
  }

  /** Sends records as one request. The length field does not truncate, so the kernel sees exactly these records. */
  method Send<S>(data: seq<Byte>, count: nat, offset: nat, size: nat, op: (S, seq<Byte>) -> Option<S>, s: S,
                 reaches: bool, ghost records: seq<seq<Byte>>)
    returns (ok: bool, after: S)
    requires size > 0 && Sized(records, size) && data == Concat(records) && count == |records|
    requires offset <= UINT16_MAX && count <= PerBatch(offset, size)
    ensures !reaches ==> !ok && after == s
    ensures reaches ==> after == Applied(op, s, records).0 && (ok <==> Applied(op, s, records).1 == |records|)
  {
    if !reaches {
      return false, s;
    }
    ConcatLength(records, size);
    Fits(count, offset, size);
    var request := Request(Truncate16(offset + |data|), data);
    DivisionIsUnique(|data|, size, count, 0);
    CutConcat(records, size);
    assert Payload(request, offset) == data;
    var processed;
    ok, after, processed := Handle(request, offset, size, op, s);
    ok := ok && processed == count;
  }

  // ---- all requests ----

  /** The first p records, and no other, have been applied. */
  ghost predicate PrefixApplied<S(!new)>(op: (S, seq<Byte>) -> Option<S>, s: S, records: seq<seq<Byte>>, p: nat, after: S) {
    p <= |records| && Applied(op, s, records[..p]) == (after, p)
  }

  lemma {:induction false} AppliedPrefix<S(!new)>(op: (S, seq<Byte>) -> Option<S>, s: S, records: seq<seq<Byte>>)
    ensures PrefixApplied(op, s, records, Applied(op, s, records).1, Applied(op, s, records).0)
  {
    AppliedAtMost(op, s, records);
    var n := Applied(op, s, records).1;
    if records != [] && op(s, records[0]).Some? {
      AppliedPrefix(op, op(s, records[0]).value, records[1..]);
      assert records[..n][1..] == records[1..][..n - 1];
    }
  }

  /** A request for the next n records extends the applied prefix by all of them, or decides the whole outcome. */
  lemma NextRequest<S(!new)>(op: (S, seq<Byte>) -> Option<S>, s: S, records: seq<seq<Byte>>, i: nat, n: nat, at: S)
    requires i + n <= |records| && PrefixApplied(op, s, records, i, at)
    ensures var r := Applied(op, at, records[i..i + n]);
            && (r.1 == n ==> PrefixApplied(op, s, records, i + n, r.0))
            && (r.1 != n ==> Applied(op, s, records) == (r.0, i + r.1) && r.1 < n)
  {
    hide Applied;
    var chunk := records[i..i + n];
    AppliedAtMost(op, at, chunk);
    assert records[..i + n] == records[..i] + chunk;
    AppliedConcat(op, s, records[..i], chunk);
    assert records == records[..i + n] + records[i + n..];
    AppliedConcat(op, s, records[..i + n], records[i + n..]);
  }

  /** What a batch call leaves behind: a prefix of the single operations, all of them on success; and exactly what
      the single operations leave behind when every request reaches the kernel. */
  ghost predicate Refines<S(!new)>(op: (S, seq<Byte>) -> Option<S>, s: S, records: seq<seq<Byte>>, allReach: bool,
                                   ok: bool, after: S) {
    && (exists p :: PrefixApplied(op, s, records, p, after) && (ok <==> p == |records|))
    && (allReach ==> after == Applied(op, s, records).0 && (ok <==> Applied(op, s, records).1 == |records|))
  }

  lemma Stopped<S(!new)>(op: (S, seq<Byte>) -> Option<S>, s: S, records: seq<seq<Byte>>, i: nat, n: nat, at: S,
                         reaches: bool, allReach: bool, after: S)
    requires i < |records| && i + n <= |records| && PrefixApplied(op, s, records, i, at)
    requires allReach ==> reaches
    requires !reaches ==> after == at
    requires reaches ==> after == Applied(op, at, records[i..i + n]).0 && Applied(op, at, records[i..i + n]).1 != n
    ensures Refines(op, s, records, allReach, false, after)
  {
    if reaches {
      NextRequest(op, s, records, i, n, at);
      AppliedPrefix(op, s, records);
      assert PrefixApplied(op, s, records, Applied(op, s, records).1, after);
    } else {
      assert PrefixApplied(op, s, records, i, after);
    }
  }

  lemma Completed<S(!new)>(op: (S, seq<Byte>) -> Option<S>, s: S, records: seq<seq<Byte>>, allReach: bool, after: S)
    requires PrefixApplied(op, s, records, |records|, after)
    ensures Refines(op, s, records, allReach, true, after)
  {
    assert records[..|records|] == records;
  }

  lemma SliceSized(records: seq<seq<Byte>>, size: nat, lo: nat, hi: nat)
    requires Sized(records, size) && lo <= hi <= |records|
    ensures Sized(records[lo..hi], size)
  {
  }

  // ---- batch update ----

  /** Record i is key i followed by value i. */
  ghost function UpdateRecords(keys: seq<Byte>, keySize: nat, values: seq<Byte>, valueSize: nat): seq<seq<Byte>>
    requires keySize > 0 && valueSize > 0 && |Cut(keys, keySize)| == |Cut(values, valueSize)|
  {
    seq(|Cut(keys, keySize)|, i requires 0 <= i < |Cut(keys, keySize)| => Cut(keys, keySize)[i] + Cut(values, valueSize)[i])
  }

  lemma CutCount(data: seq<Byte>, size: nat, count: nat)
    requires size > 0 && |data| == count * size
    ensures |Cut(data, size)| == count
  {
    DivisionIsUnique(|data|, size, count, 0);
    CutAt(data, size, 0);
  }

  lemma UpdateRecordsSized(keys: seq<Byte>, keySize: nat, values: seq<Byte>, valueSize: nat, count: nat)
    requires keySize > 0 && valueSize > 0 && |keys| == count * keySize && |values| == count * valueSize
    ensures |Cut(keys, keySize)| == |Cut(values, valueSize)| == count
    ensures |UpdateRecords(keys, keySize, values, valueSize)| == count
    ensures Sized(UpdateRecords(keys, keySize, values, valueSize), keySize + valueSize)
  {
    CutCount(keys, keySize, count);
    CutCount(values, valueSize, count);
    forall i | 0 <= i < count
      ensures |UpdateRecords(keys, keySize, values, valueSize)[i]| == keySize + valueSize
    {
      CutAt(keys, keySize, i);
      CutAt(values, valueSize, i);
    }
  }

  lemma UpdateRecordAt(keys: seq<Byte>, keySize: nat, values: seq<Byte>, valueSize: nat, count: nat, i: nat)
    requires keySize > 0 && valueSize > 0 && |Cut(keys, keySize)| == |Cut(values, valueSize)| == count && i < count
    ensures i * keySize + keySize <= |keys| && i * valueSize + valueSize <= |values|
    ensures |UpdateRecords(keys, keySize, values, valueSize)| == count
    ensures UpdateRecords(keys, keySize, values, valueSize)[i] ==
            keys[i * keySize..i * keySize + keySize] + values[i * valueSize..i * valueSize + valueSize]
  {
    CutAt(keys, keySize, i);
    CutAt(values, valueSize, i);
  }

  lemma ConcatMore(records: seq<seq<Byte>>, from: nat, i: nat)
    requires from <= i < |records|
    ensures Concat(records[from..i + 1]) == Concat(records[from..i]) + records[i]
  {
    ConcatAppend(records[from..i], records[i]);
    assert records[from..i + 1] == records[from..i] + [records[i]];
  }

  /** Copies keys and values into the data of a request, alternating. */
  method CopyEntries(keys: seq<Byte>, keySize: nat, values: seq<Byte>, valueSize: nat, from: nat, n: nat, ghost count: nat)
    returns (data: seq<Byte>)
    requires keySize > 0 && valueSize > 0 && |keys| == count * keySize && |values| == count * valueSize
    requires from + n <= count
    ensures |Cut(keys, keySize)| == |Cut(values, valueSize)| == |UpdateRecords(keys, keySize, values, valueSize)| == count
    ensures data == Concat(UpdateRecords(keys, keySize, values, valueSize)[from..from + n])
  {
    UpdateRecordsSized(keys, keySize, values, valueSize, count);
    ghost var records := UpdateRecords(keys, keySize, values, valueSize);
    data := [];
    assert records[from..from] == [] && Concat(records[from..from]) == [];
    hide Cut, Concat, UpdateRecords, Sized;
    for index := 0 to n
      invariant data == Concat(records[from..from + index])
    {
      var i := from + index;
      UpdateRecordAt(keys, keySize, values, valueSize, count, i);
      data := data + (keys[i * keySize..i * keySize + keySize] + values[i * valueSize..i * valueSize + valueSize]);
      ConcatMore(records, from, i);
    }
  }

  /** Where the loop over the requests stands. */
  datatype Progress<S> = Progress(index: nat, state: S, failed: bool)

  /** One pass of the loop: a request that does not reach the kernel, or is not applied in full, ends it. */
  function Round<S>(op: (S, seq<Byte>) -> Option<S>, records: seq<seq<Byte>>, perBatch: nat, p: Progress<S>,
                    reaches: bool): Progress<S>
  {
    if p.failed || p.index >= |records| then p
    else if !reaches then p.(failed := true)
    else
      var n := if |records| - p.index < perBatch then |records| - p.index else perBatch;
      var r := Applied(op, p.state, records[p.index..p.index + n]);
      if r.1 == n then Progress(p.index + n, r.0, false) else Progress(p.index, r.0, true)
  }

  /** After the given number of requests; whether a request reaches the kernel depends on its number. */
  function Rounds<S>(op: (S, seq<Byte>) -> Option<S>, records: seq<seq<Byte>>, perBatch: nat, s: S, reaches: nat -> bool,
                     requests: nat): Progress<S>
  {
    if requests == 0 then Progress(0, s, false)
    else Round(op, records, perBatch, Rounds(op, records, perBatch, s, reaches, requests - 1), reaches(requests - 1))
  }

  predicate Over<S>(p: Progress<S>, count: nat) {
    p.failed || p.index >= count
  }

  /** The loop comes to an end, and with this outcome. */
  ghost predicate EndsWith<S(!new)>(op: (S, seq<Byte>) -> Option<S>, records: seq<seq<Byte>>, perBatch: nat, s: S,
                                    reaches: nat -> bool, ok: bool, after: S) {
    exists n: nat :: var p := Rounds(op, records, perBatch, s, reaches, n);
      Over(p, |records|) && p.state == after && ok == !p.failed
  }

  /** What the pass keeps: the records before the index are applied, and an outcome refines the single operations. */
  ghost predicate Kept<S(!new)>(op: (S, seq<Byte>) -> Option<S>, s: S, records: seq<seq<Byte>>, allReach: bool,
                                p: Progress<S>) {
    && p.index <= |records|
    && (!p.failed ==> PrefixApplied(op, s, records, p.index, p.state))
    && (p.failed ==> Refines(op, s, records, allReach, false, p.state))
  }

  lemma RoundKeeps<S(!new)>(op: (S, seq<Byte>) -> Option<S>, s: S, records: seq<seq<Byte>>, perBatch: nat, allReach: bool,
                            p: Progress<S>, reaches: bool)
    requires Kept(op, s, records, allReach, p) && (allReach ==> reaches)
    ensures Kept(op, s, records, allReach, Round(op, records, perBatch, p, reaches))
  {
    hide Applied, PrefixApplied, Refines;
    if !p.failed && p.index < |records| {
      var n := if |records| - p.index < perBatch then |records| - p.index else perBatch;
      var r := Applied(op, p.state, records[p.index..p.index + n]);
      if !reaches {
        Stopped(op, s, records, p.index, n, p.state, false, allReach, p.state);
      } else if r.1 == n {
        NextRequest(op, s, records, p.index, n, p.state);
      } else {
        Stopped(op, s, records, p.index, n, p.state, true, allReach, r.0);
      }
    }
  }

  /** One pass of batch update, for entries of any size. The kernel accepts the request without records that is sent
      when not even one entry fits, and reports that none was processed, which is what was asked for. */
  method UpdateRound<S(!new)>(keys: seq<Byte>, keySize: nat, values: seq<Byte>, valueSize: nat, count: nat,
                              op: (S, seq<Byte>) -> Option<S>, p: Progress<S>, reaches: bool)
    returns (next: Progress<S>)
    requires keySize > 0 && valueSize > 0 && |keys| == count * keySize && |values| == count * valueSize
    requires !p.failed && p.index < count
    ensures |Cut(keys, keySize)| == |Cut(values, valueSize)| == count
    ensures next == Round(op, UpdateRecords(keys, keySize, values, valueSize),
                          PerBatch(UPDATE_DATA_OFFSET, keySize + valueSize), p, reaches)
  {
    hide UpdateRecords, Cut, Concat, PerBatch, Applied, Sized;
    UpdateRecordsSized(keys, keySize, values, valueSize, count);
    ghost var records := UpdateRecords(keys, keySize, values, valueSize);
    var size := keySize + valueSize;
    var max := PerBatch(UPDATE_DATA_OFFSET, size);
    var n := if count - p.index < max then count - p.index else max;
    var data := CopyEntries(keys, keySize, values, valueSize, p.index, n, count);
    SliceSized(records, size, p.index, p.index + n);
    var ok, after := Send(data, n, UPDATE_DATA_OFFSET, size, op, p.state, reaches, records[p.index..p.index + n]);
    next := if ok then Progress(p.index + n, after, false) else Progress(p.index, after, true);
  }

  /** One entry fits a request. */
  predicate EntryFits(keySize: nat, valueSize: nat) {
    UPDATE_DATA_OFFSET + keySize + valueSize <= UINT16_MAX
  }

  /** In bytes: a key and a value fit an update request up to 65515 together, a key a delete request up to 65519. */
  lemma LargestEntries(keySize: nat, valueSize: nat)
    ensures EntryFits(keySize, valueSize) <==> keySize + valueSize <= 65515
    ensures DELETE_KEYS_OFFSET + keySize <= UINT16_MAX <==> keySize <= 65519
  {
  }

  /** Batch update. It is called where it comes to an end: when one entry fits a request, or a request fails to reach
      the kernel. */
  method UpdateBatch<S(!new)>(keys: seq<Byte>, keySize: nat, values: seq<Byte>, valueSize: nat, count: nat,
                              op: (S, seq<Byte>) -> Option<S>, s: S, reaches: nat -> bool)
    returns (ok: bool, after: S)
    requires |keys| == count * keySize && |values| == count * valueSize
    requires EntryFits(keySize, valueSize) || exists i: nat :: !reaches(i)
    ensures keySize == 0 || valueSize == 0 || count == 0 ==> !ok && after == s
    ensures keySize > 0 && valueSize > 0 && count > 0 ==>
      && |Cut(keys, keySize)| == |Cut(values, valueSize)| == count
      && Refines(op, s, UpdateRecords(keys, keySize, values, valueSize), forall i: nat :: reaches(i), ok, after)
      && EndsWith(op, UpdateRecords(keys, keySize, values, valueSize), PerBatch(UPDATE_DATA_OFFSET, keySize + valueSize),
                  s, reaches, ok, after)
  {
    if keySize == 0 || valueSize == 0 || count == 0 {
      return false, s;
    }
    hide Refines, EndsWith, UpdateRecords, Cut, PerBatch;
    OneFits(UPDATE_DATA_OFFSET, keySize + valueSize);
    ok, after := UpdateLoop(keys, keySize, values, valueSize, count, op, s, reaches, forall i: nat :: reaches(i));
  }

  method UpdateLoop<S(!new)>(keys: seq<Byte>, keySize: nat, values: seq<Byte>, valueSize: nat, count: nat,
                             op: (S, seq<Byte>) -> Option<S>, s: S, reaches: nat -> bool, ghost allReach: bool)
    returns (ok: bool, after: S)
    requires keySize > 0 && valueSize > 0 && |keys| == count * keySize && |values| == count * valueSize
    requires PerBatch(UPDATE_DATA_OFFSET, keySize + valueSize) > 0 || exists i: nat :: !reaches(i)
    requires allReach ==> forall i: nat :: reaches(i)
    ensures |Cut(keys, keySize)| == |Cut(values, valueSize)| == count
    ensures Refines(op, s, UpdateRecords(keys, keySize, values, valueSize), allReach, ok, after)
    ensures EndsWith(op, UpdateRecords(keys, keySize, values, valueSize), PerBatch(UPDATE_DATA_OFFSET, keySize + valueSize),
                     s, reaches, ok, after)
  {
    hide Refines, PrefixApplied, UpdateRecords, Cut, PerBatch, Applied, Sized, Round, Rounds, Kept, EndsWith;
    UpdateRecordsSized(keys, keySize, values, valueSize, count);
    ghost var records := UpdateRecords(keys, keySize, values, valueSize);
    ghost var max := PerBatch(UPDATE_DATA_OFFSET, keySize + valueSize);
    ghost var last: nat :| max > 0 || !reaches(last);
    LoopStarts(op, s, records, max, allReach, reaches);
    var p, requests := Progress(0, s, false), 0;
    while !p.failed && p.index < count
      invariant p.index <= count && p == Rounds(op, records, max, s, reaches, requests)
      invariant Kept(op, s, records, allReach, p)
      invariant max > 0 || requests <= last || p.failed
      decreases !p.failed, if max > 0 then count - p.index else last - requests
    {
      PassDone(op, s, records, max, allReach, reaches, requests);
      p := UpdateRound(keys, keySize, values, valueSize, count, op, p, reaches(requests));
      requests := requests + 1;
    }
    LoopEnds(op, s, records, max, allReach, reaches, requests);
    return !p.failed, p.state;
  }

  lemma LoopStarts<S(!new)>(op: (S, seq<Byte>) -> Option<S>, s: S, records: seq<seq<Byte>>, perBatch: nat, allReach: bool,
                            reaches: nat -> bool)
    ensures Rounds(op, records, perBatch, s, reaches, 0) == Progress(0, s, false)
    ensures Kept(op, s, records, allReach, Progress(0, s, false))
  {
    NothingApplied(op, s, records);
  }

  lemma PassDone<S(!new)>(op: (S, seq<Byte>) -> Option<S>, s: S, records: seq<seq<Byte>>, perBatch: nat, allReach: bool,
                          reaches: nat -> bool, n: nat)
    requires Kept(op, s, records, allReach, Rounds(op, records, perBatch, s, reaches, n)) && (allReach ==> reaches(n))
    requires !Over(Rounds(op, records, perBatch, s, reaches, n), |records|)
    ensures var p, r := Rounds(op, records, perBatch, s, reaches, n), Rounds(op, records, perBatch, s, reaches, n + 1);
            && r == Round(op, records, perBatch, p, reaches(n)) && Kept(op, s, records, allReach, r)
            && r.index <= |records| && (!r.failed ==> reaches(n) && (perBatch > 0 ==> r.index > p.index))
  {
    hide Round, Refines, PrefixApplied;
    var p := Rounds(op, records, perBatch, s, reaches, n);
    RoundKeeps(op, s, records, perBatch, allReach, p, reaches(n));
    RoundProgress(op, records, perBatch, p, reaches(n));
  }

  lemma LoopEnds<S(!new)>(op: (S, seq<Byte>) -> Option<S>, s: S, records: seq<seq<Byte>>, perBatch: nat, allReach: bool,
                          reaches: nat -> bool, n: nat)
    requires var p := Rounds(op, records, perBatch, s, reaches, n);
             Kept(op, s, records, allReach, p) && Over(p, |records|)
    ensures var p := Rounds(op, records, perBatch, s, reaches, n);
            && Refines(op, s, records, allReach, !p.failed, p.state)
            && EndsWith(op, records, perBatch, s, reaches, !p.failed, p.state)
  {
    hide Refines, PrefixApplied, Rounds;
    var p := Rounds(op, records, perBatch, s, reaches, n);
    if !p.failed {
      Completed(op, s, records, allReach, p.state);
    }
  }

  /** A pass ends the loop or moves the index by at least one, when a request holds at least one record; a pass that
      does not end the loop reaches the kernel. */
  lemma RoundProgress<S>(op: (S, seq<Byte>) -> Option<S>, records: seq<seq<Byte>>, perBatch: nat, p: Progress<S>,
                         reaches: bool)
    requires !Over(p, |records|)
    ensures var r := Round(op, records, perBatch, p, reaches);
            !r.failed ==> reaches && r.index <= |records| && (perBatch > 0 ==> r.index > p.index)
  {
    hide Applied;
  }

  lemma NothingApplied<S(!new)>(op: (S, seq<Byte>) -> Option<S>, s: S, records: seq<seq<Byte>>)
    ensures PrefixApplied(op, s, records, 0, s)
  {
  }

  /** It is the largest number of records that fits. */
  lemma LargestBatch(offset: nat, size: nat, n: nat)
    requires size > 0 && offset <= UINT16_MAX
    ensures offset + n * size <= UINT16_MAX <==> n <= PerBatch(offset, size)
  {
    var q := PerBatch(offset, size);
    assert UINT16_MAX - offset == q * size + (UINT16_MAX - offset) % size;
    if n > q {
      AtMost(q, n, size);
    } else if n < q {
      AtMost(n, q, size);
    }
  }

  lemma OneFits(offset: nat, size: nat)
    requires size > 0 && offset <= UINT16_MAX
    ensures PerBatch(offset, size) > 0 <==> offset + size <= UINT16_MAX
  {
  }

  // ---- batch delete ----

  lemma CutBound(data: seq<Byte>, size: nat, i: nat)
    requires size > 0 && i <= |Cut(data, size)|
    ensures i * size <= |data|
  {
    if i > 0 {
      CutAt(data, size, i - 1);
      NextMultiple(i - 1, size);
    }
  }

  lemma SliceMore(data: seq<Byte>, from: nat, middle: nat, to: nat)
    requires from <= middle <= to <= |data|
    ensures data[from..middle] + data[middle..to] == data[from..to]
  {
  }

  lemma {:induction false} CutSlice(data: seq<Byte>, size: nat, from: nat, n: nat)
    requires size > 0 && from + n <= |Cut(data, size)|
    ensures from * size <= (from + n) * size <= |data|
    ensures Concat(Cut(data, size)[from..from + n]) == data[from * size..(from + n) * size]
  {
    CutBound(data, size, from);
    if n == 0 {
      assert Cut(data, size)[from..from] == [];
    } else {
      CutSlice(data, size, from, n - 1);
      hide Cut, Concat;
      var i := from + n - 1;
      CutAt(data, size, i);
      ConcatMore(Cut(data, size), from, i);
      NextMultiple(i, size);
      SliceMore(data, from * size, i * size, i * size + size);
    }
  }

  /** Batch delete: an oversized key is refused. */
  method DeleteBatch<S(!new)>(keys: seq<Byte>, keySize: nat, valueSize: nat, count: nat, flags: nat,
                              op: (S, seq<Byte>) -> Option<S>, s: S, reaches: nat -> bool)
    returns (ok: bool, after: S)
    requires |keys| == count * keySize
    ensures flags != 0 || keySize == 0 || valueSize == 0 || count == 0 || DELETE_KEYS_OFFSET + keySize > UINT16_MAX ==>
      !ok && after == s
    ensures flags == 0 && keySize > 0 && valueSize > 0 && count > 0 && DELETE_KEYS_OFFSET + keySize <= UINT16_MAX ==>
      |Cut(keys, keySize)| == count && Refines(op, s, Cut(keys, keySize), forall i: nat :: reaches(i), ok, after)
  {
    after := s;
    if flags != 0 || keySize == 0 || valueSize == 0 || count == 0 {
      return false, s;
    }
    hide Refines, PrefixApplied, Cut, Concat, PerBatch, Applied, Sized;
    OneFits(DELETE_KEYS_OFFSET, keySize);
    var max := PerBatch(DELETE_KEYS_OFFSET, keySize);
    if max == 0 {
      return false, s;
    }
    CutCount(keys, keySize, count);
    CutSized(keys, keySize);
    ghost var records := Cut(keys, keySize);
    NothingApplied(op, s, records);
    var index, requests := 0, 0;
    while index < count
      invariant index <= count && PrefixApplied(op, s, records, index, after)
    {
      var n := if count - index < max then count - index else max;
      CutSlice(keys, keySize, index, n);
      SliceSized(records, keySize, index, index + n);
      ghost var at := after;
      ok, after := Send(keys[index * keySize..(index + n) * keySize], n, DELETE_KEYS_OFFSET, keySize, op, after,
                        reaches(requests), records[index..index + n]);
      if !ok {
        Stopped(op, s, records, index, n, at, reaches(requests), forall i: nat :: reaches(i), after);
        return;
      }
      NextRequest(op, s, records, index, n, at);
      index, requests := index + n, requests + 1;
    }
    Completed(op, s, records, forall i: nat :: reaches(i), after);
    return true, after;
  }

  lemma {:induction false} CutSized(data: seq<Byte>, size: nat)
    requires size > 0
    ensures Sized(Cut(data, size), size)
    decreases |data|
  {
    if |data| >= size {
      CutSized(data[size..], size);
    }
  }

  // ---- entries that do not fit ----

  /** A pass with no room for a record succeeds, and leaves the state and the index as they are. */
  lemma EmptyRound<S>(op: (S, seq<Byte>) -> Option<S>, records: seq<seq<Byte>>, p: Progress<S>)
    requires !Over(p, |records|)
    ensures Round(op, records, 0, p, true) == p
  {
    assert records[p.index..p.index + 0] == [];
  }

  lemma {:induction false} NoProgress<S>(op: (S, seq<Byte>) -> Option<S>, records: seq<seq<Byte>>, s: S, reaches: nat -> bool,
                                         requests: nat)
    requires records != [] && forall i: nat :: i < requests ==> reaches(i)
    ensures Rounds(op, records, 0, s, reaches, requests) == Progress(0, s, false)
  {
    if requests > 0 {
      NoProgress(op, records, s, reaches, requests - 1);
      EmptyRound(op, records, Progress(0, s, false));
    }
  }

  /** The first request that does not reach the kernel ends the loop, if nothing has before. */
  lemma EndsAtFailure<S>(op: (S, seq<Byte>) -> Option<S>, records: seq<seq<Byte>>, perBatch: nat, s: S,
                         reaches: nat -> bool, i: nat)
    requires !reaches(i)
    ensures Over(Rounds(op, records, perBatch, s, reaches, i + 1), |records|)
  {
    hide Applied;
  }

  lemma {:induction false} EndsOrMoves<S>(op: (S, seq<Byte>) -> Option<S>, records: seq<seq<Byte>>, perBatch: nat, s: S,
                                          reaches: nat -> bool, requests: nat)
    requires perBatch > 0
    ensures var p := Rounds(op, records, perBatch, s, reaches, requests); Over(p, |records|) || p.index >= requests
  {
    if requests > 0 {
      EndsOrMoves(op, records, perBatch, s, reaches, requests - 1);
      var p := Rounds(op, records, perBatch, s, reaches, requests - 1);
      if !Over(p, |records|) {
        RoundProgress(op, records, perBatch, p, reaches(requests - 1));
      }
    }
  }

  /** The loop comes to an end. */
  ghost predicate Ends<S(!new)>(op: (S, seq<Byte>) -> Option<S>, records: seq<seq<Byte>>, perBatch: nat, s: S,
                                reaches: nat -> bool) {
    exists n: nat :: Over(Rounds(op, records, perBatch, s, reaches, n), |records|)
  }

  /** Batch update does not check the size of an entry. It comes to an end exactly when one entry fits a request, or
      some request does not reach the kernel. */
  lemma UpdateEndsExactly<S(!new)>(op: (S, seq<Byte>) -> Option<S>, records: seq<seq<Byte>>, keySize: nat, valueSize: nat,
                                   s: S, reaches: nat -> bool)
    requires keySize > 0 && valueSize > 0 && records != []
    ensures Ends(op, records, PerBatch(UPDATE_DATA_OFFSET, keySize + valueSize), s, reaches) <==>
            EntryFits(keySize, valueSize) || exists i: nat :: !reaches(i)
  {
    hide Round;
    var per := PerBatch(UPDATE_DATA_OFFSET, keySize + valueSize);
    OneFits(UPDATE_DATA_OFFSET, keySize + valueSize);
    if per > 0 {
      EndsOrMoves(op, records, per, s, reaches, |records|);
    } else if i: nat :| !reaches(i) {
      EndsAtFailure(op, records, per, s, reaches, i);
    } else {
      forall n: nat ensures !Over(Rounds(op, records, per, s, reaches, n), |records|) {
        NoProgress(op, records, s, reaches, n);
      }
    }
  }

  /** A key and a value of 32768 bytes each are accepted sizes of that kind: after any number of requests that reach
      the kernel, nothing is updated and the next request is the first one again. */
  lemma OversizedEntry<S>(op: (S, seq<Byte>) -> Option<S>, records: seq<seq<Byte>>, s: S, requests: nat)
    requires records != []
    ensures Rounds(op, records, PerBatch(UPDATE_DATA_OFFSET, 32768 + 32768), s, (i: nat) => true, requests)
            == Progress(0, s, false)
  {
    NoProgress(op, records, s, (i: nat) => true, requests);
  }
}
