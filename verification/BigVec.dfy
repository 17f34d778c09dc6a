/** A length-prefixed array of packed validator records, edited in place over raw bytes. */
module BigVecs {
  import opened Numbers
  import opened Errors
  import opened Records

  const VEC_SIZE_BYTES: nat := 4

  // ----- What a byte buffer holds -----

  function Offset(i: nat): nat {
    VEC_SIZE_BYTES + RECORD_LEN * i
  }

  function LenOf(b: seq<u8>): u32
    requires |b| >= VEC_SIZE_BYTES
  {
    U32Of(b[..VEC_SIZE_BYTES])
  }

  /** The length prefix stays within the buffer. */
  predicate Fits(b: seq<u8>) {
    |b| >= VEC_SIZE_BYTES && Offset(LenOf(b)) <= |b|
  }

  function Slot(b: seq<u8>, i: nat): (s: seq<u8>)
    requires Offset(i + 1) <= |b|
    ensures |s| == RECORD_LEN
  {
    b[Offset(i)..Offset(i) + RECORD_LEN]
  }

  /** The `RECORD_LEN` bytes from `at` on are those of slot `i`, and of no other. */
  predicate IsView(b: seq<u8>, at: nat, i: nat) {
    Offset(i + 1) <= |b| && SlotAt(at) == i && at + RECORD_LEN <= |b| && b[at..at + RECORD_LEN] == Slot(b, i)
  }

  /** The slot the byte at `at` belongs to. */
  function SlotAt(at: nat): nat {
    if at < VEC_SIZE_BYTES then 0 else (at - VEC_SIZE_BYTES) / RECORD_LEN
  }

  function Slots(b: seq<u8>): (s: seq<seq<u8>>)
    requires Fits(b)
    ensures |s| == LenOf(b)
  {
    seq(LenOf(b), i requires 0 <= i < LenOf(b) => Slot(b, i))
  }

  /** Every slot in use holds a record. */
  predicate HoldsRecords(b: seq<u8>) {
    Fits(b) && forall i :: 0 <= i < LenOf(b) ==> Decode(Slot(b, i)).Some?
  }

  function Items(b: seq<u8>): (s: seq<ValidatorStakeInfo>)
    requires HoldsRecords(b)
    ensures |s| == LenOf(b)
  {
    seq(LenOf(b), i requires 0 <= i < LenOf(b) => Decode(Slot(b, i)).value)
  }

  function Filter<T>(p: T -> bool, s: seq<T>): (r: seq<T>)
    ensures |r| <= |s|
  {
    if |s| == 0 then []
    else
      var rest := Filter(p, s[..|s| - 1]);
      if p(s[|s| - 1]) then rest + [s[|s| - 1]] else rest
  }

  predicate NotRemoved(r: ValidatorStakeInfo) {
    r.status != ReadyForRemoval
  }

  function Flat(s: seq<seq<u8>>): seq<u8> {
    if |s| == 0 then [] else Flat(s[..|s| - 1]) + s[|s| - 1]
  }

  function Moved(b: seq<u8>, dst: nat, src: nat, count: nat): (r: seq<u8>)
    requires dst + count <= |b| && src + count <= |b|
    ensures |r| == |b|
  {
    b[..dst] + b[src..src + count] + b[dst + count..]
  }

  function Written(b: seq<u8>, at: nat, bytes: seq<u8>): (r: seq<u8>)
    requires at + |bytes| <= |b|
    ensures |r| == |b|
  {
    b[..at] + bytes + b[at + |bytes|..]
  }

  // ----- Lemmas about slots -----

  lemma {:induction false} FlatAppend(a: seq<seq<u8>>, b: seq<seq<u8>>)
    ensures Flat(a + b) == Flat(a) + Flat(b)
  {
    if |b| == 0 {
      assert a + b == a;
    } else {
      var c := a + b;
      assert c[..|c| - 1] == a + b[..|b| - 1];
      FlatAppend(a, b[..|b| - 1]);
    }
  }

  lemma {:induction false} FlatLength(s: seq<seq<u8>>)
    requires forall i :: 0 <= i < |s| ==> |s[i]| == RECORD_LEN
    ensures |Flat(s)| == RECORD_LEN * |s|
  {
    if |s| > 0 {
      FlatLength(s[..|s| - 1]);
    }
  }

  lemma JoinSlices(b: seq<u8>, lo: nat, mid: nat, hi: nat)
    requires lo <= mid <= hi <= |b|
    ensures b[lo..hi] == b[lo..mid] + b[mid..hi]
  {
  }

  lemma FlatLast(s: seq<seq<u8>>, lo: nat, hi: nat)
    requires lo < hi <= |s|
    ensures Flat(s[lo..hi]) == Flat(s[lo..hi - 1]) + s[hi - 1]
  {
    assert s[lo..hi][..hi - lo - 1] == s[lo..hi - 1];
  }

  lemma {:induction false} FlatSlots(b: seq<u8>, lo: nat, hi: nat)
    requires Fits(b) && lo <= hi <= LenOf(b)
    ensures Flat(Slots(b)[lo..hi]) == b[Offset(lo)..Offset(hi)]
  {
    if lo < hi {
      FlatSlots(b, lo, hi - 1);
      FlatLast(Slots(b), lo, hi);
      JoinSlices(b, Offset(lo), Offset(hi - 1), Offset(hi));
      assert Slots(b)[hi - 1] == b[Offset(hi - 1)..Offset(hi)];
    }
  }

  lemma {:induction false} SlotOfFlat(prefix: seq<u8>, s: seq<seq<u8>>, rest: seq<u8>, i: nat)
    requires |prefix| == VEC_SIZE_BYTES && i < |s|
    requires forall q :: 0 <= q < |s| ==> |s[q]| == RECORD_LEN
    ensures |prefix + Flat(s) + rest| >= Offset(|s|)
    ensures Slot(prefix + Flat(s) + rest, i) == s[i]
  {
    FlatLength(s);
    var front := s[..|s| - 1];
    FlatLength(front);
    var b := prefix + Flat(s) + rest;
    if i == |s| - 1 {
      assert b == (prefix + Flat(front)) + s[i] + rest;
      assert |prefix + Flat(front)| == Offset(i);
    } else {
      SlotOfFlat(prefix, front, s[|s| - 1] + rest, i);
      assert b == prefix + Flat(front) + (s[|s| - 1] + rest);
    }
  }

  /** A buffer laid out as prefix, slots and rest holds exactly those slots. */
  lemma SlotsOfLayout(s: seq<seq<u8>>, rest: seq<u8>)
    requires |s| <= U32_MAX
    requires forall q :: 0 <= q < |s| ==> |s[q]| == RECORD_LEN
    ensures
      var b := U32Bytes(|s|) + Flat(s) + rest;
      Fits(b) && Slots(b) == s
  {
    var b := U32Bytes(|s|) + Flat(s) + rest;
    FlatLength(s);
    assert b[..VEC_SIZE_BYTES] == U32Bytes(|s|);
    U32RoundTrip(|s|);
    forall i | 0 <= i < |s|
      ensures Slot(b, i) == s[i]
    {
      SlotOfFlat(U32Bytes(|s|), s, rest, i);
    }
  }

  lemma {:induction false} FilterSubset<T>(p: T -> bool, s: seq<T>)
    ensures forall i :: 0 <= i < |Filter(p, s)| ==> Filter(p, s)[i] in s
  {
    if |s| > 0 {
      FilterSubset(p, s[..|s| - 1]);
      assert forall x :: x in s[..|s| - 1] ==> x in s;
    }
  }

  lemma {:induction false} FilterDecoded(s: seq<seq<u8>>, items: seq<ValidatorStakeInfo>)
    requires |s| == |items|
    requires forall i :: 0 <= i < |s| ==> |s[i]| == RECORD_LEN && Decode(s[i]) == Some(items[i])
    ensures
      var kept := Filter(IsNotRemoved, s);
      var left := Filter(NotRemoved, items);
      && |kept| == |left|
      && forall i :: 0 <= i < |kept| ==> |kept[i]| == RECORD_LEN && Decode(kept[i]) == Some(left[i])
  {
    if |s| > 0 {
      FilterDecoded(s[..|s| - 1], items[..|s| - 1]);
      RawComparisonsAgree(s[|s| - 1], items[|s| - 1].voteAccountAddress, 0);
    }
  }

  // ----- How far `retain` has come -----

  ghost predicate AllSlots(s: seq<seq<u8>>) {
    forall q :: 0 <= q < |s| ==> |s[q]| == RECORD_LEN
  }

  /** The buffer with `kept` compacted to the front and everything behind it unmoved. */
  ghost predicate Layout(original: seq<u8>, current: seq<u8>, kept: seq<seq<u8>>) {
    && Fits(original) && AllSlots(kept) && |kept| <= LenOf(original)
    && current == original[..VEC_SIZE_BYTES] + Flat(kept) + original[Offset(|kept|)..]
  }

  /** After `i` slots and `removed` removals, `kept` is in place and the survivors found since the
      last removal still lie `removed` slots further back. */
  ghost predicate Progress(p: seq<u8> -> bool, original: seq<u8>, current: seq<u8>,
                           kept: seq<seq<u8>>, removed: nat, i: nat) {
    && Layout(original, current, kept)
    && |kept| + removed <= i <= LenOf(original)
    && (removed == 0 ==> kept == [])
    && Filter(p, Slots(original)[..i]) == kept + Slots(original)[|kept| + removed..i]
  }

  lemma MoveBytes(original: seq<u8>, done: seq<u8>, at: nat, src: nat, count: nat)
    requires |done| == at <= src && src + count <= |original|
    ensures Moved(done + original[at..], at, src, count)
         == done + original[src..src + count] + original[at + count..]
  {
    var current := done + original[at..];
    assert current[..at] == done;
    assert current[src..src + count] == original[src..src + count];
    assert current[at + count..] == original[at + count..];
  }

  /** One memmove: the survivors since the last removal join those already in place. */
  lemma MoveExtends(original: seq<u8>, current: seq<u8>, kept: seq<seq<u8>>, next: nat, i: nat)
    requires Layout(original, current, kept) && |kept| <= next <= i <= LenOf(original)
    ensures |current| == |original| && Offset(i) <= |original|
    ensures Layout(original, Moved(current, Offset(|kept|), Offset(next), RECORD_LEN * (i - next)),
                   kept + Slots(original)[next..i])
  {
    FlatLength(kept);
    FlatSlots(original, next, i);
    FlatAppend(kept, Slots(original)[next..i]);
    var done := original[..VEC_SIZE_BYTES] + Flat(kept);
    MoveBytes(original, done, Offset(|kept|), Offset(next), RECORD_LEN * (i - next));
    assert done + original[Offset(next)..Offset(i)]
        == original[..VEC_SIZE_BYTES] + (Flat(kept) + original[Offset(next)..Offset(i)]);
  }

  /** The predicate always sees the bytes of the original slot. */
  lemma SlotUnmoved(p: seq<u8> -> bool, original: seq<u8>, current: seq<u8>,
                    kept: seq<seq<u8>>, removed: nat, i: nat)
    requires Progress(p, original, current, kept, removed, i) && i < LenOf(original)
    ensures Offset(i + 1) <= |current| && current[Offset(i)..Offset(i + 1)] == Slots(original)[i]
  {
    FlatLength(kept);
  }

  lemma StartRetain(p: seq<u8> -> bool, original: seq<u8>)
    requires Fits(original)
    ensures Progress(p, original, original, [], 0, 0)
  {
    assert original == original[..VEC_SIZE_BYTES] + Flat([]) + original[Offset(0)..];
  }

  lemma KeepSlot(p: seq<u8> -> bool, original: seq<u8>, current: seq<u8>,
                 kept: seq<seq<u8>>, removed: nat, i: nat)
    requires Progress(p, original, current, kept, removed, i) && i < LenOf(original)
    requires p(Slots(original)[i])
    ensures Progress(p, original, current, kept, removed, i + 1)
  {
    var slots := Slots(original);
    assert slots[..i + 1][..i] == slots[..i];
    assert slots[|kept| + removed..i] + [slots[i]] == slots[|kept| + removed..i + 1];
  }

  /** The memmove before slot `i` with `kept` slots in place and `removed` removals behind them. */
  function Compacted(b: seq<u8>, kept: nat, removed: nat, i: nat): (r: seq<u8>)
    requires kept + removed <= i && Offset(i) <= |b|
    ensures |r| == |b| && (removed == 0 ==> r == b)
  {
    Moved(b, Offset(kept), Offset(kept + removed), RECORD_LEN * (i - kept - removed))
  }

  lemma FilterDrops<T>(p: T -> bool, s: seq<T>, i: nat)
    requires i < |s| && !p(s[i])
    ensures Filter(p, s[..i + 1]) == Filter(p, s[..i])
  {
    assert s[..i + 1][..i] == s[..i];
  }

  lemma DropSlot(p: seq<u8> -> bool, original: seq<u8>, current: seq<u8>,
                 kept: seq<seq<u8>>, removed: nat, i: nat)
    requires Progress(p, original, current, kept, removed, i) && i < LenOf(original)
    requires !p(Slots(original)[i])
    ensures |current| == |original| && Offset(i) <= |original|
    ensures Progress(p, original, Compacted(current, |kept|, removed, i),
                     kept + Slots(original)[|kept| + removed..i], removed + 1, i + 1)
  {
    var slots := Slots(original);
    var kept' := kept + slots[|kept| + removed..i];
    assert Filter(p, slots[..i + 1]) == kept' + slots[|kept'| + removed + 1..i + 1] by {
      FilterDrops(p, slots, i);
      assert slots[i + 1..i + 1] == [];
    }
    MoveExtends(original, current, kept, |kept| + removed, i);
  }

  /** After the last move only the length prefix is left to write. */
  lemma FinishLayout(original: seq<u8>, moved: seq<u8>, kept: seq<seq<u8>>)
    requires Layout(original, moved, kept)
    ensures |moved| == |original|
    ensures
      var final := Written(moved, 0, U32Bytes(|kept|));
      && Fits(final) && Slots(final) == kept
      && final[Offset(LenOf(original))..] == original[Offset(LenOf(original))..]
  {
    FlatLength(kept);
    var rest := original[Offset(|kept|)..];
    assert moved[VEC_SIZE_BYTES..] == Flat(kept) + rest;
    assert Written(moved, 0, U32Bytes(|kept|)) == U32Bytes(|kept|) + Flat(kept) + rest;
    SlotsOfLayout(kept, rest);
  }

  lemma FinishRetain(p: seq<u8> -> bool, original: seq<u8>, current: seq<u8>,
                     kept: seq<seq<u8>>, removed: nat, n: nat, left: u32)
    requires Progress(p, original, current, kept, removed, n) && n == LenOf(original)
    requires left == n - removed
    ensures |current| == |original| && Offset(n) <= |original|
    ensures
      var final := Written(Compacted(current, |kept|, removed, n), 0, U32Bytes(left));
      && Fits(final) && Slots(final) == Filter(p, Slots(original))
      && final[Offset(n)..] == original[Offset(n)..]
  {
    FlatLength(kept);
    var moved, all := Compacted(current, |kept|, removed, n), kept + Slots(original)[|kept| + removed..n];
    assert Layout(original, moved, all) by {
      MoveExtends(original, current, kept, |kept| + removed, n);
    }
    assert all == Filter(p, Slots(original)) by {
      assert Slots(original)[..n] == Slots(original);
    }
    FinishLayout(original, moved, all);
  }

  /** The buffer part-way through `retain`. */
  datatype Stage = Stage(bytes: seq<u8>, kept: nat, removed: nat)

  /** The buffer after the loop of `retain` has visited the first `i` slots. */
  function Sweep(p: seq<u8> -> bool, original: seq<u8>, i: nat): (st: Stage)
    requires Offset(i) <= |original|
    ensures |st.bytes| == |original| && st.kept + st.removed <= i
  {
    if i == 0 then Stage(original, 0, 0)
    else Visit(p, Sweep(p, original, i - 1), i - 1)
  }

  /** One turn of the loop, at slot `i`. */
  function Visit(p: seq<u8> -> bool, st: Stage, i: nat): (r: Stage)
    requires Offset(i + 1) <= |st.bytes| && st.kept + st.removed <= i
    ensures |r.bytes| == |st.bytes| && r.kept + r.removed <= i + 1
  {
    if p(st.bytes[Offset(i)..Offset(i + 1)]) then st
    else Stage(Compacted(st.bytes, st.kept, st.removed, i), i - st.removed, st.removed + 1)
  }

  /** The program's variables agree with the stage it has reached. */
  ghost predicate SweptTo(p: seq<u8> -> bool, original: seq<u8>, i: nat, bytes: seq<u8>, removals: nat, dst: nat)
    requires Offset(i) <= |original|
  {
    var st := Sweep(p, original, i);
    bytes == st.bytes && removals == st.removed && (removals > 0 ==> dst == Offset(st.kept))
  }

  function Retained(p: seq<u8> -> bool, original: seq<u8>): seq<u8>
    requires Fits(original)
  {
    Finished(Sweep(p, original, LenOf(original)), LenOf(original))
  }

  /** The last memmove and the new length prefix. */
  function Finished(st: Stage, n: u32): seq<u8>
    requires Offset(n) <= |st.bytes| && st.kept + st.removed <= n
  {
    Written(Compacted(st.bytes, st.kept, st.removed, n), 0, U32Bytes(n - st.removed))
  }

  /** After `i` slots the bytes are where some sequence of survivors says they are. */
  ghost predicate Reached(p: seq<u8> -> bool, original: seq<u8>, i: nat)
    requires Offset(i) <= |original|
  {
    exists kept :: InPlace(p, original, Sweep(p, original, i), kept, i)
  }

  lemma NextReached(p: seq<u8> -> bool, original: seq<u8>, i: nat)
    requires Fits(original) && i < LenOf(original) && Reached(p, original, i)
    ensures Reached(p, original, i + 1)
  {
    var kept :| InPlace(p, original, Sweep(p, original, i), kept, i);
    var kept' := VisitProgress(p, original, Sweep(p, original, i), Sweep(p, original, i + 1), kept, i);
  }

  lemma StartReached(p: seq<u8> -> bool, original: seq<u8>)
    requires Fits(original)
    ensures Reached(p, original, 0)
  {
    StartRetain(p, original);
    assert InPlace(p, original, Sweep(p, original, 0), [], 0);
  }

  lemma {:induction false} SweepReaches(p: seq<u8> -> bool, original: seq<u8>, i: nat)
    requires Fits(original) && i <= LenOf(original)
    ensures Reached(p, original, i)
  {
    if i == 0 {
      StartReached(p, original);
    } else {
      SweepReaches(p, original, i - 1);
      NextReached(p, original, i - 1);
    }
  }

  ghost predicate InPlace(p: seq<u8> -> bool, original: seq<u8>, st: Stage, kept: seq<seq<u8>>, i: nat) {
    |kept| == st.kept && Progress(p, original, st.bytes, kept, st.removed, i)
  }

  lemma VisitProgress(p: seq<u8> -> bool, original: seq<u8>, st: Stage, st': Stage, kept: seq<seq<u8>>, i: nat)
    returns (kept': seq<seq<u8>>)
    requires Fits(original) && i < LenOf(original) && |st.bytes| == |original|
    requires InPlace(p, original, st, kept, i) && st' == Visit(p, st, i)
    ensures InPlace(p, original, st', kept', i + 1)
  {
    SlotUnmoved(p, original, st.bytes, kept, st.removed, i);
    if p(Slots(original)[i]) {
      KeepSlot(p, original, st.bytes, kept, st.removed, i);
      kept' := kept;
    } else {
      kept' := VisitDrops(p, original, st, kept, i);
    }
  }

  lemma VisitDrops(p: seq<u8> -> bool, original: seq<u8>, st: Stage, kept: seq<seq<u8>>, i: nat)
    returns (kept': seq<seq<u8>>)
    requires Fits(original) && i < LenOf(original) && |st.bytes| == |original|
    requires |kept| == st.kept && Progress(p, original, st.bytes, kept, st.removed, i)
    requires !p(Slots(original)[i])
    ensures |kept'| == i - st.removed
    ensures Progress(p, original, Compacted(st.bytes, st.kept, st.removed, i), kept', st.removed + 1, i + 1)
  {
    DropSlot(p, original, st.bytes, kept, st.removed, i);
    kept' := kept + Slots(original)[|kept| + st.removed..i];
  }

  /** The in-place sweep leaves exactly the slots that satisfy the predicate, in order, and no
      byte behind the slots that were in use is touched. */
  lemma RetainedIsFilter(p: seq<u8> -> bool, original: seq<u8>)
    requires Fits(original)
    ensures
      var b := Retained(p, original);
      && Fits(b) && |b| == |original|
      && Slots(b) == Filter(p, Slots(original))
      && b[Offset(LenOf(original))..] == original[Offset(LenOf(original))..]
  {
    var n: nat := LenOf(original);
    SweepReaches(p, original, n);
    var st := Sweep(p, original, n);
    var kept :| InPlace(p, original, st, kept, n);
    FinishRetain(p, original, st.bytes, kept, st.removed, n, n - st.removed);
  }

  /** On records, `retain(is_not_removed)` drops exactly the records ready for removal. */
  lemma RetainedItems(b: seq<u8>)
    requires HoldsRecords(b)
    ensures HoldsRecords(Retained(IsNotRemoved, b))
    ensures Items(Retained(IsNotRemoved, b)) == Filter(NotRemoved, Items(b))
  {
    var b' := Retained(IsNotRemoved, b);
    RetainedIsFilter(IsNotRemoved, b);
    FilterDecoded(Slots(b), Items(b));
    assert forall i :: 0 <= i < LenOf(b') ==> Slots(b')[i] == Slot(b', i);
  }

  // ----- Appending and overwriting -----

  /** Appending a packed record to a buffer with room appends the record. */
  lemma AppendItem(b: seq<u8>, r: ValidatorStakeInfo)
    requires HoldsRecords(b) && LenOf(b) < U32_MAX && Offset(LenOf(b) + 1) <= |b|
    ensures
      var b' := Written(Written(b, 0, U32Bytes(LenOf(b) + 1)), Offset(LenOf(b)), Encode(r));
      HoldsRecords(b') && Items(b') == Items(b) + [r]
  {
    var n: nat := LenOf(b);
    var b' := Written(Written(b, 0, U32Bytes(n + 1)), Offset(n), Encode(r));
    assert b'[..VEC_SIZE_BYTES] == U32Bytes(n + 1);
    U32RoundTrip(n + 1);
    assert Slot(b', n) == Encode(r);
    DecodeEncode(r);
    forall q | 0 <= q < n
      ensures Slot(b', q) == Slot(b, q)
    {
    }
  }

  lemma SliceAround(b: seq<u8>, at: nat, bytes: seq<u8>, lo: nat, hi: nat)
    requires lo <= at && at + |bytes| <= hi <= |b|
    ensures Written(b, at, bytes)[lo..hi] == Written(b[lo..hi], at - lo, bytes)
  {
    var end := at + |bytes|;
    assert b[lo..hi][..at - lo] == b[lo..at];
    assert b[lo..hi][end - lo..] == b[end..hi];
    assert Written(b, at, bytes)[lo..hi] == b[lo..at] + bytes + b[end..hi];
  }

  lemma SliceBeside(b: seq<u8>, at: nat, bytes: seq<u8>, lo: nat, hi: nat)
    requires lo <= hi <= |b| && at + |bytes| <= |b| && (hi <= at || at + |bytes| <= lo)
    ensures Written(b, at, bytes)[lo..hi] == b[lo..hi]
  {
  }

  lemma WriteInSlot(b: seq<u8>, i: nat, at: nat, bytes: seq<u8>)
    requires HoldsRecords(b) && i < LenOf(b)
    requires Offset(i) <= at && at + |bytes| <= Offset(i + 1)
    requires Decode(Written(Slot(b, i), at - Offset(i), bytes)).Some?
    ensures
      var b' := Written(b, at, bytes);
      && HoldsRecords(b')
      && Items(b') == Items(b)[i := Decode(Written(Slot(b, i), at - Offset(i), bytes)).value]
  {
    var b' := Written(b, at, bytes);
    assert b'[..VEC_SIZE_BYTES] == b[..VEC_SIZE_BYTES];
    SliceAround(b, at, bytes, Offset(i), Offset(i + 1));
    assert Slot(b', i) == Written(Slot(b, i), at - Offset(i), bytes);
    forall q | 0 <= q < LenOf(b) && q != i
      ensures Slot(b', q) == Slot(b, q)
    {
      assert Offset(q + 1) <= Offset(i) || Offset(i + 1) <= Offset(q);
      SliceBeside(b, at, bytes, Offset(q), Offset(q + 1));
    }
  }

  /** Overwriting eight bytes of a packed record changes that one field. */
  lemma WriteU64Field(b: seq<u8>, x: u64)
    requires |b| == RECORD_LEN && Decode(b).Some?
    ensures
      var r := Decode(b).value;
      && Decode(Written(b, 0, U64Bytes(x))) == Some(r.(activeStakeLamports := x))
      && Decode(Written(b, 8, U64Bytes(x))) == Some(r.(transientStakeLamports := x))
      && Decode(Written(b, 16, U64Bytes(x))) == Some(r.(lastUpdateEpoch := x))
      && Decode(Written(b, 24, U64Bytes(x))) == Some(r.(transientSeedSuffixStart := x))
  {
    U64RoundTrip(x);
    WrittenFields(b, 0, U64Bytes(x));
    WrittenFields(b, 8, U64Bytes(x));
    WrittenFields(b, 16, U64Bytes(x));
    WrittenFields(b, 24, U64Bytes(x));
  }

  lemma WrittenFields(b: seq<u8>, at: nat, bytes: seq<u8>)
    requires |b| == RECORD_LEN && |bytes| == 8 && (at == 0 || at == 8 || at == 16 || at == 24)
    ensures
      var b' := Written(b, at, bytes);
      && b'[at..at + 8] == bytes
      && (at != 0 ==> b'[0..8] == b[0..8]) && (at != 8 ==> b'[8..16] == b[8..16])
      && (at != 16 ==> b'[16..24] == b[16..24]) && (at != 24 ==> b'[24..32] == b[24..32])
      && b'[32..40] == b[32..40] && b'[40] == b[40] && b'[41..73] == b[41..73]
  {
  }

  lemma WriteStatusField(b: seq<u8>, status: StakeStatus)
    requires |b| == RECORD_LEN && Decode(b).Some?
    ensures Decode(Written(b, 40, [StatusByte(status)])) == Some(Decode(b).value.(status := status))
  {
    var b' := Written(b, 40, [StatusByte(status)]);
    assert b'[0..8] == b[0..8] && b'[8..16] == b[8..16] && b'[16..24] == b[16..24];
    assert b'[24..32] == b[24..32] && b'[32..40] == b[32..40] && b'[41..73] == b[41..73];
  }

  /** The buffer holds exactly these records, packed. */
  ghost predicate Represents(b: seq<u8>, items: seq<ValidatorStakeInfo>) {
    && Fits(b) && LenOf(b) == |items|
    && forall i {:trigger Slot(b, i)} :: 0 <= i < |items| ==> Slot(b, i) == Encode(items[i])
  }

  /** The packed form and the decoded form determine each other. */
  lemma RepresentsItems(b: seq<u8>, items: seq<ValidatorStakeInfo>)
    ensures Represents(b, items) <==> HoldsRecords(b) && Items(b) == items
  {
    if Represents(b, items) {
      forall i | 0 <= i < |items|
        ensures Decode(Slot(b, i)) == Some(items[i])
      {
        DecodeEncode(items[i]);
      }
    } else if HoldsRecords(b) && Items(b) == items {
      forall i | 0 <= i < |items|
        ensures Slot(b, i) == Encode(items[i])
      {
        EncodeDecode(Slot(b, i));
      }
    }
  }

  lemma PrefixWritten(b: seq<u8>, n: u32)
    requires |b| >= VEC_SIZE_BYTES
    ensures LenOf(Written(b, 0, U32Bytes(n))) == n
  {
    assert Written(b, 0, U32Bytes(n))[..VEC_SIZE_BYTES] == U32Bytes(n);
    U32RoundTrip(n);
  }

  lemma AppendRepresented(b: seq<u8>, items: seq<ValidatorStakeInfo>, r: ValidatorStakeInfo)
    requires Represents(b, items) && |items| < U32_MAX && Offset(|items| + 1) <= |b|
    ensures Represents(Written(Written(b, 0, U32Bytes(|items| + 1)), Offset(|items|), Encode(r)), items + [r])
  {
    RepresentsItems(b, items);
    AppendItem(b, r);
    RepresentsItems(Written(Written(b, 0, U32Bytes(|items| + 1)), Offset(|items|), Encode(r)), items + [r]);
  }

  // ----- The vector -----

  class BigVec {
    const data: array<u8>

    /** The records the bytes stand for. */
    ghost var items: seq<ValidatorStakeInfo>

    constructor (data: array<u8>, ghost items: seq<ValidatorStakeInfo>)
      requires Represents(data[..], items)
      ensures this.data == data && this.items == items && Valid()
    {
      this.data, this.items := data, items;
    }

    ghost predicate Valid()
      reads this, data
    {
      Represents(data[..], items)
    }

    method Len() returns (n: u32)
      requires data.Length >= VEC_SIZE_BYTES
      ensures n == LenOf(data[..])
    {
      n := U32Of(data[..VEC_SIZE_BYTES]);
    }

    /** An overlapping copy: every byte is read before any is written. */
    method Memmove(dst: nat, src: nat, count: nat)
      requires dst + count <= data.Length && src + count <= data.Length
      modifies data
      ensures data[..] == Moved(old(data[..]), dst, src, count)
    {
      forall i | 0 <= i < count {
        data[dst + i] := data[src + i];
      }
    }

    method WriteBytes(at: nat, bytes: seq<u8>)
      requires at + |bytes| <= data.Length
      modifies data
      ensures data[..] == Written(old(data[..]), at, bytes)
    {
      forall i | 0 <= i < |bytes| {
        data[at + i] := bytes[i];
      }
    }

    /** Moves the bytes between the gap of `removals` slots and `end` down over that gap. */
    method CloseGap(removals: nat, dst: nat, end: nat, ghost kept: nat, ghost i: nat)
      requires kept + removals <= i && Offset(i) <= data.Length
      requires end == Offset(i) && (removals > 0 ==> dst == Offset(kept))
      modifies data
      ensures data[..] == Compacted(old(data[..]), kept, removals, i)
    {
      if removals > 0 {
        var gap := removals * RECORD_LEN;
        assert dst + gap == Offset(kept + removals);
        assert end - gap - dst == RECORD_LEN * (i - kept - removals);
        Memmove(dst, dst + gap, end - gap - dst);
      }
    }

    /** One turn of the loop of `retain`: tests a slot and, if it is dropped, closes the gap before it. */
    method VisitSlot(predicate_: seq<u8> -> bool, start: nat, removals: nat, dst: nat,
                     ghost original: seq<u8>, ghost i: nat) returns (removals': nat, dst': nat)
      requires Offset(i + 1) <= |original| && start == Offset(i)
      requires SweptTo(predicate_, original, i, data[..], removals, dst)
      modifies data
      ensures SweptTo(predicate_, original, i + 1, data[..], removals', dst')
    {
      ghost var st := Sweep(predicate_, original, i);
      var slice := data[start..start + RECORD_LEN];
      assert slice == st.bytes[Offset(i)..Offset(i + 1)];
      if predicate_(slice) {
        assert Sweep(predicate_, original, i + 1) == st;
        return removals, dst;
      }
      assert Sweep(predicate_, original, i + 1)
          == Stage(Compacted(st.bytes, st.kept, st.removed, i), i - st.removed, st.removed + 1);
      CloseGap(removals, dst, start, st.kept, i);
      return removals + 1, start - removals * RECORD_LEN;
    }

    /** The end of `retain`: the final memmove and the length prefix. */
    method Finish(removals: nat, dst: nat, end: nat, vecLen: u32, ghost st: Stage, ghost n: u32)
      requires data[..] == st.bytes && Offset(n) <= data.Length && st.kept + st.removed <= n
      requires removals == st.removed && vecLen == n - removals
      requires end == Offset(n) && (removals > 0 ==> dst == Offset(st.kept))
      modifies data
      ensures data[..] == Finished(st, n)
    {
      CloseGap(removals, dst, end, st.kept, n);
      WriteBytes(0, U32Bytes(vecLen));
    }

    /** The loop of `retain`. */
    method SweepSlots(predicate_: seq<u8> -> bool, n: nat, ghost original: seq<u8>)
      returns (removalsFound: nat, dstStartIndex: nat)
      requires data[..] == original && Offset(n) <= |original|
      modifies data
      ensures SweptTo(predicate_, original, n, data[..], removalsFound, dstStartIndex)
    {
      removalsFound, dstStartIndex := 0, 0;
      var startIndex, dataEndIndex := VEC_SIZE_BYTES, VEC_SIZE_BYTES + RECORD_LEN * n;
      ghost var i: nat := 0;
      while startIndex < dataEndIndex
        invariant i <= n && startIndex == Offset(i)
        invariant SweptTo(predicate_, original, i, data[..], removalsFound, dstStartIndex)
        decreases n - i
      {
        assert i < n;
        removalsFound, dstStartIndex :=
          VisitSlot(predicate_, startIndex, removalsFound, dstStartIndex, original, i);
        startIndex := startIndex + RECORD_LEN;
        i := i + 1;
      }
      assert i == n;
    }

    /** Keeps exactly the slots that satisfy the predicate, in order. */
    method Retain(predicate_: seq<u8> -> bool)
      requires Fits(data[..])
      modifies data
      ensures data[..] == Retained(predicate_, old(data[..]))
      ensures Fits(data[..]) && Slots(data[..]) == Filter(predicate_, old(Slots(data[..])))
    {
      ghost var original := data[..];
      RetainedIsFilter(predicate_, original);
      var vecLen := Len();
      var dataEndIndex := VEC_SIZE_BYTES + RECORD_LEN * vecLen;
      var removalsFound, dstStartIndex := SweepSlots(predicate_, vecLen, original);
      Finish(removalsFound, dstStartIndex, dataEndIndex, vecLen - removalsFound,
             Sweep(predicate_, original, vecLen), vecLen);
    }

    /** `retain` with the predicate the program uses: the records ready for removal are dropped. */
    method RetainNotRemoved()
      requires Valid()
      modifies this, data
      ensures Valid() && items == Filter(NotRemoved, old(items))
      ensures data[Offset(old(|items|))..] == old(data[Offset(|items|)..])
    {
      ghost var b := data[..];
      RepresentsItems(b, items);
      RetainedItems(b);
      RetainedIsFilter(IsNotRemoved, b);
      Retain(IsNotRemoved);
      items := Filter(NotRemoved, items);
      RepresentsItems(data[..], items);
    }

    /** Writes the new length before testing the capacity, so a failed push leaves the prefix
        one too high; the caller's transaction is then rolled back. */
    method Push(element: ValidatorStakeInfo) returns (r: Result<()>)
      requires Valid() && |items| < U32_MAX
      modifies this, data
      ensures r.Ok? <==> Offset(old(|items|) + 1) <= data.Length
      ensures r.Ok? ==> Valid() && items == old(items) + [element]
      ensures r.Err? ==> r.error == AccountDataTooSmall
      ensures r.Err? ==> LenOf(data[..]) == old(|items|) + 1
    {
      var vecLen := Len();
      var startIndex := VEC_SIZE_BYTES + vecLen * RECORD_LEN;
      var endIndex := startIndex + RECORD_LEN;
      ghost var b := data[..];
      WriteBytes(0, U32Bytes(vecLen + 1));
      if data.Length < endIndex {
        PrefixWritten(b, vecLen + 1);
        return Err(AccountDataTooSmall);
      }
      WriteBytes(startIndex, Encode(element));
      AppendRepresented(b, items, element);
      items := items + [element];
      return Ok(());
    }

    /** The first slot whose bytes satisfy the predicate. */
    method Find(key: seq<u8>, predicate_: (seq<u8>, seq<u8>) -> bool) returns (found: Option<nat>)
      requires Fits(data[..])
      ensures found.Some? ==> found.value < LenOf(data[..]) && predicate_(Slot(data[..], found.value), key)
      ensures
        var end := if found.Some? then found.value else LenOf(data[..]);
        forall i :: 0 <= i < end ==> !predicate_(Slot(data[..], i), key)
    {
      var len := Len();
      var current: nat := 0;
      var currentIndex := VEC_SIZE_BYTES;
      while current != len
        invariant current <= len && currentIndex == Offset(current)
        invariant forall i :: 0 <= i < current ==> !predicate_(Slot(data[..], i), key)
        decreases len - current
      {
        var endIndex := currentIndex + RECORD_LEN;
        var slice := data[currentIndex..endIndex];
        assert slice == Slot(data[..], current);
        if predicate_(slice, key) {
          return Some(current);
        }
        currentIndex := endIndex;
        current := current + 1;
      }
      return None;
    }

    /** Hands out a view, by the byte it starts at, for every record asked for: the bytes between the
        first and the last one, cut into chunks of a record's length. */
    method DeserializeMutSlice(skip: u32, len: nat) returns (r: Result<seq<nat>>)
      requires Fits(data[..])
      ensures r.Ok? <==> skip + len <= LenOf(data[..])
      ensures r.Ok? ==> |r.value| == len && forall i :: 0 <= i < len ==> IsView(data[..], r.value[i], skip + i)
      ensures r.Err? ==> r.error == AccountDataTooSmall
    {
      var vecLen := Len();
      if skip + len > vecLen {
        return Err(AccountDataTooSmall);
      }
      var startIndex := VEC_SIZE_BYTES + skip * RECORD_LEN;
      var endIndex := startIndex + len * RECORD_LEN;
      var views: seq<nat> := [];
      var at := startIndex;
      while at + RECORD_LEN <= endIndex
        invariant at == Offset(skip + |views|) && |views| <= len
        invariant forall i :: 0 <= i < |views| ==> IsView(data[..], views[i], skip + i)
        decreases endIndex - at
      {
        assert IsView(data[..], at, skip + |views|);
        views := views + [at];
        at := at + RECORD_LEN;
      }
      return Ok(views);
    }

    /** The records behind the views of a mutable slice. */
    method MutRecords(skip: u32, len: nat) returns (r: Result<seq<nat>>)
      requires Fits(data[..])
      ensures r.Ok? <==> skip + len <= LenOf(data[..])
      ensures r.Ok? ==> |r.value| == len && forall i :: 0 <= i < len ==> r.value[i] == skip + i
      ensures r.Err? ==> r.error == AccountDataTooSmall
    {
      var views :- DeserializeMutSlice(skip, len);
      assert forall i :: 0 <= i < len ==> IsView(data[..], views[i], skip + i);
      return Ok(seq(len, i requires 0 <= i < len => SlotAt(views[i])));
    }

    /** Puts saved bytes back, as the runtime does when a transaction fails. */
    method Restore(bytes: seq<u8>, ghost items: seq<ValidatorStakeInfo>)
      requires |bytes| == data.Length && Represents(bytes, items)
      modifies this, data
      ensures Valid() && this.items == items && data[..] == bytes
    {
      WriteBytes(0, bytes);
      this.items := items;
      assert data[..] == bytes;
    }

    /** Reads one record through an iterator or a returned reference. */
    method Get(i: nat) returns (r: ValidatorStakeInfo)
      requires Valid() && i < |items|
      ensures r == items[i]
    {
      var slice := data[Offset(i)..Offset(i) + RECORD_LEN];
      assert slice == Slot(data[..], i);
      DecodeEncode(items[i]);
      r := Decode(slice).value;
    }

    /** Assigns bytes through a mutable view of one record: only that record changes. */
    method WriteView(i: nat, offset: nat, bytes: seq<u8>, ghost r: ValidatorStakeInfo)
      requires Valid() && i < |items| && offset + |bytes| <= RECORD_LEN
      requires Decode(Written(Encode(items[i]), offset, bytes)) == Some(r)
      modifies this, data
      ensures Valid() && items == old(items)[i := r]
    {
      ghost var b := data[..];
      assert Slot(b, i) == Encode(items[i]);
      RepresentsItems(b, items);
      WriteInSlot(b, i, Offset(i) + offset, bytes);
      WriteBytes(Offset(i) + offset, bytes);
      items := items[i := r];
      RepresentsItems(data[..], items);
    }

    method SetActiveStakeLamports(i: nat, lamports: u64)
      requires Valid() && i < |items|
      modifies this, data
      ensures Valid() && items == old(items[i := items[i].(activeStakeLamports := lamports)])
    {
      DecodeEncode(items[i]);
      WriteU64Field(Encode(items[i]), lamports);
      WriteView(i, 0, U64Bytes(lamports), items[i].(activeStakeLamports := lamports));
    }

    method SetTransientStakeLamports(i: nat, lamports: u64)
      requires Valid() && i < |items|
      modifies this, data
      ensures Valid() && items == old(items[i := items[i].(transientStakeLamports := lamports)])
    {
      DecodeEncode(items[i]);
      WriteU64Field(Encode(items[i]), lamports);
      WriteView(i, 8, U64Bytes(lamports), items[i].(transientStakeLamports := lamports));
    }

    method SetLastUpdateEpoch(i: nat, epoch: u64)
      requires Valid() && i < |items|
      modifies this, data
      ensures Valid() && items == old(items[i := items[i].(lastUpdateEpoch := epoch)])
    {
      DecodeEncode(items[i]);
      WriteU64Field(Encode(items[i]), epoch);
      WriteView(i, 16, U64Bytes(epoch), items[i].(lastUpdateEpoch := epoch));
    }

    method SetTransientSeedSuffixStart(i: nat, seed: u64)
      requires Valid() && i < |items|
      modifies this, data
      ensures Valid() && items == old(items[i := items[i].(transientSeedSuffixStart := seed)])
    {
      DecodeEncode(items[i]);
      WriteU64Field(Encode(items[i]), seed);
      WriteView(i, 24, U64Bytes(seed), items[i].(transientSeedSuffixStart := seed));
    }

    method SetStatus(i: nat, status: StakeStatus)
      requires Valid() && i < |items|
      modifies this, data
      ensures Valid() && items == old(items[i := items[i].(status := status)])
    {
      DecodeEncode(items[i]);
      WriteStatusField(Encode(items[i]), status);
      WriteView(i, 40, [StatusByte(status)], items[i].(status := status));
    }
  }
}
