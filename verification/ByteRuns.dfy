/** Any run of write, read, setPosition and clear on a ByteArray is a run on one flat sequence of bytes. */
module ByteRuns {
  import opened ByteBlocks
  import opened ByteArrays

  datatype Op = Write(data: seq<byte>) | Read(n: nat) | SetPosition(v: nat) | Clear

  /** What the caller of one operation sees. */
  datatype Seen = Seen(outcome: Outcome, bytes: seq<byte>)

  /** The bytes there is room for in one piece, how many of them are filled, and the cursor. */
  datatype Flat = Flat(room: seq<byte>, size: nat, position: nat)

  ghost function FlatOf(ba: ByteArray): Flat
    requires ba.Valid()
    reads ba, ba.repr
  {
    Flat(ba.Store(), ba.size, ba.position)
  }

  predicate Sound(f: Flat) {
    f.position <= f.size <= |f.room|
  }

  /** One operation on the flat sequence. Only the contents of room added by a write are left open. */
  ghost predicate FlatStep(b: nat, f: Flat, op: Op, seen: Seen, g: Flat)
    requires b > 0
  {
    && Sound(f) && Sound(g)
    && match op
       case Write(data) =>
         && seen == Seen(Fine, [])
         && Wrote(f.room, f.position, data, g.room) && |g.room| == Grown(|f.room|, f.position, |data|, b)
         && g.position == f.position + |data| && g.size == (if f.size < g.position then g.position else f.size)
       case Read(n) =>
         if n > f.size - f.position then g == f && seen == Seen(OutOfRange, [])
         else if n == 0 && f.position == |f.room| then g == f && seen == Seen(NullPointer, [])
         else g == f.(position := f.position + n) && seen == Seen(Fine, f.room[f.position..g.position])
       case SetPosition(v) =>
         if v > |f.room| then g == f && seen == Seen(OutOfRange, [])
         else g == f.(position := v, size := if f.size < v then v else f.size) && seen == Seen(Fine, [])
       case Clear =>
         b <= |f.room| && g == Flat(f.room[..b], 0, 0) && seen == Seen(Fine, [])
  }

  /** `trace` holds the flat sequence before, between and after the operations. */
  ghost predicate FlatRun(b: nat, trace: seq<Flat>, ops: seq<Op>, seen: seq<Seen>)
    requires b > 0
  {
    && |trace| == |ops| + 1 && |seen| == |ops|
    && forall i {:trigger ops[i]} :: 0 <= i < |ops| ==> FlatStep(b, trace[i], ops[i], seen[i], trace[i + 1])
  }

  /** One call. */
  method Perform(ba: ByteArray, op: Op) returns (seen: Seen)
    requires ba.Valid()
    modifies ba.repr
    ensures ba.Valid() && old(ba.repr) <= ba.repr && fresh(ba.repr - old(ba.repr)) && ba.baseSize > 0
    ensures FlatStep(ba.baseSize, old(FlatOf(ba)), op, seen, FlatOf(ba))
  {
    hide ByteArray.Valid, ByteArray.Store, ByteArray.Filled, Wrote, Grown;
    ba.ValidHas();
    ba.FilledIs();
    match op {
      case Write(data) =>
        ba.Write(data);
        seen := Seen(Fine, []);
      case Read(n) =>
        var outcome, bytes := ba.Read(n);
        seen := Seen(outcome, bytes);
      case SetPosition(v) =>
        var outcome := ba.SetPosition(v);
        seen := Seen(outcome, []);
      case Clear =>
        ba.Clear();
        seen := Seen(Fine, []);
    }
    ba.ValidHas();
    ba.FilledIs();
  }

  /** Calls one after the other, up to one that follows a null pointer. */
  method PerformAll(ba: ByteArray, ops: seq<Op>) returns (n: nat, seen: seq<Seen>, ghost trace: seq<Flat>)
    requires ba.Valid()
    modifies ba.repr
    ensures ba.Valid() && ba.baseSize > 0 && n <= |ops| && FlatRun(ba.baseSize, trace, ops[..n], seen)
    ensures trace[0] == old(FlatOf(ba)) && trace[n] == FlatOf(ba)
    ensures n == |ops| || (n > 0 && seen[n - 1].outcome == NullPointer)
  {
    hide *;
    ba.ValidHas();
    n, seen := 0, [];
    trace := [FlatOf(ba)];
    RunNothing(ba.baseSize, trace[0]);
    while n < |ops| && (n == 0 || seen[n - 1].outcome != NullPointer)
      invariant ba.Valid() && old(ba.repr) <= ba.repr && fresh(ba.repr - old(ba.repr)) && ba.baseSize > 0
      invariant n <= |ops| && |seen| == n && |trace| == n + 1
      invariant FlatRun(ba.baseSize, trace, ops[..n], seen)
      invariant trace[0] == old(FlatOf(ba)) && trace[n] == FlatOf(ba)
    {
      var s := Perform(ba, ops[n]);
      RunMore(ba.baseSize, trace, ops[..n], seen, ops[n], s, FlatOf(ba));
      assert ops[..n + 1] == ops[..n] + [ops[n]];
      n, seen, trace := n + 1, seen + [s], trace + [FlatOf(ba)];
    }
  }

  lemma RunNothing(b: nat, f: Flat)
    requires b > 0
    ensures FlatRun(b, [f], [], [])
  {
  }

  lemma RunMore(b: nat, trace: seq<Flat>, ops: seq<Op>, seen: seq<Seen>, op: Op, s: Seen, f: Flat)
    requires b > 0 && FlatRun(b, trace, ops, seen) && FlatStep(b, trace[|ops|], op, s, f)
    ensures FlatRun(b, trace + [f], ops + [op], seen + [s])
  {
    hide FlatStep;
  }

  /** A write of byte `p` in the state `f`. */
  predicate Covers(f: Flat, op: Op, p: nat) {
    op.Write? && f.position <= p < f.position + |op.data|
  }

  lemma StepKeepsByte(b: nat, f: Flat, op: Op, seen: Seen, g: Flat, p: nat)
    requires b > 0 && FlatStep(b, f, op, seen, g) && !Covers(f, op, p) && op != Clear && p < |f.room|
    ensures p < |g.room| && g.room[p] == f.room[p]
  {
    if op.Write? {
      var at, end := f.position, f.position + |op.data|;
      if p < at {
        assert g.room[..at][p] == f.room[..at][p];
      } else {
        assert g.room[end..|f.room|][p - end] == f.room[end..][p - end];
      }
    }
  }

  lemma {:induction false} ByteStays(b: nat, trace: seq<Flat>, ops: seq<Op>, seen: seq<Seen>, i: nat, j: nat, p: nat)
    requires b > 0 && FlatRun(b, trace, ops, seen) && i <= j <= |ops| && p < |trace[i].room|
    requires forall k {:trigger ops[k]} :: i <= k < j ==> ops[k] != Clear && !Covers(trace[k], ops[k], p)
    ensures p < |trace[j].room| && trace[j].room[p] == trace[i].room[p]
    decreases j - i
  {
    hide FlatStep, Covers;
    if i == j {
    } else {
      ByteStays(b, trace, ops, seen, i, j - 1, p);
      StepKeepsByte(b, trace[j - 1], ops[j - 1], seen[j - 1], trace[j], p);
    }
  }

  /** In any run, whatever else happens in between, a read returns for each byte what was last written there. */
  lemma LastWriteIsRead(b: nat, trace: seq<Flat>, ops: seq<Op>, seen: seq<Seen>, i: nat, j: nat, p: nat)
    requires b > 0 && FlatRun(b, trace, ops, seen) && i < j < |ops|
    requires Covers(trace[i], ops[i], p) && ops[j].Read? && seen[j].outcome == Fine
    requires forall k {:trigger ops[k]} :: i < k < j ==> ops[k] != Clear && !Covers(trace[k], ops[k], p)
    requires trace[j].position <= p < trace[j].position + ops[j].n
    ensures |seen[j].bytes| == ops[j].n
    ensures seen[j].bytes[p - trace[j].position] == ops[i].data[p - trace[i].position]
  {
    var f, g := trace[i], trace[i + 1];
    assert FlatStep(b, f, ops[i], seen[i], g) && FlatStep(b, trace[j], ops[j], seen[j], trace[j + 1]);
    assert g.room[f.position..f.position + |ops[i].data|][p - f.position] == g.room[p];
    ByteStays(b, trace, ops, seen, i + 1, j, p);
  }
}
