/**
  The free-list allocator of allocators/BlockAllocator.hpp: one buffer of 1 MB, a table of free blocks and a table that
  records the blocks handed out, 1024 slots each.  Addresses are numbers and nullptr is 0.
 */
module BlockAllocator {
  import opened Common

  const SLOTS: nat := 1024
  const BUFFER_SIZE: nat := 1024 * 1024

  datatype Block = Block(ptr: nat, size: nat)

  const NULL: Block := Block(0, 0)

  // ---- Bytes ------------------------------------------------------------------------------------------------------

  predicate Covers(b: Block, a: nat) { b.ptr != 0 && b.ptr <= a < b.ptr + b.size }

  function One(b: bool): nat { if b then 1 else 0 }

  // How many blocks of a table cover an address, and how many slots are in use.
  function Cover(bs: seq<Block>, a: nat): nat { if bs == [] then 0 else One(Covers(bs[0], a)) + Cover(bs[1..], a) }

  function InUse(bs: seq<Block>): nat { if bs == [] then 0 else One(bs[0].ptr != 0) + InUse(bs[1..]) }

  lemma {:induction false} CoverUpdate(bs: seq<Block>, i: nat, b: Block, a: nat)
    requires i < |bs|
    ensures Cover(bs[i := b], a) == Cover(bs, a) - One(Covers(bs[i], a)) + One(Covers(b, a))
  {
    if i > 0 {
      CoverUpdate(bs[1..], i - 1, b, a);
      assert bs[i := b][1..] == bs[1..][i - 1 := b];
    } else {
      assert bs[0 := b][1..] == bs[1..];
    }
  }

  lemma {:induction false} InUseUpdate(bs: seq<Block>, i: nat, b: Block)
    requires i < |bs|
    ensures InUse(bs[i := b]) == InUse(bs) - One(bs[i].ptr != 0) + One(b.ptr != 0)
  {
    if i > 0 {
      InUseUpdate(bs[1..], i - 1, b);
      assert bs[i := b][1..] == bs[1..][i - 1 := b];
    } else {
      assert bs[0 := b][1..] == bs[1..];
    }
  }

  lemma {:induction false} CoverAppend(bs: seq<Block>, cs: seq<Block>, a: nat)
    ensures Cover(bs + cs, a) == Cover(bs, a) + Cover(cs, a)
  {
    if bs == [] {
      assert bs + cs == cs;
    } else {
      CoverAppend(bs[1..], cs, a);
      assert (bs + cs)[1..] == bs[1..] + cs;
    }
  }

  lemma {:induction false} CoveredBy(bs: seq<Block>, i: nat, a: nat)
    requires i < |bs| && Covers(bs[i], a)
    ensures Cover(bs, a) >= 1
  {
    if i == 0 {
    } else {
      CoveredBy(bs[1..], i - 1, a);
    }
  }

  lemma {:induction false} CoveredTwice(bs: seq<Block>, i: nat, j: nat, a: nat)
    requires i < j < |bs| && Covers(bs[i], a) && Covers(bs[j], a)
    ensures Cover(bs, a) >= 2
  {
    if i > 0 { CoveredTwice(bs[1..], i - 1, j - 1, a); } else { CoveredBy(bs[1..], j - 1, a); }
  }

  // ---- Sorting, as std::sort with the source's comparison ---------------------------------------------------------

  function Insert(b: Block, bs: seq<Block>): seq<Block> {
    if bs == [] || b.ptr <= bs[0].ptr then [b] + bs else [bs[0]] + Insert(b, bs[1..])
  }

  function Sort(bs: seq<Block>): seq<Block> { if bs == [] then [] else Insert(bs[0], Sort(bs[1..])) }

  ghost predicate Sorted(bs: seq<Block>) { forall i, j :: 0 <= i < j < |bs| ==> bs[i].ptr <= bs[j].ptr }

  lemma {:induction false} InsertMembers(b: Block, bs: seq<Block>)
    ensures |Insert(b, bs)| == |bs| + 1 && multiset(Insert(b, bs)) == multiset(bs) + multiset{b}
  {
    if bs != [] && b.ptr > bs[0].ptr {
      InsertMembers(b, bs[1..]);
      assert bs == [bs[0]] + bs[1..];
    }
  }

  lemma {:induction false} InsertSorts(b: Block, bs: seq<Block>)
    requires Sorted(bs)
    ensures Sorted(Insert(b, bs))
  {
    if bs != [] && b.ptr > bs[0].ptr {
      var rest := Insert(b, bs[1..]);
      InsertSorts(b, bs[1..]);
      InsertMembers(b, bs[1..]);
      forall i | 0 <= i < |rest| ensures bs[0].ptr <= rest[i].ptr {
        assert rest[i] in multiset(rest);
        assert rest[i] in bs[1..] || rest[i] == b;
      }
      assert Insert(b, bs) == [bs[0]] + rest;
    }
  }

  lemma {:induction false} InsertCounts(b: Block, bs: seq<Block>, a: nat)
    ensures InUse(Insert(b, bs)) == InUse(bs) + One(b.ptr != 0)
    ensures Cover(Insert(b, bs), a) == Cover(bs, a) + One(Covers(b, a))
  {
    if bs == [] || b.ptr <= bs[0].ptr {
      assert ([b] + bs)[1..] == bs;
    } else {
      InsertCounts(b, bs[1..], a);
      assert ([bs[0]] + Insert(b, bs[1..]))[1..] == Insert(b, bs[1..]);
    }
  }

  lemma {:induction false} SortSorts(bs: seq<Block>)
    ensures Sorted(Sort(bs)) && |Sort(bs)| == |bs| && multiset(Sort(bs)) == multiset(bs)
  {
    if bs == [] {
    } else {
      SortSorts(bs[1..]);
      InsertSorts(bs[0], Sort(bs[1..]));
      InsertMembers(bs[0], Sort(bs[1..]));
      assert bs == [bs[0]] + bs[1..];
    }
  }

  lemma {:induction false} SortCounts(bs: seq<Block>, a: nat)
    ensures InUse(Sort(bs)) == InUse(bs) && Cover(Sort(bs), a) == Cover(bs, a)
  {
    if bs == [] {
    } else {
      SortCounts(bs[1..], a);
      InsertCounts(bs[0], Sort(bs[1..]), a);
    }
  }

  // ---- One merge pass ---------------------------------------------------------------------------------------------

  predicate Touch(b: Block, c: Block) { b.ptr != 0 && c.ptr != 0 && b.ptr + b.size == c.ptr }

  function MergeAt(bs: seq<Block>, i: nat): (r: seq<Block>)
    requires i + 1 < |bs|
    ensures |r| == |bs|
  {
    if Touch(bs[i], bs[i + 1]) then bs[i := Block(bs[i].ptr, bs[i].size + bs[i + 1].size)][i + 1 := NULL] else bs
  }

  function MergeFrom(bs: seq<Block>, i: nat): (r: seq<Block>)
    ensures |r| == |bs|
    decreases |bs| - i
  {
    if i + 1 < |bs| then MergeFrom(MergeAt(bs, i), i + 1) else bs
  }

  // mergeFreeBlocks
  function MergePass(bs: seq<Block>): seq<Block> { MergeFrom(Sort(bs), 0) }

  lemma MergeAtKeeps(bs: seq<Block>, i: nat)
    requires i + 1 < |bs|
    ensures forall a: nat :: Cover(MergeAt(bs, i), a) == Cover(bs, a)
    ensures InUse(MergeAt(bs, i)) == InUse(bs) - One(Touch(bs[i], bs[i + 1]))
  {
    if Touch(bs[i], bs[i + 1]) {
      var b := Block(bs[i].ptr, bs[i].size + bs[i + 1].size);
      InUseUpdate(bs, i, b);
      InUseUpdate(bs[i := b], i + 1, NULL);
      forall a: nat ensures Cover(MergeAt(bs, i), a) == Cover(bs, a) {
        CoverUpdate(bs, i, b, a);
        CoverUpdate(bs[i := b], i + 1, NULL, a);
      }
    }
  }

  lemma {:induction false} MergeFromKeeps(bs: seq<Block>, i: nat)
    ensures forall a: nat :: Cover(MergeFrom(bs, i), a) == Cover(bs, a)
    ensures InUse(MergeFrom(bs, i)) <= InUse(bs)
    decreases |bs| - i
  {
    if i + 1 < |bs| {
      MergeAtKeeps(bs, i);
      MergeFromKeeps(MergeAt(bs, i), i + 1);
    }
  }

  // A pass merges at least the first pair of neighbours that touch.
  lemma {:induction false} MergeFromMerges(bs: seq<Block>, i: nat, k: nat)
    requires i <= k && k + 1 < |bs| && Touch(bs[k], bs[k + 1])
    ensures InUse(MergeFrom(bs, i)) < InUse(bs)
    decreases |bs| - i
  {
    MergeAtKeeps(bs, i);
    MergeFromKeeps(MergeAt(bs, i), i + 1);
    if !Touch(bs[i], bs[i + 1]) { MergeFromMerges(bs, i + 1, k); }
  }

  // The same free bytes after a pass, in no more slots.
  lemma PassKeepsBytes(bs: seq<Block>)
    ensures forall a: nat :: Cover(MergePass(bs), a) == Cover(bs, a)
    ensures InUse(MergePass(bs)) <= InUse(bs) && |MergePass(bs)| == |bs|
  {
    SortSorts(bs);
    MergeFromKeeps(Sort(bs), 0);
    SortCounts(bs, 0);
    forall a: nat ensures Cover(MergePass(bs), a) == Cover(bs, a) { SortCounts(bs, a); }
  }

  // ---- Repeated passes --------------------------------------------------------------------------------------------

  // A table of free blocks: null slots are empty, blocks in use are not, and no two overlap.
  ghost predicate WellFormed(bs: seq<Block>) {
    && (forall b :: b in bs ==> (b.ptr == 0 <==> b.size == 0))
    && (forall a: nat :: Cover(bs, a) <= 1)
  }

  ghost predicate HasTouching(bs: seq<Block>) { exists i, j :: 0 <= i < |bs| && 0 <= j < |bs| && Touch(bs[i], bs[j]) }

  lemma {:induction false} MergeFromWellFormed(bs: seq<Block>, i: nat)
    requires WellFormed(bs)
    ensures WellFormed(MergeFrom(bs, i))
    decreases |bs| - i
  {
    if i + 1 < |bs| {
      MergeAtKeeps(bs, i);
      var r := MergeAt(bs, i);
      forall b | b in r ensures b.ptr == 0 <==> b.size == 0 {
        assert bs[i] in bs && bs[i + 1] in bs;
      }
      MergeFromWellFormed(r, i + 1);
    }
  }

  lemma SortWellFormed(bs: seq<Block>)
    requires WellFormed(bs)
    ensures WellFormed(Sort(bs))
  {
    SortSorts(bs);
    forall b | b in Sort(bs) ensures b.ptr == 0 <==> b.size == 0 { assert b in multiset(Sort(bs)); }
    forall a: nat ensures Cover(Sort(bs), a) <= 1 { SortCounts(bs, a); }
  }

  // In a sorted table without overlaps, blocks that touch are neighbours.
  lemma TouchingAreNeighbours(bs: seq<Block>, i: nat, j: nat)
    requires WellFormed(bs) && Sorted(bs) && i < |bs| && j < |bs| && Touch(bs[i], bs[j])
    ensures j == i + 1
  {
    assert bs[i] in bs && bs[j] in bs;
    assert bs[i].ptr < bs[j].ptr;
    if j > i + 1 {
      var k := i + 1;
      assert bs[k] in bs;
      if bs[k].ptr < bs[j].ptr { CoveredTwice(bs, i, k, bs[k].ptr); } else { CoveredTwice(bs, k, j, bs[j].ptr); }
    }
  }

  // A pass over a table with touching blocks frees at least one slot.
  lemma PassMerges(bs: seq<Block>)
    requires WellFormed(bs) && HasTouching(bs)
    ensures InUse(MergePass(bs)) < InUse(bs)
  {
    hide Cover, InUse, WellFormed, Sorted, Sort, MergeFrom, Touch;
    var i, j :| 0 <= i < |bs| && 0 <= j < |bs| && Touch(bs[i], bs[j]);
    var s := Sort(bs);
    SortSorts(bs);
    SortWellFormed(bs);
    SortCounts(bs, 0);
    assert bs[i] in multiset(s) && bs[j] in multiset(s);
    var i', j' :| 0 <= i' < |s| && 0 <= j' < |s| && s[i'] == bs[i] && s[j'] == bs[j];
    TouchingAreNeighbours(s, i', j');
    MergeFromMerges(s, 0, i');
  }

  lemma PassKeepsWellFormed(bs: seq<Block>)
    requires WellFormed(bs)
    ensures WellFormed(MergePass(bs))
  {
    SortWellFormed(bs);
    MergeFromWellFormed(Sort(bs), 0);
  }

  function Passes(bs: seq<Block>, n: nat): seq<Block>
    decreases n
  {
    if n == 0 then bs else Passes(MergePass(bs), n - 1)
  }

  // A block is a joint when the byte before it is free in `all`; touching pairs end in one.
  predicate Joint(all: seq<Block>, b: Block) { b.ptr != 0 && Cover(all, b.ptr - 1) > 0 }

  function Joints(all: seq<Block>, bs: seq<Block>): nat {
    if bs == [] then 0 else One(Joint(all, bs[0])) + Joints(all, bs[1..])
  }

  lemma {:induction false} JointsSplit(all: seq<Block>, bs: seq<Block>, cs: seq<Block>)
    ensures Joints(all, bs + cs) == Joints(all, bs) + Joints(all, cs)
  {
    if bs == [] {
      assert bs + cs == cs;
    } else {
      JointsSplit(all, bs[1..], cs);
      assert (bs + cs)[1..] == bs[1..] + cs;
    }
  }

  lemma {:induction false} InsertJoints(all: seq<Block>, b: Block, bs: seq<Block>)
    ensures Joints(all, Insert(b, bs)) == Joints(all, bs) + One(Joint(all, b))
  {
    if bs == [] || b.ptr <= bs[0].ptr {
      assert ([b] + bs)[1..] == bs;
    } else {
      InsertJoints(all, b, bs[1..]);
      assert ([bs[0]] + Insert(b, bs[1..]))[1..] == Insert(b, bs[1..]);
    }
  }

  lemma {:induction false} SortJoints(all: seq<Block>, bs: seq<Block>)
    ensures Joints(all, Sort(bs)) == Joints(all, bs)
  {
    if bs == [] {
    } else {
      SortJoints(all, bs[1..]);
      InsertJoints(all, bs[0], Sort(bs[1..]));
    }
  }

  // Only the bytes of `all` matter.
  lemma {:induction false} JointsOfBytes(all: seq<Block>, all': seq<Block>, bs: seq<Block>)
    requires forall a: nat :: Cover(all, a) == Cover(all', a)
    ensures Joints(all, bs) == Joints(all', bs)
  {
    if bs == [] {
    } else {
      JointsOfBytes(all, all', bs[1..]);
    }
  }

  // A table in the middle of a pass: blocks in address order, and none of the slots still to come is null once a block
  // has been met.
  ghost predicate Swept(bs: seq<Block>, i: nat) {
    && (forall j, k :: 0 <= j < k < |bs| && bs[j].ptr != 0 && bs[k].ptr != 0 ==> bs[j].ptr < bs[k].ptr)
    && (forall j, k :: 0 <= j < k < |bs| && k > i && bs[j].ptr != 0 ==> bs[k].ptr != 0)
  }

  // The byte before a joint belongs to an earlier block.
  lemma {:induction false} CoveredBySome(bs: seq<Block>, a: nat) returns (k: nat)
    requires Cover(bs, a) > 0
    ensures k < |bs| && Covers(bs[k], a)
  {
    if Covers(bs[0], a) { k := 0; } else {
      k := CoveredBySome(bs[1..], a);
      k := k + 1;
    }
  }

  // Where the sweep does not merge, the next slot is a joint only behind a slot that has just been emptied.
  lemma NoJointAhead(bs: seq<Block>, i: nat)
    requires WellFormed(bs) && Swept(bs, i) && i + 1 < |bs| && !Touch(bs[i], bs[i + 1]) && Joint(bs, bs[i + 1])
    ensures bs[i].ptr == 0 && exists j :: 0 <= j < i && bs[j].ptr != 0
  {
    var k := CoveredBySome(bs, bs[i + 1].ptr - 1);
    assert bs[k] in bs && bs[i] in bs && bs[i + 1] in bs;
    assert k <= i;
    if bs[k].ptr + bs[k].size > bs[i + 1].ptr { CoveredTwice(bs, k, i + 1, bs[i + 1].ptr); }
    assert Touch(bs[k], bs[i + 1]);
    if bs[i].ptr != 0 { CoveredTwice(bs, k, i, bs[i].ptr); }
  }

  // What a merge does to the joints seen so far and to those ahead.
  lemma MergeAtJoints(all: seq<Block>, bs: seq<Block>, i: nat)
    requires i + 1 < |bs| && Touch(bs[i], bs[i + 1]) && Joint(all, bs[i + 1])
    ensures var r := MergeAt(bs, i);
            && Joints(all, r[..i + 2]) == Joints(all, bs[..i + 1])
            && Joints(all, r[i + 2..]) == Joints(all, bs[i + 1..]) - 1
  {
    var r := MergeAt(bs, i);
    assert r[..i + 2] == bs[..i] + [r[i]] + [NULL] && bs[..i + 1] == bs[..i] + [bs[i]];
    JointsSplit(all, bs[..i] + [r[i]], [NULL]);
    JointsSplit(all, bs[..i], [r[i]]);
    JointsSplit(all, bs[..i], [bs[i]]);
    assert [r[i]][1..] == [] && [bs[i]][1..] == [] && [NULL][1..] == [];
    assert r[i + 2..] == bs[i + 1..][1..];
  }

  lemma StepJoints(all: seq<Block>, bs: seq<Block>, i: nat)
    requires i + 1 < |bs|
    ensures Joints(all, bs[..i + 2]) == Joints(all, bs[..i + 1]) + One(Joint(all, bs[i + 1]))
    ensures Joints(all, bs[i + 2..]) == Joints(all, bs[i + 1..]) - One(Joint(all, bs[i + 1]))
  {
    assert bs[..i + 2] == bs[..i + 1] + [bs[i + 1]];
    JointsSplit(all, bs[..i + 1], [bs[i + 1]]);
    assert [bs[i + 1]][1..] == [] && bs[i + 1..][1..] == bs[i + 2..];
  }

  // The sweep removes at least every other joint ahead of it; `credit` is the one behind a slot just emptied.
  lemma {:induction false} SweepHalves(all: seq<Block>, bs: seq<Block>, i: nat, credit: bool)
    requires i < |bs| && WellFormed(bs) && Swept(bs, i) && forall a: nat :: Cover(all, a) == Cover(bs, a)
    requires !credit && bs[i].ptr == 0 ==> forall j :: 0 <= j < i ==> bs[j].ptr == 0
    ensures 2 * Joints(all, MergeFrom(bs, i)) <= 2 * Joints(all, bs[..i + 1]) + Joints(all, bs[i + 1..]) + One(credit)
    decreases |bs| - i
  {
    hide Cover, WellFormed, Swept, Touch;
    if i + 1 == |bs| {
      assert bs[..i + 1] == bs && bs[i + 1..] == [];
    } else if Touch(bs[i], bs[i + 1]) {
      MergeAtSweeps(all, bs, i);
      MergeAtJoints(all, bs, i);
      SweepHalves(all, MergeAt(bs, i), i + 1, true);
    } else {
      StepJoints(all, bs, i);
      if Joint(bs, bs[i + 1]) { NoJointAhead(bs, i); }
      SweepOn(bs, i, credit);
      SweepHalves(all, bs, i + 1, credit && !Joint(bs, bs[i + 1]));
    }
  }

  lemma MergeAtSweeps(all: seq<Block>, bs: seq<Block>, i: nat)
    requires i + 1 < |bs| && Touch(bs[i], bs[i + 1]) && WellFormed(bs) && Swept(bs, i)
    requires forall a: nat :: Cover(all, a) == Cover(bs, a)
    ensures var r := MergeAt(bs, i);
            WellFormed(r) && Swept(r, i + 1) && Joint(all, bs[i + 1]) && forall a: nat :: Cover(all, a) == Cover(r, a)
  {
    hide Cover, Swept, MergeAt;
    MergeAtKeeps(bs, i);
    MergeAtOrder(bs, i);
    MergeAtBlocks(bs, i);
    assert bs[i] in bs;
    CoveredBy(bs, i, bs[i + 1].ptr - 1);
  }

  lemma MergeAtOrder(bs: seq<Block>, i: nat)
    requires i + 1 < |bs| && Touch(bs[i], bs[i + 1]) && Swept(bs, i)
    ensures Swept(MergeAt(bs, i), i + 1)
  {
  }

  lemma MergeAtBlocks(bs: seq<Block>, i: nat)
    requires i + 1 < |bs| && Touch(bs[i], bs[i + 1]) && forall b :: b in bs ==> (b.ptr == 0 <==> b.size == 0)
    ensures forall b :: b in MergeAt(bs, i) ==> (b.ptr == 0 <==> b.size == 0)
  {
    var r := MergeAt(bs, i);
    assert bs[i] in bs && bs[i + 1] in bs;
    forall j | 0 <= j < |r| ensures r[j].ptr == 0 <==> r[j].size == 0 {
      if j != i && j != i + 1 { assert r[j] == bs[j] && bs[j] in bs; }
    }
  }

  lemma SweepOn(bs: seq<Block>, i: nat, credit: bool)
    requires i + 1 < |bs| && Swept(bs, i) && (!credit && bs[i].ptr == 0 ==> forall j :: 0 <= j < i ==> bs[j].ptr == 0)
    ensures Swept(bs, i + 1)
    ensures !credit && bs[i + 1].ptr == 0 ==> forall j :: 0 <= j < i + 1 ==> bs[j].ptr == 0
  {
  }

  lemma SortedIsSwept(bs: seq<Block>)
    requires WellFormed(bs) && Sorted(bs)
    ensures Swept(bs, 0)
  {
    forall j, k | 0 <= j < k < |bs| && bs[j].ptr != 0 && bs[k].ptr != 0 ensures bs[j].ptr < bs[k].ptr {
      assert bs[j] in bs && bs[k] in bs;
      if bs[j].ptr == bs[k].ptr { CoveredTwice(bs, j, k, bs[j].ptr); }
    }
  }

  // The first block of a sorted table is no joint.
  lemma LowestIsNoJoint(bs: seq<Block>, i: nat)
    requires Sorted(bs) && i < |bs| && forall j :: 0 <= j < i ==> bs[j].ptr == 0
    ensures !Joint(bs, bs[i])
  {
    if Joint(bs, bs[i]) {
      var k := CoveredBySome(bs, bs[i].ptr - 1);
      assert false;
    }
  }

  // A pass leaves at most half of the joints.
  lemma PassHalves(bs: seq<Block>)
    requires WellFormed(bs)
    ensures Joints(MergePass(bs), MergePass(bs)) <= Joints(bs, bs) / 2
  {
    var s, r := Sort(bs), MergePass(bs);
    if bs == [] {
    } else {
      SortSorts(bs);
      SortWellFormed(bs);
      SortedIsSwept(s);
      forall a: nat ensures Cover(bs, a) == Cover(s, a) { SortCounts(bs, a); }
      PassKeepsBytes(bs);
      hide Cover, WellFormed, Swept, Sorted, Sort, MergeFrom;
      SweepHalves(bs, s, 0, false);
      FirstIsNoJoint(bs, s);
      SortJoints(bs, bs);
      JointsOfBytes(bs, r, r);
    }
  }

  lemma FirstIsNoJoint(all: seq<Block>, s: seq<Block>)
    requires s != [] && Sorted(s) && forall a: nat :: Cover(all, a) == Cover(s, a)
    ensures Joints(all, s[..1]) == 0 && Joints(all, s[1..]) == Joints(all, s)
  {
    LowestIsNoJoint(s, 0);
    assert s[..1] == [s[0]] && [s[0]][1..] == [];
  }

  lemma {:induction false} FewerJoints(all: seq<Block>, bs: seq<Block>)
    ensures Joints(all, bs) <= InUse(bs)
  {
    if bs == [] {
    } else {
      FewerJoints(all, bs[1..]);
    }
  }

  lemma {:induction false} LowestIsNotCounted(bs: seq<Block>, i: nat)
    requires Sorted(bs) && i <= |bs| && InUse(bs[i..]) > 0 && forall j :: 0 <= j < i ==> bs[j].ptr == 0
    ensures Joints(bs, bs[i..]) < InUse(bs[i..])
    decreases |bs| - i
  {
    assert bs[i..][1..] == bs[i + 1..];
    LowestIsNoJoint(bs, i);
    if bs[i].ptr == 0 { LowestIsNotCounted(bs, i + 1); } else { FewerJoints(bs, bs[i + 1..]); }
  }

  function Power(n: nat): nat { if n == 0 then 1 else 2 * Power(n - 1) }

  // n passes over at most 2^n free blocks leave no two that touch, and exactly the same free bytes.
  lemma PassesSettle(bs: seq<Block>, n: nat)
    requires WellFormed(bs) && InUse(bs) <= Power(n)
    ensures !HasTouching(Passes(bs, n))
    ensures forall a: nat :: Cover(Passes(bs, n), a) == Cover(bs, a)
  {
    SortCounts(bs, 0);
    forall a: nat ensures Cover(bs, a) == Cover(Sort(bs), a) { SortCounts(bs, a); }
    SortSorts(bs);
    SortJoints(bs, bs);
    JointsOfBytes(bs, Sort(bs), Sort(bs));
    assert Sort(bs)[0..] == Sort(bs);
    if InUse(bs) > 0 { LowestIsNotCounted(Sort(bs), 0); } else { FewerJoints(bs, bs); }
    PowerIsPositive(n);
    PassesHalve(bs, n);
  }

  lemma {:induction false} PowerIsPositive(n: nat)
    ensures Power(n) > 0
  {
    if n == 0 {
    } else {
      PowerIsPositive(n - 1);
    }
  }

  lemma {:induction false} PassesHalve(bs: seq<Block>, n: nat)
    requires WellFormed(bs) && Joints(bs, bs) < Power(n)
    ensures !HasTouching(Passes(bs, n))
    ensures forall a: nat :: Cover(Passes(bs, n), a) == Cover(bs, a)
    decreases n
  {
    if n == 0 {
      forall i, j | 0 <= i < |bs| && 0 <= j < |bs| ensures !Touch(bs[i], bs[j]) {
        if Touch(bs[i], bs[j]) {
          assert bs[i] in bs;
          CoveredBy(bs, i, bs[j].ptr - 1);
          JointCounts(bs, bs, j);
        }
      }
    } else {
      PassHalves(bs);
      PassKeepsBytes(bs);
      PassKeepsWellFormed(bs);
      PassesHalve(MergePass(bs), n - 1);
    }
  }

  lemma {:induction false} JointCounts(all: seq<Block>, bs: seq<Block>, j: nat)
    requires j < |bs| && Joint(all, bs[j])
    ensures Joints(all, bs) > 0
  {
    if j == 0 {
    } else {
      JointCounts(all, bs[1..], j - 1);
    }
  }

  // ---- Allocation and deallocation --------------------------------------------------------------------------------

  // Every byte of the buffer is free once or live once, and no byte outside it is either.
  ghost predicate Partition(base: nat, free: seq<Block>, live: seq<Block>) {
    forall a: nat :: Cover(free, a) + Cover(live, a) == One(base <= a < base + BUFFER_SIZE)
  }

  // Carving `bytes` off the front of the block in slot i.
  function Carve(free: seq<Block>, i: nat, bytes: nat): seq<Block>
    requires i < |free| && free[i].size >= bytes
  {
    free[i := if free[i].size > bytes then Block(free[i].ptr + bytes, free[i].size - bytes) else NULL]
  }

  lemma CarveKeeps(base: nat, free: seq<Block>, live: seq<Block>, i: nat, bytes: nat)
    requires Partition(base, free, live) && i < |free| && free[i].ptr != 0 && free[i].size >= bytes
    ensures Partition(base, Carve(free, i, bytes), live + [Block(free[i].ptr, bytes)])
  {
    var b, rest := Block(free[i].ptr, bytes), Carve(free, i, bytes)[i];
    forall a: nat
      ensures Cover(Carve(free, i, bytes), a) + Cover(live + [b], a) == One(base <= a < base + BUFFER_SIZE)
    {
      CoverUpdate(free, i, rest, a);
      CoverAppend(live, [b], a);
      assert Cover([b], a) == One(Covers(b, a)) by { assert [b][1..] == []; }
    }
  }

  function Without(live: seq<Block>, k: nat): seq<Block>
    requires k < |live|
  {
    live[..k] + live[k + 1..]
  }

  lemma CoverWithout(live: seq<Block>, k: nat, a: nat)
    requires k < |live|
    ensures Cover(live, a) == Cover(Without(live, k), a) + One(Covers(live[k], a))
  {
    assert live == live[..k] + ([live[k]] + live[k + 1..]);
    CoverAppend(live[..k], [live[k]] + live[k + 1..], a);
    CoverAppend(live[..k], live[k + 1..], a);
    assert ([live[k]] + live[k + 1..])[1..] == live[k + 1..];
  }

  // The first slot with that pointer.
  function FirstAt(bs: seq<Block>, p: nat): (i: nat)
    ensures i <= |bs| && (i < |bs| ==> bs[i].ptr == p) && forall j :: 0 <= j < i ==> bs[j].ptr != p
  {
    if bs == [] || bs[0].ptr == p then 0 else 1 + FirstAt(bs[1..], p)
  }

  // The first block in use with room for that many bytes.
  function FirstFit(bs: seq<Block>, bytes: nat): (i: nat)
    ensures i <= |bs| && (i < |bs| ==> bs[i].ptr != 0 && bs[i].size >= bytes)
    ensures forall j :: 0 <= j < i ==> bs[j].ptr == 0 || bs[j].size < bytes
  {
    if bs == [] || (bs[0].ptr != 0 && bs[0].size >= bytes) then 0 else 1 + FirstFit(bs[1..], bytes)
  }

  lemma FitIsUnique(bs: seq<Block>, bytes: nat, i: nat)
    requires i <= |bs| && (i < |bs| ==> bs[i].ptr != 0 && bs[i].size >= bytes)
    requires forall j :: 0 <= j < i ==> bs[j].ptr == 0 || bs[j].size < bytes
    ensures i == FirstFit(bs, bytes)
  {
  }

  // What deallocate finds for a pointer, and what it does to the free table: the first record of the pointer decides.
  function Recorded(records: seq<Block>, p: nat): nat {
    var r := FirstAt(records, p);
    if r < |records| then records[r].size else 0
  }

  function Deallocated(free: seq<Block>, records: seq<Block>, p: nat): seq<Block> {
    var slot := FirstAt(free, 0);
    if slot < |free| && FirstAt(records, p) < |records| then MergePass(free[slot := Block(p, Recorded(records, p))])
    else free
  }

  // The block that the client gives up with the call, if it holds one there.
  function SizeGiven(live: seq<Block>, given: Option<nat>): nat
    requires given.Some? ==> given.value < |live|
  {
    if given.Some? then live[given.value].size else 0
  }

  function Kept(live: seq<Block>, given: Option<nat>): seq<Block>
    requires given.Some? ==> given.value < |live|
  {
    if given.Some? then Without(live, given.value) else live
  }

  ghost predicate MayGive(live: seq<Block>, p: nat, given: Option<nat>) {
    given.Some? ==> given.value < |live| && live[given.value].ptr == p
  }

  // Deallocation keeps the partition exactly when the first record of the pointer has the size the client gives up.
  lemma DeallocateIsExact(
    base: nat, free: seq<Block>, records: seq<Block>, live: seq<Block>, p: nat, given: Option<nat>)
    requires Partition(base, free, live) && FirstAt(free, 0) < |free| && MayGive(live, p, given)
    requires p == 0 ==> Recorded(records, p) == SizeGiven(live, given) == 0
    ensures Partition(base, Deallocated(free, records, p), Kept(live, given)) <==>
            Recorded(records, p) == SizeGiven(live, given)
  {
    var b, g := Block(p, Recorded(records, p)), Block(p, SizeGiven(live, given));
    var free', live' := Deallocated(free, records, p), Kept(live, given);
    forall a: nat ensures Cover(free', a) + Cover(live', a)
                     == One(base <= a < base + BUFFER_SIZE) - One(Covers(g, a)) + One(Covers(b, a)) {
      DeallocatedBytes(free, records, p, a);
      if given.Some? { CoverWithout(live, given.value, a); }
    }
    if b.size < g.size { assert Covers(g, p + b.size) && !Covers(b, p + b.size); }
    if b.size > g.size { assert Covers(b, p + g.size) && !Covers(g, p + g.size); }
  }

  lemma DeallocatedBytes(free: seq<Block>, records: seq<Block>, p: nat, a: nat)
    requires FirstAt(free, 0) < |free|
    ensures Cover(Deallocated(free, records, p), a) == Cover(free, a) + One(Covers(Block(p, Recorded(records, p)), a))
  {
    var slot, b := FirstAt(free, 0), Block(p, Recorded(records, p));
    if FirstAt(records, p) < |records| {
      PassKeepsBytes(free[slot := b]);
      CoverUpdate(free, slot, b, a);
    }
  }

  // `live` is what the clients hold: the blocks allocated and not yet deallocated.
  class Allocator {
    const base: nat
    const elementSize: nat
    const records: array<Block>
    const free: array<Block>
    ghost var live: seq<Block>

    ghost predicate Shape() {
      base > 0 && elementSize > 0 && free != records && free.Length == records.Length == SLOTS
    }

    // The buffer is divided between free and live blocks, and every live block has a record.
    ghost predicate Valid()
      reads this, free, records
    {
      && Shape() && Partition(base, free[..], live) && (forall b :: b in live ==> b.ptr != 0 && b in records[..])
      && (forall b :: b in records[..] && b.ptr == 0 ==> b.size == 0)
    }

    constructor (base: nat, elementSize: nat)
      requires base > 0 && elementSize > 0
      ensures Valid() && fresh(free) && fresh(records) && live == [] && this.base == base
      ensures this.elementSize == elementSize
      ensures free[..] == [Block(base, BUFFER_SIZE)] + seq(SLOTS - 1, _ => NULL) && records[..] == seq(SLOTS, _ => NULL)
    {
      this.base, this.elementSize := base, elementSize;
      var f := new Block[SLOTS](i => if i == 0 then Block(base, BUFFER_SIZE) else NULL);
      var t := new Block[SLOTS](_ => NULL);
      free, records, live := f, t, [];
      new;
      assert free[..] == [Block(base, BUFFER_SIZE)] + seq(SLOTS - 1, _ => NULL);
      OneBlock(Block(base, BUFFER_SIZE), SLOTS - 1);
    }

    method SearchNull(table: array<Block>) returns (i: nat)
      requires exists k :: 0 <= k < table.Length && table[k].ptr == 0
      ensures i < table.Length && i == FirstAt(table[..], 0)
    {
      i := 0;
      while table[i].ptr != 0
        invariant i <= table.Length && forall j :: 0 <= j < i ==> table[j].ptr != 0
        decreases table.Length - i
      {
        i := i + 1;
      }
    }

    // std::sort over the table.
    method SortTable()
      modifies free
      ensures free[..] == Sort(old(free[..]))
    {
      ghost var before := free[..];
      var sorted := Sort(free[..]);
      SortSorts(before);
      forall i | 0 <= i < free.Length { free[i] := sorted[i]; }
      assert free[..] == sorted;
    }

    method MergeFreeBlocks()
      requires Shape()
      modifies free
      ensures free[..] == MergePass(old(free[..]))
    {
      ghost var before := free[..];
      SortTable();
      var i := 0;
      while i < SLOTS - 1
        invariant 0 <= i <= SLOTS - 1 && MergeFrom(free[..], i) == MergePass(before)
      {
        ghost var now := free[..];
        if free[i].ptr != 0 && free[i + 1].ptr != 0 {
          if free[i].ptr + free[i].size == free[i + 1].ptr {
            free[i] := Block(free[i].ptr, free[i].size + free[i + 1].size);
            free[i + 1] := NULL;
          }
        }
        assert free[..] == MergeAt(now, i);
        i := i + 1;
      }
    }

    method SearchFit(bytes: nat) returns (i: nat)
      requires Shape()
      ensures i <= SLOTS && i == FirstFit(free[..], bytes)
    {
      i := 0;
      while i < SLOTS && !(free[i].ptr != 0 && free[i].size >= bytes)
        invariant 0 <= i <= SLOTS && forall j :: 0 <= j < i ==> free[j].ptr == 0 || free[j].size < bytes
      {
        i := i + 1;
      }
      FitIsUnique(free[..], bytes, i);
    }

    // The client gets the front of the block in slot i, and the record of its size.
    method TakeFront(i: nat, bytes: nat) returns (p: nat)
      requires Valid() && i < SLOTS && free[i].ptr != 0 && free[i].size >= bytes
      requires exists k :: 0 <= k < SLOTS && records[k].ptr == 0
      modifies this, free, records
      ensures Valid() && p == old(free[i].ptr) && free[..] == Carve(old(free[..]), i, bytes)
      ensures live == old(live) + [Block(p, bytes)]
      ensures records[..] == old(records[..])[FirstAt(old(records[..]), 0) := Block(p, bytes)]
    {
      hide Cover, FirstAt, Partition;
      ghost var before, noted := free[..], records[..];
      p := free[i].ptr;
      var slot := SearchNull(records);
      records[slot] := Block(p, bytes);
      free[i] := if free[i].size > bytes then Block(free[i].ptr + bytes, free[i].size - bytes) else NULL;
      assert free[..] == Carve(before, i, bytes);
      CarveKeeps(base, before, live, i, bytes);
      assert records[..] == noted[slot := Block(p, bytes)];
      RecordsKeep(noted, live, slot, Block(p, bytes));
      live := live + [Block(p, bytes)];
    }

    // allocate: the first free block that is large enough is cut at its front.  0 is the source's nullptr, when none
    // is.
    method Allocate(n: nat) returns (p: nat)
      requires Valid()
      requires FirstFit(free[..], n * elementSize) < SLOTS ==> exists k :: 0 <= k < SLOTS && records[k].ptr == 0
      modifies this, free, records
      ensures Valid()
      ensures p == 0 <==> forall b :: b in old(free[..]) ==> b.ptr == 0 || b.size < n * elementSize
      ensures p == 0 ==> live == old(live) && records[..] == old(records[..]) && free[..] == MergePass(old(free[..]))
      ensures p != 0 ==>
                var was, bytes := old(free[..]), n * elementSize;
                var i := FirstFit(was, bytes);
                && i < SLOTS && p == was[i].ptr && free[..] == MergePass(Carve(was, i, bytes))
                && live == old(live) + [Block(p, bytes)]
                && records[..] == old(records[..])[FirstAt(old(records[..]), 0) := Block(p, bytes)]
    {
      hide Partition, Cover, MergePass, FirstAt, Carve;
      var bytes := n * elementSize;
      p := 0;
      var i := SearchFit(bytes);
      if i < SLOTS {
        assert free[i] in free[..];
        p := TakeFront(i, bytes);
      }
      PassKeepsPartition(base, free[..], live);
      MergeFreeBlocks();
    }

    // deallocate: the allocator is intact afterwards exactly when the first record of the pointer has the size of the
    // block given up.  nullptr and pointers without a record change no byte.
    method Deallocate(p: nat, ghost given: Option<nat>)
      requires Valid() && (exists i :: 0 <= i < SLOTS && free[i].ptr == 0) && MayGive(live, p, given)
      modifies this, free
      ensures free[..] == Deallocated(old(free[..]), records[..], p) && live == Kept(old(live), given)
      ensures Valid() <==> Recorded(records[..], p) == SizeGiven(old(live), given)
    {
      hide Partition, Cover, MergePass;
      ghost var before, held := free[..], live;
      var slot := SearchNull(free);
      var i := 0;
      while i < SLOTS && records[i].ptr != p
        invariant 0 <= i <= SLOTS && forall j :: 0 <= j < i ==> records[j].ptr != p
      {
        i := i + 1;
      }
      FirstIsUnique(records[..], p, i);
      NullMeansNothing(records[..], live, p, given);
      DeallocateIsExact(base, before, records[..], live, p, given);
      if i < SLOTS {
        free[slot] := Block(p, records[i].size);
        assert free[..] == before[slot := Block(p, records[i].size)];
        MergeFreeBlocks();
      }
      live := Kept(live, given);
      assert forall b :: b in live ==> b in held;
    }
  }

  lemma PassKeepsPartition(base: nat, free: seq<Block>, live: seq<Block>)
    requires Partition(base, free, live)
    ensures Partition(base, MergePass(free), live)
  {
    PassKeepsBytes(free);
  }

  lemma RecordsKeep(records: seq<Block>, live: seq<Block>, slot: nat, b: Block)
    requires slot < |records| && records[slot].ptr == 0 && b.ptr != 0
    requires forall c :: c in live ==> c.ptr != 0 && c in records
    requires forall c :: c in records && c.ptr == 0 ==> c.size == 0
    ensures forall c :: c in live + [b] ==> c.ptr != 0 && c in records[slot := b]
    ensures forall c :: c in records[slot := b] && c.ptr == 0 ==> c.size == 0
  {
    forall c | c in live + [b] ensures c.ptr != 0 && c in records[slot := b] {
      if c in live {
        var j :| 0 <= j < |records| && records[j] == c;
        assert records[slot := b][j] == c;
      } else {
        assert records[slot := b][slot] == b;
      }
    }
    forall c | c in records[slot := b] && c.ptr == 0 ensures c.size == 0 { assert c in records; }
  }

  lemma NullMeansNothing(records: seq<Block>, live: seq<Block>, p: nat, given: Option<nat>)
    requires MayGive(live, p, given) && (forall b :: b in live ==> b.ptr != 0)
    requires forall b :: b in records && b.ptr == 0 ==> b.size == 0
    ensures p == 0 ==> Recorded(records, p) == SizeGiven(live, given) == 0
  {
    var r := FirstAt(records, p);
    if r < |records| { assert records[r] in records; }
    if given.Some? { assert live[given.value] in live; }
  }

  // Tables without empty blocks stay so: allocation never leaves one behind, and deallocation only when it is given
  // one.
  lemma AllocationStaysWellFormed(free: seq<Block>, i: nat, bytes: nat)
    requires WellFormed(free) && i < |free| && free[i].ptr != 0 && free[i].size >= bytes
    ensures WellFormed(MergePass(Carve(free, i, bytes)))
  {
    var free' := Carve(free, i, bytes);
    forall b | b in free' ensures b.ptr == 0 <==> b.size == 0 { assert b == free'[i] || b in free; }
    forall a: nat ensures Cover(free', a) <= 1 { CoverUpdate(free, i, free'[i], a); }
    PassKeepsWellFormed(free');
  }

  lemma DeallocationStaysWellFormed(base: nat, free: seq<Block>, records: seq<Block>, live: seq<Block>, p: nat)
    requires WellFormed(free) && FirstAt(free, 0) < |free| && (p == 0 <==> Recorded(records, p) == 0)
    requires Partition(base, Deallocated(free, records, p), live)
    ensures WellFormed(Deallocated(free, records, p))
  {
    var slot, b := FirstAt(free, 0), Block(p, Recorded(records, p));
    if FirstAt(records, p) < |records| {
      var free' := free[slot := b];
      forall c | c in free' ensures c.ptr == 0 <==> c.size == 0 { assert c == b || c in free; }
      PassKeepsBytes(free');
      assert forall a: nat :: Cover(Deallocated(free, records, p), a) <= 1;
      PassKeepsWellFormed(free');
    }
  }

  lemma FirstIsUnique(bs: seq<Block>, p: nat, i: nat)
    requires i <= |bs| && (i < |bs| ==> bs[i].ptr == p) && forall j :: 0 <= j < i ==> bs[j].ptr != p
    ensures i == FirstAt(bs, p)
  {
  }

  lemma {:induction false} NullsCoverNothing(bs: seq<Block>, a: nat)
    requires forall j :: 0 <= j < |bs| ==> bs[j] == NULL
    ensures Cover(bs, a) == 0 && InUse(bs) == 0
  {
    if bs == [] {
    } else {
      NullsCoverNothing(bs[1..], a);
    }
  }

  lemma OneBlock(b: Block, n: nat)
    requires b.ptr != 0 && b.size > 0
    ensures WellFormed([b] + seq(n, _ => NULL))
    ensures forall a: nat :: Cover([b] + seq(n, _ => NULL), a) == One(Covers(b, a))
  {
    var bs := [b] + seq(n, _ => NULL);
    assert bs[1..] == seq(n, _ => NULL);
    forall a: nat ensures Cover(bs, a) == One(Covers(b, a)) { NullsCoverNothing(bs[1..], a); }
  }

  // ---- An address used again at another size ----------------------------------------------------------------------

  lemma {:induction false} UnusedCoversNothing(bs: seq<Block>, a: nat)
    requires InUse(bs) == 0
    ensures Cover(bs, a) == 0 && forall b :: b in bs ==> b.ptr == 0
  {
    if bs == [] {
    } else {
      UnusedCoversNothing(bs[1..], a);
      assert forall b :: b in bs ==> b == bs[0] || b in bs[1..];
    }
  }

  // A table with one slot in use holds exactly the bytes it covers.
  lemma {:induction false} OneSlotCoversAll(bs: seq<Block>, whole: Block) returns (i: nat)
    requires InUse(bs) <= 1 && whole.ptr != 0 && whole.size > 0
    requires forall a: nat :: Cover(bs, a) == One(Covers(whole, a))
    ensures i < |bs| && bs[i] == whole && forall j :: 0 <= j < |bs| && j != i ==> bs[j].ptr == 0
  {
    assert Cover(bs, whole.ptr) == 1;
    if bs[0].ptr == 0 {
      forall a: nat ensures Cover(bs[1..], a) == One(Covers(whole, a)) { assert Cover(bs, a) == Cover(bs[1..], a); }
      i := OneSlotCoversAll(bs[1..], whole);
      i := i + 1;
    } else {
      forall a: nat ensures Covers(bs[0], a) == Covers(whole, a) {
        UnusedCoversNothing(bs[1..], a);
        assert Cover(bs, a) == One(Covers(whole, a));
      }
      SameBytes(bs[0], whole);
      UnusedCoversNothing(bs[1..], 0);
      forall j | 0 < j < |bs| ensures bs[j].ptr == 0 { assert bs[j] == bs[1..][j - 1]; }
      i := 0;
    }
  }

  lemma SameBytes(b: Block, c: Block)
    requires b.ptr != 0 && c.ptr != 0 && c.size > 0 && forall a: nat :: Covers(b, a) == Covers(c, a)
    ensures b == c
  {
    assert Covers(c, c.ptr) && Covers(b, c.ptr) && Covers(b, b.ptr) && Covers(c, b.ptr);
    assert Covers(b, b.ptr + b.size) == Covers(c, b.ptr + b.size);
    assert Covers(b, c.ptr + c.size) == Covers(c, c.ptr + c.size);
  }

  // Giving back the front of a buffer whose rest is one free block, or nothing, makes it whole again.
  lemma BufferIsWhole(free: seq<Block>, slot: nat, front: Block, rest: Block, whole: Block) returns (i: nat)
    requires WellFormed(free) && InUse(free) <= 1 && slot < |free| && free[slot].ptr == 0 && front.ptr != 0
    requires front.size > 0
    requires whole == Block(front.ptr, front.size + rest.size) && rest.ptr == front.ptr + front.size
    requires forall a: nat :: Cover(free, a) == One(Covers(rest, a))
    ensures var free' := MergePass(free[slot := front]);
            i < |free'| && free'[i] == whole && forall j :: 0 <= j < |free'| && j != i ==> free'[j] == NULL
  {
    var now := free[slot := front];
    forall b | b in now ensures b.ptr == 0 <==> b.size == 0 { assert b == front || b in free; }
    forall a: nat ensures Cover(now, a) == One(Covers(whole, a)) { CoverUpdate(free, slot, front, a); }
    InUseUpdate(free, slot, front);
    PassKeepsBytes(now);
    if rest.size > 0 {
      var r := OneSlotCoversAll(free, rest);
      assert r != slot && now[r] == rest && now[slot] == front && Touch(front, rest);
      PassMerges(now);
    } else {
      NothingInUse(free);
    }
    i := OneSlotCoversAll(MergePass(now), whole);
    PassKeepsWellFormed(now);
    forall j | 0 <= j < |now| && j != i ensures MergePass(now)[j] == NULL {
      assert MergePass(now)[j] in MergePass(now);
    }
  }

  lemma {:induction false} NothingInUse(bs: seq<Block>)
    requires (forall b :: b in bs ==> (b.ptr == 0 <==> b.size == 0)) && forall a: nat :: Cover(bs, a) == 0
    ensures InUse(bs) == 0
  {
    if bs == [] {
    } else {
      assert bs[0] in bs && Cover(bs, bs[0].ptr) == 0;
      forall a: nat ensures Cover(bs[1..], a) == 0 { assert Cover(bs, a) == 0; }
      NothingInUse(bs[1..]);
    }
  }

  lemma {:induction false} SpareSlot(bs: seq<Block>)
    requires InUse(bs) < |bs|
    ensures FirstAt(bs, 0) < |bs|
  {
    if bs[0].ptr != 0 { SpareSlot(bs[1..]); }
  }

  // A table with the whole buffer in one slot, after an allocation.
  lemma CarvedOnce(free: seq<Block>, i: nat, whole: Block, bytes: nat)
    requires |free| == SLOTS && i < SLOTS && free[i] == whole && whole.ptr != 0 && 0 < bytes <= whole.size
    requires forall j :: 0 <= j < SLOTS && j != i ==> free[j] == NULL
    ensures FirstFit(free, bytes) == i
    ensures var free' := MergePass(Carve(free, i, bytes));
            && |free'| == SLOTS && WellFormed(free') && InUse(free') <= 1 && FirstAt(free', 0) < SLOTS
            && forall a: nat :: Cover(free', a) == One(Covers(Block(whole.ptr + bytes, whole.size - bytes), a))
  {
    FitIsUnique(free, bytes, i);
    forall a: nat ensures Cover(free, a) == One(Covers(whole, a)) { OnlyOne(free, i, a); }
    OnlyOne(free, i, 0);
    AllocationStaysWellFormed(free, i, bytes);
    var now := Carve(free, i, bytes);
    InUseUpdate(free, i, now[i]);
    PassKeepsBytes(now);
    SpareSlot(MergePass(now));
    forall a: nat ensures Cover(now, a) == One(Covers(Block(whole.ptr + bytes, whole.size - bytes), a)) {
      CoverUpdate(free, i, now[i], a);
    }
  }

  lemma OnlyOne(free: seq<Block>, i: nat, a: nat)
    requires i < |free| && forall j :: 0 <= j < |free| && j != i ==> free[j] == NULL
    ensures Cover(free, a) == One(Covers(free[i], a)) && InUse(free) == One(free[i].ptr != 0)
  {
    NullsCoverNothing(free[i := NULL], a);
    CoverUpdate(free, i, NULL, a);
    InUseUpdate(free, i, NULL);
  }

  // The first record of an address stays the first one when a later block there is recorded behind it.
  lemma OldRecordFirst(none: seq<Block>, base: nat, first: nat, second: nat)
    requires base > 0 && |none| == SLOTS && forall b :: b in none ==> b == NULL
    ensures FirstAt(none, 0) == 0
    ensures var one := none[0 := Block(base, first)];
            && Recorded(one, base) == first && FirstAt(one, 0) == 1
            && Recorded(one[1 := Block(base, second)], base) == first
  {
    var one := none[0 := Block(base, first)];
    assert none[0] in none && none[1] in none;
    FirstIsUnique(none, 0, 0);
    FirstIsUnique(one, 0, 1);
    FirstIsUnique(one, base, 0);
    FirstIsUnique(one[1 := Block(base, second)], base, 0);
  }

  // The whole buffer in one slot, and all others null.
  ghost predicate Whole(free: seq<Block>, base: nat, i: nat) {
    && |free| == SLOTS && i < SLOTS && free[i] == Block(base, BUFFER_SIZE)
    && forall j :: 0 <= j < SLOTS && j != i ==> free[j] == NULL
  }

  // A block allocated from a whole buffer is at its start; given back, it leaves the buffer whole if the first record
  // of the address has its size, and the allocator broken otherwise.
  method AllocateAndGiveBack(a: Allocator, ghost i: nat, n: nat) returns (p: nat, ghost i': nat)
    requires a.Valid() && a.live == [] && Whole(a.free[..], a.base, i) && 0 < n * a.elementSize <= BUFFER_SIZE
    requires FirstAt(a.records[..], 0) < SLOTS
    modifies a, a.free, a.records
    ensures p == a.base && a.live == []
    ensures a.records[..] == old(a.records[..])[FirstAt(old(a.records[..]), 0) := Block(p, n * a.elementSize)]
    ensures a.Valid() <==> Recorded(a.records[..], p) == n * a.elementSize
    ensures a.Valid() ==> Whole(a.free[..], a.base, i')
  {
    hide MergePass, Carve, FirstFit, FirstAt, Cover, Recorded, InUse;
    ghost var bytes, whole := n * a.elementSize, Block(a.base, BUFFER_SIZE);
    CarvedOnce(a.free[..], i, whole, bytes);
    p := a.Allocate(n);
    ghost var free := a.free[..];
    a.Deallocate(p, Some(0));
    i' := 0;
    if a.Valid() {
      i' := BufferIsWhole(free, FirstAt(free, 0), Block(p, bytes), Block(p + bytes, BUFFER_SIZE - bytes), whole);
    }
  }

  // Allocate, give back, allocate fewer or more elements, give back: the address is the same, its old record comes
  // first, and the allocator is no longer intact.
  method ReuseAtAnotherSize(base: nat, elementSize: nat, n: nat, m: nat) returns (a: Allocator, p: nat, q: nat)
    requires base > 0 && elementSize > 0 && n > 0 && m > 0 && n != m
    requires n * elementSize <= BUFFER_SIZE && m * elementSize <= BUFFER_SIZE
    ensures p == q == base && a.base == base && a.live == [] && !a.Valid()
  {
    hide FirstAt, Recorded, Partition;
    ghost var first, second := n * elementSize, m * elementSize;
    assert first > 0 && second > 0 && first != second by { ProductsDiffer(n, m, elementSize); }
    a := new Allocator(base, elementSize);
    OldRecordFirst(a.records[..], base, first, second);
    ghost var i;
    p, i := AllocateAndGiveBack(a, 0, n);
    q, i := AllocateAndGiveBack(a, i, m);
  }

  lemma ProductsDiffer(n: nat, m: nat, c: nat)
    requires n > 0 && m > 0 && c > 0 && n != m
    ensures n * c > 0 && m * c > 0 && n * c != m * c
  {
    assert n * c - m * c == (n - m) * c;
  }
}
