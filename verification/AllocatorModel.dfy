/** The block allocator of malloc.c: which run of blocks is found, and what every run of calls keeps. */
module AllocatorModel {

  // The map: 0 for a free block, and in each block of an allocation its number of blocks. live, which
  // the program does not have, holds the first block and the number of blocks of each allocation.
  datatype Mem = Mem(table: seq<nat>, ready: bool, live: map<nat, nat>)

  predicate FreeRun(table: seq<nat>, o: nat, n: nat) {
    o + n <= |table| && forall i :: o <= i < o + n ==> table[i] == 0
  }

  // ----- the scan --------------------------------------------------------------------------------

  // The loop of my_mem_malloc, with k blocks still to look at and the c blocks above them free.
  function Scan(table: seq<nat>, n: nat, k: nat, c: nat): (r: int)
    requires k <= |table|
    ensures -1 <= r < k
  {
    if k == 0 then -1
    else
      var c' := if table[k - 1] == 0 then c + 1 else 0;
      if c' == n then k - 1 else Scan(table, n, k - 1, c')
  }

  // No run of n free blocks starts at block k or above.
  predicate NoneFrom(table: seq<nat>, n: nat, k: nat) {
    forall o :: k <= o <= |table| ==> !FreeRun(table, o, n)
  }

  // The scan finds the highest run that fits, and finds one if there is one.
  lemma {:induction false} ScanExact(table: seq<nat>, n: nat, k: nat, c: nat)
    requires k <= |table| && 0 < n && c < n && FreeRun(table, k, c) && (k + c == |table| || table[k + c] != 0)
    requires NoneFrom(table, n, k)
    ensures var r := Scan(table, n, k, c);
            if r >= 0 then FreeRun(table, r, n) && NoneFrom(table, n, r + 1) else NoneFrom(table, n, 0)
    decreases k
  {
    if k > 0 {
      var c' := if table[k - 1] == 0 then c + 1 else 0;
      if c' != n {
        assert !FreeRun(table, k - 1, n);
        assert NoneFrom(table, n, k - 1);
        ScanExact(table, n, k - 1, c');
      }
    }
  }

  lemma ScanFits(table: seq<nat>, n: nat)
    requires 0 < n
    ensures var r := Scan(table, n, |table|, 0); r >= 0 ==> r + n <= |table|
  {
    ScanExact(table, n, |table|, 0);
  }

  // ----- the calls -------------------------------------------------------------------------------

  // The number of blocks for size bytes.
  function Blocks(size: nat, block: nat): nat
    requires block > 0
  {
    if size % block != 0 then size / block + 1 else size / block
  }

  lemma BlocksHold(size: nat, block: nat)
    requires block > 0
    ensures var n := Blocks(size, block);
            n * block >= size && (size > 0 ==> n > 0 && (n - 1) * block < size)
  {
    var q, r := size / block, size % block;
    assert size == q * block + r;
  }

  function Filled(table: seq<nat>, o: nat, n: nat, v: nat): (r: seq<nat>)
    requires o + n <= |table|
    ensures |r| == |table|
    ensures forall i :: 0 <= i < |table| ==> r[i] == if o <= i < o + n then v else table[i]
  {
    if n == 0 then table else Filled(table, o, n - 1, v)[o + n - 1 := v]
  }

  // my_mem_init
  function Init(m: Mem): Mem {
    Mem(Filled(m.table, 0, |m.table|, 0), true, map[])
  }

  function Ready(m: Mem): Mem {
    if m.ready then m else Init(m)
  }

  datatype Result = Failed | Block(index: nat)

  // my_mem_malloc, with its result as the number of a block.
  function Malloc(m: Mem, size: nat, block: nat): (Mem, Result)
    requires block > 0
  {
    var q := Ready(m);
    var n := Blocks(size, block);
    if size == 0 then (q, Failed)
    else
      var r := Scan(q.table, n, |q.table|, 0);
      if r < 0 || r + n > |q.table| then (q, Failed)
      else (q.(table := Filled(q.table, r, n, n), live := q.live[r := n]), Block(r))
  }

  // my_mem_free of a block, on a map that has been set up.
  function Free(m: Mem, index: nat): Mem
    requires index < |m.table| && index + m.table[index] <= |m.table|
  {
    m.(table := Filled(m.table, index, m.table[index], 0), live := m.live - {index})
  }

  // ----- the invariant ---------------------------------------------------------------------------

  predicate Covers(live: map<nat, nat>, o: nat, i: nat) {
    o in live && o <= i < o + live[o]
  }

  ghost predicate Owned(live: map<nat, nat>, i: nat) {
    exists o: nat :: Covers(live, o, i)
  }

  ghost predicate Within(table: seq<nat>, live: map<nat, nat>) {
    forall o: nat :: o in live ==> 0 < live[o] && o + live[o] <= |table|
  }

  ghost predicate Apart(live: map<nat, nat>) {
    forall o: nat, p: nat :: o in live && p in live && o < p ==> o + live[o] <= p
  }

  ghost predicate Marked(table: seq<nat>, live: map<nat, nat>) {
    forall o: nat, i: nat :: Covers(live, o, i) && i < |table| ==> table[i] == live[o]
  }

  // The allocations are runs of blocks inside the table, no block is in two of them, and the blocks
  // in none of them are exactly the free ones.
  ghost predicate Inv(m: Mem) {
    && Within(m.table, m.live) && Apart(m.live) && Marked(m.table, m.live)
    && forall i: nat :: i < |m.table| && m.table[i] != 0 ==> Owned(m.live, i)
  }

  lemma InitInv(m: Mem)
    ensures Inv(Init(m))
  {
  }

  // A free block is in no allocation.
  lemma FreeUnowned(m: Mem, i: nat)
    requires Inv(m) && i < |m.table| && m.table[i] == 0
    ensures !Owned(m.live, i)
  {
  }

  lemma PlaceApart(m: Mem, o: nat, n: nat)
    requires Inv(m) && 0 < n && FreeRun(m.table, o, n)
    ensures o !in m.live && Apart(m.live[o := n]) && Within(m.table, m.live[o := n])
  {
    FreeUnowned(m, o);
    forall p: nat | p in m.live ensures p != o && (o < p ==> o + n <= p) && (p < o ==> p + m.live[p] <= o) {
      assert Covers(m.live, p, p);
      assert p <= o < p + m.live[p] ==> Covers(m.live, p, o);
      if o < p < o + n {
        FreeUnowned(m, p);
      }
    }
  }

  lemma PlaceInv(m: Mem, o: nat, n: nat)
    requires Inv(m) && 0 < n && FreeRun(m.table, o, n)
    ensures Inv(m.(table := Filled(m.table, o, n, n), live := m.live[o := n])) && o !in m.live
  {
    PlaceApart(m, o, n);
    var r := m.(table := Filled(m.table, o, n, n), live := m.live[o := n]);
    forall p: nat, i: nat | Covers(r.live, p, i) && i < |r.table| ensures r.table[i] == r.live[p] {
      assert p != o ==> Covers(m.live, p, i);
    }
    forall i: nat | i < |r.table| && r.table[i] != 0 ensures Owned(r.live, i) {
      if o <= i < o + n {
        assert Covers(r.live, o, i);
      } else {
        var p :| Covers(m.live, p, i);
        assert Covers(r.live, p, i);
      }
    }
  }

  // Allocation: it fails exactly for size 0 or when no run is long enough, and otherwise gives the
  // run that starts highest.
  lemma MallocExact(m: Mem, size: nat, block: nat)
    requires block > 0 && Inv(m)
    ensures var (r, res) := Malloc(m, size, block);
            var q, n := Ready(m), Blocks(size, block);
            && Inv(r) && r.ready && |r.table| == |m.table|
            && (res.Failed? <==> size == 0 || NoneFrom(q.table, n, 0)) && (res.Failed? ==> r == q)
            && (res.Block? ==>
                  && FreeRun(q.table, res.index, n) && NoneFrom(q.table, n, res.index + 1)
                  && res.index !in q.live && r.live == q.live[res.index := n])
  {
    InitInv(m);
    var q, n := Ready(m), Blocks(size, block);
    if size > 0 {
      BlocksHold(size, block);
      hide Inv, Filled, Blocks;
      ScanExact(q.table, n, |q.table|, 0);
      var r := Scan(q.table, n, |q.table|, 0);
      if r >= 0 {
        PlaceInv(q, r, n);
      } else {
        assert NoneFrom(q.table, n, 0);
      }
    }
  }

  // Freeing an allocation gives back its blocks and no others.
  lemma FreeExact(m: Mem, index: nat)
    requires Inv(m) && index in m.live
    ensures index < |m.table| && m.table[index] == m.live[index] && index + m.live[index] <= |m.table|
    ensures var r := Free(m, index);
            && Inv(r) && r.live == m.live - {index}
            && forall i: nat :: i < |m.table| ==> r.table[i] == if Covers(m.live, index, i) then 0 else m.table[i]
  {
    assert Covers(m.live, index, index);
    var r := Free(m, index);
    assert Apart(r.live) && Within(r.table, r.live);
    hide Within;
    forall o: nat, i: nat | Covers(r.live, o, i) && i < |r.table| ensures r.table[i] == r.live[o] {
      assert Covers(m.live, o, i);
    }
    hide Apart, Marked;
    forall i: nat | i < |r.table| && r.table[i] != 0 ensures Owned(r.live, i) {
      var o :| Covers(m.live, o, i);
      assert Covers(r.live, o, i);
    }
  }

  // Freeing a block is sound exactly if an allocation starts there or the block is free already: from
  // inside an allocation the loop clears part of it, and of what follows it.
  lemma FreeKeepsIff(m: Mem, index: nat)
    requires Inv(m) && index < |m.table| && index + m.table[index] <= |m.table|
    ensures Inv(Free(m, index)) <==> index in m.live || m.table[index] == 0
  {
    if index in m.live {
      FreeExact(m, index);
    } else {
      assert m.live - {index} == m.live;
      if m.table[index] == 0 {
        assert Free(m, index) == m;
      } else {
        var o :| Covers(m.live, o, index);
        assert Free(m, index).table[index] == 0;
      }
    }
  }

  // ----- runs ------------------------------------------------------------------------------------

  datatype Call = MallocCall(size: nat) | FreeCall(index: nat)

  function Apply(m: Mem, c: Call, block: nat): Mem
    requires block > 0
  {
    match c
    case MallocCall(size) => Malloc(m, size, block).0
    case FreeCall(index) =>
      if !m.ready then Init(m)
      else if index < |m.table| && index + m.table[index] <= |m.table| then Free(m, index)
      else m
  }

  // No block inside an allocation is freed. Blocks that are free, or lie outside, may be freed.
  predicate Can(m: Mem, c: Call) {
    c.FreeCall? && m.ready && c.index < |m.table| ==> c.index in m.live || m.table[c.index] == 0
  }

  function Steps(m: Mem, cs: seq<Call>, block: nat): Mem
    requires block > 0
    decreases |cs|
  {
    if cs == [] then m else Steps(Apply(m, cs[0], block), cs[1..], block)
  }

  predicate CanSteps(m: Mem, cs: seq<Call>, block: nat)
    requires block > 0
    decreases |cs|
  {
    cs == [] || (Can(m, cs[0]) && CanSteps(Apply(m, cs[0], block), cs[1..], block))
  }

  lemma FreeCallKeeps(m: Mem, index: nat, block: nat)
    requires block > 0 && Inv(m) && Can(m, FreeCall(index))
    ensures var r := Apply(m, FreeCall(index), block); Inv(r) && |r.table| == |m.table|
  {
    InitInv(m);
    hide Inv;
    if m.ready && index < |m.table| && index + m.table[index] <= |m.table| {
      FreeKeepsIff(m, index);
    }
  }

  lemma {:induction false} RunKeeps(m: Mem, cs: seq<Call>, block: nat)
    requires block > 0 && Inv(m) && CanSteps(m, cs, block)
    ensures Inv(Steps(m, cs, block)) && |Steps(m, cs, block).table| == |m.table|
    decreases |cs|
  {
    hide Inv, Malloc, Free;
    if cs != [] {
      match cs[0] {
        case MallocCall(size) => MallocExact(m, size, block);
        case FreeCall(index) => FreeCallKeeps(m, index, block);
      }
      RunKeeps(Apply(m, cs[0], block), cs[1..], block);
    }
  }

  // Once everything has been freed the map is empty again.
  lemma AllFreedIsEmpty(m: Mem, cs: seq<Call>, block: nat)
    requires block > 0 && Inv(m) && CanSteps(m, cs, block) && Steps(m, cs, block).live == map[]
    ensures FreeRun(Steps(m, cs, block).table, 0, |m.table|)
  {
    RunKeeps(m, cs, block);
    var r := Steps(m, cs, block);
    forall i: nat | i < |r.table| ensures r.table[i] == 0 {
      assert !Owned(r.live, i);
    }
  }

  // The bytes of two allocations do not overlap, and lie in the memory.
  lemma BytesApart(m: Mem, block: nat, o: nat, p: nat, x: nat)
    requires Inv(m) && block > 0 && o in m.live && p in m.live && o != p
    requires o * block <= x < (o + m.live[o]) * block
    ensures x < |m.table| * block && !(p * block <= x < (p + m.live[p]) * block)
  {
    var i := x / block;
    BlockOf(x, block, o, o + m.live[o]);
    BlockOf(x, block, p, p + m.live[p]);
    BlockOf(x, block, 0, |m.table|);
    assert Covers(m.live, o, i);
    assert o + m.live[o] <= p || p + m.live[p] <= o;
  }

  // The block that a byte lies in.
  lemma BlockOf(x: nat, b: nat, lo: nat, hi: nat)
    requires b > 0
    ensures lo * b <= x < hi * b <==> lo <= x / b < hi
  {
    var q, r := x / b, x % b;
    assert x == q * b + r && r < b;
    if lo <= q < hi {
      TimesMonotone(lo, q, b);
      TimesMonotone(q + 1, hi, b);
    } else if q < lo {
      TimesMonotone(q + 1, lo, b);
    } else {
      TimesMonotone(hi, q, b);
    }
  }

  lemma TimesMonotone(a: nat, b: nat, c: nat)
    requires a <= b
    ensures a * c <= b * c
  {
  }

  // my_mem_free of a block inside an allocation, not its first one, runs over the end of the map
  // exactly if the block lies closer to the end than the allocation is long.
  lemma InteriorFreeOverruns(m: Mem, o: nat, i: nat)
    requires Inv(m) && Covers(m.live, o, i)
    ensures i < |m.table| && (i + m.table[i] > |m.table| <==> |m.table| - i < m.live[o])
  {
    assert m.table[i] == m.live[o];
  }

  // A single call reaches such a block: two blocks are allocated in a memory of two, and the second
  // of them is then freed on its own.
  lemma InteriorFreeReached(block: nat)
    requires block > 0
    ensures var m := Steps(Init(Mem([0, 0], false, map[])), [MallocCall(2 * block)], block);
            Inv(m) && Covers(m.live, 0, 1) && 1 + m.table[1] > |m.table|
  {
    var m0 := Init(Mem([0, 0], false, map[]));
    assert m0.table == [0, 0];
    assert Blocks(2 * block, block) == 2 by {
      TwoBlocks(block);
    }
    assert Scan(m0.table, 2, 1, 1) == 0;
    assert Scan(m0.table, 2, 2, 0) == 0;
    var cs := [MallocCall(2 * block)];
    assert cs[1..] == [];
    RunKeeps(m0, cs, block);
  }

  lemma TwoBlocks(block: nat)
    requires block > 0
    ensures 2 * block / block == 2 && 2 * block % block == 0
  {
    var q, r := 2 * block / block, 2 * block % block;
    assert 2 * block == q * block + r;
    if q < 2 {
      TimesMonotone(q, 1, block);
    } else if q > 2 {
      TimesMonotone(3, q, block);
    }
  }
}
