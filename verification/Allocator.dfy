/** One memory bank of malloc.c. */
module Allocator {
  import opened AllocatorModel

  class MemoryBank {
    const memblksize: nat
    const memsize: nat
    const memmap: array<nat>
    var memrdy: bool
    ghost var live: map<nat, nat>

    ghost predicate Valid()
      reads this, memmap
    {
      memblksize > 0 && memsize == memmap.Length * memblksize && Inv(State())
    }

    ghost function State(): Mem
      reads this, memmap
    {
      Mem(memmap[..], memrdy, live)
    }

    constructor (blocks: nat, block: nat)
      requires block > 0
      ensures Valid() && fresh(memmap) && memmap.Length == blocks && memblksize == block && live == map[]
    {
      memblksize, memsize, memmap, memrdy, live := block, blocks * block, new nat[blocks](_ => 0), false, map[];
    }

    method my_mem_init()
      requires memblksize > 0 && memsize == memmap.Length * memblksize
      modifies this, memmap
      ensures Valid() && State() == Init(old(State()))
    {
      for i := 0 to memmap.Length
        invariant forall k :: 0 <= k < i ==> memmap[k] == 0
      {
        memmap[i] := 0;
      }
      memrdy := true;
      live := map[];
      assert memmap[..] == Filled(old(memmap[..]), 0, memmap.Length, 0);
    }

    // Sets n blocks of the map from o on.
    method Mark(o: nat, n: nat, v: nat)
      requires o + n <= memmap.Length
      modifies memmap
      ensures memmap[..] == Filled(old(memmap[..]), o, n, v)
    {
      for i := 0 to n
        invariant memmap[..] == Filled(old(memmap[..]), o, i, v)
      {
        memmap[o + i] := v;
      }
    }

    // The search, from the last block down. offset runs below 0 when nothing fits.
    method FindRun(nmemb: nat) returns (offset: int)
      requires nmemb > 0
      ensures offset == Scan(memmap[..], nmemb, memmap.Length, 0)
    {
      var cmemb := 0;
      offset := memmap.Length - 1;
      while offset >= 0
        invariant -1 <= offset < memmap.Length
        invariant Scan(memmap[..], nmemb, offset + 1, cmemb) == Scan(memmap[..], nmemb, memmap.Length, 0)
        decreases offset
      {
        if memmap[offset] == 0 {
          cmemb := cmemb + 1;
        } else {
          cmemb := 0;
        }
        if cmemb == nmemb {
          return;
        }
        offset := offset - 1;
      }
    }

    // The search, and the marking of the blocks found.
    method Allocate(nmemb: nat) returns (o: int)
      requires nmemb > 0
      modifies `live, memmap
      ensures o == Scan(old(memmap[..]), nmemb, memmap.Length, 0)
      ensures o >= 0 ==> o + nmemb <= memmap.Length
      ensures o >= 0 ==>
                State() == Mem(Filled(old(memmap[..]), o, nmemb, nmemb), old(memrdy), old(live)[o := nmemb])
      ensures o < 0 ==> State() == old(State())
    {
      hide Scan, Filled;
      ScanFits(memmap[..], nmemb);
      o := FindRun(nmemb);
      if o >= 0 {
        Mark(o, nmemb, nmemb);
        live := live[o := nmemb];
      }
    }

    method BlocksNeeded(size: nat) returns (nmemb: nat)
      requires memblksize > 0
      ensures nmemb == Blocks(size, memblksize)
    {
      nmemb := size / memblksize;
      if size % memblksize != 0 {
        nmemb := nmemb + 1;
      }
    }

    // The offset in bytes, or 0xFFFFFFFF if there is no room.
    method my_mem_malloc(size: nat) returns (offset: nat)
      requires Valid() && memsize < 0xFFFF_FFFF
      modifies this, memmap
      ensures Valid()
      ensures var (r, res) := Malloc(old(State()), size, memblksize);
              State() == r && offset == if res.Failed? then 0xFFFF_FFFF else res.index * memblksize
    {
      hide Inv, Scan, Filled, Blocks, NoneFrom, FreeRun, Init;
      MallocKeeps(State(), size, memblksize);
      if !memrdy {
        my_mem_init();
      }
      if size == 0 {
        return 0xFFFF_FFFF;
      }
      var nmemb := BlocksNeeded(size);
      BlocksPositive(size, memblksize);
      var o := Allocate(nmemb);
      if o >= 0 {
        return o * memblksize;
      }
      return 0xFFFF_FFFF;
    }

    // The offset may be any that does not make the loop run over the end of the map. The bank is sound
    // afterwards exactly if no block inside an allocation was freed.
    method my_mem_free(offset: nat) returns (result: nat)
      requires Valid()
      requires memrdy && offset < memsize ==>
                 InMap(offset) && offset / memblksize + memmap[offset / memblksize] <= memmap.Length
      modifies this, memmap
      ensures result == if !old(memrdy) then 1 else if offset < memsize then 0 else 2
      ensures Valid() <==> Can(old(State()), FreeCall(offset / memblksize))
      ensures State() == Apply(old(State()), FreeCall(offset / memblksize), memblksize)
    {
      InMapIff(offset);
      if !memrdy {
        my_mem_init();
        return 1;
      }
      if offset < memsize {
        var index := offset / memblksize;
        FreeKeepsIff(State(), index);
        hide Inv, Filled;
        var nmemb := memmap[index];
        Mark(index, nmemb, 0);
        live := live - {index};
        return 0;
      }
      return 2;
    }

    predicate InMap(offset: nat) {
      memblksize > 0 && offset / memblksize < memmap.Length
    }

    lemma InMapIff(offset: nat)
      requires memblksize > 0 && memsize == memmap.Length * memblksize
      ensures InMap(offset) <==> offset < memsize
    {
      BlockOf(offset, memblksize, 0, memmap.Length);
    }
  }

  lemma MallocKeeps(m: Mem, size: nat, block: nat)
    requires block > 0 && Inv(m)
    ensures Inv(Malloc(m, size, block).0) && |Malloc(m, size, block).0.table| == |m.table|
  {
    MallocExact(m, size, block);
  }

  lemma BlocksPositive(size: nat, block: nat)
    requires block > 0 && size > 0
    ensures Blocks(size, block) > 0
  {
    BlocksHold(size, block);
  }
}
