/**
 * The C heap as the wrapper uses it through `cMalloc`, `cFree`, `cSetArray*` and
 * `copyDoubles`: buffers are handles into a map, a freed handle is remembered,
 * and a `free` of a handle that is not live (a double free) is logged instead of
 * corrupting anything, so that the model can state when it happens.
 */
module Memory {

  /** A pointer returned by `cMalloc`; never nil (a failed malloc aborts the process). */
  type Ptr = nat

  /** The element type named by `cMalloc`'s size argument: `C.double(0)` or `C.int(0)`. */
  datatype Kind = CDouble | CInt

  /** A live buffer and its elements. */
  datatype Block = Doubles(ds: seq<real>) | Ints(ns: seq<int>)

  /**
   * `blocks` are the live buffers, `next` the next fresh address, `freed` the
   * buffers released once, and `invalidFrees` every `free` of a pointer that was
   * not live at that moment, in order.
   */
  datatype Heap = Heap(blocks: map<Ptr, Block>, next: Ptr, freed: set<Ptr>, invalidFrees: seq<Ptr>)

  const EmptyHeap := Heap(map[], 0, {}, [])

  /** Every address handed out is below `next`, and none is both live and freed. */
  predicate Valid(h: Heap)
  {
    && (forall p :: p in h.blocks ==> p < h.next)
    && (forall p :: p in h.freed ==> p < h.next)
    && (forall p :: p in h.blocks ==> p !in h.freed)
  }

  /** Writing the four slots from `p` on again replaces what the first four writes put there. */
  lemma MapOverwrite(b: map<Ptr, Block>, p: Ptr, z: Block, w: Block, v0: Block, v1: Block, v2: Block, v3: Block)
    ensures b[p := z][p + 1 := z][p + 2 := w][p + 3 := w][p := v0][p + 1 := v1][p + 2 := v2][p + 3 := v3]
         == b[p := v0][p + 1 := v1][p + 2 := v2][p + 3 := v3]
  {
  }

  /** Removing, one by one, four slots that were not there before the writes gives back the map. */
  lemma MapRemoveFour(b: map<Ptr, Block>, p: Ptr, v0: Block, v1: Block, v2: Block, v3: Block)
    requires p !in b && p + 1 !in b && p + 2 !in b && p + 3 !in b
    ensures b[p := v0][p + 1 := v1][p + 2 := v2][p + 3 := v3] - {p} - {p + 1} - {p + 2} - {p + 3} == b
  {
  }

  /** Placing four fresh slots, overwriting them and removing them again gives back the map. */
  lemma MapScratchRoundTrip(b: map<Ptr, Block>, p: Ptr, z: Block, w: Block, v0: Block, v1: Block, v2: Block, v3: Block)
    requires p !in b && p + 1 !in b && p + 2 !in b && p + 3 !in b
    ensures b[p := z][p + 1 := z][p + 2 := w][p + 3 := w][p := v0][p + 1 := v1][p + 2 := v2][p + 3 := v3]
            - {p} - {p + 1} - {p + 2} - {p + 3} == b
  {
    MapOverwrite(b, p, z, w, v0, v1, v2, v3);
    MapRemoveFour(b, p, v0, v1, v2, v3);
  }

  /** True when `p` is live and holds exactly the doubles `vs`. */
  predicate HoldsDoubles(h: Heap, p: Ptr, vs: seq<real>)
  {
    p in h.blocks && h.blocks[p] == Doubles(vs)
  }

  /** True when `p` is live and holds exactly the ints `vs`. */
  predicate HoldsInts(h: Heap, p: Ptr, vs: seq<int>)
  {
    p in h.blocks && h.blocks[p] == Ints(vs)
  }

  /** No pointer occurs twice. */
  predicate Distinct(ps: seq<Ptr>)
  {
    forall i, j :: 0 <= i < j < |ps| ==> ps[i] != ps[j]
  }

  /** The contents of a fresh buffer of n doubles. */
  function ZeroDoubles(n: nat): seq<real>
  {
    seq(n, _ => 0.0)
  }

  /**
   * `cMalloc(n, kind)`: a new buffer of n elements at the fresh address `h.next`.
   * C leaves the contents indeterminate; they are modelled as zeros.
   */
  function Malloc(h: Heap, kind: Kind, n: nat): (r: Heap)
    requires Valid(h)
    ensures Valid(r)
    ensures h.next !in h.blocks && h.next !in h.freed && r.next == h.next + 1
    ensures r.blocks.Keys == h.blocks.Keys + {h.next}
    ensures r.blocks[h.next] == match kind
      case CDouble => Doubles(ZeroDoubles(n))
      case CInt => Ints(seq(n, _ => 0))
    ensures forall p :: p in h.blocks ==> r.blocks[p] == h.blocks[p]
    ensures r.freed == h.freed && r.invalidFrees == h.invalidFrees
  {
    var block := match kind
      case CDouble => Doubles(ZeroDoubles(n))
      case CInt => Ints(seq(n, _ => 0));
    h.(blocks := h.blocks[h.next := block], next := h.next + 1)
  }

  /** `cSetArrayDoubles(p, vs)`: writes all of `vs` into a buffer of exactly that size. */
  function StoreDoubles(h: Heap, p: Ptr, vs: seq<real>): (r: Heap)
    requires p in h.blocks && h.blocks[p].Doubles? && |h.blocks[p].ds| == |vs|
    ensures HoldsDoubles(r, p, vs)
    ensures r.blocks.Keys == h.blocks.Keys
    ensures forall q :: q in h.blocks && q != p ==> r.blocks[q] == h.blocks[q]
    ensures r.next == h.next && r.freed == h.freed && r.invalidFrees == h.invalidFrees
  {
    h.(blocks := h.blocks[p := Doubles(vs)])
  }

  /** `cSetArrayInts(p, vs)`: writes all of `vs` into a buffer of exactly that size. */
  function StoreInts(h: Heap, p: Ptr, vs: seq<int>): (r: Heap)
    requires p in h.blocks && h.blocks[p].Ints? && |h.blocks[p].ns| == |vs|
    ensures HoldsInts(r, p, vs)
    ensures r.blocks.Keys == h.blocks.Keys
    ensures forall q :: q in h.blocks && q != p ==> r.blocks[q] == h.blocks[q]
    ensures r.next == h.next && r.freed == h.freed && r.invalidFrees == h.invalidFrees
  {
    h.(blocks := h.blocks[p := Ints(vs)])
  }

  /** `cMalloc` of a buffer for `b` at the fresh address, followed by a write of all of `b` into it. */
  function Place(h: Heap, b: Block): Heap
  {
    h.(blocks := h.blocks[h.next := b], next := h.next + 1)
  }

  /** Placing the buffers `bs` one after the other. */
  function PlaceAll(h: Heap, bs: seq<Block>): Heap
  {
    if bs == [] then h else Place(PlaceAll(h, bs[..|bs| - 1]), bs[|bs| - 1])
  }

  /** The n consecutive addresses handed out from `start`. */
  function Fresh(start: Ptr, n: nat): seq<Ptr>
  {
    seq(n, k => start + k)
  }

  /** Allocating and filling a buffer is placing its contents. */
  lemma MallocStore(h: Heap, b: Block)
    requires Valid(h)
    ensures b.Doubles? ==> StoreDoubles(Malloc(h, CDouble, |b.ds|), h.next, b.ds) == Place(h, b)
    ensures b.Ints? ==> StoreInts(Malloc(h, CInt, |b.ns|), h.next, b.ns) == Place(h, b)
  {
    var m := h.blocks[h.next := b];
    if b.Doubles? {
      assert Malloc(h, CDouble, |b.ds|).blocks[h.next := b] == m;
    } else {
      assert Malloc(h, CInt, |b.ns|).blocks[h.next := b] == m;
    }
  }

  /** Placing one more buffer after `bs`. */
  lemma PlaceAllSnoc(h: Heap, bs: seq<Block>, b: Block)
    ensures PlaceAll(h, bs + [b]) == Place(PlaceAll(h, bs), b)
  {
    assert (bs + [b])[..|bs|] == bs;
  }

  /** Placing `bs` moves the next fresh address past them. */
  lemma {:induction false} PlaceAllNext(h: Heap, bs: seq<Block>)
    ensures PlaceAll(h, bs).next == h.next + |bs|
  {
    if bs != [] {
      PlaceAllNext(h, bs[..|bs| - 1]);
    }
  }

  /** Placing `front` and then `bs` is placing `front + bs`. */
  lemma {:induction false} PlaceAllAppend(h: Heap, front: seq<Block>, bs: seq<Block>)
    ensures PlaceAll(h, front + bs) == PlaceAll(PlaceAll(h, front), bs)
  {
    if bs == [] {
      assert front + bs == front;
    } else {
      var init, last := bs[..|bs| - 1], bs[|bs| - 1];
      PlaceAllAppend(h, front, init);
      assert (front + bs)[..|front + bs| - 1] == front + init;
    }
  }

  /** The addresses of two consecutive placements. */
  lemma FreshAppend(start: Ptr, m: nat, n: nat)
    ensures Fresh(start, m + n) == Fresh(start, m) + Fresh(start + m, n)
  {
  }

  /** The addresses of three consecutive placements, appended to a list of pointers. */
  lemma FreshAppend3(ps: seq<Ptr>, start: Ptr, x: nat, y: nat, z: nat)
    ensures ps + Fresh(start, x) + Fresh(start + x, y) + Fresh(start + x + y, z) == ps + Fresh(start, x + y + z)
  {
    FreshAppend(start, x, y);
    FreshAppend(start, x + y, z);
    assert Fresh(start, x + y + z) == Fresh(start, x) + Fresh(start + x, y) + Fresh(start + x + y, z);
  }

  /**
   * Placing `bs` hands out the next |bs| addresses, each holding its buffer, and
   * leaves every live buffer, the freed set and the invalid-free log as they were.
   */
  lemma {:induction false} PlaceAllEffect(h: Heap, bs: seq<Block>)
    requires Valid(h)
    ensures Valid(PlaceAll(h, bs))
    ensures PlaceAll(h, bs).next == h.next + |bs|
    ensures forall p :: p in PlaceAll(h, bs).blocks <==> p in h.blocks || h.next <= p < h.next + |bs|
    ensures forall p :: p in h.blocks ==> PlaceAll(h, bs).blocks[p] == h.blocks[p]
    ensures forall k :: 0 <= k < |bs| ==> PlaceAll(h, bs).blocks[h.next + k] == bs[k]
    ensures PlaceAll(h, bs).freed == h.freed && PlaceAll(h, bs).invalidFrees == h.invalidFrees
  {
    if bs != [] {
      var init := bs[..|bs| - 1];
      PlaceAllEffect(h, init);
      forall k | 0 <= k < |bs| ensures PlaceAll(h, bs).blocks[h.next + k] == bs[k] {
        if k < |init| {
          assert init[k] == bs[k];
        }
      }
    }
  }

  /** Fresh addresses appended to live, distinct ones keep them distinct. */
  lemma FreshDistinct(h: Heap, ps: seq<Ptr>, n: nat)
    requires Valid(h) && Distinct(ps) && forall p :: p in ps ==> p in h.blocks
    ensures Distinct(ps + Fresh(h.next, n))
  {
    var qs := ps + Fresh(h.next, n);
    forall i, j | 0 <= i < j < |qs| ensures qs[i] != qs[j] {
      if j < |ps| {
        assert qs[i] == ps[i] && qs[j] == ps[j];
      } else if i < |ps| {
        assert qs[i] in ps;
      }
    }
  }

  /** `cFree(p)`: releases a live buffer; a pointer that is not live is logged as an invalid free. */
  function Free(h: Heap, p: Ptr): (r: Heap)
    ensures Valid(h) ==> Valid(r)
    ensures r.invalidFrees == h.invalidFrees <==> p in h.blocks
    ensures r.blocks == h.blocks - {p} && r.next == h.next
    ensures r.freed == h.freed + (if p in h.blocks then {p} else {})
    ensures r.invalidFrees == h.invalidFrees + (if p in h.blocks then [] else [p])
  {
    if p in h.blocks then h.(blocks := h.blocks - {p}, freed := h.freed + {p})
    else h.(invalidFrees := h.invalidFrees + [p])
  }

  /** Freeing every pointer of `ps`, first to last. */
  function FreeAll(h: Heap, ps: seq<Ptr>): Heap
  {
    if ps == [] then h else Free(FreeAll(h, ps[..|ps| - 1]), ps[|ps| - 1])
  }

  /** After freeing `ps`, none of them is live, the rest is untouched and the log only grew. */
  lemma FreeAllEffect(h: Heap, ps: seq<Ptr>)
    ensures FreeAll(h, ps).blocks == h.blocks - (set p | p in ps)
    ensures FreeAll(h, ps).freed == h.freed + (set p | p in ps && p in h.blocks)
    ensures FreeAll(h, ps).next == h.next
    ensures |h.invalidFrees| <= |FreeAll(h, ps).invalidFrees|
    ensures FreeAll(h, ps).invalidFrees[..|h.invalidFrees|] == h.invalidFrees
    ensures Valid(h) ==> Valid(FreeAll(h, ps))
  {
    FreeAllBlocks(h, ps);
    FreeAllFreed(h, ps);
    FreeAllLog(h, ps);
  }

  /** Freeing `ps` leaves live exactly the buffers not in `ps`, and hands out no address. */
  lemma {:induction false} FreeAllBlocks(h: Heap, ps: seq<Ptr>)
    ensures FreeAll(h, ps).blocks == h.blocks - (set p | p in ps)
    ensures FreeAll(h, ps).next == h.next
  {
    if ps != [] {
      var init, last := ps[..|ps| - 1], ps[|ps| - 1];
      FreeAllBlocks(h, init);
      assert (set p | p in ps) == (set p | p in init) + {last};
    }
  }

  /** Freeing `ps` marks freed exactly the pointers of `ps` that were live. */
  lemma {:induction false} FreeAllFreed(h: Heap, ps: seq<Ptr>)
    ensures FreeAll(h, ps).freed == h.freed + (set p | p in ps && p in h.blocks)
  {
    if ps != [] {
      var init, last := ps[..|ps| - 1], ps[|ps| - 1];
      FreeAllFreed(h, init);
      FreeAllBlocks(h, init);
      assert last in FreeAll(h, init).blocks <==> last in h.blocks && last !in init;
      assert (set p | p in ps && p in h.blocks)
          == (set p | p in init && p in h.blocks) + (if last in h.blocks then {last} else {});
    }
  }

  /** Freeing `ps` only appends to the invalid-free log, and keeps the heap valid. */
  lemma {:induction false} FreeAllLog(h: Heap, ps: seq<Ptr>)
    ensures |h.invalidFrees| <= |FreeAll(h, ps).invalidFrees|
    ensures FreeAll(h, ps).invalidFrees[..|h.invalidFrees|] == h.invalidFrees
    ensures Valid(h) ==> Valid(FreeAll(h, ps))
  {
    if ps != [] {
      var init := ps[..|ps| - 1];
      FreeAllLog(h, init);
      var f := FreeAll(h, init);
      assert f.invalidFrees[..|h.invalidFrees|] == h.invalidFrees;
      assert (f.invalidFrees + [ps[|ps| - 1]])[..|h.invalidFrees|] == f.invalidFrees[..|h.invalidFrees|];
    }
  }

  /**
   * Freeing a list of pointers releases nothing twice and touches nothing that is
   * not live exactly when the pointers are pairwise distinct and all live.
   */
  lemma {:induction false} FreeAllClean(h: Heap, ps: seq<Ptr>)
    ensures FreeAll(h, ps).invalidFrees == h.invalidFrees
        <==> Distinct(ps) && forall p :: p in ps ==> p in h.blocks
  {
    if ps != [] {
      var init, last := ps[..|ps| - 1], ps[|ps| - 1];
      FreeAllClean(h, init);
      FreeAllEffect(h, init);
      var f := FreeAll(h, init);
      assert FreeAll(h, ps) == Free(f, last);
      if last in f.blocks {
        assert last in h.blocks && last !in init;
        if Distinct(init) && forall p :: p in init ==> p in h.blocks {
          forall i, j | 0 <= i < j < |ps| ensures ps[i] != ps[j] {
            if j == |ps| - 1 { assert ps[i] in init; } else { assert init[i] == ps[i] && init[j] == ps[j]; }
          }
        } else if !Distinct(init) {
          var i, j :| 0 <= i < j < |init| && init[i] == init[j];
          assert ps[i] == ps[j];
        } else {
          var p :| p in init && p !in h.blocks;
          assert p in ps;
        }
      } else {
        assert |Free(f, last).invalidFrees| > |h.invalidFrees|;
        if last in h.blocks {
          assert last in init;
          var i :| 0 <= i < |init| && init[i] == last;
          assert ps[i] == ps[|ps| - 1];
        }
      }
    }
  }

  /** Freeing pointers none of which is live logs every one of them as an invalid free. */
  lemma {:induction false} FreeAllDead(h: Heap, ps: seq<Ptr>)
    requires forall p :: p in ps ==> p !in h.blocks
    ensures FreeAll(h, ps).invalidFrees == h.invalidFrees + ps
  {
    if ps == [] {
      assert h.invalidFrees + ps == h.invalidFrees;
    } else {
      var init, last := ps[..|ps| - 1], ps[|ps| - 1];
      assert forall p :: p in init ==> p in ps;
      FreeAllDead(h, init);
      FreeAllEffect(h, init);
      assert last !in FreeAll(h, init).blocks;
      assert ps == init + [last];
    }
  }

  /** Freeing `ps` and then `qs` is freeing `ps + qs`. */
  lemma {:induction false} FreeAllAppend(h: Heap, ps: seq<Ptr>, qs: seq<Ptr>)
    ensures FreeAll(h, ps + qs) == FreeAll(FreeAll(h, ps), qs)
  {
    if qs == [] {
      assert ps + qs == ps;
    } else {
      var init, last := qs[..|qs| - 1], qs[|qs| - 1];
      FreeAllAppend(h, ps, init);
      assert (ps + qs)[..|ps + qs| - 1] == ps + init;
    }
  }

  /** The loop `for _, p := range allocs { cFree(p) }`. */
  method FreeEach(h: Heap, ps: seq<Ptr>) returns (r: Heap)
    ensures r == FreeAll(h, ps)
  {
    r := h;
    for i := 0 to |ps|
      invariant r == FreeAll(h, ps[..i])
    {
      assert ps[..i + 1][..i] == ps[..i];
      r := Free(r, ps[i]);
    }
    assert ps[..|ps|] == ps;
  }

  /** `copyDoubles(p, n)`: reads the first n doubles of a live buffer into a fresh slice. */
  method CopyDoubles(h: Heap, p: Ptr, n: nat) returns (gs: seq<real>)
    requires p in h.blocks && h.blocks[p].Doubles? && n <= |h.blocks[p].ds|
    ensures gs == h.blocks[p].ds[..n]
  {
    gs := seq(n, _ => 0.0);
    for i := 0 to n
      invariant |gs| == n
      invariant forall k :: 0 <= k < i ==> gs[k] == h.blocks[p].ds[k]
    {
      gs := gs[i := h.blocks[p].ds[i]];
    }
  }
}
