/**
 The allocator as the kernel runs it: headers live in memory, free headers are chained
 through their `next_free` fields, and the search walks that chain through a pointer to
 the link it came from.
 */
module Allocator {
  import opened Heap

  // ---- Chains of headers in memory ----

  /** The address the chain shows at position `i`. */
  function ChainAt(free: seq<nat>, i: nat): nat {
    if i < |free| then free[i] else NULL
  }

  /** Following `next` from `head` spells out `free` without repeating an address, and ends in
      the null address. */
  ghost predicate Chained(head: nat, next: map<nat, nat>, free: seq<nat>) {
    && head == ChainAt(free, 0)
    && NoDuplicates(free)
    && (forall i :: 0 <= i < |free| ==> free[i] in next && next[free[i]] == ChainAt(free, i + 1))
  }

  lemma ChainPush(head: nat, next: map<nat, nat>, free: seq<nat>, x: nat)
    requires Chained(head, next, free) && x !in free
    ensures Chained(x, next[x := head], [x] + free)
  {
  }

  lemma ChainPopFront(head: nat, next: map<nat, nat>, free: seq<nat>)
    requires Chained(head, next, free) && free != []
    ensures free[0] == head && head in next && Chained(next[head], next, free[1..])
  {
  }

  lemma ChainBypass(head: nat, next: map<nat, nat>, free: seq<nat>, i: nat)
    requires Chained(head, next, free) && 0 < i < |free|
    ensures free[i] in next
    ensures Chained(head, next[free[i - 1] := next[free[i]]], free[..i] + free[i + 1..])
  {
    var free' := free[..i] + free[i + 1..];
    var next' := next[free[i - 1] := next[free[i]]];
    assert forall k :: 0 <= k < |free'| ==> free'[k] == free[if k < i then k else k + 1];
    forall k | 0 <= k < |free'| ensures free'[k] in next' && next'[free'[k]] == ChainAt(free', k + 1) {
      var o := if k < i then k else k + 1;
      assert free'[k] == free[o];
    }
  }

  lemma WrittenWithout(size: map<nat, nat>, free: seq<nat>, i: nat)
    requires Written(size, free) && i < |free|
    ensures free[i] in size && free[i] != NULL && Written(size, free[..i] + free[i + 1..])
    ensures i > 0 ==> free[i - 1] != NULL
  {
  }

  lemma WrittenWith(size: map<nat, nat>, free: seq<nat>, x: nat)
    requires Written(size, free) && x in size && x != NULL
    ensures Written(size, [x] + free)
  {
  }

  lemma WrittenGrows(size: map<nat, nat>, free: seq<nat>, x: nat, n: nat)
    requires Written(size, free)
    ensures Written(size[x := n], free)
  {
  }

  class Allocator {
    const base: nat               // address of allocator_buffer
    var offset: nat               // allocator_offset
    var freeList: nat             // address of the first free header, or NULL
    var sizeAt: map<nat, nat>     // size field of the header at an address
    var nextAt: map<nat, nat>     // next_free field of the header at an address

    ghost var free: seq<nat>      // the headers on the chain, in order
    ghost var live: map<nat, nat>

    ghost function View(): Heap
      reads this
    {
      Heap(base, offset, sizeAt, free, live)
    }

    ghost predicate Valid()
      reads this
    {
      Keyed(View()) && Chained(freeList, nextAt, free)
    }

    constructor (base: nat)
      ensures Valid() && View() == Empty(base)
    {
      this.base := base;
      offset, freeList := 0, NULL;
      sizeAt, nextAt := map[], map[];
      free, live := [], map[];
    }

    /** Walk the chain to the first block of at least `total` bytes; `link` is the header that
        points to it, or null when the list head does. */
    method Search(total: nat) returns (link: nat, current: nat, ghost i: nat)
      requires Valid()
      ensures current == ChainAt(free, FirstFit(sizeAt, free, total))
      ensures link == if FirstFit(sizeAt, free, total) == 0 then NULL else free[FirstFit(sizeAt, free, total) - 1]
      ensures i == FirstFit(sizeAt, free, total)
    {
      link, current, i := NULL, freeList, 0;
      while current != NULL
        invariant i <= |free| && current == ChainAt(free, i)
        invariant link == if i == 0 then NULL else free[i - 1]
        invariant i <= FirstFit(sizeAt, free, total)
        decreases |free| - i
      {
        if sizeAt[current] >= total { return; }
        link := current;
        current := nextAt[current];
        i := i + 1;
      }
    }

    /** Unlink the header that `Search` found. */
    method Unlink(link: nat, current: nat, ghost i: nat)
      requires Valid() && i < |free| && current == free[i] && link == if i == 0 then NULL else free[i - 1]
      modifies this`freeList, this`nextAt, this`free
      ensures Valid() && View() == old(View()).(free := old(free)[..i] + old(free)[i + 1..])
    {
      hide Chained, Written;
      ghost var free' := free[..i] + free[i + 1..];
      WrittenWithout(sizeAt, free, i);
      if link == NULL {
        ChainPopFront(freeList, nextAt, free);
        assert free' == free[1..];
        freeList := nextAt[current];
      } else {
        ChainBypass(freeList, nextAt, free, i);
        nextAt := nextAt[link := nextAt[current]];
      }
      free := free';
    }

    /** aligned_alloc: the null address stands for failure. */
    method AlignedAlloc(alignment: nat, size: nat) returns (p: nat)
      requires Valid()
      modifies this
      ensures Valid() && (View(), p) == Alloc(old(View()), alignment, size)
    {
      hide Chained, Written, IsPowerOfTwo, TotalSize, Reuse, Carve;
      var a := EffectiveAlignment(alignment);
      if !IsPowerOfTwo(a) {
        return NULL;
      }
      var link, current;
      ghost var i;
      link, current, i := Search(TotalSize(size));
      if current != NULL {
        p := TakeFree(link, current, i, a, size);
      } else {
        if i < |free| { WrittenWithout(sizeAt, free, i); assert false; }
        p := TakeFresh(a, size);
      }
    }

    /** Hand out a block of the free list, its header moved up when the alignment asks for it. */
    method TakeFree(link: nat, current: nat, ghost i: nat, a: nat, size: nat) returns (p: nat)
      requires Valid() && a > 0
      requires i < |free| && current == free[i] && link == if i == 0 then NULL else free[i - 1]
      modifies this
      ensures Valid() && (View(), p) == Reuse(old(View()), i, a, size)
    {
      hide Chained, Written, RoundUp;
      WrittenWithout(sizeAt, free, i);
      Unlink(link, current, i);
      var raw := current + HEADER;
      var aligned := RoundUp(raw, a);
      var padding := aligned - raw;
      var header := current;
      if padding > 0 {
        header := aligned - HEADER;
        WrittenGrows(sizeAt, free, header, (sizeAt[current] - padding) % WORD);
        sizeAt := sizeAt[header := (sizeAt[current] - padding) % WORD];
      }
      live := live[header := size];
      p := header + HEADER;
    }

    /** Carve a new block off the buffer. */
    method TakeFresh(a: nat, size: nat) returns (p: nat)
      requires Valid() && a > 0
      modifies this
      ensures Valid() && (View(), p) == Carve(old(View()), a, size)
    {
      hide Chained, Written, CarvePadding, TotalSize;
      var total := TotalSize(size);
      var padding := CarvePadding(base + offset, a);
      var end := (offset + padding + total) % WORD;
      if end > ALLOCATOR_SIZE {
        return NULL;
      }
      var header := base + offset + padding;
      WrittenGrows(sizeAt, free, header, total);
      offset := end;
      sizeAt := sizeAt[header := total];
      live := live[header := size];
      p := header + HEADER;
    }

    /** aligned_free: a pointer that is not null must be live; null is ignored. */
    method AlignedFree(p: nat)
      requires Valid()
      requires p != NULL ==> p > HEADER && p - HEADER in sizeAt && p - HEADER !in free
      modifies this
      ensures Valid() && View() == Free(old(View()), p)
    {
      hide Chained, Written;
      if p == NULL { return; }
      var header := p - HEADER;
      ChainPush(freeList, nextAt, free, header);
      WrittenWith(sizeAt, free, header);
      nextAt := nextAt[header := freeList];
      freeList := header;
      free := [header] + free;
      live := live - {header};
    }
  }
}
