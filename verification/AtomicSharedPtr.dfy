/** `AllocData`, `SharedPtr` and `std::atomic<SharedPtr>` used by one thread at a time
    (src/lockfree/shared_ptr.cc:11-295), with the retry loops as the program has them. Each
    call says how many of its compare-and-swaps fail spuriously. SharedPtrMachine interleaves
    the same steps. */
module AtomicSharedPtrClass {
  import opened TaggedPtr

  /** A control block; `gone` once its deleter has run. */
  class AllocData {
    var rcount: nat
    var gone: bool

    constructor ()
      ensures rcount == 1 && !gone
    {
      rcount := 1;
      gone := false;
    }

    /** The block is alive, and these references are among those counted. */
    ghost predicate Covers(references: nat)
      reads this
    {
      !gone && references <= rcount
    }

    /** `fetch_add(1)` */
    method Add()
      requires Covers(1)
      modifies this
      ensures rcount == old(rcount) + 1 && !gone
    {
      rcount := rcount + 1;
    }

    /** A weak compare-and-swap on the count. */
    method CasCount(e: nat, d: nat, spurious: bool) returns (ok: bool, seen: nat)
      modifies this`rcount
      ensures ok <==> old(rcount) == e && !spurious
      ensures rcount == if ok then d else old(rcount)
      ensures seen == old(rcount)
    {
      seen := rcount;
      ok := rcount == e && !spurious;
      if ok {
        rcount := d;
      }
    }

    /** `Deallocator`: takes one reference off; the deleter runs at the last one. */
    method Release(failures: nat)
      requires Covers(1)
      modifies this
      ensures rcount == old(rcount) - 1
      ensures gone <==> rcount == 0
    {
      var cur, des := 1, 0;
      var left: nat := failures;
      var ok, seen := CasCount(cur, des, left > 0);
      while !ok
        invariant rcount == if ok then old(rcount) - 1 else old(rcount)
        invariant !gone && cur == des + 1
        invariant if ok then cur == old(rcount) else seen == old(rcount)
        decreases !ok, left, if cur == old(rcount) then 0 else 1
      {
        left := if left > 0 then left - 1 else 0;
        cur, des := seen, seen - 1;
        ok, seen := CasCount(cur, des, left > 0);
      }
      if cur == 1 && des == 0 {
        gone := true;
      }
    }
  }

  /** A `SharedPtr` variable, or the null one. */
  type Owner = AllocData?

  function Is(p: Owner, a: AllocData): nat {
    if p == a then 1 else 0
  }

  function Block(p: Owner): set<AllocData> {
    if p == null then {} else {p}
  }

  /** The references given up and the ones created are exactly what moved the count, and the
      deleter has run exactly if that leaves none. */
  twostate predicate Settled(a: AllocData, before: nat, after: nat)
    reads a
  {
    && a.rcount + before == old(a.rcount) + after
    && (a.gone <==> a.rcount == 0)
  }

  method Copy(p: Owner) returns (r: Owner)
    requires p != null ==> p.Covers(1)
    modifies Block(p)
    ensures r == p
    ensures p != null ==> Settled(p, 1, 2)
  {
    if p != null {
      p.Add();
    }
    r := p;
  }

  method Drop(p: Owner, failures: nat)
    requires p != null ==> p.Covers(1)
    modifies Block(p)
    ensures p != null ==> Settled(p, 1, 0)
  {
    if p != null {
      p.Release(failures);
    }
  }

  /** The tagged word of a cell as a pair. */
  datatype Tagged = Tagged(ptr: Owner, tag: nat)

  function Pin(w: Tagged): Tagged {
    Tagged(w.ptr, (w.tag + 1) % TAGS)
  }

  function Unpin(w: Tagged): Tagged {
    Tagged(w.ptr, (w.tag + TAGS - 1) % TAGS)
  }

  class AtomicSharedPtr {
    var word: Tagged

    /** No reader is in progress. */
    ghost predicate Quiet()
      reads this
    {
      word.tag == 0
    }

    /** Other readers may pause in the middle of their pins, fewer than the tag can count. */
    ghost predicate RoomToPin()
      reads this
    {
      word.tag + 1 < TAGS
    }

    constructor (p: Owner)
      ensures word == Tagged(p, 0)
    {
      word := Tagged(p, 0);
    }

    /** A weak compare-and-swap on the tagged word. */
    method CasWord(e: Tagged, d: Tagged, spurious: bool) returns (ok: bool, seen: Tagged)
      modifies this`word
      ensures ok <==> old(word) == e && !spurious
      ensures word == if ok then d else old(word)
      ensures seen == old(word)
    {
      seen := word;
      ok := word == e && !spurious;
      if ok {
        word := d;
      }
    }

    /** The unpin loop of `load` and of a failing `compare_exchange`. */
    method Lower(e: Tagged, d: Tagged, failures: nat) returns (des: Tagged)
      requires word == e && 0 < e.tag < TAGS && d == Unpin(e)
      modifies this`word
      ensures word == des == Tagged(e.ptr, e.tag - 1)
    {
      var cur := e;
      des := d;
      var left: nat := failures;
      var ok, seen := CasWord(cur, des, left > 0);
      while !ok
        invariant des == Tagged(e.ptr, e.tag - 1) && seen == cur == e
        invariant word == if ok then des else e
        modifies this`word
        decreases !ok, left
      {
        left := if left > 0 then left - 1 else 0;
        cur, des := seen, Unpin(seen);
        ok, seen := CasWord(cur, des, left > 0);
      }
    }

    /** Hands out one more owner of what the cell holds. */
    method Load(failures: nat, unpinFailures: nat) returns (r: Owner)
      requires RoomToPin() && (word.ptr != null ==> word.ptr.Covers(1))
      modifies this`word, Block(word.ptr)
      ensures word == old(word) && r == word.ptr
      ensures r != null ==> Settled(r, 1, 2)
    {
      var cur, des := Tagged(null, 0), Tagged(null, 1);
      var left: nat := failures;
      var ok, seen := CasWord(cur, des, left > 0);
      while !ok
        invariant des == Pin(cur)
        invariant if ok then cur == old(word) && word == des else seen == old(word) == word
        modifies this`word
        decreases !ok, left, if cur == old(word) then 0 else 1
      {
        left := if left > 0 then left - 1 else 0;
        cur, des := seen, Pin(seen);
        ok, seen := CasWord(cur, des, left > 0);
      }
      cur, des := des, Unpin(des);
      r := Copy(cur.ptr);
      des := Lower(cur, des, unpinFailures);
      return des.ptr;
    }

    /** Takes the cell's reference out and puts another one in. */
    method Exchange(desired: Owner, failures: nat) returns (r: Owner)
      requires Quiet()
      modifies this`word
      ensures word == Tagged(desired, 0) && r == old(word.ptr)
    {
      var cur, des := Tagged(null, 0), Tagged(desired, 0);
      var left: nat := failures;
      var ok, seen := CasWord(cur, des, left > 0);
      while !ok
        invariant cur.tag == 0 && des == Tagged(desired, 0)
        invariant if ok then cur == old(word) && word == des else seen == old(word) == word
        modifies this`word
        decreases !ok, left, if cur == old(word) then 0 else 1
      {
        left := if left > 0 then left - 1 else 0;
        cur := Tagged(seen.ptr, 0);
        ok, seen := CasWord(cur, des, left > 0);
      }
      return cur.ptr;
    }

    /** Copies `desired` into the cell; the copy, the replaced pointer and `desired` itself are
        accounted for. The destructor of the cell stores null. */
    method Store(desired: Owner, failures: nat)
      requires Quiet()
      requires forall a :: a in Block(word.ptr) + Block(desired) ==>
                 a.Covers(Is(word.ptr, a) + Is(desired, a))
      modifies this`word, Block(word.ptr), Block(desired)
      ensures word == Tagged(desired, 0)
      ensures forall a :: a in Block(old(word.ptr)) + Block(desired) ==>
                Settled(a, Is(old(word.ptr), a) + Is(desired, a), Is(word.ptr, a))
    {
      ghost var blocks := Block(word.ptr) + Block(desired);
      assert desired != null ==> desired in blocks;
      assert word.ptr != null ==> word.ptr in blocks;
      var copied := Copy(desired);
      var replaced := Exchange(copied, failures);
      Drop(replaced, failures);
      Drop(desired, failures);
    }

    /** Succeeds exactly when the cell holds `e`, however often the weak compare-and-swaps
        fail; otherwise it is a load into `e`. While the cell holds `e` it waits for readers in
        progress, so alone it needs that there is none. */
    method CompareExchange(e: Owner, d: Owner, failures: nat, unpinFailures: nat)
      returns (ok: bool, e': Owner)
      requires RoomToPin() && (word.ptr == e ==> Quiet())
      requires forall a :: a in Block(word.ptr) + Block(e) + Block(d) ==>
                 a.Covers(Is(word.ptr, a) + Is(e, a) + Is(d, a))
      modifies this`word, Block(word.ptr), Block(e), Block(d)
      ensures ok <==> old(word.ptr) == e
      ensures if ok then word == Tagged(d, 0) && e' == e else word == old(word) && e' == word.ptr
      ensures forall a :: a in Block(old(word.ptr)) + Block(e) + Block(d) ==>
                Settled(a, Is(old(word.ptr), a) + Is(e, a) + Is(d, a), Is(word.ptr, a) + Is(e', a))
    {
      var cur, des := Tagged(e, 0), Tagged(d, 0);
      var left: nat := failures;
      var done, seen := CasWord(cur, des, left > 0);
      while !done
        invariant if cur.ptr == e then cur.tag == 0 && des == Tagged(d, 0) else des == Pin(cur)
        invariant if done then cur == old(word) && word == des else seen == old(word) == word
        modifies this`word
        decreases !done, left, if cur == old(word) then 0 else 1
      {
        left := if left > 0 then left - 1 else 0;
        if seen.ptr != e {
          cur, des := seen, Pin(seen);
        } else {
          cur, des := Tagged(e, 0), Tagged(d, 0);
        }
        done, seen := CasWord(cur, des, left > 0);
      }
      if des.tag == 0 {
        Drop(cur.ptr, failures);
        return true, e;
      }
      ghost var blocks := Block(old(word.ptr)) + Block(e) + Block(d);
      assert des.ptr != null ==> des.ptr in blocks;
      Drop(e, failures);
      e' := des.ptr;
      cur, des := des, Unpin(des);
      var counted := Copy(cur.ptr);
      des := Lower(cur, des, unpinFailures);
      Drop(d, failures);
      return false, e';
    }
  }
}
