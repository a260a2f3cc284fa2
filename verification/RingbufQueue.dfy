/** `RingbufQueue` used by one thread at a time (src/lockfree/ringbuf_queue.cc:80-169). Each
    call says how many of its compare-and-swaps fail spuriously. */
module RingbufQueueClass {
  import opened Wrappers
  import opened RingMachine
  import opened RingLedger
  import opened RingLinear

  /** The occupied slots are exactly the window. */
  ghost predicate Matches<T>(counter: Counter, slots: seq<Option<T>>) {
    && 2 <= |slots| && CounterOk(counter, |slots|)
    && forall slot :: 0 <= slot < |slots| ==> (slots[slot].Some? <==> InWindow(counter, slot))
  }

  /** What the window holds, oldest first. */
  ghost function Held<T>(counter: Counter, slots: seq<Option<T>>): (q: seq<T>)
    requires Matches(counter, slots)
    ensures |q| == Length(counter, |slots|) < |slots|
  {
    Places(counter, |slots|, 0);
    seq(Length(counter, |slots|), k requires 0 <= k < Length(counter, |slots|) =>
      (Places(counter, |slots|, k); slots[Place(counter, |slots|, k)].value))
  }

  lemma RoomIff(c: Counter, capacity: nat)
    requires 2 <= capacity && CounterOk(c, capacity)
    ensures After(c.push, capacity) == c.pop <==> Length(c, capacity) == capacity - 1
    ensures c.push == c.pop <==> Length(c, capacity) == 0
  {
  }

  lemma HeldAfterPush<T>(e: Counter, d: Counter, slots: seq<Option<T>>, x: T)
    requires Matches(e, slots) && PushWant(e, d, |slots|)
    ensures slots[e.push] == None
    ensures Matches(d, slots[e.push := Some(x)])
    ensures Held(d, slots[e.push := Some(x)]) == Held(e, slots) + [x]
  {
  }

  lemma HeldAfterPop<T>(e: Counter, d: Counter, slots: seq<Option<T>>)
    requires Matches(e, slots) && PopWant(e, d, |slots|)
    ensures |Held(e, slots)| > 0 && slots[e.pop] == Some(Held(e, slots)[0])
    ensures Matches(d, slots[e.pop := None])
    ensures Held(d, slots[e.pop := None]) == Held(e, slots)[1..]
  {
  }

  class RingbufQueue<T> {
    var counter: Counter
    const slots: array<Option<T>>

    ghost predicate Valid()
      reads this, slots
    {
      Matches(counter, slots[..])
    }

    /** The pointers held, oldest first. */
    ghost function Contents(): (q: seq<T>)
      reads this, slots
      requires Valid()
      ensures |q| < slots.Length
    {
      Held(counter, slots[..])
    }

    /** Any capacity can be asked for; only those of two and more give a valid queue. */
    constructor (capacity: nat)
      ensures slots.Length == capacity && fresh(slots)
      ensures Valid() <==> 2 <= capacity
      ensures 2 <= capacity ==> Contents() == []
    {
      counter := Counter(0, 0);
      slots := new Option<T>[capacity](_ => None);
    }

    /** A weak compare-and-swap on the packed counter. */
    method CasCounter(e: Counter, d: Counter, spurious: bool) returns (ok: bool, seen: Counter)
      modifies this`counter
      ensures ok <==> old(counter) == e && !spurious
      ensures counter == if ok then d else old(counter)
      ensures seen == old(counter)
    {
      seen := counter;
      ok := counter == e && !spurious;
      if ok {
        counter := d;
      }
    }

    /** Waits for the claimed slot, which in sequential use is always empty. */
    method BlockingStore(slot: nat, x: T, failures: nat)
      requires slot < slots.Length && slots[slot] == None
      modifies slots
      ensures slots[..] == old(slots[..])[slot := Some(x)]
    {
      var left: nat := failures;
      while slots[slot].Some? || left > 0
        invariant slots[..] == old(slots[..])
        decreases left
      {
        left := left - 1;
      }
      slots[slot] := Some(x);
    }

    /** The loop of `push`, watched for a number of attempts. With room it is done as soon as
        the spurious failures are over; on a full ring it never is, however long it is watched. */
    method PushWithin(x: T, attempts: nat, failures: nat, storeFailures: nat) returns (done: bool)
      requires Valid()
      modifies this`counter, slots
      ensures Valid()
      ensures done ==> |old(Contents())| + 1 < slots.Length && Contents() == old(Contents()) + [x]
      ensures !done ==> Contents() == old(Contents())
      ensures failures + 2 <= attempts ==> (done <==> |old(Contents())| + 1 < slots.Length)
    {
      var e, d := PUSH_GUESS.0, PUSH_GUESS.1;
      var left: nat := failures;
      var tries: nat := attempts;
      RoomIff(counter, slots.Length);
      done := false;
      while !done && tries > 0
        invariant PushWant(e, d, slots.Length)
        invariant if done then e == old(counter) && counter == d else counter == old(counter)
        invariant slots[..] == old(slots[..])
        invariant failures + 2 <= attempts && |old(Contents())| + 1 < slots.Length && !done ==>
                    left + (if e == counter then 1 else 2) <= tries
        decreases tries
      {
        var seen;
        done, seen := CasCounter(e, d, left > 0);
        tries := tries - 1;
        if !done {
          left := if left > 0 then left - 1 else 0;
          RemainderIsAfter(seen, slots.Length);
          var further := (seen.push + 1) % slots.Length;
          if further == seen.pop {
            e, d := PUSH_GUESS.0, PUSH_GUESS.1;
          } else {
            e, d := seen, Counter(further, seen.pop);
          }
        }
      }
      if done {
        HeldAfterPush(e, d, slots[..], x);
        BlockingStore(e.push, x, storeFailures);
      }
    }

    /** `push` on a ring with room. */
    method Push(x: T, failures: nat, storeFailures: nat)
      requires Valid() && |Contents()| + 1 < slots.Length
      modifies this`counter, slots
      ensures Valid() && Contents() == old(Contents()) + [x]
    {
      var done := PushWithin(x, failures + 2, failures, storeFailures);
    }

    /** Hands the pointer back exactly when capacity - 1 pointers are held. */
    method TryPush(x: T, failures: nat, storeFailures: nat) returns (back: Option<T>)
      requires Valid()
      modifies this`counter, slots
      ensures Valid()
      ensures |old(Contents())| == slots.Length - 1 ==> back == Some(x) && Contents() == old(Contents())
      ensures |old(Contents())| < slots.Length - 1 ==> back == None && Contents() == old(Contents()) + [x]
    {
      var e, d := PUSH_GUESS.0, PUSH_GUESS.1;
      var left: nat := failures;
      var ok := false;
      while !ok
        invariant PushWant(e, d, slots.Length)
        invariant if ok then e == old(counter) && counter == d else counter == old(counter)
        invariant slots[..] == old(slots[..])
        decreases !ok, left, if counter == e then 0 else 1
      {
        var seen;
        ok, seen := CasCounter(e, d, left > 0);
        if !ok {
          left := if left > 0 then left - 1 else 0;
          RemainderIsAfter(seen, slots.Length);
          RoomIff(seen, slots.Length);
          var further := (seen.push + 1) % slots.Length;
          if further == seen.pop {
            return Some(x);
          }
          e, d := seen, Counter(further, seen.pop);
        }
      }
      RoomIff(e, slots.Length);
      HeldAfterPush(e, d, slots[..], x);
      BlockingStore(e.push, x, storeFailures);
      back := None;
    }

    /** Takes the oldest pointer, or finds the ring empty. */
    method Pop(failures: nat) returns (r: Option<T>)
      requires Valid()
      modifies this`counter, slots
      ensures Valid()
      ensures old(Contents()) == [] ==> r == None && Contents() == []
      ensures old(Contents()) != [] ==>
                r == Some(old(Contents())[0]) && Contents() == old(Contents())[1..]
    {
      var e, d := POP_GUESS.0, POP_GUESS.1;
      var left: nat := failures;
      var ok := false;
      while !ok
        invariant PopWant(e, d, slots.Length)
        invariant if ok then e == old(counter) && counter == d else counter == old(counter)
        invariant slots[..] == old(slots[..])
        decreases !ok, left, if counter == e then 0 else 1
      {
        var seen;
        ok, seen := CasCounter(e, d, left > 0);
        if !ok {
          left := if left > 0 then left - 1 else 0;
          RemainderIsAfter(seen, slots.Length);
          RoomIff(seen, slots.Length);
          var further := (seen.pop + 1) % slots.Length;
          if seen.push == seen.pop {
            return None;
          }
          e, d := seen, Counter(seen.push, further);
        }
      }
      HeldAfterPop(e, d, slots[..]);
      r := slots[e.pop];
      slots[e.pop] := None;
      assert slots[..] == old(slots[..])[e.pop := None];
    }
  }
}
