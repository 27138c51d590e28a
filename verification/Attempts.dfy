/** What counting attempts per slot of time lets through, over whole logs of attempts. */
module Attempts {
  import opened Limits

  /** `who` sent an attempt at askedAt; it was counted at `at`, and let through or refused. */
  datatype Attempt = Attempt(who: string, askedAt: nat, at: nat, ok: bool)

  predicate InTime(sentAt: nat, now: nat, delay: nat) {
    sentAt <= now <= sentAt + delay
  }

  /** Attempts of `who` sent in one slot, refused ones included. */
  function Sent(log: seq<Attempt>, who: string, slot: nat, length: nat): nat
    requires length > 0
  {
    if log == [] then 0
    else
      var a := log[|log| - 1];
      Sent(log[..|log| - 1], who, slot, length) + if a.who == who && a.askedAt / length == slot then 1 else 0
  }

  /** Attempts of `who` let through, of those sent in slots lo to hi. */
  function Passed(log: seq<Attempt>, who: string, lo: int, hi: int, length: nat): nat
    requires length > 0
  {
    if log == [] then 0
    else
      var a := log[|log| - 1];
      Passed(log[..|log| - 1], who, lo, hi, length) + if a.ok && a.who == who && lo <= a.askedAt / length <= hi then 1 else 0
  }

  /** Fewer attempts than the limit were sent for the same slot before attempt i. */
  predicate HadRoom(log: seq<Attempt>, limit: int, length: nat, i: nat)
    requires i < |log| && length > 0
  {
    Sent(log[..i], log[i].who, log[i].askedAt / length, length) < limit
  }

  /** An attempt is let through only if, or exactly if, it had room. */
  ghost predicate Decided(log: seq<Attempt>, limit: int, length: nat, exactly: bool)
    requires length > 0
  {
    forall i: nat :: i < |log| ==>
      (log[i].ok ==> HadRoom(log, limit, length, i)) && (exactly && HadRoom(log, limit, length, i) ==> log[i].ok)
  }

  /** A slot that can still be asked for has all its attempts counted. */
  predicate SlotTallied(log: seq<Attempt>, counts: map<string, nat>, who: string, slot: nat, length: nat, now: nat, delay: nat,
                        exactly: bool)
    requires length > 0
  {
    SlotOver(AttemptKey(who, slot), length, now, delay) ||
    (Sent(log, who, slot, length) <= Count(counts, AttemptKey(who, slot)) &&
     (exactly ==> Sent(log, who, slot, length) == Count(counts, AttemptKey(who, slot))))
  }

  ghost predicate Tallied(log: seq<Attempt>, counts: map<string, nat>, length: nat, now: nat, delay: nat, exactly: bool)
    requires length > 0
  {
    forall who: string, slot: nat :: SlotTallied(log, counts, who, slot, length, now, delay, exactly)
  }

  // ---- What each change of the counts keeps ---------------------------------------------

  lemma SentGrows(log: seq<Attempt>, a: Attempt, who: string, slot: nat, length: nat)
    requires length > 0
    ensures Sent(log + [a], who, slot, length) ==
            Sent(log, who, slot, length) + if a.who == who && a.askedAt / length == slot then 1 else 0
  {
    assert (log + [a])[..|log|] == log;
  }

  lemma TalliedLater(log: seq<Attempt>, counts: map<string, nat>, length: nat, now: nat, later: nat, delay: nat, exactly: bool)
    requires length > 0 && now <= later && Tallied(log, counts, length, now, delay, exactly)
    ensures Tallied(log, counts, length, later, delay, exactly)
  {
    forall who: string, slot: nat ensures SlotTallied(log, counts, who, slot, length, later, delay, exactly) {
      assert SlotTallied(log, counts, who, slot, length, now, delay, exactly);
    }
  }

  lemma TalliedForget(log: seq<Attempt>, counts: map<string, nat>, drop: set<string>, length: nat, now: nat, delay: nat, exactly: bool)
    requires length > 0 && Tallied(log, counts, length, now, delay, exactly)
    requires forall k :: k in drop && k in counts ==> SlotOver(k, length, now, delay)
    ensures Tallied(log, counts - drop, length, now, delay, exactly)
  {
    hide Sent, AttemptKey;
    forall who: string, slot: nat ensures SlotTallied(log, counts - drop, who, slot, length, now, delay, exactly) {
      assert SlotTallied(log, counts, who, slot, length, now, delay, exactly);
      var key := AttemptKey(who, slot);
      assert key in drop && key in counts ==> SlotOver(key, length, now, delay);
    }
  }

  lemma EndOfSlot(t: nat, length: nat)
    requires length > 0
    ensures t < t / length * length + length
  {
  }

  /** An attempt counted in time finds the count of its slot. */
  lemma TalliedAt(log: seq<Attempt>, counts: map<string, nat>, a: Attempt, length: nat, now: nat, delay: nat, exactly: bool)
    requires length > 0 && Tallied(log, counts, length, now, delay, exactly) && InTime(a.askedAt, now, delay)
    ensures var sent, count := Sent(log, a.who, a.askedAt / length, length), Count(counts, AttemptKey(a.who, a.askedAt / length));
            sent <= count && (exactly ==> sent == count)
  {
    SuffixOfKey(a.who, a.askedAt / length);
    EndOfSlot(a.askedAt, length);
    hide AttemptKey, Suffix, Sent;
    assert SlotTallied(log, counts, a.who, a.askedAt / length, length, now, delay, exactly);
    assert !SlotOver(AttemptKey(a.who, a.askedAt / length), length, now, delay);
  }

  lemma BumpCounts(counts: map<string, nat>, key: string, other: string)
    ensures Count(Bumped(counts, key), other) == Count(counts, other) + if other == key then 1 else 0
  {
  }

  lemma KeysDiffer(who: string, slot: nat, who': string, slot': nat)
    ensures AttemptKey(who, slot) == AttemptKey(who', slot') <==> who == who' && slot == slot'
  {
    if AttemptKey(who, slot) == AttemptKey(who', slot') { KeyInjective(who, slot, who', slot'); }
  }

  lemma SlotBump(log: seq<Attempt>, counts: map<string, nat>, a: Attempt, who: string, slot: nat, length: nat, now: nat, delay: nat,
                 exactly: bool)
    requires length > 0 && SlotTallied(log, counts, who, slot, length, now, delay, exactly)
    ensures SlotTallied(log + [a], Bumped(counts, AttemptKey(a.who, a.askedAt / length)), who, slot, length, now, delay, exactly)
  {
    hide Sent, SlotOver, AttemptKey, Count, Bumped;
    SentGrows(log, a, who, slot, length);
    KeysDiffer(who, slot, a.who, a.askedAt / length);
    BumpCounts(counts, AttemptKey(a.who, a.askedAt / length), AttemptKey(who, slot));
  }

  lemma TalliedBump(log: seq<Attempt>, counts: map<string, nat>, a: Attempt, length: nat, now: nat, delay: nat, exactly: bool)
    requires length > 0 && Tallied(log, counts, length, now, delay, exactly)
    ensures Tallied(log + [a], Bumped(counts, AttemptKey(a.who, a.askedAt / length)), length, now, delay, exactly)
  {
    hide SlotTallied, AttemptKey;
    var after := Bumped(counts, AttemptKey(a.who, a.askedAt / length));
    forall who: string, slot: nat ensures SlotTallied(log + [a], after, who, slot, length, now, delay, exactly) {
      SlotBump(log, counts, a, who, slot, length, now, delay, exactly);
    }
  }

  lemma HadRoomBefore(log: seq<Attempt>, a: Attempt, limit: int, length: nat, i: nat)
    requires length > 0 && i < |log|
    ensures (log + [a])[i] == log[i] && HadRoom(log + [a], limit, length, i) == HadRoom(log, limit, length, i)
  {
    assert (log + [a])[..i] == log[..i];
  }

  /** One more attempt, answered by its slot's count. */
  lemma DecidedBump(log: seq<Attempt>, counts: map<string, nat>, a: Attempt, limit: int, length: nat, now: nat, delay: nat, exactly: bool)
    requires length > 0 && Tallied(log, counts, length, now, delay, exactly) && Decided(log, limit, length, exactly)
    requires InTime(a.askedAt, now, delay) && (a.ok <==> Count(counts, AttemptKey(a.who, a.askedAt / length)) + 1 <= limit)
    ensures Decided(log + [a], limit, length, exactly)
  {
    TalliedAt(log, counts, a, length, now, delay, exactly);
    assert (log + [a])[..|log|] == log;
    forall i: nat | i < |log| + 1
      ensures (log + [a])[i].ok ==> HadRoom(log + [a], limit, length, i)
      ensures exactly && HadRoom(log + [a], limit, length, i) ==> (log + [a])[i].ok
    {
      if i < |log| { HadRoomBefore(log, a, limit, length, i); }
    }
  }

  // ---- What the limit means over time ---------------------------------------------------------

  lemma {:induction false} PassedWereSent(log: seq<Attempt>, who: string, slot: nat, length: nat)
    requires length > 0
    ensures Passed(log, who, slot, slot, length) <= Sent(log, who, slot, length)
  {
    if log != [] {
      PassedWereSent(log[..|log| - 1], who, slot, length);
    }
  }

  lemma DecidedFront(log: seq<Attempt>, limit: int, length: nat)
    requires length > 0 && log != [] && Decided(log, limit, length, false)
    ensures Decided(log[..|log| - 1], limit, length, false)
  {
    var front := log[..|log| - 1];
    forall i: nat | i < |front| && front[i].ok ensures HadRoom(front, limit, length, i) {
      assert log[i].ok && front[..i] == log[..i];
      assert HadRoom(log, limit, length, i);
    }
  }

  /** No slot lets more through than its limit. */
  lemma {:induction false} SlotCapped(log: seq<Attempt>, who: string, slot: nat, limit: int, length: nat)
    requires length > 0 && Decided(log, limit, length, false)
    ensures Passed(log, who, slot, slot, length) == 0 || Passed(log, who, slot, slot, length) <= limit
  {
    if log != [] {
      DecidedFront(log, limit, length);
      SlotCapped(log[..|log| - 1], who, slot, limit, length);
      PassedWereSent(log[..|log| - 1], who, slot, length);
      assert log[|log| - 1].ok ==> HadRoom(log, limit, length, |log| - 1);
    }
  }

  lemma {:induction false} PassedSplit(log: seq<Attempt>, who: string, lo: int, hi: int, length: nat)
    requires length > 0 && lo <= hi
    ensures Passed(log, who, lo, hi, length) == Passed(log, who, lo, hi - 1, length) + Passed(log, who, hi, hi, length)
  {
    if log != [] {
      PassedSplit(log[..|log| - 1], who, lo, hi, length);
    }
  }

  lemma {:induction false} PassedNone(log: seq<Attempt>, who: string, lo: int, hi: int, length: nat)
    requires length > 0 && lo > hi
    ensures Passed(log, who, lo, hi, length) == 0
  {
    if log != [] {
      PassedNone(log[..|log| - 1], who, lo, hi, length);
    }
  }

  lemma OneMore(each: nat, n: nat)
    requires n > 0
    ensures each * n == each * (n - 1) + each
  {
  }

  lemma {:induction false} SumOfSlots(log: seq<Attempt>, who: string, limit: nat, lo: nat, n: nat, length: nat)
    requires length > 0 && Decided(log, limit, length, false)
    ensures Passed(log, who, lo, lo + n - 1, length) <= limit * n
  {
    if n == 0 {
      PassedNone(log, who, lo, lo - 1, length);
    } else {
      SumOfSlots(log, who, limit, lo, n - 1, length);
      PassedSplit(log, who, lo, lo + n - 1, length);
      SlotCapped(log, who, lo + n - 1, limit, length);
      OneMore(limit, n);
    }
  }

  /** Attempts let through that were sent between a and b. */
  function SentBetween(log: seq<Attempt>, who: string, a: nat, b: nat): nat {
    if log == [] then 0
    else
      var last := log[|log| - 1];
      SentBetween(log[..|log| - 1], who, a, b) + if last.ok && last.who == who && a <= last.askedAt <= b then 1 else 0
  }

  /** Attempts let through between a and b. */
  function AllowedBetween(log: seq<Attempt>, who: string, a: nat, b: nat): nat {
    if log == [] then 0
    else
      var last := log[|log| - 1];
      AllowedBetween(log[..|log| - 1], who, a, b) + if last.ok && last.who == who && a <= last.at <= b then 1 else 0
  }

  lemma Multiplied(x: int, y: int, length: nat)
    ensures x <= y ==> x * length <= y * length
    ensures (x + 1) * length == x * length + length
  {
  }

  lemma SlotsInOrder(a: nat, b: nat, length: nat)
    requires length > 0 && a <= b
    ensures a / length <= b / length
  {
    EndOfSlot(b, length);
    Multiplied(b / length, a / length, length);
    Multiplied(b / length + 1, a / length, length);
    assert a / length * length <= a;
  }

  lemma {:induction false} BetweenIsInSlots(log: seq<Attempt>, who: string, a: nat, b: nat, length: nat)
    requires length > 0
    ensures SentBetween(log, who, a, b) <= Passed(log, who, a / length, b / length, length)
  {
    if log != [] {
      var last := log[|log| - 1];
      BetweenIsInSlots(log[..|log| - 1], who, a, b, length);
      if a <= last.askedAt <= b {
        SlotsInOrder(a, last.askedAt, length);
        SlotsInOrder(last.askedAt, b, length);
      }
    }
  }

  ghost predicate AnsweredInTime(log: seq<Attempt>, delay: nat) {
    forall i :: 0 <= i < |log| ==> InTime(log[i].askedAt, log[i].at, delay)
  }

  function Back(t: nat, delay: nat): nat {
    if t < delay then 0 else t - delay
  }

  lemma {:induction false} AllowedWereSent(log: seq<Attempt>, who: string, a: nat, b: nat, delay: nat)
    requires AnsweredInTime(log, delay)
    ensures AllowedBetween(log, who, a, b) <= SentBetween(log, who, Back(a, delay), b)
  {
    if log != [] {
      var last := log[|log| - 1];
      assert InTime(last.askedAt, last.at, delay);
      AllowedWereSent(log[..|log| - 1], who, a, b, delay);
    }
  }

  lemma SentInSlots(log: seq<Attempt>, who: string, limit: nat, length: nat, a: nat, b: nat)
    requires length > 0 && a <= b && Decided(log, limit, length, false)
    ensures SentBetween(log, who, a, b) <= limit * (b / length - a / length + 1)
  {
    SlotsInOrder(a, b, length);
    SumOfSlots(log, who, limit, a / length, b / length - a / length + 1, length);
    BetweenIsInSlots(log, who, a, b, length);
  }

  /** What an interval can cost: the limit for each slot it touches, reaching back by the delay. */
  lemma IntervalCapped(log: seq<Attempt>, who: string, limit: nat, length: nat, delay: nat, a: nat, b: nat)
    requires length > 0 && a <= b && Decided(log, limit, length, false) && AnsweredInTime(log, delay)
    ensures AllowedBetween(log, who, a, b) <= limit * (b / length - Back(a, delay) / length + 1)
    ensures SentBetween(log, who, a, b) <= limit * (b / length - a / length + 1)
  {
    AllowedWereSent(log, who, a, b, delay);
    SentInSlots(log, who, limit, length, Back(a, delay), b);
    SentInSlots(log, who, limit, length, a, b);
  }
}
