/** The scroll-reveal effect of `initRevealAnimations`: every
    `.animate-fade-in` element is observed; an intersecting entry adds the
    `revealed` class to its target and stops observing it. Elements are
    numbered 0 .. n-1 in document order. */
module Reveal {

  /** One intersection entry: the element it is about and whether it is
      intersecting. The observer's threshold and root margin only decide
      when the browser reports `isIntersecting`, so they are not modelled. */
  datatype Entry = Entry(target: nat, isIntersecting: bool)

  /** Every entry is about one of the `n` elements. */
  predicate InRange(entries: seq<Entry>, n: nat)
  {
    forall k :: 0 <= k < |entries| ==> entries[k].target < n
  }

  /** Some entry of the batch reports element `i` as intersecting. */
  predicate Hit(entries: seq<Entry>, i: nat)
  {
    exists k :: 0 <= k < |entries| && entries[k].target == i && entries[k].isIntersecting
  }

  /** The elements that the batch reports as intersecting. */
  function HitTargets(entries: seq<Entry>): (hits: set<nat>)
    ensures forall i :: i in hits <==> Hit(entries, i)
  {
    set k | 0 <= k < |entries| && entries[k].isIntersecting :: entries[k].target
  }

  /** An entry of a batch hits `i` exactly when an earlier entry does or
      the last one does. */
  lemma HitLast(entries: seq<Entry>)
    requires entries != []
    ensures var init, e := entries[..|entries| - 1], entries[|entries| - 1];
            forall i :: Hit(entries, i) <==> Hit(init, i) || (e.target == i && e.isIntersecting)
  {
  }

  /** Which elements carry `revealed` after the callback has handled
      `entries` one after the other, starting from `state`. */
  function Reveal(state: seq<bool>, entries: seq<Entry>): (r: seq<bool>)
    requires InRange(entries, |state|)
    ensures |r| == |state|
    ensures forall i :: 0 <= i < |state| ==> (r[i] <==> state[i] || Hit(entries, i))
    decreases |entries|
  {
    if entries == [] then state
    else
      var init := entries[..|entries| - 1];
      var e := entries[|entries| - 1];
      var before := Reveal(state, init);
      HitLast(entries);
      if e.isIntersecting then before[e.target := true] else before
  }

  /** Some batch reports element `i` as intersecting. */
  predicate HitInSome(batches: seq<seq<Entry>>, i: nat)
  {
    exists b :: 0 <= b < |batches| && Hit(batches[b], i)
  }

  /** Handling one batch after another: an element ends revealed exactly
      when it started revealed or some batch reports it intersecting. */
  function RevealAll(state: seq<bool>, batches: seq<seq<Entry>>): (r: seq<bool>)
    requires forall b :: 0 <= b < |batches| ==> InRange(batches[b], |state|)
    ensures |r| == |state|
    ensures forall i :: 0 <= i < |state| ==> (r[i] <==> state[i] || HitInSome(batches, i))
    decreases |batches|
  {
    if batches == [] then state
    else
      var rest := batches[1..];
      assert forall i :: HitInSome(batches, i) <==> Hit(batches[0], i) || HitInSome(rest, i) by {
        forall i ensures HitInSome(batches, i) ==> Hit(batches[0], i) || HitInSome(rest, i) {
          if HitInSome(batches, i) {
            var b :| 0 <= b < |batches| && Hit(batches[b], i);
            if b > 0 { assert rest[b - 1] == batches[b]; }
          }
        }
        forall i ensures HitInSome(rest, i) ==> HitInSome(batches, i) {
          if HitInSome(rest, i) {
            var b :| 0 <= b < |rest| && Hit(rest[b], i);
            assert batches[b + 1] == rest[b];
          }
        }
      }
      RevealAll(Reveal(state, batches[0]), rest)
  }

  /** How many of the batches turn element `i` from hidden to revealed. */
  function Flips(state: seq<bool>, batches: seq<seq<Entry>>, i: nat): (n: nat)
    requires i < |state|
    requires forall b :: 0 <= b < |batches| ==> InRange(batches[b], |state|)
    ensures n <= |batches|
    decreases |batches|
  {
    if batches == [] then 0
    else
      var next := Reveal(state, batches[0]);
      (if !state[i] && next[i] then 1 else 0) + Flips(next, batches[1..], i)
  }

  /** A revealed element is never hidden again, whatever batches follow. */
  lemma {:induction false} NeverHiddenAgain(state: seq<bool>, batches: seq<seq<Entry>>, i: nat)
    requires i < |state| && state[i]
    requires forall b :: 0 <= b < |batches| ==> InRange(batches[b], |state|)
    ensures RevealAll(state, batches)[i]
    ensures Flips(state, batches, i) == 0
    decreases |batches|
  {
    if batches != [] {
      var next := Reveal(state, batches[0]);
      NeverHiddenAgain(next, batches[1..], i);
    }
  }

  /** Across any sequence of batches an element is revealed at most once,
      and it ends revealed exactly when it started revealed or was revealed
      along the way. */
  lemma {:induction false} RevealedAtMostOnce(state: seq<bool>, batches: seq<seq<Entry>>, i: nat)
    requires i < |state|
    requires forall b :: 0 <= b < |batches| ==> InRange(batches[b], |state|)
    ensures Flips(state, batches, i) <= 1
    ensures RevealAll(state, batches)[i] <==> state[i] || Flips(state, batches, i) == 1
    decreases |batches|
  {
    if batches != [] {
      var next := Reveal(state, batches[0]);
      if next[i] {
        NeverHiddenAgain(next, batches[1..], i);
      } else {
        RevealedAtMostOnce(next, batches[1..], i);
      }
    }
  }

  /** A batch in which nothing intersects changes no element and keeps
      every element observed. */
  lemma NonIntersectingChangesNothing(state: seq<bool>, observed: set<nat>, entries: seq<Entry>)
    requires InRange(entries, |state|)
    requires forall k :: 0 <= k < |entries| ==> !entries[k].isIntersecting
    ensures Reveal(state, entries) == state
    ensures observed - HitTargets(entries) == observed
  {
  }

  class Observer {
    /** Whether element `i`'s class list holds `revealed`. */
    const revealed: array<bool>
    /** The elements the observer still observes. */
    var observed: set<nat>

    /** An element is revealed exactly when it is no longer observed. */
    ghost predicate Valid()
      reads this, revealed
    {
      (forall i :: i in observed ==> i < revealed.Length) &&
      forall i :: 0 <= i < revealed.Length ==> (revealed[i] <==> i !in observed)
    }

    /** Observes each of the `count` elements, none of them revealed yet. */
    constructor (count: nat)
      ensures Valid() && fresh(revealed) && revealed.Length == count
      ensures forall i :: 0 <= i < count ==> !revealed[i]
      ensures forall i: nat :: i in observed <==> i < count
    {
      revealed := new bool[count](_ => false);
      observed := {};
      new;
      for i := 0 to count
        invariant forall j: nat :: j in observed <==> j < i
        invariant forall j :: 0 <= j < count ==> !revealed[j]
      {
        observed := observed + {i};
      }
    }

    /** The observer callback: each intersecting entry reveals its target
        and stops observing it; other entries are skipped. */
    method OnEntries(entries: seq<Entry>)
      requires Valid() && InRange(entries, revealed.Length)
      modifies this, revealed
      ensures revealed[..] == Reveal(old(revealed[..]), entries)
      ensures observed == old(observed) - HitTargets(entries)
      ensures Valid()
    {
      for k := 0 to |entries|
        invariant revealed[..] == Reveal(old(revealed[..]), entries[..k])
        invariant observed == old(observed) - HitTargets(entries[..k])
      {
        var e := entries[k];
        assert entries[..k + 1][..k] == entries[..k];
        HitLast(entries[..k + 1]);
        assert HitTargets(entries[..k + 1]) == HitTargets(entries[..k]) + (if e.isIntersecting then {e.target} else {});
        if e.isIntersecting {
          revealed[e.target] := true;
          observed := observed - {e.target};
        }
      }
      assert entries[..|entries|] == entries;
    }
  }
}
