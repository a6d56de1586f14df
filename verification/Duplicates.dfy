/** The bounded duplicate tracker against an unbounded record of everything it accepted. */
module Duplicates {
  import opened Texts

  /** The last `n` elements, or all of them. */
  function Last<T>(s: seq<T>, n: nat): seq<T> { if |s| <= n then s else s[|s| - n..] }

  /** What a tracker of this capacity keeps in its list after the calls. */
  function Kept(capacity: nat, calls: seq<Text>): seq<Text> {
    if calls == [] then []
    else
      var before := Kept(capacity, calls[..|calls| - 1]);
      var id := calls[|calls| - 1];
      if id in before then before
      else if |before| + 1 > capacity then (before + [id])[1..]
      else before + [id]
  }

  /** Everything accepted, in order: a call is accepted unless its id is among the last `capacity` acceptances. */
  function Accepted(capacity: nat, calls: seq<Text>): seq<Text> {
    if calls == [] then []
    else
      var before := Accepted(capacity, calls[..|calls| - 1]);
      var id := calls[|calls| - 1];
      if id in Last(before, capacity) then before else before + [id]
  }

  lemma LastAppend(s: seq<Text>, id: Text, n: nat)
    requires n >= 1
    ensures Last(s + [id], n) == if |Last(s, n)| + 1 > n then (Last(s, n) + [id])[1..] else Last(s, n) + [id]
  {
  }

  /** After any calls the list is exactly the last acceptances, however many calls were rejected in between. */
  lemma {:induction false} KeptIsWindow(capacity: nat, calls: seq<Text>)
    requires capacity >= 1
    ensures Kept(capacity, calls) == Last(Accepted(capacity, calls), capacity)
  {
    if calls != [] {
      var rest := calls[..|calls| - 1];
      KeptIsWindow(capacity, rest);
      LastAppend(Accepted(capacity, rest), calls[|calls| - 1], capacity);
    }
  }

  predicate Distinct(s: seq<Text>) { forall i, j :: 0 <= i < j < |s| ==> s[i] != s[j] }

  predicate Apart(s: seq<Text>, distance: nat) {
    forall i, j :: 0 <= i < j < |s| && s[i] == s[j] ==> j - i > distance
  }

  /** An element that is not among the last `distance` can be appended. */
  lemma ApartAppend(s: seq<Text>, distance: nat, id: Text)
    requires Apart(s, distance) && id !in Last(s, distance)
    ensures Apart(s + [id], distance)
  {
    var t := s + [id];
    var window := Last(s, distance);
    forall k | 0 <= k < |s| && |s| - k <= distance ensures s[k] != id {
      assert window[k - (|s| - |window|)] == s[k];
    }
    forall i, j | 0 <= i < j < |t| && t[i] == t[j] ensures j - i > distance {
      if j < |s| { assert s[i] == s[j]; }
    }
  }

  /** Two acceptances of one id have at least `capacity` acceptances of others between them. */
  lemma {:induction false} AcceptedApart(capacity: nat, calls: seq<Text>)
    ensures Apart(Accepted(capacity, calls), capacity)
  {
    if calls != [] {
      var rest := calls[..|calls| - 1];
      AcceptedApart(capacity, rest);
      if calls[|calls| - 1] !in Last(Accepted(capacity, rest), capacity) {
        ApartAppend(Accepted(capacity, rest), capacity, calls[|calls| - 1]);
      }
    }
  }

  /** The list never holds an id twice, and never more than its capacity. */
  lemma KeptDistinct(capacity: nat, calls: seq<Text>)
    requires capacity >= 1
    ensures Distinct(Kept(capacity, calls)) && |Kept(capacity, calls)| <= capacity
  {
    KeptIsWindow(capacity, calls);
    AcceptedApart(capacity, calls);
  }

  class DuplicateTracker {
    const capacity: nat
    var ids: seq<Text>
    /** Every call so far. */
    ghost var calls: seq<Text>

    ghost predicate Valid()
      reads this
    {
      capacity >= 1 && ids == Kept(capacity, calls)
    }

    constructor (capacity: nat)
      requires capacity >= 1
      ensures Valid() && this.capacity == capacity && calls == []
    {
      this.capacity := capacity;
      ids, calls := [], [];
    }

    method Accept(id: Text) returns (accepted: bool)
      requires Valid()
      modifies this
      ensures Valid() && calls == old(calls) + [id]
      ensures accepted <==> id !in Last(Accepted(capacity, old(calls)), capacity)
      ensures Accepted(capacity, calls) ==
        if accepted then Accepted(capacity, old(calls)) + [id] else Accepted(capacity, old(calls))
    {
      KeptIsWindow(capacity, calls);
      calls := calls + [id];
      assert calls[..|calls| - 1] == old(calls);
      if id in ids { return false; }
      ids := ids + [id];
      if |ids| > capacity { ids := ids[1..]; }
      return true;
    }
  }
}
