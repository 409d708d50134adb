/**
 * The subscription registry (subscribe_list): for each boss slot, the members
 * waiting to be told when that boss is back. Absent (None) until the first
 * subscription is made.
 */
module Subscriptions {
  import opened Wrappers
  import opened Clan

  type Subs = Option<map<Slot, seq<Member>>>

  /** The waitlists as the source loads them: an absent registry reads as empty. */
  function Table(subs: Subs): map<Slot, seq<Member>>
  {
    subs.GetOr(map[])
  }

  /** Every waitlist is non-empty and names each member once. */
  predicate WellKept(subs: Subs)
  {
    forall k: Slot :: k in Table(subs) ==> |Table(subs)[k]| > 0 && NoDup(Table(subs)[k])
  }

  predicate NoDup(xs: seq<Member>)
  {
    forall i, j :: 0 <= i < j < |xs| ==> xs[i] != xs[j]
  }

  /** subscribe to boss `k`: refused when already on its waitlist, otherwise appended to it. */
  function Subscribe(subs: Subs, m: Member, k: Slot): Result<Subs, Error>
  {
    var t := Table(subs);
    if k in t then
      if m in t[k] then Failure(GroupError) else Success(Some(t[k := t[k] + [m]]))
    else Success(Some(t[k := [m]]))
  }

  /** Python's list.remove: drops the first occurrence of `x`. */
  function RemoveFirst(xs: seq<Member>, x: Member): (r: seq<Member>)
    requires x in xs
    ensures |r| == |xs| - 1
    ensures forall y :: y in r ==> y in xs
  {
    if xs[0] == x then xs[1..]
    else
      assert xs == [xs[0]] + xs[1..];
      [xs[0]] + RemoveFirst(xs[1..], x)
  }

  /** subscribe_cancel: without a member the whole waitlist of `k` goes; with one, only that member (and an emptied list). */
  function SubscribeCancel(subs: Subs, k: Slot, m: Option<Member>): Result<Subs, Error>
  {
    var t := Table(subs);
    if |t| == 0 || k !in t then Failure(GroupError)
    else if m.None? then Success(Some(t - {k}))
    else if m.value !in t[k] then Failure(GroupError)
    else
      var rest := RemoveFirst(t[k], m.value);
      Success(Some(if |rest| == 0 then t - {k} else t[k := rest]))
  }

  /** subscribe_remind: tells the waitlist of `k` that the boss is back, then drops the list. */
  function Remind(subs: Subs, k: Slot): (Subs, seq<Notice>)
  {
    var t := Table(subs);
    if |t| == 0 || k !in t then (subs, [])
    else (Some(t - {k}), [Drained(k, t[k])])
  }

  /** The '表' form of subscribe: the five waitlists in boss order, refused while the waitlists are unset (a new group, or after clear_data_slot). */
  function Listing(subs: Subs): (r: Result<seq<seq<Member>>, Error>)
    ensures r.Success? <==> subs.Some?
    ensures r.Success? ==> |r.value| == 5
    ensures r.Success? ==> forall k: Slot, m :: m in r.value[k - 1] <==> k in Table(subs) && m in Table(subs)[k]
  {
    if subs.None? then Failure(GroupError)
    else
      var t := subs.value;
      Success([WaitList(t, 1), WaitList(t, 2), WaitList(t, 3), WaitList(t, 4), WaitList(t, 5)])
  }

  function WaitList(t: map<Slot, seq<Member>>, k: Slot): seq<Member>
  {
    if k in t then t[k] else []
  }

  // ---------------------------------------------------------------------
  // Properties

  /** Removing the only copy of `x` from a duplicate-free list leaves every other member and drops `x`. */
  lemma {:induction false} RemoveFirstNoDup(xs: seq<Member>, x: Member)
    requires x in xs && NoDup(xs)
    ensures var r := RemoveFirst(xs, x);
            NoDup(r) && x !in r && forall y :: y != x ==> (y in r <==> y in xs)
  {
    var tail := xs[1..];
    assert NoDup(tail);
    assert forall y :: y in xs <==> y == xs[0] || y in tail by {
      assert xs == [xs[0]] + tail;
    }
    if xs[0] == x {
      assert x !in tail by {
        forall j | 0 <= j < |tail| ensures tail[j] != x {
          assert xs[j + 1] == tail[j];
        }
      }
    } else {
      RemoveFirstNoDup(tail, x);
      var r' := RemoveFirst(tail, x);
      assert xs[0] !in tail by {
        forall j | 0 <= j < |tail| ensures tail[j] != xs[0] {
          assert xs[j + 1] == tail[j];
        }
      }
      assert xs[0] !in r';
      var r := [xs[0]] + r';
      forall i, j | 0 <= i < j < |r| ensures r[i] != r[j] {
        if i > 0 {
          assert r[i] == r'[i - 1] && r[j] == r'[j - 1];
        } else {
          assert r[j] in r';
        }
      }
    }
  }

  /** Subscribing twice to the same boss is refused the second time. */
  lemma SubscribeTwiceRefused(subs: Subs, m: Member, k: Slot)
    requires Subscribe(subs, m, k).Success?
    ensures Subscribe(Subscribe(subs, m, k).value, m, k) == Failure(GroupError)
  {
  }

  /** Subscribing keeps every waitlist non-empty and free of duplicates. */
  lemma SubscribeWellKept(subs: Subs, m: Member, k: Slot)
    requires WellKept(subs) && Subscribe(subs, m, k).Success?
    ensures WellKept(Subscribe(subs, m, k).value)
    ensures m in Table(Subscribe(subs, m, k).value)[k]
  {
  }

  /** Cancelling a fresh subscription gives back the waitlists as they were. */
  lemma SubscribeThenCancel(subs: Subs, m: Member, k: Slot)
    requires WellKept(subs) && Subscribe(subs, m, k).Success?
    ensures var s1 := Subscribe(subs, m, k).value;
            SubscribeCancel(s1, k, Some(m)).Success? && Table(SubscribeCancel(s1, k, Some(m)).value) == Table(subs)
  {
    var t := Table(subs);
    if k in t {
      RemoveFirstAppended(t[k], m);
    }
  }

  /** Removing a member just appended to a list that did not hold it gives the list back. */
  lemma {:induction false} RemoveFirstAppended(xs: seq<Member>, x: Member)
    requires x !in xs
    ensures RemoveFirst(xs + [x], x) == xs
  {
    if |xs| > 0 {
      assert (xs + [x])[1..] == xs[1..] + [x];
      RemoveFirstAppended(xs[1..], x);
      assert xs == [xs[0]] + xs[1..];
    }
  }

  /**
   * Cancelling one member's subscription removes that member from that boss
   * only: other bosses keep their lists, the boss keeps its other members, and
   * a list left empty is dropped.
   */
  lemma CancelOneMember(subs: Subs, k: Slot, m: Member)
    requires WellKept(subs) && k in Table(subs) && m in Table(subs)[k]
    ensures var r := SubscribeCancel(subs, k, Some(m));
            && r.Success? && WellKept(r.value)
            && (forall j: Slot :: j != k ==> (j in Table(r.value) <==> j in Table(subs)))
            && (forall j: Slot :: j != k && j in Table(subs) ==> Table(r.value)[j] == Table(subs)[j])
            && (k in Table(r.value) ==>
                  && m !in Table(r.value)[k]
                  && forall n :: n != m ==> (n in Table(r.value)[k] <==> n in Table(subs)[k]))
            && (k !in Table(r.value) <==> Table(subs)[k] == [m])
  {
    var xs := Table(subs)[k];
    RemoveFirstNoDup(xs, m);
    var rest := RemoveFirst(xs, m);
    if |rest| == 0 {
      assert xs == [m] by {
        assert |xs| == 1;
        assert xs[0] == m;
      }
    }
  }

  /** Cancelling without a member drops the boss's whole waitlist and nothing else; absent subscriptions are refused. */
  lemma CancelWholeSlot(subs: Subs, k: Slot, m: Option<Member>)
    ensures k !in Table(subs) ==> SubscribeCancel(subs, k, m) == Failure(GroupError)
    ensures k in Table(subs) && m.Some? && m.value !in Table(subs)[k] ==> SubscribeCancel(subs, k, m) == Failure(GroupError)
    ensures k in Table(subs) && m.None? ==> SubscribeCancel(subs, k, m) == Success(Some(Table(subs) - {k}))
  {
  }

  /** Reminding empties the boss's waitlist with exactly one announcement to it, or does nothing when nobody waits. */
  lemma RemindDrains(subs: Subs, k: Slot)
    ensures var (s1, ns) := Remind(subs, k);
            && k !in Table(s1)
            && (forall j: Slot :: j != k ==> (j in Table(s1) <==> j in Table(subs)))
            && (forall j: Slot :: j != k && j in Table(subs) ==> Table(s1)[j] == Table(subs)[j])
            && (if k in Table(subs) then ns == [Drained(k, Table(subs)[k])] else ns == [] && s1 == subs)
  {
  }
}
