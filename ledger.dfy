/**
 * The challenge ledger: the append-only list of Clan_challenge rows of one
 * group, oldest first (ledger order is the order of the row ids), and the
 * per-member daily counts derived from it.
 */
module Ledger {
  import opened Wrappers
  import opened Clan

  /** One reported attempt. */
  datatype Challenge = Challenge(
    member: Member,         // who dealt the damage (the behalfed member when reported for someone else)
    bid: int,               // archive (battle id) the row belongs to
    date: int,              // game-calendar date of the attempt
    cycle: int,             // cycle of the boss that was hit
    slot: Slot,             // boss position
    remain: nat,            // boss health after the hit; 0 when the boss was defeated
    damage: nat,            // damage recorded for the hit
    isContinue: bool,       // a compensation ("continue") attempt
    behalf: Option<Member>) // who reported it on the dealer's behalf

  /** The rows of archive `bid` on `date`, in ledger order. */
  function Day(ledger: seq<Challenge>, bid: int, date: int): seq<Challenge>
  {
    if |ledger| == 0 then []
    else
      var c := ledger[|ledger| - 1];
      Day(ledger[..|ledger| - 1], bid, date) + (if c.bid == bid && c.date == date then [c] else [])
  }

  /** The rows of `member` among `es`, in order. */
  function ByMember(es: seq<Challenge>, member: Member): seq<Challenge>
  {
    if |es| == 0 then []
    else
      var c := es[|es| - 1];
      ByMember(es[..|es| - 1], member) + (if c.member == member then [c] else [])
  }

  /** One member's rows of one archive and day: what the daily quota is counted over. */
  function Of(ledger: seq<Challenge>, bid: int, member: Member, date: int): seq<Challenge>
  {
    ByMember(Day(ledger, bid, date), member)
  }

  /** A row counts as a finished (full) attempt when the boss survived it or it was a compensation attempt. */
  predicate IsFinished(c: Challenge) { c.remain != 0 || c.isContinue }

  /** A row earns a compensation attempt when it killed the boss and was not itself a compensation attempt. */
  predicate IsTail(c: Challenge) { c.remain == 0 && !c.isContinue }

  function Finished(es: seq<Challenge>): nat
  {
    if |es| == 0 then 0 else Finished(es[..|es| - 1]) + (if IsFinished(es[|es| - 1]) then 1 else 0)
  }

  function Continues(es: seq<Challenge>): nat
  {
    if |es| == 0 then 0 else Continues(es[..|es| - 1]) + (if es[|es| - 1].isContinue then 1 else 0)
  }

  function Tails(es: seq<Challenge>): nat
  {
    if |es| == 0 then 0 else Tails(es[..|es| - 1]) + (if IsTail(es[|es| - 1]) then 1 else 0)
  }

  /** Compensation attempts earned and not yet used. */
  function Balance(es: seq<Challenge>): int
  {
    Tails(es) - Continues(es)
  }

  /** Every row is either finished or a tail, never both: the source's `len - finished - all_cont` is the balance. */
  lemma {:induction false} Partition(es: seq<Challenge>)
    ensures |es| == Finished(es) + Tails(es)
    ensures |es| - Finished(es) - Continues(es) == Balance(es)
  {
    if |es| > 0 {
      Partition(es[..|es| - 1]);
    }
  }

  /** No prefix of `es` uses more compensation attempts than it has earned. */
  predicate NeverOverdrawn(es: seq<Challenge>)
  {
    |es| == 0 || (NeverOverdrawn(es[..|es| - 1]) && Balance(es) >= 0)
  }

  /** At most three finished attempts per member, archive and day. */
  ghost predicate QuotaRespected(ledger: seq<Challenge>)
  {
    forall bid, member, date :: Finished(Of(ledger, bid, member, date)) <= 3
  }

  /** No member, archive and day ever has a negative compensation balance, at any point. */
  ghost predicate Solvent(ledger: seq<Challenge>)
  {
    forall bid, member, date :: NeverOverdrawn(Of(ledger, bid, member, date))
  }

  /** True when archive `bid` has a row dated `date` (the "today's ledger is empty" test). */
  predicate HasEntriesOn(ledger: seq<Challenge>, bid: int, date: int)
  {
    |Day(ledger, bid, date)| != 0
  }

  /** _get_group_previous_challenge: the index of the newest row of archive `bid`, if any. */
  function LastOf(ledger: seq<Challenge>, bid: int): (r: Option<nat>)
    ensures r.Some? ==> r.value < |ledger| && ledger[r.value].bid == bid
    ensures r.Some? ==> forall j :: r.value < j < |ledger| ==> ledger[j].bid != bid
    ensures r.None? ==> forall j :: 0 <= j < |ledger| ==> ledger[j].bid != bid
  {
    if |ledger| == 0 then None
    else if ledger[|ledger| - 1].bid == bid then Some(|ledger| - 1)
    else LastOf(ledger[..|ledger| - 1], bid)
  }

  /** The ledger without row `i`. */
  function RemoveAt(ledger: seq<Challenge>, i: nat): (r: seq<Challenge>)
    requires i < |ledger|
    ensures |r| == |ledger| - 1
  {
    ledger[..i] + ledger[i + 1..]
  }

  /** The rows of archive `bid`, removed in one go when an archive is cleared. */
  function WithoutArchive(ledger: seq<Challenge>, bid: int): (r: seq<Challenge>)
  {
    if |ledger| == 0 then []
    else
      var c := ledger[|ledger| - 1];
      WithoutArchive(ledger[..|ledger| - 1], bid) + (if c.bid == bid then [] else [c])
  }

  // ---------------------------------------------------------------------
  // Appending and removing rows

  lemma {:induction false} DayAppend(a: seq<Challenge>, b: seq<Challenge>, bid: int, date: int)
    ensures Day(a + b, bid, date) == Day(a, bid, date) + Day(b, bid, date)
  {
    if |b| > 0 {
      var b' := b[..|b| - 1];
      assert (a + b)[..|a + b| - 1] == a + b';
      DayAppend(a, b', bid, date);
    } else {
      assert a + b == a;
    }
  }

  lemma {:induction false} ByMemberAppend(a: seq<Challenge>, b: seq<Challenge>, member: Member)
    ensures ByMember(a + b, member) == ByMember(a, member) + ByMember(b, member)
  {
    if |b| > 0 {
      var b' := b[..|b| - 1];
      assert (a + b)[..|a + b| - 1] == a + b';
      ByMemberAppend(a, b', member);
    } else {
      assert a + b == a;
    }
  }

  /** Appending a row adds it to exactly the one member-day list it belongs to. */
  lemma OfAppend(ledger: seq<Challenge>, c: Challenge, bid: int, member: Member, date: int)
    ensures Of(ledger + [c], bid, member, date)
         == Of(ledger, bid, member, date) + (if c.bid == bid && c.member == member && c.date == date then [c] else [])
  {
    assert (ledger + [c])[..|ledger|] == ledger;
    ByMemberAppend(Day(ledger, bid, date), Day([c], bid, date), member);
    assert Day([c], bid, date) == Day([], bid, date) + (if c.bid == bid && c.date == date then [c] else []);
  }

  lemma {:induction false} DayOfOtherArchive(ledger: seq<Challenge>, bid: int, date: int)
    requires forall j :: 0 <= j < |ledger| ==> ledger[j].bid != bid
    ensures Day(ledger, bid, date) == []
  {
    if |ledger| > 0 {
      DayOfOtherArchive(ledger[..|ledger| - 1], bid, date);
    }
  }

  /**
   * Removing the newest row of an archive takes the last row off exactly the
   * one member-day list it belonged to, and leaves every other list alone.
   */
  lemma OfAfterUndo(ledger: seq<Challenge>, i: nat, bid: int, member: Member, date: int)
    requires i < |ledger|
    requires forall j :: i < j < |ledger| ==> ledger[j].bid != ledger[i].bid
    ensures var c := ledger[i];
            var before := Of(ledger, bid, member, date);
            var after := Of(RemoveAt(ledger, i), bid, member, date);
            if c.bid == bid && c.member == member && c.date == date
            then |before| > 0 && after == before[..|before| - 1] && before[|before| - 1] == c
            else after == before
  {
    var c := ledger[i];
    var pre, post := ledger[..i], ledger[i + 1..];
    assert ledger == pre + [c] + post;
    DayAppend(pre + [c], post, bid, date);
    DayAppend(pre, [c], bid, date);
    DayAppend(pre, post, bid, date);
    assert Day([c], bid, date) == Day([], bid, date) + (if c.bid == bid && c.date == date then [c] else []);
    var dPre, dC, dPost := Day(pre, bid, date), Day([c], bid, date), Day(post, bid, date);
    assert Day(ledger, bid, date) == dPre + dC + dPost;
    assert RemoveAt(ledger, i) == pre + post;
    assert Day(RemoveAt(ledger, i), bid, date) == dPre + dPost;
    if c.bid == bid {
      DayOfOtherArchive(post, bid, date);
    }
    ByMemberAppend(dPre + dC, dPost, member);
    ByMemberAppend(dPre, dC, member);
    ByMemberAppend(dPre, dPost, member);
    if c.bid == bid && c.date == date {
      assert dPost == [] && dC == [c];
      assert ByMember([c], member) == ByMember([], member) + (if c.member == member then [c] else []);
      assert dPre + dC + dPost == dPre + dC;
      assert dPre + dPost == dPre;
    } else {
      assert dC == [];
      assert dPre + dC + dPost == dPre + dPost;
    }
  }

  /** Rows of one archive and day, in order, split into members: a prefix of a list is never overdrawn if the list is not. */
  lemma DropLastKeepsSolvent(es: seq<Challenge>)
    requires |es| > 0 && NeverOverdrawn(es)
    ensures NeverOverdrawn(es[..|es| - 1])
    ensures Finished(es[..|es| - 1]) <= Finished(es)
  {
  }

  /** Counting over one more row. */
  lemma CountsSnoc(es: seq<Challenge>, c: Challenge)
    ensures Finished(es + [c]) == Finished(es) + (if IsFinished(c) then 1 else 0)
    ensures Balance(es + [c]) == Balance(es) + (if IsTail(c) then 1 else 0) - (if c.isContinue then 1 else 0)
    ensures NeverOverdrawn(es + [c]) <==> NeverOverdrawn(es) && Balance(es + [c]) >= 0
  {
    assert (es + [c])[..|es|] == es;
  }

  /** A list never overdrawn has a non-negative balance. */
  lemma SolventBalance(es: seq<Challenge>)
    requires NeverOverdrawn(es)
    ensures Balance(es) >= 0
  {
  }

  /**
   * Appending a row whose member had fewer than three finished attempts that
   * day keeps every member within the daily quota.
   */
  lemma AppendKeepsQuota(ledger: seq<Challenge>, c: Challenge)
    requires QuotaRespected(ledger)
    requires Finished(Of(ledger, c.bid, c.member, c.date)) < 3
    ensures QuotaRespected(ledger + [c])
  {
    forall bid, member, date
      ensures Finished(Of(ledger + [c], bid, member, date)) <= 3
    {
      var es := Of(ledger, bid, member, date);
      assert Finished(es) <= 3;
      OfAppend(ledger, c, bid, member, date);
      if c.bid == bid && c.member == member && c.date == date {
        CountsSnoc(es, c);
      } else {
        assert es + [] == es;
      }
    }
  }

  /**
   * Appending a row keeps every balance non-negative, provided a compensation
   * row is only appended while its member is owed one.
   */
  lemma AppendKeepsSolvent(ledger: seq<Challenge>, c: Challenge)
    requires Solvent(ledger)
    requires c.isContinue ==> Balance(Of(ledger, c.bid, c.member, c.date)) != 0
    ensures Solvent(ledger + [c])
  {
    forall bid, member, date
      ensures NeverOverdrawn(Of(ledger + [c], bid, member, date))
    {
      var es := Of(ledger, bid, member, date);
      assert NeverOverdrawn(es);
      OfAppend(ledger, c, bid, member, date);
      if c.bid == bid && c.member == member && c.date == date {
        CountsSnoc(es, c);
        SolventBalance(es);
        assert Balance(es + [c]) >= 0;
      } else {
        assert es + [] == es;
      }
    }
  }

  /** Removing the newest row of an archive keeps the daily quota and every balance. */
  lemma RemoveNewestKeepsInvariants(ledger: seq<Challenge>, i: nat)
    requires i < |ledger|
    requires forall j :: i < j < |ledger| ==> ledger[j].bid != ledger[i].bid
    ensures QuotaRespected(ledger) ==> QuotaRespected(RemoveAt(ledger, i))
    ensures Solvent(ledger) ==> Solvent(RemoveAt(ledger, i))
  {
    forall bid, member, date
      ensures Finished(Of(RemoveAt(ledger, i), bid, member, date)) <= Finished(Of(ledger, bid, member, date))
      ensures NeverOverdrawn(Of(ledger, bid, member, date)) ==> NeverOverdrawn(Of(RemoveAt(ledger, i), bid, member, date))
    {
      OfAfterUndo(ledger, i, bid, member, date);
    }
  }

  /** Clearing an archive empties every one of its days and leaves the other archives as they were. */
  lemma {:induction false} WithoutArchiveDay(ledger: seq<Challenge>, bid: int, other: int, date: int)
    ensures Day(WithoutArchive(ledger, bid), other, date) == if other == bid then [] else Day(ledger, other, date)
  {
    if |ledger| > 0 {
      var rest := ledger[..|ledger| - 1];
      var c := ledger[|ledger| - 1];
      WithoutArchiveDay(rest, bid, other, date);
      var w := WithoutArchive(rest, bid);
      if c.bid == bid {
        assert WithoutArchive(ledger, bid) == w + [];
        assert w + [] == w;
      } else {
        assert WithoutArchive(ledger, bid) == w + [c];
        assert (w + [c])[..|w|] == w;
      }
    }
  }

  // ---------------------------------------------------------------------
  // Outstanding compensation attempts (the tally of challenger_info)

  /** One row's effect on the tally of compensation attempts still owed, member by member. */
  function OwedStep(owed: map<Member, int>, c: Challenge): map<Member, int>
  {
    var o := if IsTail(c) then owed[c.member := if c.member in owed then owed[c.member] + 1 else 1] else owed;
    if c.isContinue && c.member in o then
      if o[c.member] - 1 == 0 then o - {c.member} else o[c.member := o[c.member] - 1]
    else o
  }

  /** The tally after the rows `es`, in order. */
  function Owed(es: seq<Challenge>): map<Member, int>
  {
    if |es| == 0 then map[] else OwedStep(Owed(es[..|es| - 1]), es[|es| - 1])
  }

  /**
   * The tally is the compensation balance: a member appears exactly when they
   * are owed attempts, with the number owed, provided their rows were never
   * overdrawn (which the quota checks guarantee).
   */
  lemma {:induction false} OwedIsBalance(es: seq<Challenge>, member: Member)
    requires NeverOverdrawn(ByMember(es, member))
    ensures member in Owed(es) <==> Balance(ByMember(es, member)) > 0
    ensures member in Owed(es) ==> Owed(es)[member] == Balance(ByMember(es, member))
  {
    if |es| > 0 {
      var es', c := es[..|es| - 1], es[|es| - 1];
      var mine := ByMember(es', member);
      if c.member == member {
        assert ByMember(es, member) == mine + [c];
        assert (mine + [c])[..|mine|] == mine;
      } else {
        assert ByMember(es, member) == mine;
      }
      OwedIsBalance(es', member);
    }
  }

  /** challenger_info's loop over today's rows of the archive: who still has compensation attempts, and how many. */
  method OutstandingCompensation(ledger: seq<Challenge>, bid: int, date: int) returns (owed: map<Member, int>)
    ensures owed == Owed(Day(ledger, bid, date))
    ensures forall m :: NeverOverdrawn(Of(ledger, bid, m, date)) ==>
              (m in owed <==> Balance(Of(ledger, bid, m, date)) > 0) &&
              (m in owed ==> owed[m] == Balance(Of(ledger, bid, m, date)))
  {
    owed := map[];
    for i := 0 to |ledger|
      invariant owed == Owed(Day(ledger[..i], bid, date))
    {
      var c := ledger[i];
      assert ledger[..i + 1][..i] == ledger[..i];
      ghost var before := Day(ledger[..i], bid, date);
      assert Day(ledger[..i + 1], bid, date) == before + (if c.bid == bid && c.date == date then [c] else []);
      assert (before + [c])[..|before|] == before;
      ghost var prev := owed;
      if c.bid == bid && c.date == date {
        if c.remain == 0 && !c.isContinue {
          if c.member !in owed {
            owed := owed[c.member := 1];
          } else {
            owed := owed[c.member := owed[c.member] + 1];
          }
        }
        if c.isContinue && c.member in owed {
          owed := owed[c.member := owed[c.member] - 1];
          if owed[c.member] == 0 {
            owed := owed - {c.member};
          }
        }
        assert owed == OwedStep(prev, c);
        assert Owed(before + [c]) == OwedStep(Owed(before), c);
      } else {
        assert before + [] == before;
      }
    }
    assert ledger[..|ledger|] == ledger;
    forall m | NeverOverdrawn(Of(ledger, bid, m, date))
      ensures (m in owed <==> Balance(Of(ledger, bid, m, date)) > 0)
      ensures (m in owed ==> owed[m] == Balance(Of(ledger, bid, m, date)))
    {
      OwedIsBalance(Day(ledger, bid, date), m);
    }
  }
}
