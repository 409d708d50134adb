/**
 * Properties of the battle board: what a report records and does to the
 * health pools, the cycle advance, the quota and compensation invariants,
 * undo as the inverse of a report, the declaration rules, modify and reset.
 */
module BattleProps {
  import opened Wrappers
  import opened Clan
  import opened Stage
  import opened Ledger
  import opened Registry
  import opened Subscriptions
  import opened Battle

  /** The date a report is filed under. */
  function FiledOn(date: int, r: Report): int
  {
    if r.previousDay then date - 1 else date
  }

  /** A refused commit changes nothing and announces nothing. */
  lemma CommitRefused(t: StageTable, s: GroupState, date: int, dealer: Member, behalf: Option<Member>, k: Slot, r: Report)
    requires WellFormed(t) && Shaped(s) && Engaged(Open(s.claims), k, dealer)
    requires r.defeat || (r.damage.Some? && r.damage.value >= 0)
    ensures var o := Commit(t, s, date, dealer, behalf, k, r);
            o.result.Failure? ==> o.state == s && o.notices == []
    ensures s.now[k - 1] == 0 && s.next[k - 1] == 0 ==> Commit(t, s, date, dealer, behalf, k, r) == Refuse(s, InputError)
    ensures Finished(Today(s, dealer, FiledOn(date, r))) >= 3 ==> Commit(t, s, date, dealer, behalf, k, r).result.Failure?
  {
  }

  /**
   * The row a valid report produces: who, which archive and day, the cycle and
   * boss of the active pool, the remaining health and the damage; and the
   * checks it passed.
   */
  lemma EntryFacts(s: GroupState, date: int, dealer: Member, behalf: Option<Member>, k: Slot, r: Report)
    requires Shaped(s) && Engaged(Open(s.claims), k, dealer)
    requires r.defeat || (r.damage.Some? && r.damage.value >= 0)
    requires Entry(s, date, dealer, behalf, k, r).Success?
    ensures var e := Entry(s, date, dealer, behalf, k, r).value;
            var hp := ActiveHealth(s, k);
            var d := FiledOn(date, r);
            && !(s.now[k - 1] == 0 && s.next[k - 1] == 0)
            && !(r.previousDay && HasEntriesOn(s.ledger, s.battleId, date))
            && (!r.defeat ==> r.damage.value < hp)
            && e == Challenge(dealer, s.battleId, d, ActiveCycle(s, k), k,
                              if r.defeat then 0 else hp - r.damage.value,
                              if r.defeat then hp else r.damage.value,
                              r.isContinue || Open(s.claims)[k][dealer].isContinue, behalf)
            && Finished(Today(s, dealer, d)) < 3
            && (e.isContinue ==> Balance(Today(s, dealer, d)) != 0)
  {
    Partition(Today(s, dealer, FiledOn(date, r)));
  }

  /** The release after a kill touches only the declarations and the waitlists, and only removes waitlists. */
  lemma ReleaseKeepsBoard(t: StageTable, s: GroupState, k: Slot, receipt: Receipt)
    requires Shaped(s)
    ensures var o := Release(t, s, k, receipt);
            && o.result == Success(receipt)
            && o.state == s.(claims := o.state.claims, subs := o.state.subs)
            && forall j: Slot :: j in Table(o.state.subs) ==> j in Table(s.subs)
  {
    var released := s.(claims := ReleaseSlot(s.claims, k));
    RemindDrains(released.subs, k);
  }

  /**
   * The writes of a valid report: the row is appended, and the cycle moves on
   * exactly when a kill leaves all five current bosses dead. Otherwise only
   * the active pool of the boss changes.
   */
  lemma SettleBoard(t: StageTable, s: GroupState, e: Challenge, defeat: bool)
    requires WellFormed(t) && Shaped(s)
    ensures var o := Settle(t, s, e, defeat);
            var h := Hit(s, e.slot, e.remain);
            && o.result == Success(Receipt(e, o.result.value.advanced))
            && o.state.ledger == s.ledger + [e]
            && o.state.battleId == s.battleId
            && Shaped(o.state)
            && (o.result.value.advanced <==> defeat && CountZeros(h.now) == 5)
            && (!o.result.value.advanced ==> o.state.cycle == s.cycle && o.state.now == h.now && o.state.next == h.next)
  {
    var logged := Hit(s, e.slot, e.remain).(ledger := s.ledger + [e]);
    if defeat {
      var advanced := CountZeros(logged.now) == 5;
      var (moved, drained) := if advanced then Advance(t, logged) else (logged, []);
      ReleaseKeepsBoard(t, moved, e.slot, Receipt(e, advanced));
    }
  }

  /**
   * The cycle advance: `now` becomes the old `next`, `next` the full health of
   * the cycle after, the cycle moves on by one, and no boss carried over dead
   * keeps a waitlist.
   */
  lemma SettleAdvance(t: StageTable, s: GroupState, e: Challenge, defeat: bool)
    requires WellFormed(t) && Shaped(s)
    requires Settle(t, s, e, defeat).result.value.advanced
    ensures var o := Settle(t, s, e, defeat);
            var h := Hit(s, e.slot, e.remain);
            && o.state.cycle == s.cycle + 1
            && o.state.now == h.next
            && o.state.next == FullHealth(t, s.cycle + 2)
            && forall j: Slot :: h.next[j - 1] == 0 ==> j !in Table(o.state.subs)
  {
    var logged := Hit(s, e.slot, e.remain).(ledger := s.ledger + [e]);
    var (moved, drained) := Advance(t, logged);
    DrainUpToEffect(logged.subs, logged.next, 5);
    assert moved.subs == DrainUpTo(logged.subs, logged.next, 5).0;
    assert forall j: Slot :: logged.next[j - 1] == 0 ==> j !in Table(moved.subs);
    ReleaseKeepsBoard(t, moved, e.slot, Receipt(e, true));
    assert Settle(t, s, e, defeat).state == Release(t, moved, e.slot, Receipt(e, true)).state;
  }

  /** Who holds declarations after a valid report: a kill releases the whole boss, any other hit only the dealer. */
  lemma SettleClaims(t: StageTable, s: GroupState, e: Challenge, defeat: bool)
    requires WellFormed(t) && Shaped(s)
    ensures Settle(t, s, e, defeat).state.claims == if defeat then ReleaseSlot(s.claims, e.slot) else Withdraw(s.claims, e.member)
  {
  }

  // ---------------------------------------------------------------------
  // The board stays sound

  /**
   * What the checks of a report guarantee about its row, stated on the row
   * alone: it belongs to the current archive, hits a live boss in the active
   * pool, remaining health and damage add up to the health before the hit,
   * and the boss is left at 0 exactly on a kill.
   */
  predicate Fits(s: GroupState, e: Challenge, defeat: bool)
  {
    && Shaped(s)
    && !(s.now[e.slot - 1] == 0 && s.next[e.slot - 1] == 0)
    && e.bid == s.battleId
    && e.cycle == ActiveCycle(s, e.slot)
    && e.remain + e.damage == ActiveHealth(s, e.slot)
    && (defeat <==> e.remain == 0)
  }

  lemma EntryFits(s: GroupState, date: int, dealer: Member, behalf: Option<Member>, k: Slot, r: Report)
    requires Shaped(s) && Engaged(Open(s.claims), k, dealer)
    requires r.defeat || (r.damage.Some? && r.damage.value >= 0)
    requires Entry(s, date, dealer, behalf, k, r).Success?
    ensures Fits(s, Entry(s, date, dealer, behalf, k, r).value, r.defeat)
    ensures Entry(s, date, dealer, behalf, k, r).value.slot == k
  {
    EntryFacts(s, date, dealer, behalf, k, r);
  }

  /** A valid report keeps the board sound (given a stage table whose bosses all start with some health). */
  lemma SettleKeepsConsistent(t: StageTable, s: GroupState, e: Challenge, defeat: bool)
    requires WellFormed(t) && PositiveHealth(t) && Consistent(t, s) && Fits(s, e, defeat)
    ensures Consistent(t, Settle(t, s, e, defeat).state)
  {
    var h := Hit(s, e.slot, e.remain);
    SettleBoard(t, s, e, defeat);
    if Settle(t, s, e, defeat).result.value.advanced {
      SettleAdvance(t, s, e, defeat);
      assert h.next == s.next;
      AdvancedBoardConsistent(t, s, e.slot);
      ConsistentOnBoard(t, s.(cycle := s.cycle + 1, now := s.next, next := FullHealth(t, s.cycle + 2)), Settle(t, s, e, defeat).state);
    } else {
      HitBoardConsistent(t, s, e, defeat);
      ConsistentOnBoard(t, h, Settle(t, s, e, defeat).state);
    }
  }

  /** The board after an advance is sound when the board before it was and the killed boss was alive in the current cycle. */
  lemma AdvancedBoardConsistent(t: StageTable, s: GroupState, k: Slot)
    requires WellFormed(t) && PositiveHealth(t) && Consistent(t, s) && s.now[k - 1] != 0
    ensures Consistent(t, s.(cycle := s.cycle + 1, now := s.next, next := FullHealth(t, s.cycle + 2)))
  {
    var b := s.(cycle := s.cycle + 1, now := s.next, next := FullHealth(t, s.cycle + 2));
    assert b.now[k - 1] != 0;
  }

  /** A hit that does not finish the cycle leaves a sound board. */
  lemma HitBoardConsistent(t: StageTable, s: GroupState, e: Challenge, defeat: bool)
    requires WellFormed(t) && Consistent(t, s) && Fits(s, e, defeat)
    requires !(defeat && CountZeros(Hit(s, e.slot, e.remain).now) == 5)
    ensures Consistent(t, Hit(s, e.slot, e.remain))
  {
    var k := e.slot;
    var h := Hit(s, k, e.remain);
    assert e.remain <= ActiveHealth(s, k);
    forall i | 0 <= i < 5
      ensures h.now[i] <= FullHealth(t, h.cycle)[i] && h.next[i] <= FullHealth(t, h.cycle + 1)[i]
      ensures h.now[i] != 0 ==> h.next[i] != 0
    {
      if i + 1 != k {
        assert h.now[i] == s.now[i] && h.next[i] == s.next[i];
      }
    }
    if s.now[k - 1] != 0 && !defeat {
      assert h.now[k - 1] != 0;
    } else if s.now[k - 1] == 0 {
      assert h.now == s.now;
    }
  }

  /** Undoing when the newest row of the archive is the one just appended: it is the row removed, and the requester may remove it. */
  lemma UndoNewest(t: StageTable, s: GroupState, before: seq<Challenge>, e: Challenge, requester: Member, authority: int)
    requires WellFormed(t) && Shaped(s)
    requires s.ledger == before + [e] && e.bid == s.battleId
    requires requester == e.member || authority < 100
    ensures LastOf(s.ledger, s.battleId) == Some(|before|)
    ensures RemoveAt(s.ledger, |before|) == before
    ensures UndoSpec(t, s, requester, authority).Success?
    ensures UndoSpec(t, s, requester, authority).value == GiveBack(t, s, e).(ledger := before)
    ensures e.cycle < s.cycle ==>
              UndoSpec(t, s, requester, authority).value
              == s.(cycle := e.cycle, now := Zeros()[e.slot - 1 := e.damage], next := s.now, ledger := before)
  {
    assert (before + [e])[..|before|] == before;
  }

  /** Undoing the kill that moved the cycle on brings back the previous cycle, with only the killed boss alive. */
  lemma UndoInvertsAdvance(t: StageTable, s: GroupState, e: Challenge, defeat: bool, requester: Member, authority: int)
    requires WellFormed(t) && Consistent(t, s) && Fits(s, e, defeat)
    requires requester == e.member || authority < 100
    requires Settle(t, s, e, defeat).result.value.advanced
    ensures var u := UndoSpec(t, Settle(t, s, e, defeat).state, requester, authority);
            && u.Success?
            && u.value.cycle == s.cycle && u.value.now == s.now && u.value.next == s.next
            && u.value.ledger == s.ledger
  {
    var o := Settle(t, s, e, defeat);
    var k := e.slot;
    var h := Hit(s, k, e.remain);
    SettleBoard(t, s, e, defeat);
    SettleAdvance(t, s, e, defeat);
    assert CountZeros(h.now) == 5;
    assert s.now[k - 1] != 0;
    assert e.damage == s.now[k - 1];
    forall i | 0 <= i < 5 && i + 1 != k
      ensures s.now[i] == 0
    {
      assert h.now[i] == s.now[i];
    }
    assert Zeros()[k - 1 := e.damage] == s.now by {
      assert forall i :: 0 <= i < 5 ==> Zeros()[k - 1 := e.damage][i] == s.now[i];
    }
    assert h.next == s.next;
    UndoNewest(t, o.state, s.ledger, e, requester, authority);
  }

  /** Undoing a hit that did not move the cycle on gives the boss its health back. */
  lemma UndoInvertsHit(t: StageTable, s: GroupState, e: Challenge, defeat: bool, requester: Member, authority: int)
    requires WellFormed(t) && Consistent(t, s) && Fits(s, e, defeat)
    requires requester == e.member || authority < 100
    requires !Settle(t, s, e, defeat).result.value.advanced
    ensures var u := UndoSpec(t, Settle(t, s, e, defeat).state, requester, authority);
            && u.Success?
            && u.value.cycle == s.cycle && u.value.now == s.now && u.value.next == s.next
            && u.value.ledger == s.ledger
  {
    var o := Settle(t, s, e, defeat);
    SettleBoard(t, s, e, defeat);
    UndoNewest(t, o.state, s.ledger, e, requester, authority);
    GiveBackHit(t, s, e, defeat);
    GiveBackOnBoard(t, Hit(s, e.slot, e.remain), o.state, e);
  }

  /** Giving the damage of a valid row back to the board it hit restores the board before the hit. */
  lemma GiveBackHit(t: StageTable, s: GroupState, e: Challenge, defeat: bool)
    requires WellFormed(t) && Consistent(t, s) && Fits(s, e, defeat)
    ensures var g := GiveBack(t, Hit(s, e.slot, e.remain), e);
            g.cycle == s.cycle && g.now == s.now && g.next == s.next
  {
    var k := e.slot;
    var h := Hit(s, k, e.remain);
    if s.now[k - 1] == 0 {
      assert e.cycle == s.cycle + 1;
      assert s.next[k - 1] <= FullHealth(t, e.cycle)[k - 1];
      assert h.next[k - 1 := s.next[k - 1]] == s.next;
    } else {
      assert e.cycle == s.cycle;
      assert s.now[k - 1] <= FullHealth(t, e.cycle)[k - 1];
      assert h.now[k - 1 := s.now[k - 1]] == s.now;
    }
  }

  /** Giving damage back depends on the cycle and the pools only. */
  lemma GiveBackOnBoard(t: StageTable, a: GroupState, b: GroupState, e: Challenge)
    requires WellFormed(t) && Shaped(a) && Shaped(b)
    requires b.cycle == a.cycle && b.now == a.now && b.next == a.next
    ensures GiveBack(t, a, e).cycle == GiveBack(t, b, e).cycle
    ensures GiveBack(t, a, e).now == GiveBack(t, b, e).now && GiveBack(t, a, e).next == GiveBack(t, b, e).next
  {
  }

  /** Undo takes back any valid report: cycle, both pools and ledger are as before it. */
  lemma UndoInvertsSettle(t: StageTable, s: GroupState, e: Challenge, defeat: bool, requester: Member, authority: int)
    requires WellFormed(t) && Consistent(t, s) && Fits(s, e, defeat)
    requires requester == e.member || authority < 100
    ensures var u := UndoSpec(t, Settle(t, s, e, defeat).state, requester, authority);
            && u.Success?
            && u.value.cycle == s.cycle && u.value.now == s.now && u.value.next == s.next
            && u.value.ledger == s.ledger
  {
    if Settle(t, s, e, defeat).result.value.advanced {
      UndoInvertsAdvance(t, s, e, defeat, requester, authority);
    } else {
      UndoInvertsHit(t, s, e, defeat, requester, authority);
    }
  }

  // ---------------------------------------------------------------------
  // The whole report (challenge)

  /**
   * The parts a report is made of: a report that passes the damage check is
   * the claim phase followed, when it names a boss, by the commit on the
   * registry the claim left; a refused report keeps the board and ledger.
   */
  lemma ChallengeSteps(t: StageTable, s: GroupState, date: int, r: Report)
    requires WellFormed(t) && Shaped(s) && Exclusive(s.claims) && Tidy(s.claims)
    ensures var o := ChallengeSpec(t, s, date, r);
            && (!r.defeat && (r.damage.None? || r.damage.value < 0) ==> o == Refuse(s, InputError))
            && (o.result.Failure? ==> o.state == s.(claims := o.state.claims) && o.notices == [])
            && (o.result.Success? ==>
                  var (dealer, behalf) := Resolve(r.reporter, r.behalfed);
                  var c := Claim(t, s, date, dealer, behalf, r.slot, r.isContinue);
                  var s1 := s.(claims := c.0);
                  && (r.defeat || (r.damage.Some? && r.damage.value >= 0))
                  && c.1.Success? && Engaged(Open(c.0), c.1.value, dealer)
                  && Exclusive(c.0) && Tidy(c.0)
                  && Entry(s1, date, dealer, behalf, c.1.value, r).Success?
                  && o == Settle(t, s1, Entry(s1, date, dealer, behalf, c.1.value, r).value, r.defeat))
  {
    if r.defeat || (r.damage.Some? && r.damage.value >= 0) {
      var (dealer, behalf) := Resolve(r.reporter, r.behalfed);
      ClaimEngages(t, s, date, dealer, behalf, r.slot, r.isContinue);
    }
  }

  /** A successful report is the writes of its row `e` on the state `s1` the claim phase left, which differs from `s` in its registry only. */
  lemma ChallengeParts(t: StageTable, s: GroupState, date: int, r: Report) returns (s1: GroupState, e: Challenge)
    requires WellFormed(t) && Shaped(s) && Exclusive(s.claims) && Tidy(s.claims)
    requires ChallengeSpec(t, s, date, r).result.Success?
    ensures s1 == s.(claims := s1.claims) && Exclusive(s1.claims) && Tidy(s1.claims)
    ensures Fits(s1, e, r.defeat) && Engaged(Open(s1.claims), e.slot, e.member)
    ensures e.member == r.behalfed.GetOr(r.reporter)
    ensures ChallengeSpec(t, s, date, r) == Settle(t, s1, e, r.defeat)
  {
    ChallengeSteps(t, s, date, r);
    var (dealer, behalf) := Resolve(r.reporter, r.behalfed);
    var c := Claim(t, s, date, dealer, behalf, r.slot, r.isContinue);
    s1 := s.(claims := c.0);
    e := Entry(s1, date, dealer, behalf, c.1.value, r).value;
    EntryFits(s1, date, dealer, behalf, c.1.value, r);
    EntryFacts(s1, date, dealer, behalf, c.1.value, r);
  }

  /**
   * A successful report appends one row for the dealer (the behalfed member
   * when reporting for someone else, with the reporter kept as the one who
   * reported on their behalf), filed under today or yesterday in the current
   * archive, on the boss named or else the one declared.
   */
  lemma ChallengeRecordsEntry(t: StageTable, s: GroupState, date: int, r: Report)
    requires WellFormed(t) && Shaped(s) && Exclusive(s.claims) && Tidy(s.claims)
    requires ChallengeSpec(t, s, date, r).result.Success?
    ensures var o := ChallengeSpec(t, s, date, r);
            var e := o.result.value.entry;
            && o.state.ledger == s.ledger + [e]
            && e.member == r.behalfed.GetOr(r.reporter)
            && (e.behalf.Some? <==> r.behalfed.Some? && r.behalfed.value != r.reporter)
            && (e.behalf.Some? ==> e.behalf.value == r.reporter)
            && e.bid == s.battleId
            && e.date == FiledOn(date, r)
            && (r.slot.Some? ==> e.slot == r.slot.value)
            && (r.slot.None? ==> GetInBossNum(s.claims, e.member) == Some(e.slot))
            && (r.isContinue ==> e.isContinue)
  {
    ChallengeSteps(t, s, date, r);
    var (dealer, behalf) := Resolve(r.reporter, r.behalfed);
    var c := Claim(t, s, date, dealer, behalf, r.slot, r.isContinue);
    var s1 := s.(claims := c.0);
    EntryFacts(s1, date, dealer, behalf, c.1.value, r);
    SettleBoard(t, s1, Entry(s1, date, dealer, behalf, c.1.value, r).value, r.defeat);
  }

  /**
   * The damage a successful report records: the boss was alive in the pool it
   * was taken from (the current cycle, or the next one once the current boss
   * is dead); a kill records the whole remaining health and leaves 0; any
   * other hit records the amount reported, which was below the remaining
   * health, and leaves the difference.
   */
  lemma ChallengeRecordsDamage(t: StageTable, s: GroupState, date: int, r: Report)
    requires WellFormed(t) && Shaped(s) && Exclusive(s.claims) && Tidy(s.claims)
    requires ChallengeSpec(t, s, date, r).result.Success?
    ensures var e := ChallengeSpec(t, s, date, r).result.value.entry;
            var hp := ActiveHealth(s, e.slot);
            && !(s.now[e.slot - 1] == 0 && s.next[e.slot - 1] == 0)
            && e.cycle == ActiveCycle(s, e.slot)
            && (r.defeat ==> e.remain == 0 && e.damage == hp)
            && (!r.defeat ==> r.damage.Some? && e.damage == r.damage.value < hp && e.remain == hp - e.damage)
  {
    ChallengeSteps(t, s, date, r);
    var (dealer, behalf) := Resolve(r.reporter, r.behalfed);
    var c := Claim(t, s, date, dealer, behalf, r.slot, r.isContinue);
    var s1 := s.(claims := c.0);
    EntryFacts(s1, date, dealer, behalf, c.1.value, r);
    SettleBoard(t, s1, Entry(s1, date, dealer, behalf, c.1.value, r).value, r.defeat);
  }

  /** Soundness of the board depends on the cycle and the pools only. */
  lemma ConsistentOnBoard(t: StageTable, a: GroupState, b: GroupState)
    requires WellFormed(t) && Consistent(t, a)
    requires b.cycle == a.cycle && b.now == a.now && b.next == a.next
    ensures Consistent(t, b)
  {
  }

  /** A successful report keeps the board sound. */
  lemma ChallengeSettledConsistent(t: StageTable, s: GroupState, date: int, r: Report)
    requires WellFormed(t) && PositiveHealth(t) && Consistent(t, s) && Exclusive(s.claims) && Tidy(s.claims)
    requires ChallengeSpec(t, s, date, r).result.Success?
    ensures Consistent(t, ChallengeSpec(t, s, date, r).state)
  {
    var s1, e := ChallengeParts(t, s, date, r);
    ConsistentOnBoard(t, s, s1);
    SettleKeepsConsistent(t, s1, e, r.defeat);
  }

  /** A report keeps the board sound, whether it succeeds or is refused. */
  lemma ChallengeKeepsConsistent(t: StageTable, s: GroupState, date: int, r: Report)
    requires WellFormed(t) && PositiveHealth(t) && Consistent(t, s) && Exclusive(s.claims) && Tidy(s.claims)
    ensures Consistent(t, ChallengeSpec(t, s, date, r).state)
  {
    if ChallengeSpec(t, s, date, r).result.Success? {
      ChallengeSettledConsistent(t, s, date, r);
    } else {
      ChallengeSteps(t, s, date, r);
      ConsistentOnBoard(t, s, ChallengeSpec(t, s, date, r).state);
    }
  }

  /**
   * challenge then undo: undoing a successful report, by its dealer or by an
   * officer, restores the cycle, both pools and the ledger.
   */
  lemma UndoInvertsChallenge(t: StageTable, s: GroupState, date: int, r: Report, requester: Member, authority: int)
    requires WellFormed(t) && Consistent(t, s) && Exclusive(s.claims) && Tidy(s.claims)
    requires ChallengeSpec(t, s, date, r).result.Success?
    requires requester == r.behalfed.GetOr(r.reporter) || authority < 100
    ensures var u := UndoSpec(t, ChallengeSpec(t, s, date, r).state, requester, authority);
            && u.Success?
            && u.value.cycle == s.cycle && u.value.now == s.now && u.value.next == s.next
            && u.value.ledger == s.ledger
  {
    var s1, e := ChallengeParts(t, s, date, r);
    ConsistentOnBoard(t, s, s1);
    UndoInvertsSettle(t, s1, e, r.defeat, requester, authority);
  }

  // ---------------------------------------------------------------------
  // Quota and compensation

  /** A successful report keeps the daily quota and every compensation balance. */
  lemma ChallengeSettledLedger(t: StageTable, s: GroupState, date: int, r: Report)
    requires WellFormed(t) && Shaped(s) && Exclusive(s.claims) && Tidy(s.claims)
    requires QuotaRespected(s.ledger) && Solvent(s.ledger)
    requires ChallengeSpec(t, s, date, r).result.Success?
    ensures QuotaRespected(ChallengeSpec(t, s, date, r).state.ledger)
    ensures Solvent(ChallengeSpec(t, s, date, r).state.ledger)
  {
    ChallengeSteps(t, s, date, r);
    var (dealer, behalf) := Resolve(r.reporter, r.behalfed);
    var c := Claim(t, s, date, dealer, behalf, r.slot, r.isContinue);
    var s1 := s.(claims := c.0);
    var e := Entry(s1, date, dealer, behalf, c.1.value, r).value;
    EntryFacts(s1, date, dealer, behalf, c.1.value, r);
    SettleBoard(t, s1, e, r.defeat);
    AppendKeepsQuota(s.ledger, e);
    AppendKeepsSolvent(s.ledger, e);
  }

  /**
   * Reports never take a member past three finished attempts a day, nor use
   * a compensation attempt that was not owed: both invariants survive every
   * report, successful or refused.
   */
  lemma ChallengeKeepsLedger(t: StageTable, s: GroupState, date: int, r: Report)
    requires WellFormed(t) && Shaped(s) && Exclusive(s.claims) && Tidy(s.claims)
    requires QuotaRespected(s.ledger) && Solvent(s.ledger)
    ensures QuotaRespected(ChallengeSpec(t, s, date, r).state.ledger)
    ensures Solvent(ChallengeSpec(t, s, date, r).state.ledger)
  {
    if ChallengeSpec(t, s, date, r).result.Success? {
      ChallengeSettledLedger(t, s, date, r);
    } else {
      ChallengeSteps(t, s, date, r);
    }
  }

  /** A member who already has three finished attempts on the day a report is filed under is refused. */
  lemma ChallengeQuotaRefused(t: StageTable, s: GroupState, date: int, r: Report)
    requires WellFormed(t) && Shaped(s) && Exclusive(s.claims) && Tidy(s.claims)
    requires Finished(Of(s.ledger, s.battleId, r.behalfed.GetOr(r.reporter), FiledOn(date, r))) >= 3
    ensures ChallengeSpec(t, s, date, r).result.Failure?
  {
    ChallengeSteps(t, s, date, r);
    if ChallengeSpec(t, s, date, r).result.Success? {
      var (dealer, behalf) := Resolve(r.reporter, r.behalfed);
      var c := Claim(t, s, date, dealer, behalf, r.slot, r.isContinue);
      var s1 := s.(claims := c.0);
      EntryFacts(s1, date, dealer, behalf, c.1.value, r);
    }
  }

  /** Undo keeps the daily quota and every compensation balance. */
  lemma UndoKeepsLedger(t: StageTable, s: GroupState, requester: Member, authority: int)
    requires WellFormed(t) && Shaped(s)
    requires QuotaRespected(s.ledger) && Solvent(s.ledger)
    requires UndoSpec(t, s, requester, authority).Success?
    ensures QuotaRespected(UndoSpec(t, s, requester, authority).value.ledger)
    ensures Solvent(UndoSpec(t, s, requester, authority).value.ledger)
  {
    RemoveNewestKeepsInvariants(s.ledger, LastOf(s.ledger, s.battleId).value);
  }

  /**
   * Undo refuses when the archive has no row, and refuses a member without
   * officer authority the row of someone else; otherwise it removes exactly
   * the archive's newest row.
   */
  lemma UndoRules(t: StageTable, s: GroupState, requester: Member, authority: int)
    requires WellFormed(t) && Shaped(s)
    ensures var u := UndoSpec(t, s, requester, authority);
            var last := LastOf(s.ledger, s.battleId);
            && (last.None? ==> u == Failure(GroupError))
            && (last.Some? && s.ledger[last.value].member != requester && authority >= 100 ==> u == Failure(UserError))
            && (u.Success? ==> last.Some? && u.value.ledger == RemoveAt(s.ledger, last.value)
                               && u.value.battleId == s.battleId && u.value.claims == s.claims && u.value.subs == s.subs)
            && (u.Success? <==> last.Some? && (s.ledger[last.value].member == requester || authority < 100))
  {
  }

  // ---------------------------------------------------------------------
  // The cycle advance, seen from the report

  /** The cycle advance for a valid row on a sound board, stated on the board before the report. */
  lemma SettleCycle(t: StageTable, s: GroupState, e: Challenge, defeat: bool)
    requires WellFormed(t) && Consistent(t, s) && Fits(s, e, defeat)
    ensures var o := Settle(t, s, e, defeat);
            var k := e.slot;
            && (o.result.value.advanced <==> defeat && forall i :: 0 <= i < 5 ==> s.now[i] == 0 || i + 1 == k)
            && (o.result.value.advanced ==>
                  && s.now[k - 1] != 0
                  && o.state.cycle == s.cycle + 1
                  && o.state.now == s.next
                  && o.state.next == FullHealth(t, o.state.cycle + 1)
                  && forall j: Slot :: s.next[j - 1] == 0 ==> j !in Table(o.state.subs))
            && (!o.result.value.advanced ==>
                  && o.state.cycle == s.cycle
                  && o.state.now == (if s.now[k - 1] == 0 then s.now else s.now[k - 1 := e.remain])
                  && o.state.next == (if s.now[k - 1] == 0 then s.next[k - 1 := e.remain] else s.next))
  {
    var k := e.slot;
    var h := Hit(s, k, e.remain);
    SettleBoard(t, s, e, defeat);
    if defeat {
      HitAllDead(s, k);
    }
    if Settle(t, s, e, defeat).result.value.advanced {
      SettleAdvance(t, s, e, defeat);
      assert s.now[k - 1] != 0;
      assert h.next == s.next;
    }
  }

  /** A kill of boss `k` leaves every boss of the current cycle dead exactly when `k` was the last one alive (or already dead with all others). */
  lemma HitAllDead(s: GroupState, k: Slot)
    requires Shaped(s)
    ensures CountZeros(Hit(s, k, 0).now) == 5 <==> forall i :: 0 <= i < 5 ==> s.now[i] == 0 || i + 1 == k
  {
    var h := Hit(s, k, 0);
    forall i | 0 <= i < 5
      ensures h.now[i] == 0 <==> (s.now[i] == 0 || i + 1 == k)
    {
      if i + 1 != k {
        assert h.now[i] == s.now[i];
      }
    }
  }

  /**
   * On a sound board a report moves the cycle on exactly when it kills the
   * last living boss of the current cycle; the cycle then grows by one,
   * `now` becomes the old `next`, `next` is the full health of the cycle
   * after, and every boss carried over dead loses its waitlist. Any other
   * successful report changes only the active pool of its boss.
   */
  lemma ChallengeAdvance(t: StageTable, s: GroupState, date: int, r: Report)
    requires WellFormed(t) && Consistent(t, s) && Exclusive(s.claims) && Tidy(s.claims)
    requires ChallengeSpec(t, s, date, r).result.Success?
    ensures var o := ChallengeSpec(t, s, date, r);
            var e := o.result.value.entry;
            var k := e.slot;
            && (o.result.value.advanced <==> r.defeat && forall i :: 0 <= i < 5 ==> s.now[i] == 0 || i + 1 == k)
            && (o.result.value.advanced ==>
                  && s.now[k - 1] != 0
                  && o.state.cycle == s.cycle + 1
                  && o.state.now == s.next
                  && o.state.next == FullHealth(t, o.state.cycle + 1)
                  && forall j: Slot :: s.next[j - 1] == 0 ==> j !in Table(o.state.subs))
            && (!o.result.value.advanced ==>
                  && o.state.cycle == s.cycle
                  && o.state.now == (if s.now[k - 1] == 0 then s.now else s.now[k - 1 := e.remain])
                  && o.state.next == (if s.now[k - 1] == 0 then s.next[k - 1 := e.remain] else s.next))
  {
    var s1, e := ChallengeParts(t, s, date, r);
    ConsistentOnBoard(t, s, s1);
    SettleCycle(t, s1, e, r.defeat);
  }

  // ---------------------------------------------------------------------
  // Declarations around a report

  /**
   * A report on a boss that is dead in both cycles is refused: with InputError
   * when the boss came from the dealer's declaration, with GroupError when it
   * was named (the implicit declaration is refused), and in that case the
   * dealer's earlier declaration, if any, is gone. The board and the ledger
   * are untouched either way.
   */
  lemma ChallengeNeedsLiveBoss(t: StageTable, s: GroupState, date: int, r: Report, k: Slot)
    requires WellFormed(t) && Shaped(s) && Exclusive(s.claims) && Tidy(s.claims)
    requires r.defeat || (r.damage.Some? && r.damage.value >= 0)
    requires s.now[k - 1] == 0 && s.next[k - 1] == 0
    ensures var dealer := r.behalfed.GetOr(r.reporter);
            r.slot.None? && GetInBossNum(s.claims, dealer) == Some(k) ==> ChallengeSpec(t, s, date, r) == Refuse(s, InputError)
    ensures var dealer := r.behalfed.GetOr(r.reporter);
            r.slot == Some(k) ==> ChallengeSpec(t, s, date, r) == Refuse(s.(claims := Withdraw(s.claims, dealer)), GroupError)
  {
    var (dealer, behalf) := Resolve(r.reporter, r.behalfed);
    if r.slot.None? && GetInBossNum(s.claims, dealer) == Some(k) {
      ClaimEngages(t, s, date, dealer, behalf, r.slot, r.isContinue);
    }
    if r.slot == Some(k) && CheckBlade(s.claims, dealer) {
      CancelMemberOnly(s.claims, dealer);
    }
  }

  /** Reports, successful or refused, keep every member declared on at most one boss and leave no empty boss entry. */
  lemma ChallengeKeepsExclusive(t: StageTable, s: GroupState, date: int, r: Report)
    requires WellFormed(t) && Shaped(s) && Exclusive(s.claims) && Tidy(s.claims)
    ensures Exclusive(ChallengeSpec(t, s, date, r).state.claims) && Tidy(ChallengeSpec(t, s, date, r).state.claims)
  {
    if ChallengeSpec(t, s, date, r).result.Success? {
      var s1, e := ChallengeParts(t, s, date, r);
      SettleClaims(t, s1, e, r.defeat);
      if r.defeat {
        ReleaseSlotEffect(s1.claims, e.slot);
      } else {
        CancelMemberOnly(s1.claims, e.member);
        CancelMemberKeepsExclusive(s1.claims, e.member);
      }
    } else if r.defeat || (r.damage.Some? && r.damage.value >= 0) {
      var (dealer, behalf) := Resolve(r.reporter, r.behalfed);
      ClaimEngages(t, s, date, dealer, behalf, r.slot, r.isContinue);
    }
  }

  /**
   * The declaration rules: refused with GroupError exactly when the member
   * already holds a declaration, the boss is dead and cannot be followed into
   * the next cycle, three finished attempts were made today, or a
   * compensation attempt is asked for with none owed. A declaration adds the
   * member on that boss and changes nobody else's; it is a compensation
   * attempt when asked for, or when only compensation attempts are left.
   */
  lemma ApplyRules(t: StageTable, s: GroupState, date: int, m: Member, k: Slot, isContinue: bool, behalf: Option<Member>)
    requires Shaped(s) && Exclusive(s.claims) && Tidy(s.claims)
    ensures var r := ApplyAs(t, s, date, m, k, isContinue, behalf);
            var es := Today(s, m, date);
            && (r.Failure? ==> r.error == GroupError)
            && (r.Success? <==>
                  && !CheckBlade(s.claims, m)
                  && (CheckNextBoss(t, s, k) || s.now[k - 1] != 0)
                  && Finished(es) < 3
                  && !(isContinue && Balance(es) == 0))
            && (r.Success? ==>
                  && Exclusive(r.value) && Tidy(r.value)
                  && GetInBossNum(r.value, m) == Some(k)
                  && Open(r.value)[k][m]
                     == Engagement(isContinue || (Finished(es) + Balance(es) >= 3 && Balance(es) != 0), behalf, 0, 0, false, None)
                  && forall j: Slot, n: Member :: n != m ==> (Engaged(Open(r.value), j, n) <==> Engaged(Open(s.claims), j, n)))
  {
    var es := Today(s, m, date);
    Partition(es);
    var r := ApplyAs(t, s, date, m, k, isContinue, behalf);
    if r.Success? {
      InsertKeepsExclusive(s.claims, k, m, Open(r.value)[k][m]);
    }
  }

  /** apply_for_challenge on someone's behalf declares the behalfed member, recording the applicant as the one who declared it. */
  lemma ApplyOnBehalf(t: StageTable, s: GroupState, date: int, applicant: Member, k: Slot, isContinue: bool, behalfed: Member)
    requires Shaped(s)
    requires ApplyForChallenge(t, s, date, applicant, k, isContinue, Some(behalfed)).Success?
    ensures var s2 := ApplyForChallenge(t, s, date, applicant, k, isContinue, Some(behalfed)).value;
            && Engaged(Open(s2.claims), k, behalfed)
            && Open(s2.claims)[k][behalfed].behalf == Some(applicant)
            && s2 == s.(claims := s2.claims)
  {
  }

  // ---------------------------------------------------------------------
  // Reset and manual override

  /**
   * Clearing an archive starts a sound first cycle at full health with no
   * declarations and no subscriptions; the cleared archive has no rows left
   * and the other archives keep theirs.
   */
  lemma ClearDataSlotFresh(t: StageTable, s: GroupState, bid: Option<int>)
    requires WellFormed(t) && PositiveHealth(t)
    ensures var c := ClearDataSlot(t, s, bid);
            && Consistent(t, c)
            && c.cycle == 1 && c.now == FullHealth(t, 1) && c.next == FullHealth(t, 2)
            && c.claims.None? && c.subs.None?
            && forall b, d :: Day(c.ledger, b, d) == if b == bid.GetOr(s.battleId) then [] else Day(s.ledger, b, d)
  {
    var c := ClearDataSlot(t, s, bid);
    assert c.now[0] != 0;
    forall b, d
      ensures Day(c.ledger, b, d) == if b == bid.GetOr(s.battleId) then [] else Day(s.ledger, b, d)
    {
      WithoutArchiveDay(s.ledger, bid.GetOr(s.battleId), b, d);
    }
  }

  /** A new group starts on a sound board. */
  lemma InitialConsistent(t: StageTable, battleId: int)
    requires WellFormed(t) && PositiveHealth(t)
    ensures Consistent(t, Initial(t, battleId))
    ensures QuotaRespected(Initial(t, battleId).ledger) && Solvent(Initial(t, battleId).ledger)
  {
    assert Initial(t, battleId).now[0] != 0;
  }

  /**
   * create_group succeeds exactly when there is no active record: a new group
   * gets a sound board with nothing declared, subscribed or recorded; a
   * revived one keeps its board, rows, declarations and waitlists.
   */
  lemma CreateGroupRules(t: StageTable, existing: Option<Stored>, battleId: int)
    requires WellFormed(t) && PositiveHealth(t)
    ensures var r := CreateGroup(t, existing, battleId);
            && (r.Success? <==> existing.None? || existing.value.deleted)
            && (r.Failure? ==> r.error == GroupError)
            && (r.Success? ==> !r.value.deleted)
            && (existing.None? ==>
                  && Consistent(t, r.value.board)
                  && r.value.board.cycle == 1 && r.value.board.battleId == battleId
                  && r.value.board.claims.None? && r.value.board.subs.None? && r.value.board.ledger == [])
            && (existing.Some? && existing.value.deleted ==> r.value.board == existing.value.board)
  {
    if existing.None? {
      InitialConsistent(t, battleId);
    }
  }

  /**
   * After an override the panel shows every edited boss as entered: alive in
   * the current cycle with the health given, or, for a boss entered as
   * dead, as the next cycle's boss with the health given (shown as 0 while it
   * cannot be attacked); a boss entered alive has a full boss waiting in the
   * next cycle. Bosses not edited keep both pools. A negative cycle is refused.
   */
  lemma ModifyShowsRequestedHealth(t: StageTable, s: GroupState, cycle: int, edits: map<Slot, BossEdit>)
    requires WellFormed(t) && Shaped(s)
    ensures cycle < 0 ==> ModifySpec(t, s, cycle, edits) == Failure(InputError)
    ensures cycle >= 1 ==> ModifySpec(t, s, cycle, edits).Success?
    ensures ModifySpec(t, s, cycle, edits).Success? ==>
              var m := ModifySpec(t, s, cycle, edits).value;
              && Shaped(m) && m.cycle == cycle
              && m.claims == s.claims && m.subs == s.subs && m.ledger == s.ledger
              && (forall k: Slot :: k in edits && !edits[k].isNext ==>
                    && m.now[k - 1] == edits[k].health
                    && m.next[k - 1] == FullHealth(t, if cycle != 0 then cycle + 1 else s.cycle + 1)[k - 1]
                    && (edits[k].health > 0 ==> BossStatus(t, m, k) == edits[k]))
              && (forall k: Slot :: k in edits && edits[k].isNext ==>
                    BossStatus(t, m, k) == BossEdit(true, if CheckNextBoss(t, m, k) then edits[k].health else 0))
              && (forall k: Slot :: k !in edits ==> m.now[k - 1] == s.now[k - 1] && m.next[k - 1] == s.next[k - 1])
  {
    if ModifySpec(t, s, cycle, edits).Success? {
      forall k: Slot
        ensures ModifySlot(t, s, cycle, edits, k)
      {
        ModifySlotHolds(t, s, cycle, edits, k);
      }
    }
  }

  /** What modify leaves at boss `k`: the requested status when edited, the old pools otherwise. */
  predicate ModifySlot(t: StageTable, s: GroupState, cycle: int, edits: map<Slot, BossEdit>, k: Slot)
    requires WellFormed(t) && Shaped(s) && ModifySpec(t, s, cycle, edits).Success?
  {
    var m := ModifySpec(t, s, cycle, edits).value;
    && (k in edits && !edits[k].isNext ==>
          && m.now[k - 1] == edits[k].health
          && m.next[k - 1] == FullHealth(t, if cycle != 0 then cycle + 1 else s.cycle + 1)[k - 1]
          && (edits[k].health > 0 ==> BossStatus(t, m, k) == edits[k]))
    && (k in edits && edits[k].isNext ==>
          BossStatus(t, m, k) == BossEdit(true, if CheckNextBoss(t, m, k) then edits[k].health else 0))
    && (k !in edits ==> m.now[k - 1] == s.now[k - 1] && m.next[k - 1] == s.next[k - 1])
  }

  lemma ModifySlotHolds(t: StageTable, s: GroupState, cycle: int, edits: map<Slot, BossEdit>, k: Slot)
    requires WellFormed(t) && Shaped(s) && ModifySpec(t, s, cycle, edits).Success?
    ensures ModifySlot(t, s, cycle, edits, k)
  {
    var m := ModifySpec(t, s, cycle, edits).value;
    if k in edits {
      if edits[k].isNext {
        assert m.now[k - 1] == 0 && m.next[k - 1] == edits[k].health;
      } else {
        assert m.now[k - 1] == edits[k].health;
      }
    }
  }

  // ---------------------------------------------------------------------
  // The carry-in reminders as stored

  /** Draining the first `n` bosses announces the waitlist of every dead one among them that had one. */
  lemma {:induction false} DrainUpToNotifies(subs: Subs, h: seq<nat>, n: nat, k: Slot)
    requires |h| == 5 && n <= 5
    requires k <= n && h[k - 1] == 0 && k in Table(subs)
    ensures Drained(k, Table(subs)[k]) in DrainUpTo(subs, h, n).1
  {
    var m: nat := n - 1;
    var before := DrainUpTo(subs, h, m);
    if k < n {
      DrainUpToNotifies(subs, h, m, k);
    } else {
      DrainUpToEffect(subs, h, m);
      assert k in Table(before.0) && Table(before.0)[k] == Table(subs)[k];
      RemindDrains(before.0, k);
      assert Remind(before.0, k).1 == [Drained(k, Table(subs)[k])];
    }
  }

  /**
   * The advance as the group record ends up stored: subscribe_remind drains
   * the waitlists of the carried-in dead bosses on a fresh copy of the group,
   * and the save of the stale copy that follows puts the old waitlists back.
   */
  function AdvanceAsStored(t: StageTable, s: GroupState): (r: (GroupState, seq<Notice>))
    requires WellFormed(t) && Shaped(s)
  {
    var (moved, drained) := Advance(t, s);
    (moved.(subs := s.subs), drained)
  }

  /**
   * A boss carried into the new cycle already dead, with a waitlist: its
   * subscribers are told the boss has arrived, yet as stored they stay on the
   * waitlist (and are told again at the next carry-in); the advance of the
   * model drops them.
   */
  lemma StaleSaveKeepsWaitlist(t: StageTable, s: GroupState, k: Slot)
    requires WellFormed(t) && Shaped(s)
    requires s.next[k - 1] == 0 && k in Table(s.subs)
    ensures Drained(k, Table(s.subs)[k]) in AdvanceAsStored(t, s).1
    ensures k in Table(AdvanceAsStored(t, s).0.subs)
    ensures k !in Table(Advance(t, s).0.subs)
  {
    DrainUpToNotifies(s.subs, s.next, 5, k);
    DrainUpToEffect(s.subs, s.next, 5);
  }
}
