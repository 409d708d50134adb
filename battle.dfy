/**
 * One clan's battle board and the operations on it, as functions from the
 * state before to the state after: damage reports (challenge), undo,
 * declarations of attempts (apply_for_challenge), the manual override
 * (modify) and the archive reset (clear_data_slot).
 */
module Battle {
  import opened Wrappers
  import opened Clan
  import opened Stage
  import opened Ledger
  import opened Registry
  import opened Subscriptions

  /** The persistent state of one group (the Clan_group record plus its challenge rows). */
  datatype GroupState = GroupState(
    cycle: int,              // boss_cycle
    now: seq<nat>,           // remaining health of the five bosses of the current cycle
    next: seq<nat>,          // remaining health of the five bosses of the next cycle
    claims: Option<Claims>,  // challenging_member_list
    subs: Subs,              // subscribe_list
    ledger: seq<Challenge>,  // every challenge row of the group, oldest first
    battleId: int)           // the archive in use

  predicate Shaped(s: GroupState)
  {
    |s.now| == 5 && |s.next| == 5
  }

  /** What an operation leaves behind: the new state, its answer and the chat announcements it makes. */
  datatype Outcome<T> = Outcome(state: GroupState, result: Result<T, Error>, notices: seq<Notice>)

  function Refuse<T>(s: GroupState, e: Error): Outcome<T>
  {
    Outcome(s, Failure(e), [])
  }

  /** check_next_boss: the boss in slot `k` can still be attacked, and doing so stays within the current stage. */
  predicate CheckNextBoss(t: StageTable, s: GroupState, k: Slot)
    requires Shaped(s)
  {
    && !(s.now[k - 1] == 0 && s.next[k - 1] == 0)
    && Level(t.ranges, s.cycle) == Level(t.ranges, s.cycle + 1)
  }

  /** The health a report on slot `k` is taken from: `now` while that boss lives, otherwise `next`, one cycle on. */
  function ActiveHealth(s: GroupState, k: Slot): (h: nat)
    requires Shaped(s)
    ensures h == 0 <==> s.now[k - 1] == 0 && s.next[k - 1] == 0
  {
    if s.now[k - 1] == 0 then s.next[k - 1] else s.now[k - 1]
  }

  /** The cycle shown for slot `k`: one on from the group's cycle once the current boss is dead. */
  function ActiveCycle(s: GroupState, k: Slot): (c: int)
    requires Shaped(s)
    ensures s.cycle <= c <= s.cycle + 1
  {
    if s.now[k - 1] == 0 then s.cycle + 1 else s.cycle
  }

  /** The health a report hits is the boss's entry in the pool of the cycle it is recorded against. */
  lemma ActiveHealthPool(s: GroupState, k: Slot)
    requires Shaped(s)
    ensures ActiveHealth(s, k) == (if ActiveCycle(s, k) == s.cycle then s.now else s.next)[k - 1]
    ensures ActiveCycle(s, k) == s.cycle + 1 ==> s.now[k - 1] == 0
  {
  }

  /**
   * A board the operations keep sound: no pool above full health for its
   * cycle, a boss alive now still waiting in the next cycle, and never all
   * five current bosses dead (the cycle moves on at the fifth kill).
   */
  predicate Consistent(t: StageTable, s: GroupState)
    requires WellFormed(t)
  {
    && Shaped(s)
    && (forall i :: 0 <= i < 5 ==> s.now[i] <= FullHealth(t, s.cycle)[i] && s.next[i] <= FullHealth(t, s.cycle + 1)[i])
    && (forall i :: 0 <= i < 5 && s.now[i] != 0 ==> s.next[i] != 0)
    && CountZeros(s.now) < 5
  }

  /**
   * One boss as the web panel shows it (_boss_data_dict): whether it is the
   * next cycle's boss, and its health, shown as 0 while it cannot be attacked.
   */
  function BossStatus(t: StageTable, s: GroupState, k: Slot): (v: BossEdit)
    requires Shaped(s)
    ensures v.isNext <==> s.now[k - 1] == 0
    ensures v.health == 0 || v.health == ActiveHealth(s, k)
    ensures v.isNext && !CheckNextBoss(t, s, k) ==> v.health == 0
  {
    var isNext := s.now[k - 1] == 0;
    BossEdit(isNext, if isNext && !CheckNextBoss(t, s, k) then 0 else ActiveHealth(s, k))
  }

  /** How many of the bosses are dead. */
  function CountZeros(h: seq<nat>): (n: nat)
    ensures n <= |h|
    ensures n == |h| <==> forall i :: 0 <= i < |h| ==> h[i] == 0
    ensures n == 0 <==> forall i :: 0 <= i < |h| ==> h[i] != 0
  {
    if |h| == 0 then 0 else CountZeros(h[..|h| - 1]) + (if h[|h| - 1] == 0 then 1 else 0)
  }

  // ---------------------------------------------------------------------
  // Declaring an attempt (apply_for_challenge)

  /** A member's rows of today in the current archive. */
  function Today(s: GroupState, m: Member, date: int): seq<Challenge>
  {
    Of(s.ledger, s.battleId, m, date)
  }

  /**
   * apply_for_challenge once the challenger is known: refused when the
   * challenger already holds a declaration, when the boss is dead and cannot be
   * followed into the next cycle, when three finished attempts were made today,
   * or when a compensation attempt is asked for with none owed; otherwise the
   * registry gains the declaration, turned into a compensation attempt when
   * only compensation attempts are left.
   */
  function ApplyAs(t: StageTable, s: GroupState, date: int, challenger: Member, k: Slot,
                   isContinue: bool, behalf: Option<Member>): Result<Option<Claims>, Error>
    requires Shaped(s)
  {
    if CheckBlade(s.claims, challenger) then Failure(GroupError)
    else if !CheckNextBoss(t, s, k) && s.now[k - 1] == 0 then Failure(GroupError)
    else
      var es := Today(s, challenger, date);
      var finished := Finished(es);
      var tails := Tails(es);
      var conts := Continues(es);
      var owed := |es| - finished - conts;
      if finished >= 3 then Failure(GroupError)
      else if isContinue && owed == 0 then Failure(GroupError)
      else
        var cont := isContinue || (finished + tails - conts >= 3 && owed != 0);
        Success(Some(Insert(Open(s.claims), k, challenger, Engagement(cont, behalf, 0, 0, false, None))))
  }

  /** apply_for_challenge as called: `applicant` declares for themself, or for `behalfed`. */
  function ApplyForChallenge(t: StageTable, s: GroupState, date: int, applicant: Member, k: Slot,
                             isContinue: bool, behalfed: Option<Member>): Result<GroupState, Error>
    requires Shaped(s)
  {
    var behalf := if behalfed.Some? then Some(applicant) else None;
    var r := ApplyAs(t, s, date, behalfed.GetOr(applicant), k, isContinue, behalf);
    if r.Failure? then Failure(r.error) else Success(s.(claims := r.value))
  }

  // ---------------------------------------------------------------------
  // Reporting damage (challenge)

  /** A damage report as the chat command gives it. */
  datatype Report = Report(
    reporter: Member,          // who sent the report
    defeat: bool,              // the boss was killed
    damage: Option<int>,       // the damage dealt, required unless the boss was killed
    behalfed: Option<Member>,  // the member who actually attacked, when reporting for someone else
    isContinue: bool,          // a compensation attempt
    slot: Option<Slot>,        // the boss named in the report, if any
    previousDay: bool)         // file the attempt under yesterday

  /** What a successful report produces: the ledger row and whether the cycle moved on. */
  datatype Receipt = Receipt(entry: Challenge, advanced: bool)

  /** Who dealt the damage, and who reported it for them (never the dealer themself). */
  function Resolve(reporter: Member, behalfed: Option<Member>): (r: (Member, Option<Member>))
    ensures r.0 == behalfed.GetOr(reporter)
    ensures r.1.Some? ==> r.1.value == reporter && r.1.value != r.0
    ensures r.1.None? <==> behalfed.None? || behalfed.value == reporter
  {
    var dealer := behalfed.GetOr(reporter);
    var behalf := if behalfed.Some? then Some(reporter) else None;
    if behalf == Some(dealer) then (dealer, None) else (dealer, behalf)
  }

  /**
   * The claim phase of challenge: a dealer already declared elsewhere is
   * withdrawn when a boss is named; with no boss named the declared one is
   * used; a dealer not declared is declared on the spot. Its registry change
   * stays even when the report is refused later.
   */
  function Claim(t: StageTable, s: GroupState, date: int, dealer: Member, behalf: Option<Member>,
                 slot: Option<Slot>, isContinue: bool): (r: (Option<Claims>, Result<Slot, Error>))
    requires Shaped(s)
    ensures slot.Some? && r.1.Success? ==> r.1.value == slot.value
    ensures slot.None? && r.1.Success? ==> r.0 == s.claims && GetInBossNum(s.claims, dealer) == Some(r.1.value)
    ensures slot.None? && !CheckBlade(s.claims, dealer) ==> r == (s.claims, Failure(GroupError))
  {
    var reg := if slot.Some? && CheckBlade(s.claims, dealer) then Withdraw(s.claims, dealer) else s.claims;
    var k := if slot.None? && CheckBlade(reg, dealer) then GetInBossNum(reg, dealer) else slot;
    if k.None? then (reg, Failure(GroupError))
    else if CheckBlade(reg, dealer) then (reg, Success(k.value))
    else
      var applied := ApplyAs(t, s.(claims := reg), date, dealer, k.value, isContinue, behalf);
      if applied.Failure? then (reg, Failure(applied.error)) else (applied.value, Success(k.value))
  }

  /** On an exclusive registry the claim phase, when it succeeds, leaves the dealer declared on the boss it returns, and nowhere else. */
  lemma ClaimEngages(t: StageTable, s: GroupState, date: int, dealer: Member, behalf: Option<Member>,
                     slot: Option<Slot>, isContinue: bool)
    requires Shaped(s) && Exclusive(s.claims) && Tidy(s.claims)
    ensures var r := Claim(t, s, date, dealer, behalf, slot, isContinue);
            && Exclusive(r.0) && Tidy(r.0)
            && (r.1.Success? ==> Engaged(Open(r.0), r.1.value, dealer))
  {
    var reg := if slot.Some? && CheckBlade(s.claims, dealer) then Withdraw(s.claims, dealer) else s.claims;
    if slot.Some? && CheckBlade(s.claims, dealer) {
      CancelMemberOnly(s.claims, dealer);
      CancelMemberKeepsExclusive(s.claims, dealer);
    }
    var k := if slot.None? && CheckBlade(reg, dealer) then GetInBossNum(reg, dealer) else slot;
    if !(slot.Some? && CheckBlade(s.claims, dealer)) {
      assert reg == s.claims;
    }
    if k.Some? && !CheckBlade(reg, dealer) {
      var applied := ApplyAs(t, s.(claims := reg), date, dealer, k.value, isContinue, behalf);
      if applied.Success? {
        InsertKeepsExclusive(reg, k.value, dealer, applied.value.value[k.value][dealer]);
      }
    }
  }

  /** subscribe_remind for every boss among the first `n` whose carried-in health is 0, in boss order. */
  function DrainUpTo(subs: Subs, h: seq<nat>, n: nat): (r: (Subs, seq<Notice>))
    requires |h| == 5 && n <= 5
  {
    if n == 0 then (subs, [])
    else
      var before := DrainUpTo(subs, h, n - 1);
      var step := if h[n - 1] == 0 then Remind(before.0, n) else (before.0, []);
      (step.0, before.1 + step.1)
  }

  /** Draining the first `n` bosses drops the waitlist of every one of them that is dead, and keeps every other waitlist as it was. */
  lemma {:induction false} DrainUpToEffect(subs: Subs, h: seq<nat>, n: nat)
    requires |h| == 5 && n <= 5
    ensures var r := DrainUpTo(subs, h, n);
            && (forall j: Slot :: j <= n && h[j - 1] == 0 ==> j !in Table(r.0))
            && (forall j: Slot :: (j > n || h[j - 1] != 0) ==>
                  (j in Table(r.0) <==> j in Table(subs)) && (j in Table(subs) ==> Table(r.0)[j] == Table(subs)[j]))
  {
    if n > 0 {
      var m: nat := n - 1;
      var s1 := DrainUpTo(subs, h, m).0;
      DrainUpToEffect(subs, h, m);
      assert forall j: Slot :: j <= m && h[j - 1] == 0 ==> j !in Table(DrainUpTo(subs, h, m).0);
      var s2 := DrainUpTo(subs, h, n).0;
      assert s2 == if h[n - 1] == 0 then Remind(s1, n).0 else s1;
      RemindDrains(s1, n);
      forall j: Slot | j <= n && h[j - 1] == 0
        ensures j !in Table(s2)
      {
        if j < n {
          assert j <= m && j !in Table(s1);
        }
      }
      forall j: Slot | j > n || h[j - 1] != 0
        ensures (j in Table(s2) <==> j in Table(subs)) && (j in Table(subs) ==> Table(s2)[j] == Table(subs)[j])
      {
        assert (j in Table(s2) <==> j in Table(s1)) && (j in Table(s1) ==> Table(s2)[j] == Table(s1)[j]);
      }
    }
  }

  /** The move to the next cycle once all five bosses are dead: `next` becomes `now`, `next` is refilled from the stage table. */
  function Advance(t: StageTable, s: GroupState): (r: (GroupState, seq<Notice>))
    requires WellFormed(t) && Shaped(s)
  {
    var (subs, drained) := DrainUpTo(s.subs, s.next, 5);
    (s.(cycle := s.cycle + 1, now := s.next, next := FullHealth(t, s.cycle + 2), subs := subs), drained)
  }

  /**
   * The checks of the commit phase of challenge, once the dealer is declared
   * on boss `k`, and the row they produce: picks the pool, validates the
   * damage, the date, the daily quota and the compensation balance.
   */
  function Entry(s: GroupState, date: int, dealer: Member, behalf: Option<Member>, k: Slot, r: Report): Result<Challenge, Error>
    requires Shaped(s) && Engaged(Open(s.claims), k, dealer)
    requires r.defeat || (r.damage.Some? && r.damage.value >= 0)
  {
    var cont := r.isContinue || Open(s.claims)[k][dealer].isContinue;
    if s.now[k - 1] == 0 && s.next[k - 1] == 0 then Failure(InputError)
    else
      var hp := ActiveHealth(s, k);
      if !r.defeat && r.damage.value >= hp then Failure(InputError)
      else if r.previousDay && HasEntriesOn(s.ledger, s.battleId, date) then Failure(GroupError)
      else
        var d := if r.previousDay then date - 1 else date;
        var es := Today(s, dealer, d);
        if Finished(es) >= 3 then Failure(InputError)
        else if cont && |es| - Finished(es) - Continues(es) == 0 then Failure(GroupError)
        else
          var remain: nat := if r.defeat then 0 else hp - r.damage.value;
          Success(Challenge(dealer, s.battleId, d, ActiveCycle(s, k), k, remain,
                            if r.defeat then hp else r.damage.value, cont, behalf))
  }

  /** The board after boss `k` is hit down to `remain`, before any cycle advance: only the active pool changes. */
  function Hit(s: GroupState, k: Slot, remain: nat): (h: GroupState)
    requires Shaped(s)
    ensures Shaped(h)
  {
    if s.now[k - 1] == 0 then s.(next := s.next[k - 1 := remain]) else s.(now := s.now[k - 1 := remain])
  }

  /**
   * The writes of the commit phase: the row is appended and the hit applied;
   * a kill may move the cycle on, announces the release from the tree,
   * releases the boss and reminds its subscribers when it can be attacked
   * again; any other hit withdraws the dealer's declaration.
   */
  function Settle(t: StageTable, s: GroupState, e: Challenge, defeat: bool): Outcome<Receipt>
    requires WellFormed(t) && Shaped(s)
  {
    var logged := Hit(s, e.slot, e.remain).(ledger := s.ledger + [e]);
    if defeat then Kill(t, logged, e)
    else Outcome(logged.(claims := Withdraw(logged.claims, e.member)), Success(Receipt(e, false)), [])
  }

  /** The writes after a kill recorded as `e`: the cycle moves on when all five bosses are dead, then the boss is released. */
  function Kill(t: StageTable, logged: GroupState, e: Challenge): Outcome<Receipt>
    requires WellFormed(t) && Shaped(logged)
  {
    var advanced := CountZeros(logged.now) == 5;
    var (moved, drained) := if advanced then Advance(t, logged) else (logged, []);
    var released := Release(t, moved, e.slot, Receipt(e, advanced));
    released.(notices := drained + released.notices)
  }

  /** After a kill: tree announcement, release of every declaration on the boss, reminder when it can be attacked again. */
  function Release(t: StageTable, s: GroupState, k: Slot, receipt: Receipt): Outcome<Receipt>
    requires Shaped(s)
  {
    var down := TreeDownNotice(s.claims, k);
    var released := s.(claims := ReleaseSlot(s.claims, k));
    var (subs, back) := if CheckNextBoss(t, released, k) then Remind(released.subs, k) else (released.subs, []);
    Outcome(released.(subs := subs), Success(receipt), down + back)
  }

  /** The commit phase of challenge: the checks, then the writes. */
  function Commit(t: StageTable, s: GroupState, date: int, dealer: Member, behalf: Option<Member>,
                  k: Slot, r: Report): Outcome<Receipt>
    requires WellFormed(t) && Shaped(s) && Engaged(Open(s.claims), k, dealer)
    requires r.defeat || (r.damage.Some? && r.damage.value >= 0)
  {
    var e := Entry(s, date, dealer, behalf, k, r);
    if e.Failure? then Refuse(s, e.error) else Settle(t, s, e.value, r.defeat)
  }

  /** challenge: the whole damage report. */
  function ChallengeSpec(t: StageTable, s: GroupState, date: int, r: Report): Outcome<Receipt>
    requires WellFormed(t) && Shaped(s) && Exclusive(s.claims) && Tidy(s.claims)
  {
    if !r.defeat && (r.damage.None? || r.damage.value < 0) then Refuse(s, InputError)
    else
      var (dealer, behalf) := Resolve(r.reporter, r.behalfed);
      var (reg, slot) := Claim(t, s, date, dealer, behalf, r.slot, r.isContinue);
      if slot.Failure? then Refuse(s.(claims := reg), slot.error)
      else
        ClaimEngages(t, s, date, dealer, behalf, r.slot, r.isContinue);
        Commit(t, s.(claims := reg), date, dealer, behalf, slot.value, r)
  }

  // ---------------------------------------------------------------------
  // Undoing the newest report (undo)

  /**
   * undo: removes the newest row of the current archive and gives its damage
   * back, reversing a cycle advance when the row was the kill that caused one.
   * `authority` is the requester's authority_group (below 100: an officer).
   */
  function UndoSpec(t: StageTable, s: GroupState, requester: Member, authority: int): Result<GroupState, Error>
    requires WellFormed(t) && Shaped(s)
  {
    var last := LastOf(s.ledger, s.battleId);
    if last.None? then Failure(GroupError)
    else
      var e := s.ledger[last.value];
      if e.member != requester && authority >= 100 then Failure(UserError)
      else
        Success(GiveBack(t, s, e).(ledger := RemoveAt(s.ledger, last.value)))
  }

  /** The board with the damage of row `e` given back: a reversed advance, or the damage added back to its pool up to full health. */
  function GiveBack(t: StageTable, s: GroupState, e: Challenge): (r: GroupState)
    requires WellFormed(t) && Shaped(s)
  {
    var k := e.slot;
    if e.cycle < s.cycle then
      s.(cycle := e.cycle, now := Zeros()[k - 1 := e.damage], next := s.now)
    else
      var full := FullHealth(t, e.cycle)[k - 1];
      if e.cycle != s.cycle then
        s.(next := s.next[k - 1 := Min(s.next[k - 1] + e.damage, full)])
      else
        s.(now := s.now[k - 1 := Min(s.now[k - 1] + e.damage, full)])
  }

  function Zeros(): (h: seq<nat>)
    ensures |h| == 5 && CountZeros(h) == 5
  {
    [0, 0, 0, 0, 0]
  }

  function Min(a: nat, b: nat): nat
  {
    if a <= b then a else b
  }

  // ---------------------------------------------------------------------
  // Manual override (modify) and reset (clear_data_slot / create_group)

  /** One boss of the override form: alive in the current cycle with `health`, or dead with `health` left in the next. */
  datatype BossEdit = BossEdit(isNext: bool, health: nat)

  /**
   * modify: sets the cycle and, for every edited boss, both pools; a boss
   * edited as alive gets a full boss waiting in the next cycle. A cycle of 0
   * stands for "not given".
   */
  function ModifySpec(t: StageTable, s: GroupState, cycle: int, edits: map<Slot, BossEdit>): Result<GroupState, Error>
    requires WellFormed(t) && Shaped(s)
  {
    if cycle != 0 && cycle < 1 then Failure(InputError)
    else
      var nextFull := FullHealth(t, if cycle != 0 then cycle + 1 else s.cycle + 1);
      Success(s.(cycle := cycle,
                 now := seq(5, i requires 0 <= i < 5 =>
                          if i + 1 in edits then (if edits[i + 1].isNext then 0 else edits[i + 1].health) else s.now[i]),
                 next := seq(5, i requires 0 <= i < 5 =>
                          if i + 1 in edits then (if edits[i + 1].isNext then edits[i + 1].health else nextFull[i]) else s.next[i])))
  }

  /** clear_data_slot: a fresh first cycle, no declarations, no subscriptions, and archive `bid` (default: the current one) emptied. */
  function ClearDataSlot(t: StageTable, s: GroupState, bid: Option<int>): (r: GroupState)
    requires WellFormed(t)
  {
    GroupState(1, FullHealth(t, 1), FullHealth(t, 2), None, None, WithoutArchive(s.ledger, bid.GetOr(s.battleId)), s.battleId)
  }

  /** create_group: the state of a new group using archive `battleId`. */
  function Initial(t: StageTable, battleId: int): (r: GroupState)
    requires WellFormed(t)
  {
    GroupState(1, FullHealth(t, 1), FullHealth(t, 2), None, None, [], battleId)
  }

  /** A stored Clan_group record: the board and the soft-delete flag. */
  datatype Stored = Stored(board: GroupState, deleted: bool)

  /**
   * create_group: a group without a record starts at the initial board; a
   * deleted record is revived as it was (only its server changes, which the
   * board does not record); an active record is refused.
   */
  function CreateGroup(t: StageTable, existing: Option<Stored>, battleId: int): Result<Stored, Error>
    requires WellFormed(t)
  {
    if existing.None? then Success(Stored(Initial(t, battleId), false))
    else if existing.value.deleted then Success(existing.value.(deleted := false))
    else Failure(GroupError)
  }
}
