/**
 * The tracker as it runs: one record per group whose operations update its
 * fields in place, validating first and writing afterwards. Every method is
 * proved to leave exactly the state, answer and announcements that the
 * functional model in module Battle prescribes, so the properties proved
 * there (BattleProps) hold of these methods too.
 */
module Records {
  import opened Wrappers
  import opened Clan
  import opened Stage
  import opened Ledger
  import opened Registry
  import opened Subscriptions
  import opened Battle
  import opened BattleProps

  /** One clan's Clan_group record together with its challenge rows. */
  class Group {
    const table: StageTable         // the stage table of the group's game server
    var cycle: int                  // boss_cycle
    var now: seq<nat>               // now_cycle_boss_health, boss 1 first
    var next: seq<nat>              // next_cycle_boss_health, boss 1 first
    var claims: Option<Claims>      // challenging_member_list
    var subs: Subs                  // subscribe_list
    var ledger: seq<Challenge>      // the Clan_challenge rows of the group, in cid order
    var battleId: int               // battle_id, the archive in use
    /** How many board updates were pushed to the web panel (_boss_status). */
    ghost var published: nat
    /** Every chat announcement made so far. */
    ghost var notices: seq<Notice>

    /** The record as a value of the functional model. */
    function State(): GroupState
      reads this
    {
      GroupState(cycle, now, next, claims, subs, ledger, battleId)
    }

    ghost predicate Valid()
      reads this
    {
      WellFormed(table) && Shaped(State()) && Exclusive(claims) && Tidy(claims)
    }

    /** create_group: both cycles' bosses at full health, nothing declared, nothing subscribed. */
    constructor (table: StageTable, battleId: int)
      requires WellFormed(table)
      ensures Valid()
      ensures State() == Initial(table, battleId)
      ensures published == 0 && notices == []
    {
      this.table := table;
      var level := LevelByCycle(table.ranges, 1);
      now := table.health[level];
      level := LevelByCycle(table.ranges, 2);
      next := table.health[level];
      cycle := 1;
      claims := None;
      subs := None;
      ledger := [];
      this.battleId := battleId;
      published := 0;
      notices := [];
    }

    // -------------------------------------------------------------------
    // Declarations

    /** apply_for_challenge: `applicant` declares an attempt on boss `k`, for themself or for `behalfed`. */
    method ApplyForChallenge(isContinue: bool, date: int, applicant: Member, k: Slot, behalfed: Option<Member>, sendWeb: bool)
      returns (r: Result<(), Error>)
      requires Valid()
      modifies this
      ensures Valid()
      ensures var spec := Battle.ApplyForChallenge(table, old(State()), date, applicant, k, isContinue, behalfed);
              && (r.Success? <==> spec.Success?)
              && (spec.Success? ==> State() == spec.value)
              && (spec.Failure? ==> r.error == spec.error && State() == old(State()))
      ensures published == old(published) + (if r.Success? && sendWeb then 1 else 0)
      ensures notices == old(notices)
    {
      ghost var s := State();
      var behalf := if behalfed.Some? then Some(applicant) else None;
      var challenger := behalfed.GetOr(applicant);
      var cont := CheckApply(date, challenger, k, isContinue);
      if cont.Failure? {
        return Failure(cont.error);
      }
      var list: Claims := Open(claims);
      var onBoss := if k in list then list[k] else map[];
      var engagement := Engagement(cont.value, behalf, 0, 0, false, None);
      assert Battle.ApplyForChallenge(table, s, date, applicant, k, isContinue, behalfed)
          == Success(s.(claims := Some(Insert(list, k, challenger, engagement))));
      InsertKeepsExclusive(claims, k, challenger, engagement);
      claims := Some(list[k := onBoss[challenger := engagement]]);
      if sendWeb {
        published := published + 1;
      }
      r := Success(());
    }

    /**
     * The checks of apply_for_challenge for `challenger` on boss `k`: refused
     * as ApplyAs refuses, otherwise whether the declaration is a compensation
     * attempt.
     */
    method CheckApply(date: int, challenger: Member, k: Slot, isContinue: bool) returns (cont: Result<bool, Error>)
      requires Valid()
      ensures forall behalf :: ApplyAs(table, State(), date, challenger, k, isContinue, behalf)
                == if cont.Failure? then Failure(cont.error)
                   else Success(Some(Insert(Open(claims), k, challenger, Engagement(cont.value, behalf, 0, 0, false, None))))
    {
      if CheckBlade(claims, challenger) {
        return Failure(GroupError);
      }
      if !CheckNextBoss(table, State(), k) && now[k - 1] == 0 {
        return Failure(GroupError);
      }
      var challenges := Of(ledger, battleId, challenger, date);
      var finished := Finished(challenges);
      if finished >= 3 {
        return Failure(GroupError);
      }
      var tailBlade: int := Tails(challenges);
      var allContBlade := Continues(challenges);
      var contBlade := |challenges| - finished - allContBlade;
      if isContinue && contBlade == 0 {
        return Failure(GroupError);
      }
      cont := Success(isContinue || (finished + tailBlade - allContBlade >= 3 && contBlade != 0));
    }

    /** cancel_blade: withdraws everybody, one member, or everybody on one boss. */
    method CancelBlade(scope: CancelScope, sendWeb: bool) returns (r: Result<(), Error>)
      requires Valid()
      modifies this
      ensures Valid()
      ensures var spec := Cancel(old(claims), scope);
              && (r.Success? <==> spec.Success?)
              && (spec.Success? ==> State() == old(State()).(claims := spec.value))
              && (spec.Failure? ==> r.error == spec.error && State() == old(State()))
      ensures published == old(published) + (if r.Success? && sendWeb && !(scope.OneSlot? && scope.slot !in Open(old(claims))) then 1 else 0)
      ensures notices == old(notices)
    {
      if claims.None? {
        return Failure(GroupError);
      }
      match scope {
        case Everyone =>
          claims := None;
        case OneMember(m) =>
          var k := GetInBossNum(claims, m);
          if k.None? {
            return Failure(GroupError);
          }
          CancelMemberKeepsExclusive(claims, m);
          WithdrawTidy(claims, m);
          var list := claims.value;
          var rest := list[k.value] - {m};
          if |rest| == 0 {
            list := list - {k.value};
          } else {
            list := list[k.value := rest];
          }
          claims := if |list| == 0 then None else Some(list);
        case OneSlot(k) =>
          if k !in claims.value {
            return Success(());
          }
          ReleaseSlotEffect(claims, k);
          claims := Some(claims.value - {k});
      }
      if sendWeb {
        published := published + 1;
      }
      r := Success(());
    }

    /** put_on_the_tree: the declared member is stuck on their boss, leaving a note. */
    method PutOnTheTree(m: Member, note: Option<string>) returns (r: Result<(), Error>)
      requires Valid()
      modifies this
      ensures Valid()
      ensures var spec := Registry.PutOnTheTree(old(claims), m, note);
              && (r.Success? <==> spec.Success?)
              && (spec.Success? ==> State() == old(State()).(claims := spec.value))
              && (spec.Failure? ==> r.error == spec.error && State() == old(State()))
      ensures published == old(published) + (if r.Success? then 1 else 0)
      ensures notices == old(notices)
    {
      var k := GetInBossNum(claims, m);
      if k.None? {
        return Failure(GroupError);
      }
      var list: Claims := Open(claims);
      var e: Engagement := list[k.value][m];
      if e.tree {
        return Failure(GroupError);
      }
      ReplaceKeepsEngaged(claims, k.value, m, e.(tree := true, note := note));
      claims := Some(Replace(list, k.value, m, e.(tree := true, note := note)));
      published := published + 1;
      r := Success(());
    }

    /** take_it_of_the_tree for one member: clears the flag and the note. */
    method TakeItOffTheTree(m: Member, sendWeb: bool) returns (r: Result<(), Error>)
      requires Valid()
      modifies this
      ensures Valid()
      ensures var spec := TakeOffTheTree(old(claims), m);
              && (r.Success? <==> spec.Success?)
              && (spec.Success? ==> State() == old(State()).(claims := spec.value))
              && (spec.Failure? ==> r.error == spec.error && State() == old(State()))
      ensures published == old(published) + (if r.Success? && sendWeb then 1 else 0)
      ensures notices == old(notices)
    {
      var k := GetInBossNum(claims, m);
      if k.None? {
        return Failure(GroupError);
      }
      var list: Claims := Open(claims);
      var e: Engagement := list[k.value][m];
      ReplaceKeepsEngaged(claims, k.value, m, e.(tree := false, note := None));
      claims := Some(Replace(list, k.value, m, e.(tree := false, note := None)));
      if sendWeb {
        published := published + 1;
      }
      r := Success(());
    }

    /** take_it_of_the_tree for a whole boss: announces to everybody stuck on boss `k` that they may come down. */
    method TakeTreeDown(k: Slot, sendWeb: bool)
      requires k in Open(claims)
      modifies this
      ensures State() == old(State())
      ensures notices == old(notices) + TreeDownNotice(claims, k)
      ensures published == old(published) + (if sendWeb then 1 else 0)
    {
      notices := notices + TreeDownNotice(claims, k);
      if sendWeb {
        published := published + 1;
      }
    }

    /** report_hurt: records, or clears, the seconds and damage a declared member reports mid-fight. */
    method ReportHurt(m: Member, h: HurtReport) returns (r: Result<HurtReply, Error>)
      requires Valid()
      modifies this
      ensures Valid()
      ensures var spec := Registry.ReportHurt(old(claims), m, h);
              && (r.Success? <==> spec.Success?)
              && (spec.Success? ==> State() == old(State()).(claims := spec.value.0) && r.value == spec.value.1)
              && (spec.Failure? ==> r.error == spec.error && State() == old(State()))
      ensures published == old(published) && notices == old(notices)
    {
      if h.Rewrite? {
        claims := Some(Open(claims));
        return Success(Silent);
      }
      var k := GetInBossNum(claims, m);
      if k.None? {
        return Failure(GroupError);
      }
      var list: Claims := Open(claims);
      var e: Engagement := list[k.value][m];
      if h.Record? {
        ReplaceKeepsEngaged(claims, k.value, m, e.(seconds := h.seconds, damage := h.damage));
        claims := Some(Replace(list, k.value, m, e.(seconds := h.seconds, damage := h.damage)));
        r := Success(Recorded);
      } else {
        if e.damage == 0 {
          claims := Some(list);
          r := Success(NothingToClear);
        } else {
          ReplaceKeepsEngaged(claims, k.value, m, e.(seconds := 0, damage := 0));
          claims := Some(Replace(list, k.value, m, e.(seconds := 0, damage := 0)));
          r := Success(Cleared);
        }
      }
    }

    // -------------------------------------------------------------------
    // Subscriptions

    /** subscribe: puts `m` on the waitlist of boss `k`. */
    method Subscribe(m: Member, k: Slot) returns (r: Result<(), Error>)
      requires Valid()
      modifies this
      ensures Valid()
      ensures var spec := Subscriptions.Subscribe(old(subs), m, k);
              && (r.Success? <==> spec.Success?)
              && (spec.Success? ==> State() == old(State()).(subs := spec.value))
              && (spec.Failure? ==> r.error == spec.error && State() == old(State()))
      ensures published == old(published) && notices == old(notices)
    {
      var list: map<Slot, seq<Member>> := Table(subs);
      if k in list {
        if m in list[k] {
          return Failure(GroupError);
        }
        list := list[k := list[k] + [m]];
      } else {
        list := list[k := [m]];
      }
      subs := Some(list);
      r := Success(());
    }

    /** subscribe_cancel: drops the whole waitlist of boss `k`, or only member `m` from it. */
    method SubscribeCancel(k: Slot, m: Option<Member>) returns (r: Result<(), Error>)
      requires Valid()
      modifies this
      ensures Valid()
      ensures var spec := Subscriptions.SubscribeCancel(old(subs), k, m);
              && (r.Success? <==> spec.Success?)
              && (spec.Success? ==> State() == old(State()).(subs := spec.value))
              && (spec.Failure? ==> r.error == spec.error && State() == old(State()))
      ensures published == old(published) && notices == old(notices)
    {
      var list: map<Slot, seq<Member>> := Table(subs);
      if |list| == 0 || k !in list {
        return Failure(GroupError);
      }
      if m.None? {
        list := list - {k};
      } else {
        if m.value !in list[k] {
          return Failure(GroupError);
        }
        var rest := RemoveFirst(list[k], m.value);
        if |rest| == 0 {
          list := list - {k};
        } else {
          list := list[k := rest];
        }
      }
      subs := Some(list);
      r := Success(());
    }

    /** subscribe_remind: tells the waitlist of boss `k` that it is back, then drops the list. */
    method SubscribeRemind(k: Slot)
      modifies this
      ensures State() == old(State()).(subs := Remind(old(subs), k).0)
      ensures notices == old(notices) + Remind(old(subs), k).1
      ensures published == old(published)
    {
      var list: map<Slot, seq<Member>> := Table(subs);
      if |list| == 0 || k !in list {
        return;
      }
      notices := notices + [Drained(k, list[k])];
      subs := Some(list - {k});
    }

    // -------------------------------------------------------------------
    // Reporting damage

    /** challenge: records a report of damage dealt to a boss (see Battle.ChallengeSpec). */
    method Challenge(date: int, r: Report) returns (result: Result<Receipt, Error>)
      requires Valid()
      modifies this
      ensures Valid()
      ensures var o := ChallengeSpec(table, old(State()), date, r);
              && State() == o.state && result == o.result
              && notices == old(notices) + o.notices
      ensures published == old(published) + (if result.Success? then 1 else 0)
    {
      if !r.defeat && r.damage.None? {
        return Failure(InputError);
      }
      if !r.defeat && r.damage.value < 0 {
        return Failure(InputError);
      }
      ghost var s := State();
      var dealer := r.behalfed.GetOr(r.reporter);
      var behalf := if r.behalfed.Some? then Some(r.reporter) else None;
      if behalf == Some(dealer) {
        behalf := None;
      }
      assert (dealer, behalf) == Resolve(r.reporter, r.behalfed);
      ghost var c := Claim(table, s, date, dealer, behalf, r.slot, r.isContinue);
      var k := ClaimBoss(date, dealer, behalf, r.slot, r.isContinue);
      if k.Failure? {
        return Failure(k.error);
      }
      ClaimEngages(table, s, date, dealer, behalf, r.slot, r.isContinue);
      ChallengeKeepsExclusive(table, s, date, r);
      assert ChallengeSpec(table, s, date, r) == Battle.Commit(table, s.(claims := c.0), date, dealer, behalf, k.value, r);
      result := Commit(date, dealer, behalf, k.value, r);
    }

    /**
     * The claim phase of challenge: a dealer declared elsewhere is withdrawn
     * when a boss is named, the declared boss is used when none is, and a
     * dealer not declared is declared on the spot (see Battle.Claim).
     */
    method ClaimBoss(date: int, dealer: Member, behalf: Option<Member>, slot: Option<Slot>, isContinue: bool)
      returns (k: Result<Slot, Error>)
      requires Valid()
      modifies this
      ensures Valid()
      ensures var c := Claim(table, old(State()), date, dealer, behalf, slot, isContinue);
              State() == old(State()).(claims := c.0) && k == c.1
      ensures published == old(published) && notices == old(notices)
    {
      ghost var s := State();
      var boss := slot;
      if boss.Some? && CheckBlade(claims, dealer) {
        CancelMemberOnly(claims, dealer);
        var _ := CancelBlade(OneMember(dealer), false);
      }
      if boss.None? && CheckBlade(claims, dealer) {
        boss := GetInBossNum(claims, dealer);
      }
      assert claims == (if slot.Some? && CheckBlade(s.claims, dealer) then Withdraw(s.claims, dealer) else s.claims);
      if boss.None? {
        return Failure(GroupError);
      }
      if !CheckBlade(claims, dealer) {
        var applicant := behalf.GetOr(dealer);
        var behalfed := if behalf.Some? then Some(dealer) else None;
        var applied := ApplyForChallenge(isContinue, date, applicant, boss.value, behalfed, false);
        if applied.Failure? {
          return Failure(applied.error);
        }
      }
      k := Success(boss.value);
    }

    /** The commit phase of challenge: the checks of Battle.Entry, then the writes of Battle.Settle. */
    method Commit(date: int, dealer: Member, behalf: Option<Member>, k: Slot, r: Report) returns (result: Result<Receipt, Error>)
      requires Valid() && Engaged(Open(claims), k, dealer)
      requires r.defeat || (r.damage.Some? && r.damage.value >= 0)
      modifies this
      ensures Valid()
      ensures var o := Battle.Commit(table, old(State()), date, dealer, behalf, k, r);
              && State() == o.state && result == o.result
              && notices == old(notices) + o.notices
      ensures published == old(published) + (if result.Success? then 1 else 0)
    {
      var entry := CheckEntry(date, dealer, behalf, k, r);
      if entry.Failure? {
        return Failure(entry.error);
      }
      result := Settle(entry.value, r.defeat);
    }

    /** The checks of challenge once the dealer is declared on boss `k`, and the row they produce (see Battle.Entry). */
    method CheckEntry(date: int, dealer: Member, behalf: Option<Member>, k: Slot, r: Report) returns (entry: Result<Challenge, Error>)
      requires Shaped(State()) && Engaged(Open(claims), k, dealer)
      requires r.defeat || (r.damage.Some? && r.damage.value >= 0)
      ensures entry == Entry(State(), date, dealer, behalf, k, r)
      ensures entry.Success? ==> entry.value.slot == k
    {
      var cont := r.isContinue || Open(claims)[k][dealer].isContinue;
      var hit := CheckBoss(k, r);
      if hit.Failure? {
        return Failure(hit.error);
      }
      var (health, bossCycle) := hit.value;
      var d := date;
      if r.previousDay {
        if HasEntriesOn(ledger, battleId, date) {
          return Failure(GroupError);
        }
        d := date - 1;
      }
      var refused := CheckQuota(dealer, d, cont);
      Partition(Of(ledger, battleId, dealer, d));
      if refused.Some? {
        return Failure(refused.value);
      }
      var remain: nat := if r.defeat then 0 else health - r.damage.value;
      var damage: nat := if r.defeat then health else r.damage.value;
      entry := Success(Ledger.Challenge.Challenge(dealer, battleId, d, bossCycle, k, remain, damage, cont, behalf));
    }

    /**
     * The boss checks of challenge: the boss must be alive in this cycle or
     * the next, and damage short of a kill must stay below its health. On
     * success, the health and the cycle of the boss that is hit.
     */
    method CheckBoss(k: Slot, r: Report) returns (hit: Result<(nat, int), Error>)
      requires Shaped(State())
      requires r.defeat || (r.damage.Some? && r.damage.value >= 0)
      ensures hit.Failure? <==> (now[k - 1] == 0 && next[k - 1] == 0) || (!r.defeat && r.damage.value >= ActiveHealth(State(), k))
      ensures hit.Failure? ==> hit.error == InputError
      ensures hit.Success? ==> hit.value == (ActiveHealth(State(), k), ActiveCycle(State(), k))
    {
      var bossCycle := cycle;
      var onNext := false;
      if now[k - 1] == 0 && next[k - 1] != 0 {
        bossCycle := cycle + 1;
        onNext := true;
      } else if now[k - 1] == 0 && next[k - 1] == 0 {
        return Failure(InputError);
      }
      var health := if onNext then next[k - 1] else now[k - 1];
      if !r.defeat && r.damage.value >= health {
        return Failure(InputError);
      }
      hit := Success((health, bossCycle));
    }

    /** The attempt checks of challenge for `dealer` on day `d`: three finished attempts, or a compensation attempt with none owed. */
    method CheckQuota(dealer: Member, d: int, cont: bool) returns (refused: Option<Error>)
      ensures var es := Today(State(), dealer, d);
              refused == if Finished(es) >= 3 then Some(InputError)
                         else if cont && Balance(es) == 0 then Some(GroupError)
                         else None
    {
      var challenges := Of(ledger, battleId, dealer, d);
      Partition(challenges);
      var finished := Finished(challenges);
      if finished >= 3 {
        return Some(InputError);
      }
      var allContBlade := Continues(challenges);
      var contBlade := |challenges| - finished - allContBlade;
      if cont && contBlade == 0 {
        return Some(GroupError);
      }
      refused := None;
    }

    /** The writes of challenge once the row `e` is decided. */
    method Settle(e: Challenge, defeat: bool) returns (result: Result<Receipt, Error>)
      requires Valid() && e.slot in Open(claims)
      modifies this
      ensures Valid()
      ensures var o := Battle.Settle(table, old(State()), e, defeat);
              && State() == o.state && result == o.result
              && notices == old(notices) + o.notices
      ensures published == old(published) + 1
    {
      RecordHit(e);
      ghost var logged := State();
      ghost var o := Battle.Settle(table, old(State()), e, defeat);
      if defeat {
        assert o == Kill(table, logged, e);
        result := AfterKill(e);
      } else {
        assert o == Outcome(logged.(claims := Withdraw(claims, e.member)), Success(Receipt(e, false)), []);
        var _ := CancelBlade(OneMember(e.member), false);
        result := Success(Receipt(e, false));
      }
      published := published + 1;
    }

    /** The first writes of challenge: the active pool of the boss drops to the remaining health and the row is appended. */
    method RecordHit(e: Challenge)
      requires Valid()
      modifies this
      ensures Valid()
      ensures State() == Hit(old(State()), e.slot, e.remain).(ledger := old(ledger) + [e])
      ensures published == old(published) && notices == old(notices)
    {
      var k := e.slot;
      if now[k - 1] == 0 {
        next := next[k - 1 := e.remain];
      } else {
        now := now[k - 1 := e.remain];
      }
      ledger := ledger + [e];
    }

    /** The writes after a kill recorded as `e`: the all-clear count, the advance when all five are dead, then the release (see Battle.Kill). */
    method AfterKill(e: Challenge) returns (result: Result<Receipt, Error>)
      requires Valid() && e.slot in Open(claims)
      modifies this
      ensures Valid()
      ensures var o := Kill(table, old(State()), e);
              && State() == o.state && result == o.result
              && notices == old(notices) + o.notices
      ensures published == old(published)
    {
      var k := e.slot;
      var allClear := CountDead(now);
      ghost var logged := State();
      if allClear == 5 {
        AdvanceCycle();
      }
      ghost var moved := if allClear == 5 then Advance(table, logged) else (logged, []);
      assert State() == moved.0 && notices == old(notices) + moved.1;
      result := ReleaseBoss(k, Receipt(e, allClear == 5));
      ConcatAssoc(old(notices), moved.1, Release(table, moved.0, k, Receipt(e, allClear == 5)).notices);
    }

    /** After a kill: the tree announcement, the release of every declaration on the boss, and the reminder when it can be attacked again. */
    method ReleaseBoss(k: Slot, receipt: Receipt) returns (result: Result<Receipt, Error>)
      requires Valid() && k in Open(claims)
      modifies this
      ensures Valid()
      ensures var o := Release(table, old(State()), k, receipt);
              && State() == o.state && result == o.result
              && notices == old(notices) + o.notices
      ensures published == old(published)
    {
      TakeTreeDown(k, false);
      var _ := CancelBlade(OneSlot(k), false);
      if CheckNextBoss(table, State(), k) {
        SubscribeRemind(k);
      }
      result := Success(receipt);
    }

    /** The move to the next cycle after the fifth kill: the next cycle's bosses are carried in, and the stage table refills the next cycle. */
    method AdvanceCycle()
      requires WellFormed(table) && Shaped(State())
      modifies this
      ensures State() == Advance(table, old(State())).0
      ensures notices == old(notices) + Advance(table, old(State())).1
      ensures published == old(published)
    {
      ghost var s := State();
      ghost var drain := DrainUpTo(s.subs, s.next, 5);
      assert Advance(table, s)
          == (s.(cycle := s.cycle + 1, now := s.next, next := FullHealth(table, s.cycle + 2), subs := drain.0), drain.1);
      cycle := cycle + 1;
      var level := LevelByCycle(table.ranges, cycle + 1);
      CarryIn();
      next := table.health[level];
      assert State() == s.(cycle := s.cycle + 1, now := s.next, next := FullHealth(table, s.cycle + 2), subs := drain.0);
    }

    /** The carry loop of the advance: each boss of the next cycle moves into the current one, and a boss carried in dead has its waitlist reminded and dropped. */
    method CarryIn()
      requires |now| == 5 && |next| == 5
      modifies this
      ensures now == old(next) && subs == DrainUpTo(old(subs), old(next), 5).0
      ensures notices == old(notices) + DrainUpTo(old(subs), old(next), 5).1
      ensures cycle == old(cycle) && next == old(next) && claims == old(claims)
      ensures ledger == old(ledger) && battleId == old(battleId) && published == old(published)
    {
      var carried, waiting, drained := CarryLoop(now, next, subs);
      now := carried;
      subs := waiting;
      notices := notices + drained;
    }

    // -------------------------------------------------------------------
    // Undo

    /** undo: removes the newest row of the archive and gives its damage back (see Battle.UndoSpec). */
    method Undo(requester: Member, authority: int) returns (r: Result<(), Error>)
      requires Valid()
      modifies this
      ensures Valid()
      ensures var spec := UndoSpec(table, old(State()), requester, authority);
              && (r.Success? <==> spec.Success?)
              && (spec.Success? ==> State() == spec.value)
              && (spec.Failure? ==> r.error == spec.error && State() == old(State()))
      ensures published == old(published) + (if r.Success? then 1 else 0)
      ensures notices == old(notices)
    {
      var last := LastOf(ledger, battleId);
      if last.None? {
        return Failure(GroupError);
      }
      var e := ledger[last.value];
      if e.member != requester && authority >= 100 {
        return Failure(UserError);
      }
      RestoreHealth(e);
      ledger := RemoveAt(ledger, last.value);
      published := published + 1;
      r := Success(());
    }

    /** The health side of undo: reverses the advance a row caused, or adds its damage back to its pool, capped at full health (see Battle.GiveBack). */
    method RestoreHealth(e: Challenge)
      requires WellFormed(table) && Shaped(State())
      modifies this
      ensures State() == GiveBack(table, old(State()), e)
      ensures published == old(published) && notices == old(notices)
    {
      var k := e.slot;
      var level := LevelByCycle(table.ranges, e.cycle);
      var nowHealth := now;
      var nextHealth := next;
      if e.cycle < cycle {
        var i := 0;
        while i < 5
          invariant 0 <= i <= 5 && |nowHealth| == 5 && |nextHealth| == 5
          invariant forall j :: 0 <= j < i ==> nowHealth[j] == 0 && nextHealth[j] == now[j]
          invariant forall j :: i <= j < 5 ==> nowHealth[j] == now[j] && nextHealth[j] == next[j]
        {
          nextHealth := nextHealth[i := nowHealth[i]];
          nowHealth := nowHealth[i := 0];
          i := i + 1;
        }
        assert nowHealth == Zeros() && nextHealth == now;
        nowHealth := nowHealth[k - 1 := e.damage];
        cycle := e.cycle;
      } else {
        var full := table.health[level][k - 1];
        if e.cycle != cycle {
          nextHealth := nextHealth[k - 1 := nextHealth[k - 1] + e.damage];
          if nextHealth[k - 1] > full {
            nextHealth := nextHealth[k - 1 := full];
          }
        } else {
          nowHealth := nowHealth[k - 1 := nowHealth[k - 1] + e.damage];
          if nowHealth[k - 1] > full {
            nowHealth := nowHealth[k - 1 := full];
          }
        }
      }
      now := nowHealth;
      next := nextHealth;
    }

    // -------------------------------------------------------------------
    // Manual override and reset

    /** modify: sets the cycle and the edited bosses' health in both pools (a cycle of 0 stands for none given). */
    method Modify(newCycle: int, edits: map<Slot, BossEdit>) returns (r: Result<(), Error>)
      requires Valid()
      modifies this
      ensures Valid()
      ensures var spec := ModifySpec(table, old(State()), newCycle, edits);
              && (r.Success? <==> spec.Success?)
              && (spec.Success? ==> State() == spec.value)
              && (spec.Failure? ==> r.error == spec.error && State() == old(State()))
      ensures published == old(published) + (if r.Success? then 1 else 0)
      ensures notices == old(notices)
    {
      if newCycle != 0 && newCycle < 1 {
        return Failure(InputError);
      }
      var level := LevelByCycle(table.ranges, if newCycle != 0 then newCycle + 1 else cycle + 1);
      var nextFull := table.health[level];
      var nowHealth, nextHealth := EditPools(now, next, nextFull, edits);
      EditedPools(table, State(), newCycle, edits, nowHealth, nextHealth);
      now := nowHealth;
      next := nextHealth;
      cycle := newCycle;
      published := published + 1;
      r := Success(());
    }

    /** clear_data_slot: a fresh first cycle, no declarations or subscriptions, and the rows of archive `bid` (default: the current one) deleted. */
    method ClearDataSlot(bid: Option<int>)
      requires Valid()
      modifies this
      ensures Valid()
      ensures State() == Battle.ClearDataSlot(table, old(State()), bid)
      ensures published == old(published) && notices == old(notices)
    {
      var level := LevelByCycle(table.ranges, 1);
      now := table.health[level];
      level := LevelByCycle(table.ranges, 2);
      next := table.health[level];
      cycle := 1;
      claims := None;
      subs := None;
      ledger := WithoutArchive(ledger, bid.GetOr(battleId));
    }
  }

  lemma ConcatAssoc<T>(a: seq<T>, b: seq<T>, c: seq<T>)
    ensures (a + b) + c == a + (b + c)
  {
  }

  /** The loop of modify over the five bosses, on local copies of the pools: an edited boss takes its requested status. */
  method EditPools(now: seq<nat>, next: seq<nat>, nextFull: seq<nat>, edits: map<Slot, BossEdit>)
    returns (nowHealth: seq<nat>, nextHealth: seq<nat>)
    requires |now| == 5 && |next| == 5 && |nextFull| == 5
    ensures |nowHealth| == 5 && |nextHealth| == 5
    ensures forall j :: 0 <= j < 5 ==>
              nowHealth[j] == (if j + 1 in edits then (if edits[j + 1].isNext then 0 else edits[j + 1].health) else now[j])
    ensures forall j :: 0 <= j < 5 ==>
              nextHealth[j] == (if j + 1 in edits then (if edits[j + 1].isNext then edits[j + 1].health else nextFull[j]) else next[j])
  {
    nowHealth, nextHealth := now, next;
    var i := 0;
    while i < 5
      invariant 0 <= i <= 5 && |nowHealth| == 5 && |nextHealth| == 5
      invariant forall j :: 0 <= j < i ==>
                  nowHealth[j] == (if j + 1 in edits then (if edits[j + 1].isNext then 0 else edits[j + 1].health) else now[j])
      invariant forall j :: 0 <= j < i ==>
                  nextHealth[j] == (if j + 1 in edits then (if edits[j + 1].isNext then edits[j + 1].health else nextFull[j]) else next[j])
      invariant forall j :: i <= j < 5 ==> nowHealth[j] == now[j] && nextHealth[j] == next[j]
    {
      if i + 1 in edits {
        var data := edits[i + 1];
        if data.isNext {
          nowHealth := nowHealth[i := 0];
          nextHealth := nextHealth[i := data.health];
        } else {
          nowHealth := nowHealth[i := data.health];
          nextHealth := nextHealth[i := nextFull[i]];
        }
      }
      i := i + 1;
    }
  }

  /** The pools EditPools produces are the ones modify is specified to leave. */
  lemma EditedPools(t: StageTable, s: GroupState, cycle: int, edits: map<Slot, BossEdit>, nowHealth: seq<nat>, nextHealth: seq<nat>)
    requires WellFormed(t) && Shaped(s) && (cycle == 0 || cycle >= 1)
    requires |nowHealth| == 5 && |nextHealth| == 5
    requires forall j :: 0 <= j < 5 ==>
               nowHealth[j] == (if j + 1 in edits then (if edits[j + 1].isNext then 0 else edits[j + 1].health) else s.now[j])
    requires forall j :: 0 <= j < 5 ==>
               nextHealth[j] == (if j + 1 in edits then (if edits[j + 1].isNext then edits[j + 1].health
                                 else FullHealth(t, if cycle != 0 then cycle + 1 else s.cycle + 1)[j]) else s.next[j])
    ensures ModifySpec(t, s, cycle, edits) == Success(s.(cycle := cycle, now := nowHealth, next := nextHealth))
  {
    var spec := ModifySpec(t, s, cycle, edits).value;
    assert forall j :: 0 <= j < 5 ==> nowHealth[j] == spec.now[j] && nextHealth[j] == spec.next[j];
    assert nowHealth == spec.now && nextHealth == spec.next;
  }

  /**
   * The loop of the advance, on local copies: boss by boss, the next cycle's
   * health moves into the current cycle, and a boss carried in dead has its
   * waitlist reminded and dropped.
   */
  method CarryLoop(now: seq<nat>, next: seq<nat>, subs: Subs) returns (nowHealth: seq<nat>, waiting: Subs, ghost drained: seq<Notice>)
    requires |now| == 5 && |next| == 5
    ensures nowHealth == next
    ensures (waiting, drained) == DrainUpTo(subs, next, 5)
  {
    nowHealth := now;
    waiting := subs;
    drained := [];
    var i := 0;
    while i < 5
      invariant 0 <= i <= 5 && |nowHealth| == 5
      invariant forall j :: 0 <= j < i ==> nowHealth[j] == next[j]
      invariant (waiting, drained) == DrainUpTo(subs, next, i)
    {
      ghost var step := if next[i] == 0 then Remind(waiting, i + 1) else (waiting, []);
      ghost var before := drained;
      assert DrainUpTo(subs, next, i + 1) == (step.0, drained + step.1);
      nowHealth := nowHealth[i := next[i]];
      if next[i] == 0 {
        var list: map<Slot, seq<Member>> := Table(waiting);
        if |list| != 0 && i + 1 in list {
          drained := drained + [Drained(i + 1, list[i + 1])];
          waiting := Some(list - {i + 1});
        }
      }
      assert waiting == step.0 && drained == before + step.1;
      i := i + 1;
    }
    assert nowHealth == next;
  }

  /** The all-clear count of challenge: how many of the five current bosses are dead. */
  method CountDead(h: seq<nat>) returns (allClear: nat)
    ensures allClear == CountZeros(h)
  {
    allClear := 0;
    var i := 0;
    while i < |h|
      invariant 0 <= i <= |h|
      invariant allClear == CountZeros(h[..i])
    {
      assert h[..i + 1][..i] == h[..i];
      if h[i] == 0 {
        allClear := allClear + 1;
      }
      i := i + 1;
    }
    assert h[..i] == h;
  }
}
