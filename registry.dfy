/**
 * The engagement registry (challenging_member_list): for each boss slot, the
 * members who have declared an attempt on it, with their scratch state. The
 * whole registry is absent (None) rather than empty once nobody is left.
 */
module Registry {
  import opened Wrappers
  import opened Clan

  /** A declared, not yet reported attempt. */
  datatype Engagement = Engagement(
    isContinue: bool,        // a compensation attempt
    behalf: Option<Member>,  // who declared it on the member's behalf
    seconds: int,            // self-reported seconds left (scratch)
    damage: int,             // self-reported damage so far (scratch)
    tree: bool,              // stuck "on the tree", waiting to be released
    note: Option<string>)    // free-text note left when going on the tree

  type Claims = map<Slot, map<Member, Engagement>>

  /** The registry as the source loads it: an absent registry reads as empty. */
  function Open(reg: Option<Claims>): Claims
  {
    reg.GetOr(map[])
  }

  predicate Engaged(c: Claims, k: Slot, m: Member)
  {
    k in c && m in c[k]
  }

  /** check_blade: whether `m` has declared an attempt on any boss. */
  predicate CheckBlade(reg: Option<Claims>, m: Member)
  {
    exists k: Slot :: Engaged(Open(reg), k, m)
  }

  /** The first slot, from `k` on, on which `m` is engaged. */
  function SlotFrom(c: Claims, m: Member, k: int): (r: Option<Slot>)
    requires 1 <= k <= 6
    ensures r.Some? ==> k <= r.value && Engaged(c, r.value, m)
    ensures r.Some? ==> forall j: Slot :: k <= j < r.value ==> !Engaged(c, j, m)
    ensures r.None? ==> forall j: Slot :: k <= j ==> !Engaged(c, j, m)
    decreases 6 - k
  {
    if k == 6 then None
    else if Engaged(c, k, m) then Some(k)
    else SlotFrom(c, m, k + 1)
  }

  /** get_in_boss_num: the slot `m` is engaged on; present exactly when check_blade holds. */
  function GetInBossNum(reg: Option<Claims>, m: Member): (r: Option<Slot>)
    ensures r.Some? <==> CheckBlade(reg, m)
    ensures r.Some? ==> Engaged(Open(reg), r.value, m)
  {
    SlotFrom(Open(reg), m, 1)
  }

  /** Nobody is engaged on two bosses at once. */
  ghost predicate Exclusive(reg: Option<Claims>)
  {
    forall k1: Slot, k2: Slot, m: Member :: Engaged(Open(reg), k1, m) && Engaged(Open(reg), k2, m) ==> k1 == k2
  }

  /** No slot is kept with nobody on it. */
  predicate Tidy(reg: Option<Claims>)
  {
    forall k: Slot :: k in Open(reg) ==> |Open(reg)[k]| > 0
  }

  /** Record `e` for `m` on boss `k`, creating the slot's entry when needed. */
  function Insert(c: Claims, k: Slot, m: Member, e: Engagement): Claims
  {
    c[k := (if k in c then c[k] else map[])[m := e]]
  }

  /** Replace `m`'s engagement on boss `k` by `e`. */
  function Replace(c: Claims, k: Slot, m: Member, e: Engagement): Claims
    requires k in c
  {
    var inner: map<Member, Engagement> := c[k][m := e];
    c[k := inner]
  }

  /** Remove `m`'s engagement, dropping an emptied slot and an emptied registry; unchanged when `m` is not engaged. */
  function Withdraw(reg: Option<Claims>, m: Member): Option<Claims>
  {
    var k := GetInBossNum(reg, m);
    if k.None? then reg
    else
      var c := Open(reg);
      var rest := c[k.value] - {m};
      var c' := if |rest| == 0 then c - {k.value} else c[k.value := rest];
      if |c'| == 0 then None else Some(c')
  }

  /** Remove everybody engaged on boss `k` (unchanged when nobody is). */
  function ReleaseSlot(reg: Option<Claims>, k: Slot): Option<Claims>
  {
    if reg.Some? && k in reg.value then Some(reg.value - {k}) else reg
  }

  /** The three scopes of cancel_blade. */
  datatype CancelScope = Everyone | OneMember(member: Member) | OneSlot(slot: Slot)

  /** cancel_blade: the registry afterwards. */
  function Cancel(reg: Option<Claims>, scope: CancelScope): Result<Option<Claims>, Error>
  {
    if reg.None? then Failure(GroupError)
    else
      match scope
      case Everyone => Success(None)
      case OneMember(m) => if !CheckBlade(reg, m) then Failure(GroupError) else Success(Withdraw(reg, m))
      case OneSlot(k) => Success(ReleaseSlot(reg, k))
  }

  /** put_on_the_tree: marks `m`'s engagement as stuck, with a note. */
  function PutOnTheTree(reg: Option<Claims>, m: Member, note: Option<string>): Result<Option<Claims>, Error>
  {
    var k := GetInBossNum(reg, m);
    if k.None? then Failure(GroupError)
    else
      var c := Open(reg);
      var e := c[k.value][m];
      if e.tree then Failure(GroupError)
      else Success(Some(Replace(c, k.value, m, e.(tree := true, note := note))))
  }

  /** take_it_of_the_tree for one member: clears the flag and the note. */
  function TakeOffTheTree(reg: Option<Claims>, m: Member): Result<Option<Claims>, Error>
  {
    var k := GetInBossNum(reg, m);
    if k.None? then Failure(GroupError)
    else
      var c := Open(reg);
      var e := c[k.value][m];
      Success(Some(Replace(c, k.value, m, e.(tree := false, note := None))))
  }

  /** take_it_of_the_tree for a whole boss: the announcement to everybody stuck on it (no change of state). */
  function TreeDownNotice(reg: Option<Claims>, k: Slot): seq<Notice>
  {
    var c := Open(reg);
    if k !in c then []
    else
      var stuck := set m | m in c[k] && c[k][m].tree;
      if |stuck| > 0 then [TreeDown(k, stuck)] else []
  }

  /** The three clean types of report_hurt: 0 records, 1 clears, 2 only writes the registry back. */
  datatype HurtReport = Record(seconds: int, damage: int) | Clear | Rewrite
  datatype HurtReply = Recorded | NothingToClear | Cleared | Silent

  /** report_hurt: records or clears the scratch seconds and damage of `m`'s engagement, or only writes the registry back. */
  function ReportHurt(reg: Option<Claims>, m: Member, h: HurtReport): Result<(Option<Claims>, HurtReply), Error>
  {
    if h.Rewrite? then Success((Some(Open(reg)), Silent))
    else
      var k := GetInBossNum(reg, m);
      if k.None? then Failure(GroupError)
      else
        var c := Open(reg);
        var e := c[k.value][m];
        if h.Record? then Success((Some(Replace(c, k.value, m, e.(seconds := h.seconds, damage := h.damage))), Recorded))
        else if e.damage == 0 then Success((Some(c), NothingToClear))
        else Success((Some(Replace(c, k.value, m, e.(seconds := 0, damage := 0))), Cleared))
  }

  // ---------------------------------------------------------------------
  // Properties

  /** On an exclusive registry, get_in_boss_num names the only slot the member is on. */
  lemma GetInBossNumUnique(reg: Option<Claims>, m: Member, k: Slot)
    requires Exclusive(reg) && Engaged(Open(reg), k, m)
    ensures GetInBossNum(reg, m) == Some(k)
  {
  }

  /** Withdrawing removes exactly the member's engagement on the slot get_in_boss_num names; all others are kept as they were. */
  lemma WithdrawEffect(reg: Option<Claims>, m: Member, j: Slot, n: Member)
    requires CheckBlade(reg, m)
    ensures var k := GetInBossNum(reg, m).value;
            var r := Open(Withdraw(reg, m));
            && (Engaged(r, j, n) <==> Engaged(Open(reg), j, n) && (j != k || n != m))
            && (Engaged(r, j, n) ==> r[j][n] == Open(reg)[j][n])
  {
    var k := GetInBossNum(reg, m).value;
    var c := Open(reg);
    var rest := c[k] - {m};
    var c' := if |rest| == 0 then c - {k} else c[k := rest];
    if Engaged(c, j, n) && (j != k || n != m) {
      if j == k {
        assert n in rest;
        assert k in c';
      } else {
        assert j in c';
      }
      assert |c'| != 0;
    }
  }

  /** After withdrawing from a tidy registry no slot is left empty. */
  lemma WithdrawTidy(reg: Option<Claims>, m: Member)
    requires Tidy(reg) && CheckBlade(reg, m)
    ensures Tidy(Withdraw(reg, m))
  {
  }

  /**
   * Cancelling one member removes that member and nobody else: every other
   * engagement survives unchanged, and no slot is left empty.
   */
  lemma CancelMemberOnly(reg: Option<Claims>, m: Member)
    requires Exclusive(reg) && Tidy(reg) && CheckBlade(reg, m)
    ensures Cancel(reg, OneMember(m)) == Success(Withdraw(reg, m))
    ensures !CheckBlade(Withdraw(reg, m), m)
    ensures Tidy(Withdraw(reg, m))
    ensures forall j: Slot, n: Member :: n != m ==>
              (Engaged(Open(Withdraw(reg, m)), j, n) <==> Engaged(Open(reg), j, n))
    ensures forall j: Slot, n: Member :: Engaged(Open(Withdraw(reg, m)), j, n) ==>
              Open(Withdraw(reg, m))[j][n] == Open(reg)[j][n]
  {
    var k := GetInBossNum(reg, m).value;
    var c := Open(reg);
    var r := Withdraw(reg, m);
    forall j: Slot, n: Member
      ensures (Engaged(Open(r), j, n) <==> Engaged(c, j, n) && (j != k || n != m))
      ensures Engaged(Open(r), j, n) ==> Open(r)[j][n] == c[j][n]
    {
      WithdrawEffect(reg, m, j, n);
    }
    WithdrawTidy(reg, m);
  }

  /** Cancelling one member leaves the registry absent exactly when nobody else was engaged. */
  lemma CancelMemberEmpties(reg: Option<Claims>, m: Member)
    requires Exclusive(reg) && Tidy(reg) && CheckBlade(reg, m)
    ensures Withdraw(reg, m).None? <==> forall j: Slot, n: Member :: Engaged(Open(reg), j, n) ==> n == m
  {
    var k := GetInBossNum(reg, m).value;
    var c := Open(reg);
    var r := Withdraw(reg, m);
    if forall j: Slot, n: Member :: Engaged(c, j, n) ==> n == m {
      if r.Some? {
        var j :| j in r.value;
        var n :| n in r.value[j];
        WithdrawEffect(reg, m, j, n);
      }
    } else {
      var j: Slot, n: Member :| Engaged(c, j, n) && n != m;
      WithdrawEffect(reg, m, j, n);
    }
  }

  /** Cancelling keeps everybody on at most one boss. */
  lemma CancelMemberKeepsExclusive(reg: Option<Claims>, m: Member)
    requires Exclusive(reg) && CheckBlade(reg, m)
    ensures Exclusive(Withdraw(reg, m))
  {
    forall j1: Slot, j2: Slot, n: Member | Engaged(Open(Withdraw(reg, m)), j1, n) && Engaged(Open(Withdraw(reg, m)), j2, n)
      ensures j1 == j2
    {
      WithdrawEffect(reg, m, j1, n);
      WithdrawEffect(reg, m, j2, n);
    }
  }

  /** Declaring a member who holds no other declaration keeps everybody on at most one boss. */
  lemma InsertKeepsExclusive(reg: Option<Claims>, k: Slot, m: Member, e: Engagement)
    requires Exclusive(reg) && Tidy(reg) && !CheckBlade(reg, m)
    ensures var r := Some(Insert(Open(reg), k, m, e));
            Exclusive(r) && Tidy(r) && Engaged(Open(r), k, m) && GetInBossNum(r, m) == Some(k)
  {
    var c := Open(reg);
    var c' := Insert(c, k, m, e);
    forall j: Slot, n: Member | Engaged(c', j, n)
      ensures (n == m && j == k) || (n != m && Engaged(c, j, n))
    {
      if j != k {
        assert Engaged(c, j, n);
      } else if n != m {
        assert Engaged(c, j, n);
      }
    }
    assert Engaged(c', k, m);
  }

  /** Going on the tree and coming down again restores an engagement that had no note. */
  lemma TreeRoundTrip(reg: Option<Claims>, m: Member, note: Option<string>)
    requires CheckBlade(reg, m)
    requires var k := GetInBossNum(reg, m).value; !Open(reg)[k][m].tree && Open(reg)[k][m].note.None?
    ensures PutOnTheTree(reg, m, note).Success?
    ensures var up := PutOnTheTree(reg, m, note).value;
            && Open(up)[GetInBossNum(reg, m).value][m].tree
            && PutOnTheTree(up, m, note) == Failure(GroupError)
            && TakeOffTheTree(up, m) == Success(Some(Open(reg)))
  {
    var k := GetInBossNum(reg, m).value;
    var c := Open(reg);
    var up := PutOnTheTree(reg, m, note).value;
    assert Engaged(Open(up), k, m);
    assert forall j: Slot :: j < k ==> !Engaged(Open(up), j, m);
    assert GetInBossNum(up, m) == Some(k);
    assert Open(up)[k][m := c[k][m]] == c[k];
    assert Open(up)[k := c[k]] == c;
  }

  /** Recording scratch damage and then clearing it leaves the engagement's scratch fields at zero. */
  lemma ReportThenClear(reg: Option<Claims>, m: Member, s: int, d: int)
    requires CheckBlade(reg, m) && d != 0
    ensures var r1 := ReportHurt(reg, m, Record(s, d));
            && r1.Success? && r1.value.1 == Recorded
            && var r2 := ReportHurt(r1.value.0, m, Clear);
               && r2.Success? && r2.value.1 == Cleared
               && Open(r2.value.0)[GetInBossNum(reg, m).value][m] == Open(reg)[GetInBossNum(reg, m).value][m].(seconds := 0, damage := 0)
  {
    var k := GetInBossNum(reg, m).value;
    var r1 := ReportHurt(reg, m, Record(s, d)).value.0;
    assert Engaged(Open(r1), k, m);
    assert forall j: Slot :: j < k ==> !Engaged(Open(r1), j, m);
    assert GetInBossNum(r1, m) == Some(k);
  }

  /**
   * Clean type 2 needs no declaration and keeps every declaration, but an
   * absent registry is written back as an empty one, after which cancelling
   * everyone no longer raises.
   */
  lemma RewriteOpensRegistry(reg: Option<Claims>, m: Member)
    ensures ReportHurt(reg, m, Rewrite) == Success((Some(Open(reg)), Silent))
    ensures forall j: Slot, n: Member :: Engaged(Open(ReportHurt(reg, m, Rewrite).value.0), j, n) <==> Engaged(Open(reg), j, n)
    ensures reg.None? ==> Cancel(reg, Everyone) == Failure(GroupError)
    ensures Cancel(ReportHurt(reg, m, Rewrite).value.0, Everyone) == Success(None)
  {
  }

  /** Releasing a boss (cancel_blade for one boss) removes exactly the declarations on it. */
  lemma ReleaseSlotEffect(reg: Option<Claims>, k: Slot)
    requires Exclusive(reg) && Tidy(reg)
    ensures Exclusive(ReleaseSlot(reg, k)) && Tidy(ReleaseSlot(reg, k))
    ensures forall j: Slot, n: Member :: Engaged(Open(ReleaseSlot(reg, k)), j, n) <==> Engaged(Open(reg), j, n) && j != k
  {
    if reg.Some? && k in reg.value {
      var c: Claims := reg.value;
      var after: Claims := c - {k};
      assert Open(reg) == c;
      assert Open(ReleaseSlot(reg, k)) == after;
      forall j: Slot, n: Member
        ensures Engaged(after, j, n) <==> Engaged(c, j, n) && j != k
      {
        if j != k && j in c {
          assert j in after && after[j] == c[j];
        }
      }
      forall j: Slot | j in after
        ensures |after[j]| > 0
      {
        assert j in c && after[j] == c[j];
        assert |c[j]| > 0;
      }
      forall k1: Slot, k2: Slot, m: Member | Engaged(after, k1, m) && Engaged(after, k2, m)
        ensures k1 == k2
      {
        assert Engaged(c, k1, m) && Engaged(c, k2, m);
      }
    } else {
      assert ReleaseSlot(reg, k) == reg;
      forall j: Slot, n: Member
        ensures Engaged(Open(reg), j, n) ==> j != k
      {
      }
    }
  }

  /** Rewriting an engagement in place keeps who is engaged where, so it keeps the registry exclusive and tidy. */
  lemma ReplaceKeepsEngaged(reg: Option<Claims>, k: Slot, m: Member, e: Engagement)
    requires Engaged(Open(reg), k, m)
    ensures forall j: Slot, n: Member :: Engaged(Replace(Open(reg), k, m, e), j, n) <==> Engaged(Open(reg), j, n)
    ensures Exclusive(reg) ==> Exclusive(Some(Replace(Open(reg), k, m, e)))
    ensures Tidy(reg) ==> Tidy(Some(Replace(Open(reg), k, m, e)))
  {
  }
}
