# Clan-battle boss tracker

This project models the boss tracker of the yobot clan-battle plugin (`realize.py`).
The tracker keeps one board per QQ group:

- the current boss cycle;
- the remaining health of the five bosses in the current cycle (`now`) and in the next one (`next`);
- the registry of members who have declared an attempt on a boss (`challenging_member_list`): whether it is a compensation attempt, who declared it for them, scratch seconds and damage, and whether they are "on the tree";
- the per-boss subscriber waitlists (`subscribe_list`);
- the append-only ledger of challenge rows (`Clan_challenge`), grouped by archive (`battle_id`);
- each member's once-per-day "save slot" flag (`last_save_slot`).

The model comes in two layers:

- Modules `Stage`, `Ledger`, `Registry`, `Subscriptions` and `Battle` state every operation as a function from the board before to the board after, with the answer and the chat announcements it makes.
- Class `Records.Group` holds the same fields as the group record. Its methods update them in place, and each method is proved to leave exactly the state, answer and announcements that the functional model prescribes.
- Module `BattleProps` proves the properties of the functional model. Because of the step above, they hold of the methods too.
- `SaveSlots.Membership` is the member record with its save-slot flag.

Module map:

| module | models |
|---|---|
| `Clan` | members (positive QQ numbers), boss slots 1..5, the three business errors, chat notices |
| `Stage` | `_level_by_cycle` and the per-level full-health table |
| `Ledger` | challenge rows, the daily quota and compensation counts, the newest row, archive removal, outstanding compensation |
| `Registry` | `check_blade`, `get_in_boss_num`, `cancel_blade`, `put_on_the_tree`, `take_it_of_the_tree`, `report_hurt` |
| `Subscriptions` | `subscribe`, `subscribe_cancel`, `subscribe_remind` |
| `Battle` | `check_next_boss`, `apply_for_challenge`, `challenge`, `undo`, `modify`, `clear_data_slot`, `create_group` |
| `BattleProps` | the properties of the above |
| `Records` | the group record and its in-place operations |
| `SaveSlots` | `save_slot` |

Conventions of the model:

- A "date" is the integer day that `pcr_datetime` would give. It is a parameter.
- Publications to the web panel (`_boss_status`) are counted in the ghost field `published`.
- Chat messages the tracker fires and forgets are appended to the ghost log `notices`.

## Model

| member | source | states |
|---|---|---|
| Stage.Level | src/client/ybplugins/clan_battle/components/realize.py:40-45 | the level is the index of the first range that covers the cycle; no earlier range covers it; it is the number of ranges when none does |
| Stage.LevelByCycle | src/client/ybplugins/clan_battle/components/realize.py:40-45 | the counting loop returns `Level`; the result is below the number of ranges exactly when some range covers the cycle |
| Stage.FullHealth | src/client/ybplugins/clan_battle/components/realize.py:168-175 | five full-health values, one per boss |
| Stage.FullHealthRow | src/client/ybplugins/clan_battle/components/realize.py:40-45 | the full health of a cycle is the table row of the first range that covers it, or the last row when no range does |
| Ledger.Partition | src/client/ybplugins/clan_battle/components/realize.py:577-584 | every row is either finished or a tail; the remaining-compensation count `len - finished - continues` equals kills without continue minus continue rows |
| Ledger.CountsSnoc | src/client/ybplugins/clan_battle/components/realize.py:577-586 | appending a row adds one finished attempt exactly when it is finished, and moves the compensation balance by +1 for a tail and -1 for a continue |
| Ledger.AppendKeepsQuota | src/client/ybplugins/clan_battle/components/realize.py:577-580 | appending a row for a member with fewer than 3 finished attempts that day keeps every member-day at most 3 finished |
| Ledger.AppendKeepsSolvent | src/client/ybplugins/clan_battle/components/realize.py:582-586 | appending a continue row only while compensation is owed keeps every member-day's balance non-negative at every prefix |
| Ledger.LastOf | src/client/ybplugins/clan_battle/components/realize.py:57-68 | the newest row of the archive: a row of that archive with no later one; absent exactly when the archive has no rows |
| Ledger.OfAfterUndo | src/client/ybplugins/clan_battle/components/realize.py:668-693 | removing the archive's newest row drops exactly the last row of its own member-day and leaves every other member-day unchanged |
| Ledger.RemoveNewestKeepsInvariants | src/client/ybplugins/clan_battle/components/realize.py:693 | removing the newest row keeps the daily quota and the compensation balance invariants |
| Ledger.WithoutArchiveDay | src/client/ybplugins/clan_battle/components/realize.py:357 | deleting an archive empties every one of its days and leaves the other archives' days unchanged |
| Ledger.OwedIsBalance | src/client/ybplugins/clan_battle/components/realize.py:1163-1173 | a member is in the outstanding-compensation map exactly when their balance is positive, and then with that balance |
| Ledger.OutstandingCompensation | src/client/ybplugins/clan_battle/components/realize.py:1163-1173 | the counting loop over the day's rows computes `Owed`; hence each member owed compensation appears with their balance, and nobody else does |
| Registry.SlotFrom | src/client/ybplugins/clan_battle/components/realize.py:1022-1025 | the first slot from `k` on where the member is declared, or none when there is none |
| Registry.GetInBossNum | src/client/ybplugins/clan_battle/components/realize.py:1013-1025 | present exactly when `check_blade` holds (the code's answer, not its doc comment), and then a slot the member is declared on |
| Registry.GetInBossNumUnique | src/client/ybplugins/clan_battle/components/realize.py:997-1025 | on an exclusive registry the lookup returns the one slot the member is declared on |
| Registry.CheckBlade | src/client/ybplugins/clan_battle/components/realize.py:997-1010 | whether the member holds a declaration; `Registry.GetInBossNum` finds a slot exactly when it holds |
| Registry.Cancel | src/client/ybplugins/clan_battle/components/realize.py:959-994 | cancel_blade: an absent registry is a GroupError; everyone empties it; a member scope withdraws that member or is a GroupError; a boss scope releases that boss (`Registry.CancelMemberOnly`, `Registry.CancelMemberEmpties`, `Registry.CancelMemberKeepsExclusive`, `Registry.ReleaseSlotEffect`) |
| Registry.PutOnTheTree | src/client/ybplugins/clan_battle/components/realize.py:801-830 | marks the member's declaration as on the tree with the note; undeclared or already on the tree is a GroupError (`Registry.TreeRoundTrip`, `Registry.ReplaceKeepsEngaged`) |
| Registry.TakeOffTheTree | src/client/ybplugins/clan_battle/components/realize.py:852-860 | clears the member's tree flag and note; undeclared is a GroupError (`Registry.TreeRoundTrip`) |
| Registry.TreeDownNotice | src/client/ybplugins/clan_battle/components/realize.py:861-869 | the announcement naming every member on the tree on the boss, none when nobody is |
| Registry.ReportHurt | src/client/ybplugins/clan_battle/components/realize.py:1064-1099 | clean type 0 records seconds and damage, type 1 clears them, undeclared is a GroupError, type 2 writes the registry back (`Registry.ReportThenClear`, `Registry.RewriteOpensRegistry`) |
| Registry.WithdrawEffect | src/client/ybplugins/clan_battle/components/realize.py:976-982 | withdrawing a member removes exactly their declaration; every other one keeps its engagement unchanged |
| Registry.WithdrawTidy | src/client/ybplugins/clan_battle/components/realize.py:980-982 | after a withdrawal no boss is left with nobody declared on it |
| Registry.CancelMemberOnly | src/client/ybplugins/clan_battle/components/realize.py:975-983 | cancel by member succeeds and removes only that member; afterwards they hold no declaration; everyone else is unchanged |
| Registry.CancelMemberEmpties | src/client/ybplugins/clan_battle/components/realize.py:980-982 | the registry becomes None exactly when the cancelled member was the only one declared |
| Registry.CancelMemberKeepsExclusive | src/client/ybplugins/clan_battle/components/realize.py:975-983 | cancel by member keeps each member on at most one boss |
| Registry.InsertKeepsExclusive | src/client/ybplugins/clan_battle/components/realize.py:937-947 | declaring an undeclared member keeps the registry exclusive and tidy, and the lookup then finds them on that boss |
| Registry.ReleaseSlotEffect | src/client/ybplugins/clan_battle/components/realize.py:984-988 | releasing a boss removes exactly the declarations on it and keeps the registry exclusive and tidy |
| Registry.ReplaceKeepsEngaged | src/client/ybplugins/clan_battle/components/realize.py:821-826 | rewriting one engagement in place changes nobody's declaration and keeps exclusivity and tidiness |
| Registry.TreeRoundTrip | src/client/ybplugins/clan_battle/components/realize.py:801-860 | going on the tree sets the flag; doing it twice is a GroupError; coming down restores the registry as it was |
| Registry.ReportThenClear | src/client/ybplugins/clan_battle/components/realize.py:1064-1099 | recording non-zero scratch damage, then clearing it, leaves the engagement with seconds and damage 0 and answers Recorded and then Cleared |
| Registry.RewriteOpensRegistry | src/client/ybplugins/clan_battle/components/realize.py:1077-1097 | clean type 2 keeps every declaration but turns an absent registry into an empty one, after which cancelling everyone no longer raises the GroupError of line 971 |
| Subscriptions.Listing | src/client/ybplugins/clan_battle/components/realize.py:715-729 | the listing is refused exactly while the waitlists are unset: a new group, or after `clear_data_slot`; otherwise five waitlists, each holding exactly that boss's subscribers |
| Subscriptions.RemoveFirst | src/client/ybplugins/clan_battle/components/realize.py:774 | `list.remove` shortens the list by one and adds nobody |
| Subscriptions.RemoveFirstNoDup | src/client/ybplugins/clan_battle/components/realize.py:772-774 | on a list without duplicates `remove` drops that member and keeps every other one |
| Subscriptions.Subscribe | src/client/ybplugins/clan_battle/components/realize.py:730-741 | appends the member to the boss's waitlist; already waiting is a GroupError (`Subscriptions.SubscribeTwiceRefused`, `Subscriptions.SubscribeWellKept`, `Subscriptions.SubscribeThenCancel`) |
| Subscriptions.SubscribeCancel | src/client/ybplugins/clan_battle/components/realize.py:756-779 | removes the member, or the whole boss entry, from the waitlists; an absent boss or member is a GroupError (`Subscriptions.CancelOneMember`, `Subscriptions.CancelWholeSlot`) |
| Subscriptions.Remind | src/client/ybplugins/clan_battle/components/realize.py:744-753 | announces the boss's waitlist and deletes it (`Subscriptions.RemindDrains`) |
| Subscriptions.SubscribeTwiceRefused | src/client/ybplugins/clan_battle/components/realize.py:733-735 | subscribing to the same boss twice raises GroupError |
| Subscriptions.SubscribeWellKept | src/client/ybplugins/clan_battle/components/realize.py:733-738 | subscribing keeps every waitlist non-empty and duplicate-free, and puts the member on the boss's list |
| Subscriptions.SubscribeThenCancel | src/client/ybplugins/clan_battle/components/realize.py:733-776 | cancelling one's own fresh subscription succeeds and restores the table as it was |
| Subscriptions.CancelOneMember | src/client/ybplugins/clan_battle/components/realize.py:771-776 | cancelling with a member removes only that member, leaves other bosses alone, and drops the boss exactly when the member was its only subscriber |
| Subscriptions.CancelWholeSlot | src/client/ybplugins/clan_battle/components/realize.py:767-773 | an absent boss or absent member raises GroupError; without a member the whole boss entry is deleted |
| Subscriptions.RemindDrains | src/client/ybplugins/clan_battle/components/realize.py:744-753 | the reminder notifies the boss's waitlist and deletes it, leaving other bosses alone; no waitlist means nothing is said and nothing changes |
| Battle.ActiveHealth | src/client/ybplugins/clan_battle/components/realize.py:545-551 | the health a report hits is 0 exactly when both pools of the boss are 0, the case line 550 refuses |
| Battle.ActiveHealthPool | src/client/ybplugins/clan_battle/components/realize.py:541-549 | the health a report hits is the boss's entry in the pool of the cycle it is recorded against: `now` for the group's cycle, `next` for the one after, which is used only once the current boss is dead |
| Battle.ActiveCycle | src/client/ybplugins/clan_battle/components/realize.py:541-548 | a report is recorded against the group's cycle or the one after, never further ahead |
| Battle.CheckNextBoss | src/client/ybplugins/clan_battle/components/realize.py:876-885 | a boss may be declared on unless both its pools are 0 or the group's cycle and the next are at different levels; used by `BattleProps.ApplyRules` |
| Battle.BossStatus | src/client/ybplugins/clan_battle/components/realize.py:137-147 | a boss is shown as the next cycle's exactly when its current one is dead, and shown with 0 health when `check_next_boss` fails |
| Battle.CountZeros | src/client/ybplugins/clan_battle/components/realize.py:612-615 | the count is five exactly when every boss is dead, and zero exactly when none is |
| Battle.ApplyAs | src/client/ybplugins/clan_battle/components/realize.py:906-947 | the declaration made for `challenger` and its refusals (`BattleProps.ApplyRules`) |
| Battle.ApplyForChallenge | src/client/ybplugins/clan_battle/components/realize.py:888-956 | apply_for_challenge, with the behalf resolved (`BattleProps.ApplyRules`, `BattleProps.ApplyOnBehalf`) |
| Battle.Resolve | src/client/ybplugins/clan_battle/components/realize.py:515-520 | the dealer is the behalfed member, else the reporter; a reporter is recorded only when reporting for someone else |
| Battle.Claim | src/client/ybplugins/clan_battle/components/realize.py:522-535 | a named boss is the one used; with none named, the declared one is used and the registry is untouched; with none named and no declaration, GroupError |
| Battle.ClaimEngages | src/client/ybplugins/clan_battle/components/realize.py:522-535 | the claim phase keeps the registry exclusive and tidy and, on success, leaves the dealer declared on the returned boss |
| Battle.DrainUpToEffect | src/client/ybplugins/clan_battle/components/realize.py:618-620 | carrying in the bosses drops the waitlist of every boss carried in dead and keeps every other waitlist as it was |
| Battle.Advance | src/client/ybplugins/clan_battle/components/realize.py:615-622 | the cycle advance: the next cycle's full health, `now` takes `next`, the carried-in dead bosses' waitlists drained (`BattleProps.SettleAdvance`, `BattleProps.AdvancedBoardConsistent`, `BattleProps.DrainUpToNotifies`) |
| Battle.ChallengeSpec | src/client/ybplugins/clan_battle/components/realize.py:488-654 | the whole report: claim, checks, writes and announcements (`BattleProps.ChallengeSteps`, `BattleProps.ChallengeRecordsEntry`, `BattleProps.ChallengeAdvance`, `BattleProps.ChallengeKeepsConsistent`, `BattleProps.ChallengeKeepsLedger`, `BattleProps.ChallengeKeepsExclusive`) |
| Battle.UndoSpec | src/client/ybplugins/clan_battle/components/realize.py:657-702 | undo of the archive's newest row (`BattleProps.UndoRules`, `BattleProps.UndoNewest`, `BattleProps.UndoInvertsChallenge`) |
| Battle.GiveBack | src/client/ybplugins/clan_battle/components/realize.py:677-691 | the health given back by undo (`BattleProps.GiveBackHit`, `BattleProps.UndoInvertsAdvance`) |
| Battle.ModifySpec | src/client/ybplugins/clan_battle/components/realize.py:249-286 | the manual override of cycle and health (`BattleProps.ModifyShowsRequestedHealth`) |
| Battle.ClearDataSlot | src/client/ybplugins/clan_battle/components/realize.py:325-357 | the reset of the board and deletion of the archive's rows (`BattleProps.ClearDataSlotFresh`) |
| Battle.Initial | src/client/ybplugins/clan_battle/components/realize.py:166-182 | the board of a new group (`BattleProps.InitialConsistent`) |
| Battle.CreateGroup | src/client/ybplugins/clan_battle/components/realize.py:159-187 | create_group: a new record, the revival of a deleted one, or a GroupError for an active one (`BattleProps.CreateGroupRules`) |
| BattleProps.CommitRefused | src/client/ybplugins/clan_battle/components/realize.py:545-586 | a refused report changes nothing and says nothing; both pools at 0 is an InputError; three finished attempts that day refuse the report |
| BattleProps.EntryFacts | src/client/ybplugins/clan_battle/components/realize.py:545-609 | an accepted row took its damage from the active pool, below its health unless a kill; its remain and damage are as written; the quota and balance checks passed |
| BattleProps.ChallengeRecordsEntry | src/client/ybplugins/clan_battle/components/realize.py:515-609 | a successful report appends exactly one row, for the dealer, with the reporter as behalf, the current archive, the filing date, the named or declared boss, and continue kept |
| BattleProps.ChallengeRecordsDamage | src/client/ybplugins/clan_battle/components/realize.py:545-595 | the recorded cycle is the active one; a kill records the remaining health as damage and 0 remain; otherwise the damage is below the health and remain = health - damage |
| BattleProps.ChallengeQuotaRefused | src/client/ybplugins/clan_battle/components/realize.py:577-580 | a dealer with three finished attempts on the filing day is refused |
| BattleProps.ChallengeNeedsLiveBoss | src/client/ybplugins/clan_battle/components/realize.py:550-551 | with both pools of the boss at 0, a report on the declared boss is an InputError with nothing changed; naming that boss withdraws the old declaration and fails to declare anew |
| BattleProps.ChallengeSteps | src/client/ybplugins/clan_battle/components/realize.py:510-609 | a report missing or with negative damage (not a kill) is an InputError; a refusal changes only the registry; a success is the claim, then the checks, then the writes |
| BattleProps.SettleBoard | src/client/ybplugins/clan_battle/components/realize.py:588-623 | the writes append the row, keep the archive, advance exactly when a kill leaves all five current bosses dead, and otherwise only hit the active pool |
| BattleProps.SettleAdvance | src/client/ybplugins/clan_battle/components/realize.py:611-622 | on an advance the cycle grows by 1, `now` takes the old `next`, `next` is the full health of the cycle after, and no boss carried in dead keeps a waitlist |
| BattleProps.SettleClaims | src/client/ybplugins/clan_battle/components/realize.py:631-638 | after a kill every declaration on the boss is released; after any other hit only the dealer's |
| BattleProps.SettleCycle | src/client/ybplugins/clan_battle/components/realize.py:611-623 | the cycle advances exactly when a kill finishes the last live current boss; the board afterwards, both with and without an advance |
| BattleProps.HitAllDead | src/client/ybplugins/clan_battle/components/realize.py:611-615 | a kill leaves all five dead exactly when every other current boss was already dead |
| BattleProps.ChallengeAdvance | src/client/ybplugins/clan_battle/components/realize.py:545-622 | the whole report advances the cycle exactly when it kills the last live current boss; the board afterwards in both cases |
| BattleProps.SettleKeepsConsistent | src/client/ybplugins/clan_battle/components/realize.py:588-622 | the writes keep the board consistent: no pool above full health, live current bosses still waiting next, never all five current bosses dead |
| BattleProps.AdvancedBoardConsistent | src/client/ybplugins/clan_battle/components/realize.py:615-622 | the advanced board is consistent when the killed boss was alive |
| BattleProps.HitBoardConsistent | src/client/ybplugins/clan_battle/components/realize.py:588-595 | a hit that does not advance keeps the board consistent |
| BattleProps.ChallengeKeepsConsistent | src/client/ybplugins/clan_battle/components/realize.py:488-654 | every report, accepted or refused, keeps the board consistent |
| BattleProps.ChallengeKeepsLedger | src/client/ybplugins/clan_battle/components/realize.py:569-609 | every report keeps the ledger within the daily quota and never overdrawn in compensation |
| BattleProps.ChallengeKeepsExclusive | src/client/ybplugins/clan_battle/components/realize.py:522-638 | every report, accepted or refused, keeps each member declared on at most one boss and the registry tidy |
| BattleProps.UndoRules | src/client/ybplugins/clan_battle/components/realize.py:668-693 | no row is a GroupError; someone else's row without authority below 100 is a UserError; success removes exactly the newest row and keeps the registry and waitlists |
| BattleProps.UndoNewest | src/client/ybplugins/clan_battle/components/realize.py:668-691 | undoing a newest row gives its damage back; when it was the advancing kill, the cycle is restored, `next` takes `now`, and `now` is all dead except the boss, which gets the damage |
| BattleProps.UndoKeepsLedger | src/client/ybplugins/clan_battle/components/realize.py:693 | undo keeps the quota and compensation invariants |
| BattleProps.GiveBackHit | src/client/ybplugins/clan_battle/components/realize.py:687-691 | adding a hit's damage back, clamped to full health, restores the pools as they were before the hit |
| BattleProps.UndoInvertsAdvance | src/client/ybplugins/clan_battle/components/realize.py:681-686 | undoing the advancing kill restores cycle, `now`, `next` and the ledger |
| BattleProps.UndoInvertsHit | src/client/ybplugins/clan_battle/components/realize.py:687-693 | undoing a non-advancing report restores cycle, `now`, `next` and the ledger |
| BattleProps.UndoInvertsSettle | src/client/ybplugins/clan_battle/components/realize.py:657-702 | undo inverts the writes of every valid report on the board |
| BattleProps.UndoInvertsChallenge | src/client/ybplugins/clan_battle/components/realize.py:488-702 | undo right after a successful report, by its dealer or an officer, restores cycle, health pools and ledger |
| BattleProps.ApplyRules | src/client/ybplugins/clan_battle/components/realize.py:906-947 | a declaration succeeds exactly when the member is undeclared, the boss can be attacked, fewer than 3 finished attempts were made, and compensation is owed if asked for; the new engagement's continue flag includes the auto-continue rule; nobody else changes |
| BattleProps.ApplyOnBehalf | src/client/ybplugins/clan_battle/components/realize.py:900-902 | declaring for someone else declares them, with the applicant as behalf, and changes only the registry |
| BattleProps.ModifyShowsRequestedHealth | src/client/ybplugins/clan_battle/components/realize.py:258-279 | a negative cycle is an InputError; the override sets the cycle; a boss entered as alive gets the entered health now and a full boss waiting next, so it shows as entered unless its health is 0, when it is dead now with a full boss next; a boss entered as dead shows as the next cycle's with the entered health (0 when `check_next_boss` fails); unedited bosses keep both pools |
| BattleProps.ClearDataSlotFresh | src/client/ybplugins/clan_battle/components/realize.py:339-357 | the reset board is consistent: cycle 1 at full health, no declarations or waitlists, and the cleared archive has no rows while the others keep theirs |
| BattleProps.InitialConsistent | src/client/ybplugins/clan_battle/components/realize.py:166-182 | a new group's board is consistent and its empty ledger satisfies the invariants |
| BattleProps.CreateGroupRules | src/client/ybplugins/clan_battle/components/realize.py:159-187 | creation succeeds exactly when no active record exists, and fails only with a GroupError; a new group gets a consistent board at cycle 1 with nothing declared, subscribed or recorded; a revived one keeps its board and is no longer deleted |
| BattleProps.DrainUpToNotifies | src/client/ybplugins/clan_battle/components/realize.py:618-620 | every boss carried in dead that had a waitlist has it announced |
| BattleProps.AdvanceAsStored | src/client/ybplugins/clan_battle/components/realize.py:616-628 | the definition of the advance as it ends up stored: `Advance` with the waitlists from before it written back; `BattleProps.StaleSaveKeepsWaitlist` states the consequence |
| BattleProps.StaleSaveKeepsWaitlist | src/client/ybplugins/clan_battle/components/realize.py:618-628 | as stored, a boss carried in dead has its subscribers notified yet keeps them; the model's advance drops them |
| Records.Group.constructor | src/client/ybplugins/clan_battle/components/realize.py:166-182 | a new group record is the initial board, with nothing published or announced |
| Records.Group.ApplyForChallenge | src/client/ybplugins/clan_battle/components/realize.py:888-956 | the record changes exactly as `ApplyForChallenge` says; a refusal changes nothing; the panel is updated on success when asked |
| Records.Group.CheckApply | src/client/ybplugins/clan_battle/components/realize.py:906-933 | the read-only checks give the error or continue flag that `ApplyAs` prescribes, whoever the behalf |
| Records.Group.CancelBlade | src/client/ybplugins/clan_battle/components/realize.py:959-994 | the registry becomes `Cancel`'s result, or nothing changes on an error; no publication when a named boss had no declarations |
| Records.Group.PutOnTheTree | src/client/ybplugins/clan_battle/components/realize.py:801-830 | the registry becomes `PutOnTheTree`'s result; a refusal changes nothing |
| Records.Group.TakeItOffTheTree | src/client/ybplugins/clan_battle/components/realize.py:852-860 | the registry becomes `TakeOffTheTree`'s result; a refusal changes nothing |
| Records.Group.TakeTreeDown | src/client/ybplugins/clan_battle/components/realize.py:861-869 | the whole-boss form changes no state and announces the members on the tree |
| Records.Group.ReportHurt | src/client/ybplugins/clan_battle/components/realize.py:1064-1099 | the registry and the answer are `ReportHurt`'s, including clean type 2, which writes an absent registry back as an empty one; a refusal changes nothing |
| Records.Group.Subscribe | src/client/ybplugins/clan_battle/components/realize.py:730-741 | the waitlists become `Subscribe`'s result; a refusal changes nothing |
| Records.Group.SubscribeCancel | src/client/ybplugins/clan_battle/components/realize.py:756-779 | the waitlists become `SubscribeCancel`'s result; a refusal changes nothing |
| Records.Group.SubscribeRemind | src/client/ybplugins/clan_battle/components/realize.py:744-753 | the waitlists and announcements are `Remind`'s |
| Records.Group.Challenge | src/client/ybplugins/clan_battle/components/realize.py:488-654 | state, answer and announcements are `ChallengeSpec`'s; the panel is updated on success |
| Records.Group.ClaimBoss | src/client/ybplugins/clan_battle/components/realize.py:522-535 | the registry and the chosen boss are `Claim`'s |
| Records.Group.Commit | src/client/ybplugins/clan_battle/components/realize.py:537-654 | state, answer and announcements are `Commit`'s |
| Records.Group.CheckEntry | src/client/ybplugins/clan_battle/components/realize.py:545-609 | the checks produce `Entry`'s row or error, on the declared boss |
| Records.Group.CheckBoss | src/client/ybplugins/clan_battle/components/realize.py:545-553 | an InputError exactly when both pools are 0 or the damage of a non-kill reaches the active health; otherwise the active health and cycle |
| Records.Group.CheckQuota | src/client/ybplugins/clan_battle/components/realize.py:577-586 | three finished attempts that day is an InputError; asking for compensation when the day's balance (kills without continue minus continue rows) is 0 is a GroupError; otherwise no refusal |
| Records.Group.Settle | src/client/ybplugins/clan_battle/components/realize.py:588-638 | state, answer and announcements are `Settle`'s; one publication |
| Records.Group.RecordHit | src/client/ybplugins/clan_battle/components/realize.py:588-609 | the row is appended and only the active pool of the boss takes the hit |
| Records.Group.AfterKill | src/client/ybplugins/clan_battle/components/realize.py:611-635 | state, answer and announcements are `Kill`'s |
| Records.Group.ReleaseBoss | src/client/ybplugins/clan_battle/components/realize.py:631-635 | state, answer and announcements are `Release`'s |
| Records.Group.AdvanceCycle | src/client/ybplugins/clan_battle/components/realize.py:615-622 | the record becomes `Advance`'s board and the carry-in reminders are announced |
| Records.Group.CarryIn | src/client/ybplugins/clan_battle/components/realize.py:618-620 | `now` takes `next`, the waitlists of dead carried-in bosses are drained in boss order, and nothing else changes |
| Records.Group.Undo | src/client/ybplugins/clan_battle/components/realize.py:657-702 | the record becomes `UndoSpec`'s result; a refusal changes nothing; the panel is updated on success |
| Records.Group.RestoreHealth | src/client/ybplugins/clan_battle/components/realize.py:677-691 | the board becomes `GiveBack`'s |
| Records.Group.Modify | src/client/ybplugins/clan_battle/components/realize.py:249-286 | the record becomes `ModifySpec`'s result; a refusal changes nothing; the panel is updated on success |
| Records.Group.ClearDataSlot | src/client/ybplugins/clan_battle/components/realize.py:339-357 | the record becomes `ClearDataSlot`'s board |
| Records.EditPools | src/client/ybplugins/clan_battle/components/realize.py:268-275 | the loop over the edits sets, per boss, both pools as the override form prescribes and leaves unedited bosses alone |
| Records.EditedPools | src/client/ybplugins/clan_battle/components/realize.py:264-279 | pools computed that way, with the cycle, are `ModifySpec`'s result |
| Records.CarryLoop | src/client/ybplugins/clan_battle/components/realize.py:618-620 | the loop copies `next` into `now` and drains the waitlists exactly as `DrainUpTo` over all five bosses |
| Records.CountDead | src/client/ybplugins/clan_battle/components/realize.py:612-614 | the loop counts the dead bosses |
| SaveSlots.Use | src/client/ybplugins/clan_battle/components/realize.py:1047-1061 | handing back is refused unless used today, and resets to 0; a check answers whether the flag was used today; a second use the same day is refused |
| SaveSlots.SpendThenCheck | src/client/ybplugins/clan_battle/components/realize.py:1052-1057 | after using the flag, a same-day check says used and a second use is a UserError |
| SaveSlots.SpendThenHandBack | src/client/ybplugins/clan_battle/components/realize.py:1047-1057 | handing back after use frees the flag for the same day |
| SaveSlots.Membership.SaveSlot | src/client/ybplugins/clan_battle/components/realize.py:1029-1061 | the answer and the stored day are `Use`'s; a refusal leaves the day unchanged |

## Left out

- Chat and web-panel I/O (`send_group_msg`, `send_private_remind`, `behelf_remind`, the `_boss_status` futures, `asyncio.ensure_future`) and message texts are not modelled. Announcements are notices in a ghost log; panel updates are a ghost counter.
- Directory lookups are not modelled: a missing group (`GroupNotExist`), a missing user (`UserNotInGroup`), and the "join the guild first" GroupError of the tree commands. Every member is assumed to be known.
- The clock (`pcr_datetime`) is replaced by a `date` parameter.
- `get_report`, `get_battle_member_list`, the member lists and the nickname caches are not modelled; they are query filters and foreign calls.
- Rendering (`text_2_pic`, `challenger_info`, `challenger_info_small`) is not modelled, apart from the boss status shown on the panel (`Battle.BossStatus`) and the outstanding-compensation count (`Ledger.OutstandingCompensation`).
- Persistence (peewee rows, JSON strings, `save()`) is not modelled. The model's operations act on one consistent copy of the group. The consequence for the carry-in reminders is listed under Findings.
- `switch_data_slot`, its JSON backup and `change_game_server` are not modelled. `clear_data_slot` keeps the archive in use; `challenging_start_time` is not a field of the model.
- Records.Group.TakeTreeDown: a boss with no declarations, or an absent registry, is excluded by the requires; the source raises a `KeyError` there (realize.py:863).
- Battle.CreateGroup: the `game_server` a revived group is given, and the group name, are not fields of the model; a revived group keeps its old board even when the new server's stage table differs.
- Records.Group.CancelBlade: scope 2 with boss 0 is not a scope of the model. In the source it falls through and only saves.
- Battle.ModifySpec: an omitted cycle is passed as 0 and stored as 0, where the source stores None (realize.py:279). Health values are `nat`, and the edits name slots 1..5.
- Battle.ChallengeSpec: requires an exclusive and tidy registry. Every operation of the model keeps that, starting from the initial board.
- Slots are typed 1..5 and members are positive. Boss numbers outside 1..5 (a `KeyError` in the source) are not modelled, and neither is the GroupError that `subscribe` and `subscribe_cancel` construct but never raise for an empty boss number. A level past the end of the health table (an `IndexError`) is excluded by the well-formed table.
- Registry.GetInBossNum returns the lowest slot the member is declared on; the source returns the first in dictionary order. On an exclusive registry the two agree (`Registry.GetInBossNumUnique`).

Points where the model follows the code's exact behaviour:

- `check_blade` returns true when the member has declared, the opposite of its doc comment.
- `challenge` performs its implicit cancel and declaration before it validates the damage against the boss. A refused report can therefore leave the registry changed.
- Three finished attempts is an InputError in `challenge` but a GroupError in `apply_for_challenge`.
- The `else` at realize.py:623 writes 0 to a boss that is already at 0; it changes nothing.

## Findings

| source | as written | input that shows it | evidently intended | confidence | as-written member | corrected member |
|---|---|---|---|---|---|---|
| src/client/ybplugins/clan_battle/components/realize.py:618-628 | `subscribe_remind` drains a carried-in dead boss's waitlist on a freshly loaded copy of the group; the stale copy held by `challenge` is saved afterwards (line 628), which writes the old waitlist back | a kill of the last live boss of the cycle, while boss 3 of the next cycle is already dead and has subscribers: they are told the boss has arrived and remain subscribed | the announced waitlist is removed, as `subscribe_remind` does everywhere else | medium, not executed; it relies on `save()` writing every field, peewee's default | BattleProps.AdvanceAsStored, BattleProps.StaleSaveKeepsWaitlist | Battle.Advance, with BattleProps.SettleAdvance and Battle.DrainUpToEffect |
