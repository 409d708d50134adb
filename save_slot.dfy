/**
 * The once-per-day "save slot" (SL) flag each clan member may spend: the
 * member's record keeps the day on which the flag was last used, 0 when it
 * is unused or has been handed back.
 */
module SaveSlots {
  import opened Wrappers
  import opened Clan

  /** What save_slot answers when it does not raise. */
  datatype SlReply =
    | Spent                // the flag is now used for today
    | Status(used: bool)   // only_check: whether the flag is used today
    | HandedBack           // clean_flag: today's use was cancelled

  /**
   * save_slot on a member whose last_save_slot is `last`, on day `today`:
   * the answer and the new last_save_slot.
   */
  function Use(last: int, today: int, onlyCheck: bool, cleanFlag: bool): (r: Result<(SlReply, int), Error>)
    ensures r.Failure? ==> r.error == UserError && (if cleanFlag then last != today else !onlyCheck && last == today)
    ensures r.Success? && cleanFlag ==> r.value == (HandedBack, 0) && last == today
    ensures r.Success? && !cleanFlag && onlyCheck ==> r.value == (Status(last == today), last)
    ensures r.Success? && !cleanFlag && !onlyCheck ==> r.value == (Spent, today) && last != today
  {
    if cleanFlag then
      if last != today then Failure(UserError) else Success((HandedBack, 0))
    else if onlyCheck then
      Success((Status(last == today), last))
    else if last == today then
      Failure(UserError)
    else
      Success((Spent, today))
  }

  /** Spending the flag makes a same-day check answer "used", and a second spend that day is refused. */
  lemma SpendThenCheck(last: int, today: int)
    requires last != today
    ensures Use(last, today, false, false) == Success((Spent, today))
    ensures Use(today, today, true, false) == Success((Status(true), today))
    ensures Use(today, today, false, false) == Failure(UserError)
  {
  }

  /** Handing the flag back after spending it frees it again for the same day (days are never 0). */
  lemma SpendThenHandBack(last: int, today: int)
    requires last != today && today != 0
    ensures Use(today, today, false, true) == Success((HandedBack, 0))
    ensures Use(0, today, true, false) == Success((Status(false), 0))
    ensures Use(0, today, false, false) == Success((Spent, today))
  {
  }

  /** A member's Clan_member record, as far as the flag goes. */
  class Membership {
    const qqid: Member
    var lastSaveSlot: int   // last_save_slot

    constructor (qqid: Member)
      ensures this.qqid == qqid && lastSaveSlot == 0
    {
      this.qqid := qqid;
      lastSaveSlot := 0;
    }

    /** save_slot: check, spend or hand back the member's flag for `today`. */
    method SaveSlot(today: int, onlyCheck: bool, cleanFlag: bool) returns (r: Result<SlReply, Error>)
      modifies this
      ensures var spec := Use(old(lastSaveSlot), today, onlyCheck, cleanFlag);
        && (if spec.Failure? then r == Failure(spec.error) else r == Success(spec.value.0))
        && lastSaveSlot == (if spec.Success? then spec.value.1 else old(lastSaveSlot))
    {
      if cleanFlag {
        if lastSaveSlot != today {
          return Failure(UserError);
        }
        lastSaveSlot := 0;
        return Success(HandedBack);
      }
      if onlyCheck {
        return Success(Status(lastSaveSlot == today));
      }
      if lastSaveSlot == today {
        return Failure(UserError);
      }
      lastSaveSlot := today;
      return Success(Spent);
    }
  }
}
