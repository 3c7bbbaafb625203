/**
 * The required-staff editor of one position: a form (weekday, time slot,
 * head count) that adds a rule, a count field per rule, and a delete button
 * per rule. The form's guards run before any request is sent; after a rule
 * is added the time slot and count are reset but the weekday is kept.
 */
module RequiredStaffManager {
  import opened Wrappers
  import Text

  const InvalidRuleMessage: string := "時間帯と人数を正しく入力してください。"
  const RuleAddedMessage: string := "ルールを追加しました。"
  const AddFailedMessage: string := "ルールの追加に失敗しました。"
  const NegativeCountMessage: string := "人数は0以上で入力してください。"
  const CountUpdatedMessage: string := "人数を更新しました。"
  const UpdateFailedMessage: string := "人数の更新に失敗しました。"
  const RuleDeletedMessage: string := "ルールを削除しました。"
  const DeleteFailedMessage: string := "ルールの削除に失敗しました。"

  /** `DAYS_OF_WEEK`: label and value of each weekday, Sunday first. */
  const DaysOfWeek: seq<(string, int)> :=
    [("日", 0), ("月", 1), ("火", 2), ("水", 3), ("木", 4), ("金", 5), ("土", 6)]

  /** The table lists the values 0 to 6 in order, Sunday (日) as 0, each label once. */
  lemma DaysOfWeekTable()
    ensures |DaysOfWeek| == 7
    ensures forall i :: 0 <= i < 7 ==> DaysOfWeek[i].1 == i
    ensures DaysOfWeek[0].0 == "日" && DaysOfWeek[6].0 == "土"
    ensures forall i, j :: 0 <= i < j < 7 ==> DaysOfWeek[i].0 != DaysOfWeek[j].0
  {
  }

  /** The body POST /api/admin/required-staff receives. */
  datatype RuleBody = RuleBody(positionId: string, dayOfWeek: int, timeSlot: string, count: int)

  /** The add guard: a time slot with something besides white space, and at least one person. */
  function CanAdd(timeSlot: string, count: int): (b: bool)
    ensures b ==> |timeSlot| > 0 && count > 0 && CanUpdate(count)
    ensures count <= 0 ==> !b
  {
    !Text.IsBlank(timeSlot) && count >= 1
  }

  /** The count guard: any count that is not negative, 0 included. */
  function CanUpdate(newCount: int): (b: bool)
    ensures newCount == 0 ==> b
    ensures newCount < 0 ==> !b
  {
    newCount >= 0
  }

  class Manager {
    const positionId: string
    var dayOfWeek: int
    var timeSlot: string
    var count: int

    /** The form starts on Monday, an empty time slot and one person. */
    constructor (positionId: string)
      ensures this.positionId == positionId && dayOfWeek == 1 && timeSlot == "" && count == 1
    {
      this.positionId := positionId;
      dayOfWeek := 1;
      timeSlot := "";
      count := 1;
    }

    /**
     * `handleAddRule`, given whether the POST response was ok: the body sent
     * (`None` when the guard refuses), the toast shown, and whether the
     * parent's `onUpdate()` is called, which happens after a success only.
     */
    method AddRule(ok: bool) returns (sent: Option<RuleBody>, toast: string, notify: bool)
      modifies this`timeSlot, this`count
      ensures notify <==> sent.Some? && ok
      ensures sent.Some? <==> CanAdd(old(timeSlot), old(count))
      ensures sent.Some? ==> sent.value == RuleBody(positionId, dayOfWeek, old(timeSlot), old(count))
      ensures sent.None? ==> toast == InvalidRuleMessage
      ensures sent.Some? ==> toast == (if ok then RuleAddedMessage else AddFailedMessage)
      ensures sent.Some? && ok ==> timeSlot == "" && count == 1
      ensures !(sent.Some? && ok) ==> timeSlot == old(timeSlot) && count == old(count)
    {
      if Text.IsBlank(timeSlot) || count < 1 {
        return None, InvalidRuleMessage, false;
      }
      sent := Some(RuleBody(positionId, dayOfWeek, timeSlot, count));
      if !ok {
        return sent, AddFailedMessage, false;
      }
      toast := RuleAddedMessage;
      timeSlot := "";
      count := 1;
      notify := true;
    }

    /** `handleUpdateCount`: the rule id and count sent (`None` when refused), the toast shown and whether `onUpdate()` is called; the form is untouched. */
    method UpdateCount(ruleId: string, newCount: int, ok: bool) returns (sent: Option<(string, int)>, toast: string, notify: bool)
      ensures notify <==> sent.Some? && ok
      ensures sent.Some? <==> CanUpdate(newCount)
      ensures sent.Some? ==> sent.value == (ruleId, newCount) && toast == (if ok then CountUpdatedMessage else UpdateFailedMessage)
      ensures sent.None? ==> toast == NegativeCountMessage
    {
      if newCount < 0 {
        return None, NegativeCountMessage, false;
      }
      sent := Some((ruleId, newCount));
      toast := if ok then CountUpdatedMessage else UpdateFailedMessage;
      notify := ok;
    }

    /** `handleDeleteRule`: nothing is sent unless the user confirms; `onUpdate()` follows a successful delete. */
    method DeleteRule(ruleId: string, confirmed: bool, ok: bool) returns (sent: Option<string>, toast: Option<string>, notify: bool)
      ensures notify <==> sent.Some? && ok
      ensures sent.Some? <==> confirmed
      ensures sent.Some? ==> sent.value == ruleId && toast == Some(if ok then RuleDeletedMessage else DeleteFailedMessage)
      ensures sent.None? ==> toast.None?
    {
      if !confirmed {
        return None, None, false;
      }
      sent := Some(ruleId);
      toast := Some(if ok then RuleDeletedMessage else DeleteFailedMessage);
      notify := ok;
    }
  }

  /** The guard's boundaries: a count of 1 with a real time slot passes, 0 does not; updates accept 0 and refuse -1. */
  lemma GuardBoundaries(slot: string)
    requires !Text.IsBlank(slot)
    ensures CanAdd(slot, 1) && !CanAdd(slot, 0) && !CanAdd("", 1) && !CanAdd(" ", 1)
    ensures CanUpdate(0) && !CanUpdate(-1)
  {
    assert Text.IsJsWhitespace(" "[0]);
  }
}
