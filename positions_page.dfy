/**
 * The administrator's positions page: one item per position with an inline
 * rename, and a form that creates a position. Renaming to a blank or to the
 * unchanged name only ends editing and restores the shown name; creating with
 * a blank name does nothing.
 */
module PositionsPage {
  import opened Wrappers
  import Text

  const FetchFailedMessage: string := "ポジションの取得に失敗しました"
  const CreateFailedMessage: string := "ポジションの作成に失敗しました"
  const UpdateFailedMessage: string := "ポジション名の更新に失敗しました。"
  const UpdatedMessage: string := "ポジション名を更新しました。"
  const DeleteFailedMessage: string := "ポジションの削除に失敗しました。"
  const DeletedMessage: string := "ポジションを削除しました。"

  datatype Position = Position(id: string, name: string)

  /** The update `handleSave` sends, if any: none for a blank name or the unchanged one. */
  function SaveRequest(position: Position, name: string): (r: Option<(string, string)>)
    ensures r.None? <==> Text.IsBlank(name) || name == position.name
    ensures r.Some? ==> r.value == (position.id, name)
  {
    if Text.IsBlank(name) || name == position.name then None else Some((position.id, name))
  }

  /** A name with leading white space is sent as typed, untrimmed. */
  lemma SaveSendsUntrimmed(position: Position, name: string)
    requires !Text.IsBlank(name) && " " + name != position.name
    ensures SaveRequest(position, " " + name) == Some((position.id, " " + name))
  {
    var k :| 0 <= k < |name| && !Text.IsJsWhitespace(name[k]);
    assert (" " + name)[k + 1] == name[k];
  }

  class PositionItem {
    const position: Position
    var isEditing: bool
    var name: string

    constructor (position: Position)
      ensures this.position == position && !isEditing && name == position.name
    {
      this.position := position;
      isEditing := false;
      name := position.name;
    }

    /** The edit/cancel button. */
    method ToggleEditing()
      modifies this`isEditing
      ensures isEditing == !old(isEditing)
    {
      isEditing := !isEditing;
    }

    method SetName(value: string)
      modifies this`name
      ensures name == value
    {
      name := value;
    }

    /**
     * `handleSave`: editing always ends; a refused name is replaced by the
     * position's own, an accepted one is sent as `onUpdate(id, name)`.
     */
    method Save() returns (update: Option<(string, string)>)
      modifies this`isEditing, this`name
      ensures update == SaveRequest(position, old(name))
      ensures !isEditing
      ensures name == (if update.None? then position.name else old(name))
    {
      update := SaveRequest(position, name);
      if update.None? {
        isEditing := false;
        name := position.name;
        return;
      }
      isEditing := false;
    }
  }

  /** The list is shown only when loading is over and no fetch has failed. */
  function ListShown(loading: bool, failure: Option<string>): (b: bool)
    ensures loading || failure.Some? ==> !b
    ensures !loading && failure.None? ==> b
  {
    !loading && failure.None?
  }

  class Page {
    var positions: seq<Position>
    var newPositionName: string
    var isLoading: bool
    var error: Option<string>

    constructor ()
      ensures positions == [] && newPositionName == "" && isLoading && error.None?
    {
      positions := [];
      newPositionName := "";
      isLoading := true;
      error := None;
    }

    /** `fetchPositions`, given whether the GET response was ok: loading ends either way. */
    method Fetch(ok: bool, data: seq<Position>)
      modifies this`positions, this`isLoading, this`error
      ensures !isLoading
      ensures ok ==> positions == data && error == old(error)
      ensures !ok ==> positions == old(positions) && error == Some(FetchFailedMessage)
    {
      if ok {
        positions := data;
      } else {
        error := Some(FetchFailedMessage);
      }
      isLoading := false;
    }

    /** Whether the page shows the list now. */
    predicate ShowsList()
      reads this
    {
      ListShown(isLoading, error)
    }

    method SetNewPositionName(value: string)
      modifies this`newPositionName
      ensures newPositionName == value
    {
      newPositionName := value;
    }

    /**
     * `handleCreatePosition`, given whether the POST response was ok: a blank
     * name sends nothing and shows nothing; success shows the created name and
     * clears the field; failure shows the error and keeps the field.
     */
    method CreatePosition(ok: bool) returns (sent: Option<string>, toast: Option<string>)
      modifies this`newPositionName
      ensures sent.None? <==> Text.IsBlank(old(newPositionName))
      ensures sent.None? ==> toast.None? && newPositionName == old(newPositionName)
      ensures sent.Some? ==> sent.value == old(newPositionName)
      ensures sent.Some? && ok ==> toast == Some("「" + old(newPositionName) + "」を作成しました。") && newPositionName == ""
      ensures sent.Some? && !ok ==> toast == Some("エラー: " + CreateFailedMessage) && newPositionName == old(newPositionName)
    {
      if Text.IsBlank(newPositionName) {
        return None, None;
      }
      sent := Some(newPositionName);
      if !ok {
        return sent, Some("エラー: " + CreateFailedMessage);
      }
      toast := Some("「" + newPositionName + "」を作成しました。");
      newPositionName := "";
    }

    /** `handleUpdatePosition`: the PUT is always sent; the toast depends on the response. */
    method UpdatePosition(id: string, name: string, ok: bool) returns (sent: (string, string), toast: string)
      ensures sent == (id, name)
      ensures toast == (if ok then UpdatedMessage else "エラー: " + UpdateFailedMessage)
    {
      sent := (id, name);
      toast := if ok then UpdatedMessage else "エラー: " + UpdateFailedMessage;
    }

    /** `handleDeletePosition`: nothing is sent unless the user confirms. */
    method DeletePosition(id: string, confirmed: bool, ok: bool) returns (sent: Option<string>, toast: Option<string>)
      ensures sent.Some? <==> confirmed
      ensures sent.Some? ==> sent.value == id && toast == Some(if ok then DeletedMessage else "エラー: " + DeleteFailedMessage)
      ensures sent.None? ==> toast.None?
    {
      if !confirmed {
        return None, None;
      }
      sent := Some(id);
      toast := Some(if ok then DeletedMessage else "エラー: " + DeleteFailedMessage);
    }
  }

  // What a successful rule change in a position's required-staff editor sets off
  // through the editor's `onUpdate()`.

  /** The PUT sent, as its URL and JSON body text (if any); whether the list is fetched again; the toast shown (if any). */
  datatype RuleRefresh = RuleRefresh(put: Option<(string, string)>, refetched: bool, toast: Option<string>)

  /**
   * As written: the item hands its own `onUpdate`, which is `handleUpdatePosition(id, name)`,
   * to the editor as the no-argument refresh. Called without arguments, it sends PUT
   * /api/admin/positions/undefined with the body `{}` (JSON drops the undefined name),
   * shows the rename toast, and fetches the list again only when that PUT succeeds.
   */
  function RuleRefreshAsWritten(putOk: bool): (r: RuleRefresh)
    ensures r.put == Some(("/api/admin/positions/undefined", "{}"))
    ensures r.refetched <==> putOk
    ensures r.toast == Some(if putOk then UpdatedMessage else "エラー: " + UpdateFailedMessage)
  {
    RuleRefresh(Some(("/api/admin/positions/undefined", "{}")), putOk,
                Some(if putOk then UpdatedMessage else "エラー: " + UpdateFailedMessage))
  }

  /** The evidently intended refresh: fetch the positions again, with no request to the rename route and no toast. */
  function RuleRefreshIntended(): (r: RuleRefresh)
    ensures r.put.None? && r.refetched && r.toast.None?
  {
    RuleRefresh(None, true, None)
  }

  /**
   * As written, every successful rule change also asks to rename a position called
   * "undefined" and shows a rename toast; when that PUT fails the list is not
   * refreshed and the user reads that renaming failed. The intended refresh does neither.
   */
  lemma RuleChangeMiswired(putOk: bool)
    ensures RuleRefreshAsWritten(putOk).put.Some? && RuleRefreshIntended().put.None?
    ensures RuleRefreshAsWritten(putOk).toast.Some? && RuleRefreshIntended().toast.None?
    ensures !putOk ==> !RuleRefreshAsWritten(putOk).refetched && RuleRefreshIntended().refetched
    ensures !putOk ==> RuleRefreshAsWritten(putOk).toast == Some("エラー: " + UpdateFailedMessage)
  {
  }
}
