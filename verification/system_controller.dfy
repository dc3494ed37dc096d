/**
 * The action dispatcher: it looks a gesture up in the gesture-to-action
 * table, looks the entry's command up in its handler table and runs that
 * one handler. The handlers themselves (process spawning, key presses,
 * screenshots) are abstract events whose completion is an input.
 */
module SystemController {
  import opened Wrappers
  import opened Config

  /** The five OS-level handlers, as events. */
  datatype Handler = OpenChrome | CloseActiveWindow | IncreaseVolume | TakeScreenshot | RefreshPage

  /** `action_handlers`: built once by the constructor and never changed. */
  const ActionHandlers: map<string, Handler> := map[
    "chrome" := OpenChrome,
    "alt+f4" := CloseActiveWindow,
    "volume_up" := IncreaseVolume,
    "screenshot" := TakeScreenshot,
    "f5" := RefreshPage
  ]

  /** The description returned for a gesture that is not in the table. */
  const UnknownActionDescription: string := "Acción no reconocida"

  /** The outcome of `execute_action`: its boolean result and the handlers it ran. */
  datatype Dispatch = Dispatch(success: bool, invoked: seq<Handler>)

  /** `execute_action`. `handlerCompletes` says whether the handler that runs
    * returns normally (true) or raises (false). */
  function ExecuteAction(gesture: Option<string>, handlerCompletes: bool): (d: Dispatch)
    ensures !InTable(gesture) ==> d == Dispatch(false, [])
    ensures InTable(gesture) && GestureActions[gesture.value].command !in ActionHandlers ==>
      d == Dispatch(false, [])
    ensures InTable(gesture) && GestureActions[gesture.value].command in ActionHandlers ==>
      d.invoked == [ActionHandlers[GestureActions[gesture.value].command]] &&
      d.success == handlerCompletes
    ensures |d.invoked| <= 1 && (d.success ==> |d.invoked| == 1)
  {
    if !InTable(gesture) then Dispatch(false, [])
    else
      var command := GestureActions[gesture.value].command;
      if command in ActionHandlers then Dispatch(handlerCompletes, [ActionHandlers[command]])
      else Dispatch(false, [])
  }

  /** The handler table holds exactly the five commands, one handler each. */
  lemma HandlerTableKeys()
    ensures ActionHandlers.Keys == {"chrome", "alt+f4", "volume_up", "screenshot", "f5"}
    ensures forall c, e :: c in ActionHandlers && e in ActionHandlers && c != e ==>
      ActionHandlers[c] != ActionHandlers[e]
  {
  }

  /** Every configured command has a handler, so a configured gesture always
    * runs exactly one handler and never takes the "not implemented" path;
    * its result is that handler's completion. */
  lemma ConfiguredGestureRunsItsHandler(g: string, handlerCompletes: bool)
    requires g in GestureActions
    ensures GestureActions[g].command in ActionHandlers
    ensures ExecuteAction(Some(g), handlerCompletes) ==
      Dispatch(handlerCompletes, [ActionHandlers[GestureActions[g].command]])
  {
  }

  /** Different gestures run different handlers. */
  lemma GesturesRunDistinctHandlers(g: string, h: string, ok: bool)
    requires g in GestureActions && h in GestureActions && g != h
    ensures ExecuteAction(Some(g), ok).invoked != ExecuteAction(Some(h), ok).invoked
  {
  }

  /** `get_available_actions`: the table's keys in iteration order. */
  function GetAvailableActions(): (r: seq<string>)
    ensures forall g :: g in r <==> g in GestureActions
    ensures forall i, j :: 0 <= i < j < |r| ==> r[i] != r[j]
    ensures |r| == |GestureActions|
  {
    GestureActionsKeys();
    GestureOrder
  }

  /** `get_action_description`: the entry's description, or the fallback text. */
  function GetActionDescription(gesture: Option<string>): (r: string)
    ensures InTable(gesture) ==> r == GestureActions[gesture.value].description
    ensures r == UnknownActionDescription <==> !InTable(gesture)
  {
    if InTable(gesture) then GestureActions[gesture.value].description
    else UnknownActionDescription
  }
}
