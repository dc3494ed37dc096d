/**
 * The static configuration tables of the gesture-control system: the
 * gesture-to-action table and the gesture detection settings. Both are
 * literal dictionaries loaded once and never modified.
 */
module Config {
  import opened Wrappers

  /** One entry of the gesture-to-action table. No entry of the shipped table
    * sets a minimum confidence, so `minConfidence` is `None` throughout. */
  datatype ActionEntry = ActionEntry(
    action: string,
    description: string,
    command: string,
    minConfidence: Option<real>)

  /** The five gesture labels the classifier produces. */
  const OpenHand: string := "mano_abierta"
  const ClosedFist: string := "puño_cerrado"
  const ThumbsUp: string := "pulgar_arriba"
  const TwoFingers: string := "dos_dedos"
  const RockSign: string := "rock_roll"

  /** GESTURE_ACTIONS: the five recognised gestures and what each one does. */
  const GestureActions: map<string, ActionEntry> := map[
    OpenHand := ActionEntry("abrir_navegador", "Abrir navegador Chrome", "chrome", None),
    ClosedFist := ActionEntry("cerrar_ventana", "Cerrar ventana activa", "alt+f4", None),
    ThumbsUp := ActionEntry("subir_volumen", "Subir volumen del sistema", "volume_up", None),
    TwoFingers := ActionEntry("captura_pantalla", "Tomar captura de pantalla", "screenshot", None),
    RockSign := ActionEntry("refrescar", "Refrescar página (F5)", "f5", None)
  ]

  /** The keys of GESTURE_ACTIONS in the order the dictionary literal lists
    * them, which is the order a Python dictionary iterates in. */
  const GestureOrder: seq<string> :=
    [OpenHand, ClosedFist, ThumbsUp, TwoFingers, RockSign]

  /** The threshold the camera loop applies when an entry sets none. */
  const DefaultMinConfidence: real := 0.7

  /** GESTURE_CONFIG. Its hold time is not read anywhere: the detector
    * hard-codes its own hold time of 1.0 seconds. */
  datatype GestureSettings = GestureSettings(
    minDetectionConfidence: real,
    minTrackingConfidence: real,
    gestureHoldTime: real)

  const GestureConfig: GestureSettings := GestureSettings(0.5, 0.4, 0.5)

  /** Python's `gesture in GESTURE_ACTIONS`, where `None` is never a key. */
  predicate InTable(gesture: Option<string>) {
    gesture.Some? && gesture.value in GestureActions
  }

  /** `float(GESTURE_ACTIONS[g].get('min_confidence', 0.7))`. */
  function MinConfidence(g: string): (r: real)
    requires g in GestureActions
    ensures GestureActions[g].minConfidence.Some? ==> r == GestureActions[g].minConfidence.value
    ensures GestureActions[g].minConfidence.None? ==> r == DefaultMinConfidence
  {
    GestureActions[g].minConfidence.GetOr(DefaultMinConfidence)
  }

  /** The table has exactly the five gestures, and the iteration order lists
    * each of them once. */
  lemma GestureActionsKeys()
    ensures GestureActions.Keys ==
      {"mano_abierta", "puño_cerrado", "pulgar_arriba", "dos_dedos", "rock_roll"}
    ensures |GestureOrder| == 5
    ensures forall g :: g in GestureOrder <==> g in GestureActions
    ensures forall i, j :: 0 <= i < j < |GestureOrder| ==> GestureOrder[i] != GestureOrder[j]
  {
  }

  /** No two gestures share a command. */
  lemma CommandsDistinct()
    ensures forall g, h :: g in GestureActions && h in GestureActions && g != h ==>
      GestureActions[g].command != GestureActions[h].command
  {
  }

  /** No entry sets `min_confidence`, so every gesture is held to 0.7. */
  lemma MinConfidenceIsDefault(g: string)
    requires g in GestureActions
    ensures MinConfidence(g) == DefaultMinConfidence
  {
  }
}
