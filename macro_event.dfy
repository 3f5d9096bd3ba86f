/** The timeline model: event kinds, mouse buttons, one recorded event and a
    named macro (MacroEventType.cs, MacroEvent.cs and Macro.cs). */
module MacroModel {

  /** The closed set of recorded event kinds (MacroEventType). */
  datatype EventKind = KeyDown | KeyUp | MouseDown | MouseUp | MouseMove | MouseWheel

  /** The mouse buttons an event can carry (the WinForms `MouseButtons`
      values: None, Left, Right, Middle, XButton1, XButton2). */
  datatype MouseButton = NoButton | Left | Right | Middle | XButton1 | XButton2

  /** One recorded event.  `delay` is the time in milliseconds since the
      previous event of the same timeline; only the fields that belong to
      `eventType` are meaningful, the others keep their default values.
      `scanCode` and `isExtendedKey` are written by the capture path and read
      by the injection path although the record's own declaration omits them;
      the model includes them. */
  datatype MacroEvent = MacroEvent(
    eventType: EventKind,
    delay: int,
    keyCode: int,
    scanCode: int,
    isExtendedKey: bool,
    mouseButton: MouseButton,
    mouseX: int,
    mouseY: int,
    mouseDelta: int)
  {
    /** A key press or key release. */
    predicate IsKeyboardEvent() {
      eventType == KeyDown || eventType == KeyUp
    }

    /** A pointer movement. */
    predicate IsMouseMove() {
      eventType == MouseMove
    }
  }

  /** A named timeline. */
  datatype Macro = Macro(name: string, events: seq<MacroEvent>)

  /** The delays of a timeline. */
  function Delays(es: seq<MacroEvent>): (ds: seq<int>)
    ensures |ds| == |es| && forall i :: 0 <= i < |es| ==> ds[i] == es[i].delay
  {
    seq(|es|, i requires 0 <= i < |es| => es[i].delay)
  }

  function Sum(xs: seq<int>): int
    decreases |xs|
  {
    if xs == [] then 0 else Sum(xs[..|xs| - 1]) + xs[|xs| - 1]
  }

  /** The two derived predicates never hold together, and the button and
      wheel kinds satisfy neither of them. */
  lemma DerivedPredicatesPartition(e: MacroEvent)
    ensures !(e.IsKeyboardEvent() && e.IsMouseMove())
    ensures e.IsKeyboardEvent() <==> e.eventType in {KeyDown, KeyUp}
    ensures e.IsMouseMove() <==> e.eventType == MouseMove
    ensures e.eventType in {MouseDown, MouseUp, MouseWheel} ==> !e.IsKeyboardEvent() && !e.IsMouseMove()
  {
  }
}
