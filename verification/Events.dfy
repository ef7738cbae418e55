/** The part of the daemon's event model that the stream coalescer looks at (internal/event/event.go). */
module Events {
  type Byte = b: int | 0 <= b < 256

  type Text = seq<Byte>

  /** A point in time; zero is Go's zero time. */
  type Time = int

  /**
    Event types. The coalescer tells apart the two streaming text types, the two tool types,
    and whether anything else is a control event or droppable telemetry.
   */
  datatype Type =
    | AssistantChunk
    | ThoughtChunk
    | ToolCall
    | ToolUpdate
    | Control(name: string)
    | Telemetry(name: string)

  /** `payload` stands for the fields the coalescer never reads. */
  datatype Event = Event(
    kind: Type,
    session: string,
    agentSession: string,
    replay: bool,
    replace: bool,
    nativeMessage: string,
    nativePart: string,
    time: Time,
    text: Text,
    toolId: string,
    toolName: string,
    toolKind: string,
    status: string,
    payload: nat
  )

  predicate IsChunk(t: Type) {
    t.AssistantChunk? || t.ThoughtChunk?
  }

  predicate IsControl(t: Type) {
    t.ToolCall? || t.ToolUpdate? || t.Control?
  }

  predicate IsInPlaceUpdate(ev: Event) {
    ev.kind.ToolUpdate? && ev.toolId != ""
  }

  predicate IsTerminalToolStatus(s: string) {
    s == "completed" || s == "failed"
  }

  /** A control event that creates a transcript position. */
  predicate IsBoundary(ev: Event) {
    !IsChunk(ev.kind) && IsControl(ev.kind) && !IsInPlaceUpdate(ev)
  }

  /** A byte that can begin a UTF-8 sequence, that is, not 10xxxxxx. */
  predicate IsRuneStart(b: Byte) {
    !(0x80 <= b < 0xC0)
  }
}
