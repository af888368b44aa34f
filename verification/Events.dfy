/** The values that travel between the supervisor and the phone. */
module Events {

  type Byte = b: int | 0 <= b < 256

  type Bytes = seq<Byte>

  /** The `oneof` payload of a sync event; `Unset` is an event with no known payload. */
  datatype Payload =
    | TextMessage(agentId: string, content: string)
    | DisplayCommand(displayKey: string)
    | BitmapPayload(bitmapKey: string, imageData: Bytes)
    | WatchdogTimeout(silentAgent: string, silentMs: int)
    | InputDeliveryFailure(attemptedInput: string, targetAgent: string)
    | Unset

  datatype Event = Event(ts: int, payload: Payload)
}
