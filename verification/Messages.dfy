/** The message and event vocabulary shared by the node and the hub. */
module Messages {

  type DeviceId = string
  type ActionId = nat
  type FamilyId = nat

  /** What the gesture detector reports for one GPIO. */
  datatype InputEvent = OffToOn | OnToOff | Click | DoubleClick | LongPress

  datatype UdpMessage =
    | Hello(deviceId: DeviceId)
    | Heartbeat(deviceId: DeviceId)
    | Event(deviceId: DeviceId, eventId: string, actionId: ActionId)
    | Ack(deviceId: DeviceId, eventId: string)
}
