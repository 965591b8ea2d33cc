/**
 The messages and enumerations shared by the controller, the job-session engine and the agent.
 */
module LumiaTypes {

  datatype Option<+T> = None | Some(value: T)

  /** The life-cycle states of a machine (`MinionState`). */
  datatype MinionState =
    | Alive
    | Restarting
    | Reinstalling
    | Initing
    | DeadChecking
    | Joining
    | Error
    | Del
    | Busy

  datatype DeviceStatus = DeviceStatus(name: string, healthy: bool)

  datatype MountStatus = MountStatus(dev: string, mountPoint: string, mounted: bool)

  /** What an agent reports about its machine (`MinionStatus`). */
  datatype MinionStatus = MinionStatus(
    devices: seq<DeviceStatus>,
    mounts: seq<MountStatus>,
    datetime: int,
    allIsWell: bool)

  /** The content of a `Minion` message; the hardware fields are kept as one opaque value. */
  datatype MinionInfo = MinionInfo(
    id: string,
    hostname: string,
    ip: string,
    state: MinionState,
    status: MinionStatus,
    hardware: string)
}
