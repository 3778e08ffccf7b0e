/**
 * The configuration entities of the bridge (devices, device groups,
 * schedules) and the payloads of the seven command topics.
 */
module Types {

  datatype Option<T> = None | Some(value: T)

  datatype Result<T, E> = Ok(value: T) | Err(error: E)

  /** A shutter known to the bridge: its stable id, label and vendor address. */
  datatype Device = Device(uid: string, name: string, deviceUrl: string)

  /** A named, ordered list of device ids (the scheduler stores base64 text here). */
  datatype DeviceGroup = DeviceGroup(uid: string, name: string, devices: seq<string>)

  datatype Command = Command(name: string, parameters: seq<string>)

  datatype Coordinates = Coordinates(latitude: real, longitude: real)

  /** A schedule is either a fixed wall-clock time in a zone or a solar event. */
  datatype Schedule =
    | FixedTime(uid: string, dow: seq<string>, deviceGroups: seq<string>, command: Command,
                time: string, timezone: string)
    | SunCalc(uid: string, dow: seq<string>, deviceGroups: seq<string>, command: Command,
              kind: string, coordinates: Coordinates)

  /** The seven command topics. */
  const UpTopic: string := "somfy:up"
  const DownTopic: string := "somfy:down"
  const SetDeploymentTopic: string := "somfy:setDeployment"
  const WinkTopic: string := "somfy:wink"
  const IdentifyTopic: string := "somfy:identify"
  const StopTopic: string := "somfy:stop"
  const MyTopic: string := "somfy:my"

  const Topics: seq<string> :=
    [UpTopic, DownTopic, SetDeploymentTopic, WinkTopic, IdentifyTopic, StopTopic, MyTopic]

  /** Payload of the up/down/stop/identify/wink/my topics. */
  datatype SomfyEventData = SomfyEventData(devices: seq<string>)

  datatype Deployment = Deployment(deviceUrl: string, percentage: int)

  /** Payload of the setDeployment topic. */
  datatype SetDeploymentData = SetDeploymentData(devices: seq<Deployment>)

  /** A value handed to the vendor as a command parameter (a string or a number). */
  datatype Parameter = Text(text: string) | Number(number: int)
}
