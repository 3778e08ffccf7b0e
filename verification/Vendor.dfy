/**
 * The client of the vendor's local API: `exec` turns a batch of device
 * commands into one POST request carrying one action per command, and
 * `getDevices` reads the device list and derives each device's movement
 * flag from its states. The HTTP exchange and JSON encoding are not
 * modelled; the requests are values and the decoded response is an input.
 */
module SomfyApi {
  import opened Types

  /** Where the vendor box is and the key it expects. */
  datatype SomfyOptions = SomfyOptions(host: string, apiKey: string)

  /** The service's `Command`: one command for one device, parameters optional. */
  datatype DeviceCommand = DeviceCommand(deviceUrl: string, command: string, parameters: Option<seq<Parameter>>)

  /** An entry of an action's `commands`; no `parameters` field when `parameters` is `None`. */
  datatype InnerCommand = InnerCommand(name: string, parameters: Option<seq<Parameter>>)

  datatype Action = Action(deviceURL: string, commands: seq<InnerCommand>)

  datatype Header = Header(name: string, value: string)

  /** The `{ actions }` object that becomes the request body. */
  datatype ExecBody = ExecBody(actions: seq<Action>)

  /** An HTTP request as handed to the client: `verb` is `None` when the client's default (GET) applies. */
  datatype Request = Request(url: string, verb: Option<string>, headers: seq<Header>, body: Option<ExecBody>)

  const ApiRoot: string := "/enduser-mobile-web/1/enduserAPI"
  const MovingState: string := "core:MovingState"

  function ExecUrl(host: string): string {
    "http://" + host + ApiRoot + "/exec/apply"
  }

  function DevicesUrl(host: string): string {
    "http://" + host + ApiRoot + "/setup/devices"
  }

  function AuthHeaders(apiKey: string): (hs: seq<Header>)
    ensures |hs| == 2 && hs[0] == Header("Content-Type", "application/json")
    ensures hs[1] == Header("X-Auth-Token", apiKey)
  {
    [Header("Content-Type", "application/json"), Header("X-Auth-Token", apiKey)]
  }

  /** The action for one command: the device's url and a single inner command. */
  function ToAction(c: DeviceCommand): (a: Action)
    ensures |a.commands| == 1
  {
    Action(c.deviceUrl, [InnerCommand(c.command, c.parameters)])
  }

  /** `commands.map(...)`: the body's actions, one per command, in order. */
  function Actions(commands: seq<DeviceCommand>): (actions: seq<Action>)
    ensures |actions| == |commands|
    ensures forall k :: 0 <= k < |commands| ==>
              actions[k].deviceURL == commands[k].deviceUrl && |actions[k].commands| == 1
              && actions[k].commands[0].name == commands[k].command
              && actions[k].commands[0].parameters == commands[k].parameters
  {
    seq(|commands|, k requires 0 <= k < |commands| => ToAction(commands[k]))
  }

  /** Reads back the command an action was built from (its first inner command). */
  function CommandOf(a: Action): (c: DeviceCommand)
    requires |a.commands| >= 1
    ensures c.deviceUrl == a.deviceURL
  {
    DeviceCommand(a.deviceURL, a.commands[0].name, a.commands[0].parameters)
  }

  /** The action body loses nothing: every command can be read back from it. */
  lemma ActionsRoundTrip(commands: seq<DeviceCommand>)
    ensures var actions := Actions(commands);
            forall k :: 0 <= k < |commands| ==> CommandOf(actions[k]) == commands[k]
  {
  }

  /** Distinct command batches give distinct bodies. */
  lemma ActionsInjective(c1: seq<DeviceCommand>, c2: seq<DeviceCommand>)
    requires Actions(c1) == Actions(c2)
    ensures c1 == c2
  {
    assert |c1| == |c2|;
    forall k | 0 <= k < |c1|
      ensures c1[k] == c2[k]
    {
      ActionsRoundTrip(c1);
      ActionsRoundTrip(c2);
    }
  }

  /** The request `exec(commands)` sends. */
  function ExecRequest(options: SomfyOptions, commands: seq<DeviceCommand>): (r: Request)
    ensures r.url == ExecUrl(options.host) && r.verb == Some("POST")
    ensures Header("X-Auth-Token", options.apiKey) in r.headers
    ensures r.headers == AuthHeaders(options.apiKey)
    ensures r.body == Some(ExecBody(Actions(commands)))
    ensures |r.body.value.actions| == |commands|
  {
    Request(ExecUrl(options.host), Some("POST"), AuthHeaders(options.apiKey), Some(ExecBody(Actions(commands))))
  }

  /** The request `getDevices()` sends: a GET with the same headers and no body. */
  function DevicesRequest(options: SomfyOptions): (r: Request)
    ensures r.url == DevicesUrl(options.host) && r.verb.None? && r.body.None?
    ensures Header("X-Auth-Token", options.apiKey) in r.headers
  {
    Request(DevicesUrl(options.host), None, AuthHeaders(options.apiKey), None)
  }

  /** One state of a device as the vendor reports it. */
  datatype State = State(stateType: int, name: string, value: int)

  /** One element of the vendor's device list. */
  datatype DeviceRecord = DeviceRecord(deviceURL: string, states: seq<State>)

  /** What `getDevices` yields per device. */
  datatype SomfyDevice = SomfyDevice(deviceUrl: string, isMoving: bool)

  /** `states.find(s => s.name === name)`: the first state with that name. */
  function FindState(states: seq<State>, name: string): (r: Option<State>)
    ensures r.None? <==> forall k :: 0 <= k < |states| ==> states[k].name != name
    ensures r.Some? ==> exists k :: 0 <= k < |states| && states[k] == r.value && states[k].name == name
                          && forall j :: 0 <= j < k ==> states[j].name != name
  {
    if states == [] then None
    else if states[0].name == name then Some(states[0])
    else
      var r := FindState(states[1..], name);
      assert r.Some? ==> exists k :: 1 <= k < |states| && states[k] == r.value && states[k].name == name
                           && forall j :: 0 <= j < k ==> states[j].name != name by {
        if r.Some? {
          var k :| 0 <= k < |states[1..]| && states[1..][k] == r.value && states[1..][k].name == name
                   && forall j :: 0 <= j < k ==> states[1..][j].name != name;
          assert states[k + 1] == r.value;
          forall j | 0 <= j < k + 1
            ensures states[j].name != name
          {
            if j > 0 {
              assert states[j] == states[1..][j - 1];
            }
          }
        }
      }
      r
  }

  /** `mapToDevice`: the url is kept and the device moves iff the first moving-state entry is non-zero. */
  function MapToDevice(d: DeviceRecord): (r: SomfyDevice)
    ensures r.deviceUrl == d.deviceURL
    ensures r.isMoving <==> exists k :: 0 <= k < |d.states| && d.states[k].name == MovingState
                              && d.states[k].value != 0
                              && forall j :: 0 <= j < k ==> d.states[j].name != MovingState
  {
    var state := FindState(d.states, MovingState);
    SomfyDevice(d.deviceURL, state.Some? && state.value.value != 0)
  }

  /** A device that reports no moving state is not moving. */
  lemma NoMovingStateMeansStill(d: DeviceRecord)
    requires forall k :: 0 <= k < |d.states| ==> d.states[k].name != MovingState
    ensures !MapToDevice(d).isMoving
  {
  }

  /** Only the first moving-state entry counts: a later one cannot change the verdict. */
  lemma FirstMovingStateDecides(d: DeviceRecord, later: State)
    requires exists k :: 0 <= k < |d.states| && d.states[k].name == MovingState
    ensures MapToDevice(DeviceRecord(d.deviceURL, d.states + [later])) == MapToDevice(d)
  {
    var k :| 0 <= k < |d.states| && d.states[k].name == MovingState;
    var s := d.states + [later];
    assert s[k] == d.states[k];
    assert FindState(s, MovingState) == FindState(d.states, MovingState) by {
      FindStatePrefix(d.states, [later], MovingState, k);
    }
  }

  lemma {:induction false} FindStatePrefix(a: seq<State>, b: seq<State>, name: string, k: nat)
    requires k < |a| && a[k].name == name
    ensures FindState(a + b, name) == FindState(a, name)
  {
    if a[0].name != name {
      assert (a + b)[1..] == a[1..] + b;
      FindStatePrefix(a[1..], b, name, k - 1);
    }
  }

  /** `getDevices`: every returned device mapped, count and order kept. */
  function GetDevices(records: seq<DeviceRecord>): (r: seq<SomfyDevice>)
    ensures |r| == |records|
    ensures forall k :: 0 <= k < |records| ==> r[k].deviceUrl == records[k].deviceURL
    ensures forall k :: 0 <= k < |records| ==> (r[k].isMoving <==> MapToDevice(records[k]).isMoving)
  {
    seq(|records|, k requires 0 <= k < |records| => MapToDevice(records[k]))
  }
}
