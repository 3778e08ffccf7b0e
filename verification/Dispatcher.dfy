/**
 * The command dispatcher: it subscribes one handler per command topic, and
 * each handler turns the published device list into one batch for the
 * vendor's `exec`, logging the outcome. The "my" handler first asks the
 * vendor which devices move and sends "stop" instead when a requested one
 * does.
 *
 * The vendor's answers are inputs (`Outcome` for `exec`, `DeviceQuery` for
 * `getDevices`), and a handler's behaviour is the trace of effects it
 * makes, in order.
 */
module SomfyDispatch {
  import opened Types
  import opened SomfyApi
  import opened EventBus

  /** One thing a handler does, in the order it does it. */
  datatype Effect =
    | Exec(commands: seq<DeviceCommand>)
    | QueryDevices
    | LogInfo(text: string)
    | LogError(text: string)

  /** How the vendor's `exec` promise settles. */
  datatype Outcome = Resolved | Rejected

  /** How the vendor's `getDevices` promise settles. */
  datatype DeviceQuery = Listed(devices: seq<SomfyDevice>) | QueryFailed(error: string)

  const StopNote: string := "Sending \"stop\" instead of \"my\" because at least one of the shutters is moving"

  function SuccessText(command: string): string {
    "Succesfully send command \"" + command + "\""
  }

  function FailureText(command: string): string {
    "Failed to send command \"" + command + "\""
  }

  /** The log line the `then`/`catch` of an `exec` call writes; nothing is rethrown. */
  function Report(command: string, outcome: Outcome): (e: Effect)
    ensures outcome == Resolved ==> e == LogInfo(SuccessText(command))
    ensures outcome == Rejected ==> e == LogError(FailureText(command))
  {
    match outcome
    case Resolved => LogInfo(SuccessText(command))
    case Rejected => LogError(FailureText(command))
  }

  /**
   * `createCommand(command, parameters)(deviceUrl)`: the vendor receives it
   * as one action for that url holding one command with those parameters.
   */
  function CreateCommand(command: string, parameters: Option<seq<Parameter>>, deviceUrl: string): (c: DeviceCommand)
    ensures ToAction(c) == Action(deviceUrl, [InnerCommand(command, parameters)])
  {
    DeviceCommand(deviceUrl, command, parameters)
  }

  /** `devices.map(createCommand(command))`: one parameterless command per device. */
  function CommandsFor(devices: seq<string>, command: string): (cs: seq<DeviceCommand>)
    ensures |cs| == |devices|
    ensures forall k :: 0 <= k < |devices| ==>
              cs[k].deviceUrl == devices[k] && cs[k].command == command && cs[k].parameters.None?
  {
    seq(|devices|, k requires 0 <= k < |devices| => CreateCommand(command, None, devices[k]))
  }

  /** `execForDevices(devices)(command)`: one `exec` of the whole batch, then the outcome's log line. */
  function ExecForDevices(devices: seq<string>, command: string, outcome: Outcome): (effects: seq<Effect>)
    ensures |effects| == 2 && effects[0].Exec? && effects[1] == Report(command, outcome)
    ensures var cs := effects[0].commands;
            |cs| == |devices| &&
            forall k :: 0 <= k < |devices| ==>
              cs[k].deviceUrl == devices[k] && cs[k].command == command && cs[k].parameters.None?
  {
    [Exec(CommandsFor(devices, command)), Report(command, outcome)]
  }

  /**
   * Some device the vendor lists, with a url among `devices`, reports that
   * it moves; with nothing listed or nothing requested, nothing moves.
   */
  predicate AnyMoving(listed: seq<SomfyDevice>, devices: seq<string>): (r: bool)
    ensures r ==> |listed| > 0 && |devices| > 0
  {
    exists k :: 0 <= k < |listed| && listed[k].deviceUrl in devices && listed[k].isMoving
  }

  /** `listed.filter(d => devices.includes(d.deviceUrl)).find(d => d.isMoving)`. */
  function FirstMoving(listed: seq<SomfyDevice>, devices: seq<string>): (r: Option<SomfyDevice>)
    ensures r.Some? <==> AnyMoving(listed, devices)
    ensures r.Some? ==> r.value in listed && r.value.isMoving && r.value.deviceUrl in devices
  {
    if listed == [] then None
    else if listed[0].deviceUrl in devices && listed[0].isMoving then Some(listed[0])
    else
      var r := FirstMoving(listed[1..], devices);
      assert AnyMoving(listed[1..], devices) ==> AnyMoving(listed, devices) by {
        if AnyMoving(listed[1..], devices) {
          var k :| 0 <= k < |listed[1..]| && listed[1..][k].deviceUrl in devices && listed[1..][k].isMoving;
          assert listed[k + 1] == listed[1..][k];
        }
      }
      assert AnyMoving(listed, devices) ==> AnyMoving(listed[1..], devices) by {
        if AnyMoving(listed, devices) {
          var k :| 0 <= k < |listed| && listed[k].deviceUrl in devices && listed[k].isMoving;
          assert listed[1..][k - 1] == listed[k];
        }
      }
      r
  }

  /**
   * The `isMoving` the "my" handler awaits: the `find` result as a boolean,
   * or the (falsy) result of the `catch` that logged a failed query.
   */
  predicate IsMoving(query: DeviceQuery, devices: seq<string>): (r: bool)
    ensures r <==> query.Listed? && AnyMoving(query.devices, devices)
    ensures query.QueryFailed? ==> !r
  {
    query.Listed? && FirstMoving(query.devices, devices).Some?
  }

  /** `execMyForDevices(devices)`. */
  function ExecMyForDevices(devices: seq<string>, query: DeviceQuery, outcome: Outcome): (effects: seq<Effect>)
    ensures |devices| == 0 <==> effects == []
    ensures |devices| > 0 ==>
              && |effects| == 3 + (if query.QueryFailed? then 1 else 0)
                                + (if query.Listed? && AnyMoving(query.devices, devices) then 1 else 0)
              && effects[0] == QueryDevices
              && (var command := if query.Listed? && AnyMoving(query.devices, devices) then "stop" else "my";
                  effects[|effects| - 2..] == ExecForDevices(devices, command, outcome))
              && (LogInfo(StopNote) in effects <==> query.Listed? && AnyMoving(query.devices, devices))
              && (query.QueryFailed? ==> effects[1] == LogError(query.error))
  {
    if |devices| == 0 then []
    else
      var moving := IsMoving(query, devices);
      var command := if moving then "stop" else "my";
      var effects := [QueryDevices]
                     + (if query.QueryFailed? then [LogError(query.error)] else [])
                     + (if moving then [LogInfo(StopNote)] else [])
                     + ExecForDevices(devices, command, outcome);
      assert StopNote != SuccessText(command);
      effects
  }

  /** A failed movement query is logged and "my" is still sent to every requested device. */
  lemma FailedQueryStillSendsMy(devices: seq<string>, error: string, outcome: Outcome)
    requires |devices| > 0
    ensures ExecMyForDevices(devices, QueryFailed(error), outcome)
            == [QueryDevices, LogError(error)] + ExecForDevices(devices, "my", outcome)
  {
  }

  /** Movement of devices outside the requested list does not turn "my" into "stop". */
  lemma OnlyRequestedDevicesCount(listed: seq<SomfyDevice>, devices: seq<string>, outcome: Outcome)
    requires |devices| > 0
    requires forall k :: 0 <= k < |listed| && listed[k].isMoving ==> listed[k].deviceUrl !in devices
    ensures ExecMyForDevices(devices, Listed(listed), outcome)
            == [QueryDevices] + ExecForDevices(devices, "my", outcome)
  {
  }

  /** The commands of the setDeployment handler: one per entry, carrying its percentage. */
  function DeploymentCommands(entries: seq<Deployment>): (cs: seq<DeviceCommand>)
    ensures |cs| == |entries|
    ensures forall k :: 0 <= k < |entries| ==>
              cs[k].deviceUrl == entries[k].deviceUrl && cs[k].command == "setDeployment"
              && cs[k].parameters == Some([Number(entries[k].percentage)])
  {
    seq(|entries|, k requires 0 <= k < |entries| =>
      DeviceCommand(entries[k].deviceUrl, "setDeployment", Some([Number(entries[k].percentage)])))
  }

  /** The setDeployment handler: one `exec` of the whole batch, then the outcome's log line. */
  function OnSetDeployment(data: SetDeploymentData, outcome: Outcome): (effects: seq<Effect>)
    ensures |effects| == 2 && effects[0].Exec? && effects[1] == Report("setDeployment", outcome)
    ensures |effects[0].commands| == |data.devices|
    ensures forall k :: 0 <= k < |data.devices| ==>
              CommandOf(Actions(effects[0].commands)[k])
              == DeviceCommand(data.devices[k].deviceUrl, "setDeployment", Some([Number(data.devices[k].percentage)]))
  {
    var cs := DeploymentCommands(data.devices);
    ActionsRoundTrip(cs);
    [Exec(cs), Report("setDeployment", outcome)]
  }

  /** What the handler bound to a topic does with the payload. */
  datatype HandlerKind = Simple(command: string) | MyHandler | SetDeploymentHandler

  /** The topics `start` subscribes to, in its order, and the handler each gets. */
  const Bindings: seq<(string, HandlerKind)> := [
    (UpTopic, Simple("up")), (DownTopic, Simple("down")), (StopTopic, Simple("stop")),
    (IdentifyTopic, Simple("identify")), (WinkTopic, Simple("wink")), (MyTopic, MyHandler),
    (SetDeploymentTopic, SetDeploymentHandler)
  ]

  /** Every command topic gets exactly one handler, and no other topic gets one. */
  lemma BindingsCoverTopics()
    ensures |Bindings| == |Topics|
    ensures forall t :: t in Topics <==> exists k :: 0 <= k < |Bindings| && Bindings[k].0 == t
    ensures forall k, l :: 0 <= k < l < |Bindings| ==> Bindings[k].0 != Bindings[l].0
  {
    forall t | t in Topics
      ensures exists k :: 0 <= k < |Bindings| && Bindings[k].0 == t
    {
      if t == UpTopic { assert Bindings[0].0 == t; }
      else if t == DownTopic { assert Bindings[1].0 == t; }
      else if t == SetDeploymentTopic { assert Bindings[6].0 == t; }
      else if t == WinkTopic { assert Bindings[4].0 == t; }
      else if t == IdentifyTopic { assert Bindings[3].0 == t; }
      else if t == StopTopic { assert Bindings[2].0 == t; }
      else { assert Bindings[5].0 == t; }
    }
  }

  /** The simple handlers send the command named after their topic. */
  lemma SimpleHandlersUseTheirTopicName()
    ensures forall k :: 0 <= k < |Bindings| && Bindings[k].1.Simple? ==>
              Bindings[k].0 == "somfy:" + Bindings[k].1.command
  {
  }

  /** A published device list reaching the handler of `kind`. */
  function OnDevices(kind: HandlerKind, data: SomfyEventData, query: DeviceQuery, outcome: Outcome)
    : (effects: seq<Effect>)
    requires !kind.SetDeploymentHandler?
    ensures kind.Simple? ==> effects == ExecForDevices(data.devices, kind.command, outcome)
    ensures kind.MyHandler? ==> effects == ExecMyForDevices(data.devices, query, outcome)
  {
    match kind
    case Simple(command) => ExecForDevices(data.devices, command, outcome)
    case MyHandler => ExecMyForDevices(data.devices, query, outcome)
  }

  /** The batch sent for a simple command reaches the vendor as one action per device, in order. */
  lemma SimpleCommandRequest(options: SomfyOptions, devices: seq<string>, command: string, outcome: Outcome)
    ensures var r := ExecRequest(options, ExecForDevices(devices, command, outcome)[0].commands);
            && r.url == ExecUrl(options.host)
            && |r.body.value.actions| == |devices|
            && forall k :: 0 <= k < |devices| ==>
                 r.body.value.actions[k] == Action(devices[k], [InnerCommand(command, None)])
  {
  }

  /** The registry after subscribing handler ids `id`, `id + 1`, ... to the topics of `bindings`, in order. */
  function Started(m: Registry, bindings: seq<(string, HandlerKind)>, id: HandlerId): Registry
    decreases |bindings|
  {
    if bindings == [] then m
    else Started(Subscribed(m, bindings[0].0, Direct(id)), bindings[1..], id + 1)
  }

  /**
   * Subscribing along bindings with distinct topics puts each binding's
   * handler in front of its topic's previous handlers and leaves every other
   * topic alone.
   */
  lemma {:induction false} StartedHandlers(m: Registry, bindings: seq<(string, HandlerKind)>, id: HandlerId)
    requires forall k, l :: 0 <= k < l < |bindings| ==> bindings[k].0 != bindings[l].0
    ensures forall k :: 0 <= k < |bindings| ==>
              Handlers(Started(m, bindings, id), bindings[k].0) == [Direct(id + k)] + Handlers(m, bindings[k].0)
    ensures forall t :: (forall k :: 0 <= k < |bindings| ==> bindings[k].0 != t) ==>
              Handlers(Started(m, bindings, id), t) == Handlers(m, t)
    decreases |bindings|
  {
    if bindings != [] {
      var m1 := Subscribed(m, bindings[0].0, Direct(id));
      var rest := bindings[1..];
      StartedHandlers(m1, rest, id + 1);
      forall k | 0 <= k < |bindings|
        ensures Handlers(Started(m, bindings, id), bindings[k].0) == [Direct(id + k)] + Handlers(m, bindings[k].0)
      {
        if k == 0 {
          assert forall j :: 0 <= j < |rest| ==> rest[j].0 != bindings[0].0 by {
            forall j | 0 <= j < |rest|
              ensures rest[j].0 != bindings[0].0
            {
              assert rest[j] == bindings[j + 1];
            }
          }
        } else {
          assert rest[k - 1] == bindings[k];
        }
      }
      forall t | forall k :: 0 <= k < |bindings| ==> bindings[k].0 != t
        ensures Handlers(Started(m, bindings, id), t) == Handlers(m, t)
      {
        assert forall j :: 0 <= j < |rest| ==> rest[j].0 != t by {
          forall j | 0 <= j < |rest|
            ensures rest[j].0 != t
          {
            assert rest[j] == bindings[j + 1];
          }
        }
      }
    }
  }

  /** After `start`, each command topic's newest handler is the dispatcher's, and other topics are untouched. */
  lemma StartRegistersEveryTopic(m: Registry, first: HandlerId)
    ensures forall k :: 0 <= k < |Bindings| ==>
              Handlers(Started(m, Bindings, first), Bindings[k].0) == [Direct(first + k)] + Handlers(m, Bindings[k].0)
    ensures forall t :: t !in Topics ==> Handlers(Started(m, Bindings, first), t) == Handlers(m, t)
  {
    BindingsCoverTopics();
    StartedHandlers(m, Bindings, first);
  }

  /**
   * `start`: subscribes the seven handlers on `bus`, in the order of
   * `Bindings`; the handler of binding `k` has id `first + k`. The
   * subscriptions `subscribe` returns are not kept.
   */
  method Start(bus: EventAggregator, first: HandlerId)
    requires bus.Valid()
    modifies bus
    ensures bus.Valid()
    ensures bus.lookup == Started(old(bus.lookup), Bindings, first)
  {
    ghost var m0 := bus.lookup;
    var sub := bus.Subscribe(UpTopic, first);
    sub := bus.Subscribe(DownTopic, first + 1);
    sub := bus.Subscribe(StopTopic, first + 2);
    sub := bus.Subscribe(IdentifyTopic, first + 3);
    sub := bus.Subscribe(WinkTopic, first + 4);
    sub := bus.Subscribe(MyTopic, first + 5);
    sub := bus.Subscribe(SetDeploymentTopic, first + 6);
    StartedUnrolled(m0, first);
  }

  /** `Started` along `Bindings`, written out as the seven subscriptions of `start`. */
  lemma StartedUnrolled(m: Registry, first: HandlerId)
    ensures Started(m, Bindings, first)
            == Subscribed(Subscribed(Subscribed(Subscribed(Subscribed(Subscribed(Subscribed(m,
                 UpTopic, Direct(first)), DownTopic, Direct(first + 1)), StopTopic, Direct(first + 2)),
                 IdentifyTopic, Direct(first + 3)), WinkTopic, Direct(first + 4)), MyTopic, Direct(first + 5)),
                 SetDeploymentTopic, Direct(first + 6))
  {
    var b := Bindings;
    assert b[0..] == b;
    StartedStep(m, b, 0, first);
    var m1 := Subscribed(m, UpTopic, Direct(first));
    StartedStep(m1, b, 1, first + 1);
    var m2 := Subscribed(m1, DownTopic, Direct(first + 1));
    StartedStep(m2, b, 2, first + 2);
    var m3 := Subscribed(m2, StopTopic, Direct(first + 2));
    StartedStep(m3, b, 3, first + 3);
    var m4 := Subscribed(m3, IdentifyTopic, Direct(first + 3));
    StartedStep(m4, b, 4, first + 4);
    var m5 := Subscribed(m4, WinkTopic, Direct(first + 4));
    StartedStep(m5, b, 5, first + 5);
    var m6 := Subscribed(m5, MyTopic, Direct(first + 5));
    StartedStep(m6, b, 6, first + 6);
    assert b[7..] == [];
  }

  /** One subscription of `Started`: the binding at `k` is subscribed, the ones after it follow. */
  lemma StartedStep(m: Registry, b: seq<(string, HandlerKind)>, k: nat, id: HandlerId)
    requires k < |b|
    ensures Started(m, b[k..], id) == Started(Subscribed(m, b[k].0, Direct(id)), b[k + 1..], id + 1)
  {
    assert b[k..][0] == b[k] && b[k..][1..] == b[k + 1..];
  }
}
