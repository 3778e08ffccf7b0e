# Somfy automation bridge — Dafny model

This project models the core of a small home-automation bridge for Somfy
shutters. The bridge keeps a configuration of devices, device groups and
schedules. Its modules talk to each other over an in-process event
aggregator (publish/subscribe on string topics such as `somfy:up`):

- the **scheduler** checks every 500 ms which schedules are due. A schedule
  is due at a fixed wall-clock time in a time zone, or at a solar event. A
  due schedule publishes its command for the devices of its groups. A
  60-second leading-edge debounce keeps it from firing again during its
  minute;
- the **REST front end** resolves device uids to vendor urls and publishes
  the same commands on request. It also lists groups and schedules;
- the **command dispatcher** subscribes to the seven command topics and
  turns each publication into one batch for the vendor's local API, except
  that a request for "my" (the favourite position) with no devices sends
  nothing. A request for "my" becomes "stop" when a requested shutter is
  moving;
- the **vendor client** builds the `exec` request body (one action per
  command) and derives each device's moving flag from its reported states;
- two utilities: a **TTL cache** and a levelled **component logger**.

Module per source file:

| Dafny module | file | form |
|---|---|---|
| `Types` | `src/types.ts`, `src/events.ts` | datatypes, topic constants |
| `Text` | (JavaScript built-ins) | `toLocaleLowerCase`/`toUpperCase` on ASCII, `join`, `split`, `parseInt` |
| `EventBus` | `src/lib/eventaggregator/eventAggregator.ts` | class `EventAggregator` over a `map` field; registry functions and lemmas |
| `TtlCache` | `src/lib/cache/cache.ts` | class `Cache` over a `map` field; lookup functions and lemmas |
| `Logging` | `src/lib/logger/logger.ts` | pure functions |
| `Scheduling` | `src/module/scheduler/scheduler.ts` | pure matching and `fire`; class `Scheduler` holding the debounce state with `Tick` |
| `SomfyDispatch` | `src/module/somfy/somfy.ts` | handlers as functions returning an effect trace; `Start` on an `EventAggregator` |
| `RestApi` | `src/module/rest/rest.ts` | pure functions, one per handler |
| `SomfyApi` | `src/service/somfy/somfy.ts` | pure request building and response mapping |

Some things come from outside the modelled code, and are parameters:

- **The clock.** It is a `now` argument.
- **Time-zone conversion.** `inZone(zone)` gives the zoned weekday, hour,
  minute and second of the tick's instant, or `None` for a zone name the
  time library does not know (its hour and minute are then NaN). `local`
  gives the same reading in the process's zone.
- **The solar-event time.** `solar(schedule)` gives the hour and minute, or
  `None` when the event does not occur that day.
- **Base64/UTF-8 decoding.** The `decode` parameter.
- **The command-to-topic mapping** of `/schedule/execute`. The
  `commandToEvent` parameter.
- **The vendor's answers.** `Outcome` says how `exec` settled. `DeviceQuery`
  is what `getDevices` returned.
- **Handler behaviour on the bus.** `react(id)` gives the registry changes a
  handler makes while it runs, and whether it throws. A change is a
  `subscribe`, a `subscribeOnce`, or the `dispose` of a subscription the
  handler holds (a plain one or a once-subscription).

The model follows the code, including where it behaves differently from
what its names suggest:

- **The debounce window restarts on every call.** A matching schedule
  re-arms the window on every tick it matches, suppressed or not. So a run
  of matching ticks less than 60 s apart fires only once.
- **"my" still goes out after a failed query.** When the movement query
  fails, the error is logged and "my" is still sent.
- **The scheduler does not deduplicate.** It publishes duplicate device
  entries as they are.
- **The scheduler publishes for any command name.** The topic is
  `"somfy:" + name`, even for names outside the seven commands.

## Model

| member | source | states |
|---|---|---|
| Text.Lower | src/module/scheduler/scheduler.ts:34 | same length, every character lower-cased (ASCII letters) |
| Text.Upper | src/lib/logger/logger.ts:30 | same length, every character upper-cased (ASCII letters) |
| Text.Split | src/module/scheduler/scheduler.ts:38 | splitting on one character always yields at least one part |
| Text.SplitJoin | src/module/scheduler/scheduler.ts:38 | splitting undoes joining when no part contains the separator |
| Text.ParseInt | src/module/scheduler/scheduler.ts:38 | `parseInt` is NaN exactly when, after white space, one sign and an optional `0x`, no digit of the radix follows |
| Text.ParseTwoDigits | src/module/scheduler/scheduler.ts:38 | a zero-padded two-digit field is read back as the number it was written from |
| Logging.Log | src/lib/logger/logger.ts:27-56 | a message is emitted iff the configured level is at least the method's threshold (400/300/200/100/0); it goes to the same-named console method with text `[LEVEL][COMPONENT]: message` and the extra parameters unchanged, in one call |
| Logging.DisabledIsSilent | src/lib/logger/logger.ts:4-11 | at `Disabled` (-1) no method emits anything |
| Logging.Monotone | src/lib/logger/logger.ts:28-56 | whatever is emitted at one level is emitted, identically, at every higher level |
| TtlCache.Stored | src/lib/cache/cache.ts:14-24 | `put` stores the entry under its name with expiry now + ttl and leaves every other key as it was |
| TtlCache.Lookup | src/lib/cache/cache.ts:26-32 | `get` throws for a name never stored, returns the data while now < expiry, and `undefined` after |
| TtlCache.Expired | src/lib/cache/cache.ts:34-52 | `take`/`del` set a present entry's expiry to now, keep its data, change nothing else, and change nothing for an absent name |
| TtlCache.PutThenGet | src/lib/cache/cache.ts:14-32 | after `put(k, d)` at t, `get(k)` returns d iff now < t + ttl, else `undefined` |
| TtlCache.PutKeepsOthers | src/lib/cache/cache.ts:14-24 | storing under one name does not change what `get` returns under another |
| TtlCache.ExpiredThenGet | src/lib/cache/cache.ts:34-56 | after `take`/`del` at t, `get` at t or later returns `undefined` |
| TtlCache.Cache.Put | src/lib/cache/cache.ts:14-24 | returns the data and the dictionary becomes `Stored(old, name, data, now, ttl)` |
| TtlCache.Cache.constructor | src/lib/cache/cache.ts:11-12 | a new cache holds no entries and keeps its ttl |
| TtlCache.Cache.Get | src/lib/cache/cache.ts:26-32 | TypeError iff the name is absent; the data iff present and now < expiry |
| TtlCache.Cache.Take | src/lib/cache/cache.ts:34-43 | returns the stored data iff the name is present (expired or not) and expires the entry at now |
| TtlCache.Cache.Del | src/lib/cache/cache.ts:45-52 | expires a present entry at now without removing its data |
| TtlCache.Cache.GetOrFetch | src/lib/cache/cache.ts:58-64 | `fetch` is called iff the name is absent; a present entry (expired or not) is returned unchanged; a fetched value is stored with expiry now + ttl and returned; a `fetch` that throws propagates and stores nothing |
| EventBus.Without | src/lib/eventaggregator/eventAggregator.ts:33 | the filter keeps exactly the other handlers and never grows the list |
| EventBus.Subscribed | src/lib/eventaggregator/eventAggregator.ts:29 | subscribing puts the handler in front of the topic's old list (an empty list for a new topic) and leaves every other topic's list as it was |
| EventBus.Disposed | src/lib/eventaggregator/eventAggregator.ts:32-34 | disposing removes the function from its topic and touches no other topic |
| EventBus.Calls | src/lib/eventaggregator/eventAggregator.ts:48-52 | one call per handler of the list, in list order, each with (topic, data) |
| EventBus.Failures | src/lib/eventaggregator/eventAggregator.ts:20-26 | exactly the calls whose handler threw are logged |
| EventBus.WithoutIdempotent | src/lib/eventaggregator/eventAggregator.ts:33 | filtering a second time removes nothing more |
| EventBus.WithoutConcat | src/lib/eventaggregator/eventAggregator.ts:33 | the filter keeps the order of the remaining handlers |
| EventBus.DisposeIdempotent | src/lib/eventaggregator/eventAggregator.ts:32-34 | a second `dispose` leaves the registry unchanged |
| EventBus.DisposeRemovesOnlyThat | src/lib/eventaggregator/eventAggregator.ts:32-34 | `dispose` removes that handler, keeps the others of its topic in order and leaves other topics unchanged |
| EventBus.DisposeAfterSubscribe | src/lib/eventaggregator/eventAggregator.ts:28-34 | disposing a subscription removes every earlier subscription of the same function too |
| EventBus.NewestFirst | src/lib/eventaggregator/eventAggregator.ts:28-51 | the newest subscription is called first, the one before it second |
| EventBus.ApplyOpsKeepsOk | src/lib/eventaggregator/eventAggregator.ts:28-34 | subscriptions and disposals made by handlers keep the registry invariant (each once-wrapper live, on its own topic, at most once) |
| EventBus.SubscribeOnceKeepsOk | src/lib/eventaggregator/eventAggregator.ts:38-46 | `subscribeOnce` keeps the registry invariant and its new wrapper is on no list yet |
| EventBus.ApplyOpsKeepsRetired | src/lib/eventaggregator/eventAggregator.ts:28-46 | no subscription or disposal a handler makes can put back a once-wrapper that was taken off its topic |
| EventBus.Invoke | src/lib/eventaggregator/eventAggregator.ts:38-43 | after the publish loop calls a once-wrapper it is off its topic's list, whatever the subscriber's function does |
| EventBus.Run | src/lib/eventaggregator/eventAggregator.ts:48-52 | after the publish loop every once-wrapper it called is off its topic's list, whatever the handlers did |
| EventBus.RunKeepsRetired | src/lib/eventaggregator/eventAggregator.ts:48-52 | a publish never puts back a once-wrapper that was already taken off its topic |
| EventBus.EventAggregator.constructor | src/lib/eventaggregator/eventAggregator.ts:17-18 | a new bus has no topics and no spent once-wrappers |
| EventBus.EventAggregator.Subscribe | src/lib/eventaggregator/eventAggregator.ts:28-36 | the handler goes in front of its topic's list; the invariant is kept |
| EventBus.EventAggregator.Dispose | src/lib/eventaggregator/eventAggregator.ts:32-34 | the registry becomes `Disposed(old, topic, handler)`; the invariant is kept |
| EventBus.EventAggregator.SubscribeOnce | src/lib/eventaggregator/eventAggregator.ts:38-46 | subscribes a new wrapper, distinct from every function already registered or already called |
| EventBus.EventAggregator.WithErrorHandling | src/lib/eventaggregator/eventAggregator.ts:20-43 | a once-wrapper disposes itself, then the subscriber's function runs; a throw is reported, not propagated |
| EventBus.EventAggregator.CallHandler | src/lib/eventaggregator/eventAggregator.ts:51 | one iteration of the publish loop calls the next handler of the snapshot and keeps the loop's invariant |
| EventBus.EventAggregator.Publish | src/lib/eventaggregator/eventAggregator.ts:48-52 | calls every handler of the list as it stood when publish began, in order, each with (topic, data); throws are logged and the loop continues; no once-wrapper is called twice or after it was spent |
| EventBus.SubscribeOnceDeliversOnce | src/lib/eventaggregator/eventAggregator.ts:38-52 | a `subscribeOnce` handler is called by the first publish and never by the next, whatever the handlers subscribe, subscribe once or dispose meanwhile |
| EventBus.ThrowingHandlerIsIsolated | src/lib/eventaggregator/eventAggregator.ts:20-52 | a throwing handler is logged once and the other handler is still called |
| EventBus.DisposeStopsDelivery | src/lib/eventaggregator/eventAggregator.ts:28-52 | a subscribed handler receives each publish until disposed, and none after |
| EventBus.ChangesDuringPublishApplyLater | src/lib/eventaggregator/eventAggregator.ts:28-52 | a handler that subscribes another and disposes itself during a publish does not change who that publish calls; the next publish calls only the new one |
| EventBus.SelfReplacement | src/lib/eventaggregator/eventAggregator.ts:28-52 | a handler that subscribes another and then disposes itself leaves only the other on the topic |
| EventBus.QuietRun | src/lib/eventaggregator/eventAggregator.ts:48-52 | a handler that changes nothing leaves the bus as it found it |
| EventBus.OnceSubscriberRun | src/lib/eventaggregator/eventAggregator.ts:38-52 | a handler that calls `subscribeOnce` on its own topic puts a fresh wrapper in front of itself |
| EventBus.WrapperThenSubscriberRun | src/lib/eventaggregator/eventAggregator.ts:38-52 | a wrapper in front of such a handler takes itself off; the handler then puts the next fresh wrapper in front |
| EventBus.PublishAddsWrapper | src/lib/eventaggregator/eventAggregator.ts:38-52 | the publish calls only the handler, and afterwards its topic holds the new wrapper then the handler |
| EventBus.PublishReplacesWrapper | src/lib/eventaggregator/eventAggregator.ts:38-52 | the publish calls the wrapper's subscriber, then the handler; afterwards a fresh wrapper, numbered with the bus's next serial, stands in front |
| EventBus.OnceSubscribedDuringPublish | src/lib/eventaggregator/eventAggregator.ts:38-52 | a wrapper subscribed during a publish is not called by it; each later publish calls one fresh wrapper, never the same one twice |
| Scheduling.ParseTimeOfClock | src/module/scheduler/scheduler.ts:38 | a time written "HH:MM" parses back to that hour and minute |
| Scheduling.IsCorrectDow | src/module/scheduler/scheduler.ts:33-35 | true iff some listed weekday equals the locale-lower-cased short name of the local weekday; then some listed entry has no upper-case letter |
| Scheduling.ParseTime | src/module/scheduler/scheduler.ts:38 | a time without a colon has no minute |
| Scheduling.IsCorrectTime | src/module/scheduler/scheduler.ts:37-43 | true only for a zone the time library knows and a time with a colon: NaN equals nothing |
| Scheduling.IsSunCalcTime | src/module/scheduler/scheduler.ts:45-53 | true only when the solar event occurs that day |
| Scheduling.Matches | src/module/scheduler/scheduler.ts:77-86 | a selected schedule's weekday is listed; a selected fixed-time schedule has a known zone and a colon in its time; a selected solar schedule's event occurs |
| Scheduling.FixedTimeMatch | src/module/scheduler/scheduler.ts:33-43 | a fixed-time schedule matches iff its weekdays list today's lower-cased short name and the instant in its zone has its hour and minute; seconds play no part |
| Scheduling.SunCalcMatch | src/module/scheduler/scheduler.ts:45-53 | a solar schedule matches iff the weekday is listed and the local hour and minute equal the event's (no match when the event does not occur) |
| Scheduling.WrongDayNeverMatches | src/module/scheduler/scheduler.ts:33-35 | a schedule whose weekdays omit today never matches, whatever the time |
| Scheduling.GroupDevices | src/module/scheduler/scheduler.ts:58-60 | a device entry is published iff some configured group named by the schedule lists it |
| Scheduling.GroupDevicesConcat | src/module/scheduler/scheduler.ts:58-60 | entries follow configuration order and duplicates are kept: groups' lists are concatenated |
| Scheduling.GroupDevicesByMembership | src/module/scheduler/scheduler.ts:58-60 | only which configured uids the schedule names matters, not their order, repetition or unknown uids |
| Scheduling.Fire | src/module/scheduler/scheduler.ts:55-65 | first the info line `Firing command "<name>" for device groups <uids joined by ",">`, then one publish on "somfy:" + command name whose payload is the decoded entries of the named groups in the configured groups' order; a device is in it iff a named group holds its entry |
| Scheduling.Decoded | src/module/scheduler/scheduler.ts:61-62 | one decoded string per entry, in order |
| Scheduling.CommandTopicOfKnownNames | src/module/scheduler/scheduler.ts:64 | the seven command names give exactly the seven command topics |
| Scheduling.BurstFiresOnce | src/module/scheduler/scheduler.ts:71 | calls each less than 60 s after the previous pass the gate at most at the first |
| Scheduling.GateOpen | src/module/scheduler/scheduler.ts:71 | the leading-edge debounce: open at the first call, closed less than 60 000 ms after the last call, open again from then on |
| Scheduling.ExecutionsRepeat | src/module/scheduler/scheduler.ts:71 | a chain of debounced `execute` calls, each recording its time, performs `fire` exactly as many times as the gate passes |
| Scheduling.SixtyTicksFireOnce | src/module/scheduler/scheduler.ts:71 | sixty calls of a debounced `execute` 500 ms apart pass the gate once and perform `fire` once, at the first call |
| Scheduling.Selected | src/module/scheduler/scheduler.ts:77-87 | a filter pass selects exactly the flagged schedules, in configuration order |
| Scheduling.FixedFlags | src/module/scheduler/scheduler.ts:77-80 | the first pass selects exactly the fixed-time schedules that match |
| Scheduling.SunFlags | src/module/scheduler/scheduler.ts:83-86 | the second pass selects exactly the solar schedules that match |
| Scheduling.TickOrderShape | src/module/scheduler/scheduler.ts:77-87 | a tick runs exactly the matching schedules, every fixed-time one before every solar one, each pass in configuration order, none twice |
| Scheduling.RecentCallsAreSilent | src/module/scheduler/scheduler.ts:71 | schedules all called less than 60 s ago publish nothing |
| Scheduling.Scheduler.constructor | src/module/scheduler/scheduler.ts:68-72 | `start` creates one debounce state per schedule, none called yet |
| Scheduling.Scheduler.Execute | src/module/scheduler/scheduler.ts:71 | the debounced `execute` fires iff the gate is open and records the call either way |
| Scheduling.Scheduler.RunPass | src/module/scheduler/scheduler.ts:77-87 | `forEach(execute)` over one filtered list appends each schedule's gated effects in order |
| Scheduling.Scheduler.Tick | src/module/scheduler/scheduler.ts:74-88 | a tick's effects are the gated `fire`s of the tick order, judged on the state before the tick; every executed schedule's call time becomes now |
| Scheduling.NextTickIsSilent | src/module/scheduler/scheduler.ts:71-88 | the tick after one that fired, 500 ms later, publishes nothing |
| Scheduling.SoleScheduleOrder | src/module/scheduler/scheduler.ts:77-87 | with one schedule configured, a tick on which it matches runs exactly that schedule |
| Scheduling.TickSole | src/module/scheduler/scheduler.ts:74-88 | such a tick performs that schedule's gated `fire` and records the call |
| Scheduling.SelectedTicksPublishOnce | src/module/scheduler/scheduler.ts:68-88 | when the schedule is the only one configured and every `Tick` (same clock readings `local`, `inZone`, `solar`, instants less than 60 s apart) selects it, the ticks together publish its command exactly once |
| Scheduling.MatchingTicksPublishOnce | src/module/scheduler/scheduler.ts:68-88 | when the schedule is the only one configured, matches the clock readings (`local`, `inZone`, `solar`) that every tick shares, and the ticks' instants are less than 60 s apart (about 120 in its minute), the ticks together perform its `fire` exactly once |
| SomfyDispatch.Report | src/module/somfy/somfy.ts:13-25 | a resolved `exec` logs the success line via info, a rejected one the failure line via error |
| SomfyDispatch.CreateCommand | src/module/somfy/somfy.ts:16-20 | the vendor receives the command as one action for that url holding exactly that command name and those parameters |
| SomfyDispatch.CommandsFor | src/module/somfy/somfy.ts:23 | one parameterless command per device url, in order |
| SomfyDispatch.ExecForDevices | src/module/somfy/somfy.ts:16-26 | one `exec` with one command per device url, in order, named after the event, without parameters, then the outcome's log line |
| SomfyDispatch.FirstMoving | src/module/somfy/somfy.ts:30-34 | the filter/find finds a device iff some listed device with a requested url is moving |
| SomfyDispatch.AnyMoving | src/module/somfy/somfy.ts:32-34 | the reference predicate that `FirstMoving` and `IsMoving` are tied to: some listed device whose url is requested is moving; nothing moves when nothing is listed or nothing is requested |
| SomfyDispatch.IsMoving | src/module/somfy/somfy.ts:30-35 | true iff the query succeeded and some listed, requested device moves; a failed query, logged and resolved to `undefined`, counts as not moving |
| SomfyDispatch.ExecMyForDevices | src/module/somfy/somfy.ts:28-50 | an empty list does nothing; otherwise the device query comes first, the query error is logged on failure, the note is logged iff a requested device moves, and "stop" (if so) or "my" goes to the whole list; these are all the effects (three, plus one for a failed query, plus one for the note) |
| SomfyDispatch.FailedQueryStillSendsMy | src/module/somfy/somfy.ts:30-48 | after a failed query the error is logged and "my" is sent to every requested device |
| SomfyDispatch.OnlyRequestedDevicesCount | src/module/somfy/somfy.ts:32-34 | movement of devices outside the requested list does not turn "my" into "stop" |
| SomfyDispatch.OnSetDeployment | src/module/somfy/somfy.ts:61-71 | one `exec` with one command per entry, in order, named "setDeployment" with parameters [percentage], then the outcome's log line |
| SomfyDispatch.DeploymentCommands | src/module/somfy/somfy.ts:64-68 | one "setDeployment" command per entry, in order, with that entry's url and its percentage as the only parameter |
| SomfyDispatch.OnDevices | src/module/somfy/somfy.ts:54-59 | the up/down/stop/identify/wink handlers send their command; the "my" handler runs the interlock |
| SomfyDispatch.BindingsCoverTopics | src/module/somfy/somfy.ts:53-71 | `start` binds each of the seven command topics exactly once and no other topic |
| SomfyDispatch.SimpleHandlersUseTheirTopicName | src/module/somfy/somfy.ts:54-58 | each simple handler sends the command its topic is named after |
| SomfyDispatch.SimpleCommandRequest | src/module/somfy/somfy.ts:22-26 | a simple command reaches the vendor as one action per device url, in order, with one parameterless inner command |
| SomfyDispatch.StartRegistersEveryTopic | src/module/somfy/somfy.ts:53-71 | after `start` each command topic's newest handler is the dispatcher's, and no other topic changes |
| SomfyDispatch.Start | src/module/somfy/somfy.ts:53-71 | the seven subscriptions are made on the bus in source order |
| SomfyApi.Actions | src/service/somfy/somfy.ts:52-60 | one action per command, in order; its deviceURL is the command's url and it holds exactly one inner command with the command's name and parameters (absent when absent) |
| SomfyApi.ActionsRoundTrip | src/service/somfy/somfy.ts:52-60 | every command can be read back from its action |
| SomfyApi.ActionsInjective | src/service/somfy/somfy.ts:52-60 | different command batches give different bodies |
| SomfyApi.ExecRequest | src/service/somfy/somfy.ts:49-74 | a single POST to `http://<host>/enduser-mobile-web/1/enduserAPI/exec/apply` carrying the api key as X-Auth-Token with the JSON Content-Type, whose body is `Actions(commands)`: one action per command, in input order, with its url, name and parameters |
| SomfyApi.DevicesRequest | src/service/somfy/somfy.ts:85-95 | a GET of `http://<host>/enduser-mobile-web/1/enduserAPI/setup/devices` carrying the api key |
| SomfyApi.FindState | src/service/somfy/somfy.ts:77 | `find` returns the first state with the name, or none when no state has it |
| SomfyApi.MapToDevice | src/service/somfy/somfy.ts:76-83 | url kept; moving iff the first `core:MovingState` state exists and its value is non-zero |
| SomfyApi.NoMovingStateMeansStill | src/service/somfy/somfy.ts:77-81 | a device without a moving-state entry is not moving |
| SomfyApi.FirstMovingStateDecides | src/service/somfy/somfy.ts:77 | a later moving-state entry cannot change the verdict |
| SomfyApi.GetDevices | src/service/somfy/somfy.ts:95-97 | every returned device is mapped, count and order kept |
| RestApi.FindDevice | src/module/rest/rest.ts:39 | the first device with the uid, or none when no device has it |
| RestApi.MapDevices | src/module/rest/rest.ts:46-47 | at most one device per requested uid, each configured; a device appears iff some requested uid resolves to it |
| RestApi.MapDevicesConcat | src/module/rest/rest.ts:46-47 | resolution follows request order and keeps duplicates |
| RestApi.MapDevicesAllKnown | src/module/rest/rest.ts:46-47 | with every uid known nothing is dropped: one device per uid, with that uid, in order |
| RestApi.UnknownUidIgnored | src/module/rest/rest.ts:47 | an unknown uid contributes nothing |
| RestApi.Distinct | src/module/rest/rest.ts:43 | `Array.from(new Set(xs))` holds each element of xs once, in first-occurrence order |
| RestApi.ToDeviceUrls | src/module/rest/rest.ts:37-44 | a url is returned iff some requested uid's first matching device has it; no duplicates; in order of first request |
| RestApi.RepeatedUidOnce | src/module/rest/rest.ts:43 | a uid requested twice yields its url once |
| RestApi.GroupListing | src/module/rest/rest.ts:73-79 | every configured group, in order, with its uid and name and its known devices as {uid, name} |
| RestApi.GroupListingComplete | src/module/rest/rest.ts:73-79 | a group whose devices are all configured lists all of them, by uid, in order |
| RestApi.DeviceViews | src/module/rest/rest.ts:77 | one {uid, name} per resolved device, in order, no more than requested, each taken from a configured device |
| RestApi.GroupViewOf | src/module/rest/rest.ts:88-91 | uid and name kept; the devices are the resolved views, never more than the group lists |
| RestApi.FindGroup | src/module/rest/rest.ts:86 | the first group with the uid (every earlier group has another uid), or none when no group has it |
| RestApi.GroupViews | src/module/rest/rest.ts:84-91 | never more views than named uids |
| RestApi.GroupViewsKnown | src/module/rest/rest.ts:84-91 | the listed groups' uids are exactly the configured uids among those named, in the schedule's order: unknown ones dropped, repeats kept |
| RestApi.GroupViewsResolved | src/module/rest/rest.ts:86-91 | each listed group is the view of the first configured group with its uid |
| RestApi.GroupViewsRoundTrip | src/module/rest/rest.ts:84-91 | when every group a schedule names is configured, the listing names the same groups in the same order |
| RestApi.ScheduleViewOf | src/module/rest/rest.ts:94-97 | all schedule fields but the groups are unchanged; the groups are the resolved views |
| RestApi.ScheduleListing | src/module/rest/rest.ts:83-99 | every schedule, in order, projected |
| RestApi.ScheduleListingRoundTrip | src/module/rest/rest.ts:83-99 | a schedule whose groups are all configured is listed without loss |
| RestApi.FindSchedule | src/module/rest/rest.ts:104 | the first schedule with the uid (every earlier schedule has another uid), or none when no schedule has it |
| RestApi.ScheduleDeviceUids | src/module/rest/rest.ts:108-110 | a uid is listed iff it is non-empty and a group named by the schedule holds it; empty uids never appear |
| RestApi.ScheduleDeviceUidsOne | src/module/rest/rest.ts:108-110 | one named group contributes the non-empty device uids of the first configured group with that uid, in that group's order; an unknown uid contributes nothing |
| RestApi.ScheduleDeviceUidsConcat | src/module/rest/rest.ts:108-110 | the result follows the schedule's group order: the uids for `u1 + u2` are those for `u1` followed by those for `u2` (duplicates kept, as `flat` keeps them) |
| RestApi.NonEmpty | src/module/rest/rest.ts:110 | the truthiness filter keeps exactly the non-empty strings |
| RestApi.NonEmptyConcat | src/module/rest/rest.ts:110 | the filter keeps order: filtering `xs + ys` gives the filtered `xs` followed by the filtered `ys` |
| RestApi.ExecuteSchedule | src/module/rest/rest.ts:101-116 | logs the requested uid; publishes iff a schedule has it, on its command's event, with the urls of its groups' devices |
| RestApi.ExecuteFirstMatch | src/module/rest/rest.ts:104-115 | wherever the first schedule with the uid stands, and whatever follows it, that schedule is the one executed |
| RestApi.RouteTopic | src/module/rest/rest.ts:123-169 | every shutter route publishes on a command topic other than setDeployment |
| RestApi.RouteTopicNamesCommand | src/module/rest/rest.ts:123-169 | each route publishes on "somfy:" + its command |
| RestApi.RouteTopicInjective | src/module/rest/rest.ts:123-169 | distinct routes publish on distinct topics |
| RestApi.ShutterCommand | src/module/rest/rest.ts:123-169 | logs `Received "<command>" command for devices with uids [<uids joined by ", ">]` and makes exactly one publication, on the route's topic, whose payload is `ToDeviceUrls`: the urls of the requested uids that name a device, without repeats, in first-request order |

## Left out

- HTTP, Express middleware (CORS, basic auth, body parsing), route registration and responses are not modelled. Each handler is a function returning its log line and publication. The second response that `/schedule/execute` sends after a successful publish is not modelled.
- `src/index.ts` and `src/environment.ts` (bootstrapping, file and environment reads) are not part of this model.
- `src/service/sunrise-sunset/sunrise-sunset.ts` (a network fetch) and `src/module/scheduler/eventMapping.ts` (not imported by the modelled code) are not part of this model.
- SunCalc's astronomy, luxon's zone conversion and weekday naming, and Node's base64/UTF-8 decoding are inputs, not models.
- The `debounce` library is not part of this model. Its leading-edge behaviour is modelled as a per-schedule gate: the gate is open when the schedule was never called, or was last called at least 60 000 ms earlier. This assumes timers fire on time and the clock never goes backwards.
- `setInterval` is replaced by explicit `Tick` calls. `fire` publishing through the bus is modelled as a `Publish` effect, not as a bus call.
- Promise scheduling is not modelled. A handler's effects are listed in the order the code issues them. The effects of concurrent handlers are not interleaved.
- Handlers on the bus do not publish from inside a handler (no nested publish). A handler's registry changes are `subscribe`, `subscribeOnce` and `dispose`; anything else it does is outside the bus.
- EventBus.SubscribeOnceDeliversOnce: exactly-once rests on that exclusion. In the source a handler called ahead of a `subscribeOnce` wrapper may publish the same topic again; the nested publish calls the wrapper before the outer publish has disposed it, so the handler runs twice (src/lib/eventaggregator/eventAggregator.ts:39-43, 49-51).
- A handler's disposal of a topic that was never subscribed to creates an empty list for that topic. The code would throw there, but no caller can reach that case.
- Text.Lower, Text.Upper: cover ASCII letters only, not full Unicode case mapping.
- Text.ParseInt: returns an unbounded integer where `parseInt` returns a double. Above 2^53 the result loses precision. No schedule time reaches that range.
- SomfyApi.MapToDevice: state values are integers. A NaN value, which `Boolean` treats as false, is not modelled.
- The logger's `message` is a string. Other values that JavaScript would format in the template literal are not modelled.
- The `commandToSomfyEvent` mapping used by `/schedule/execute` is not in the modelled files. It is the `commandToEvent` parameter.
- TtlCache.Lookup: the source keeps entries in a plain JavaScript object, so a name inherited from `Object.prototype` (such as `toString`) is never absent there. `get` then returns `undefined` instead of throwing, and `getOrFetch` returns the inherited member without calling `fetch`. The model's dictionaries hold only stored names. Topic names on the bus are keys of a plain object too; `subscribe` and `publish` on such a name throw in the source, which the model does not capture either.
- `Deployment.percentage` and numeric command parameters are integers, while JavaScript numbers may be fractional. The model only passes these values through, so nothing depends on it.
