/**
 * The schedule evaluator: on every tick it selects the fixed-time schedules
 * whose weekday and wall-clock minute match, then the solar schedules whose
 * weekday and solar-event minute match, and runs each selected schedule's
 * debounced `fire`, which logs and publishes the command for the devices of
 * the schedule's groups.
 *
 * Time-zone conversion, weekday naming and the solar-event computation are
 * inputs: `inZone(zone)` is the tick's instant read in that zone (`None`
 * for a zone name the time library does not know, whose hour and minute
 * are then NaN), `local` is the same instant in the process's own zone, and
 * `solar(s)` is the event time of a solar schedule for the tick's date
 * (`None` when it does not occur, which the source sees as an invalid date).
 */
module Scheduling {
  import opened Types
  import opened Text

  const CheckIntervalMs: int := 500
  const DebounceMs: int := 60000

  /** An instant read in one zone. */
  datatype ZonedTime = ZonedTime(weekdayShort: string, hour: int, minute: int, second: int)

  /** The hour and minute of a solar event. */
  datatype ClockTime = ClockTime(hour: int, minute: int)

  /** What `fire` does, in order. */
  datatype Effect = LogInfo(text: string) | Publish(topic: string, devices: seq<string>)

  /**
   * `isCorrectDow`: the lower-cased short weekday of the local instant is
   * listed. The listed names are compared as written, so only an entry
   * without upper-case letters can ever match.
   */
  predicate IsCorrectDow(s: Schedule, local: ZonedTime): (r: bool)
    ensures r <==> exists k :: 0 <= k < |s.dow| && s.dow[k] == Lower(local.weekdayShort)
    ensures r ==> exists k :: 0 <= k < |s.dow| && forall i :: 0 <= i < |s.dow[k]| ==> !('A' <= s.dow[k][i] <= 'Z')
  {
    Lower(local.weekdayShort) in s.dow
  }

  /**
   * `time.split(':').map(parseInt)` destructured into hour and minute
   * (`None` for NaN or missing); without a colon there is no minute.
   */
  function ParseTime(time: string): (hm: (Option<int>, Option<int>))
    ensures ':' !in time ==> hm.1.None?
  {
    var parts := Split(time, ':');
    assert ':' !in time ==> |parts| == 1 by {
      if ':' !in time {
        SplitFree(time, ':');
      }
    }
    (ParseInt(parts[0]), if |parts| >= 2 then ParseInt(parts[1]) else None)
  }

  /**
   * `isCorrectTime`: the instant read in the schedule's zone has the parsed
   * hour and minute. NaN equals nothing, so an unknown zone or a time
   * without a colon never matches.
   */
  predicate IsCorrectTime(time: string, zoned: Option<ZonedTime>): (r: bool)
    ensures r ==> zoned.Some? && ':' in time
  {
    var (hour, minute) := ParseTime(time);
    zoned.Some? && minute == Some(zoned.value.minute) && hour == Some(zoned.value.hour)
  }

  /**
   * `isSunCalcTime`: the local instant has the solar event's hour and
   * minute; an event that does not occur that day never matches.
   */
  predicate IsSunCalcTime(local: ZonedTime, event: Option<ClockTime>): (r: bool)
    ensures r ==> event.Some?
  {
    event.Some? && local.minute == event.value.minute && local.hour == event.value.hour
  }

  /**
   * Whether schedule `s` is selected on a tick: its weekday is listed and,
   * for a fixed time, its zone is known and its time has a colon, for a
   * solar event, the event occurs that day.
   */
  predicate Matches(s: Schedule, local: ZonedTime, inZone: string -> Option<ZonedTime>,
                    solar: Schedule -> Option<ClockTime>): (r: bool)
    ensures r ==> IsCorrectDow(s, local)
    ensures r && s.FixedTime? ==> inZone(s.timezone).Some? && ':' in s.time
    ensures r && s.SunCalc? ==> solar(s).Some?
  {
    match s
    case FixedTime(_, _, _, _, time, timezone) => IsCorrectDow(s, local) && IsCorrectTime(time, inZone(timezone))
    case SunCalc(_, _, _, _, _, _) => IsCorrectDow(s, local) && IsSunCalcTime(local, solar(s))
  }

  /** A fixed time written "HH:MM" is read back as that hour and minute. */
  lemma ParseTimeOfClock(hour: nat, minute: nat)
    requires hour < 100 && minute < 100
    ensures ParseTime(TwoDigits(hour) + ":" + TwoDigits(minute)) == (Some(hour as int), Some(minute as int))
  {
    var h, m := TwoDigits(hour), TwoDigits(minute);
    assert ':' !in h && ':' !in m;
    SplitAt(h, ':', m);
    SplitFree(m, ':');
    assert h + ":" + m == h + [':'] + m;
    ParseTwoDigits(hour);
    ParseTwoDigits(minute);
  }

  /**
   * A fixed-time schedule written "HH:MM" is selected exactly when the local
   * weekday is listed and the instant in its zone is at that hour and minute;
   * the seconds play no part.
   */
  lemma FixedTimeMatch(s: Schedule, hour: nat, minute: nat, local: ZonedTime,
                       inZone: string -> Option<ZonedTime>, solar: Schedule -> Option<ClockTime>)
    requires s.FixedTime? && hour < 24 && minute < 60
    requires s.time == TwoDigits(hour) + ":" + TwoDigits(minute)
    ensures Matches(s, local, inZone, solar) <==>
            && Lower(local.weekdayShort) in s.dow && inZone(s.timezone).Some?
            && inZone(s.timezone).value.hour == hour && inZone(s.timezone).value.minute == minute
  {
    ParseTimeOfClock(hour, minute);
  }

  /** A solar schedule is selected exactly when the weekday is listed and the event is at this minute. */
  lemma SunCalcMatch(s: Schedule, local: ZonedTime, inZone: string -> Option<ZonedTime>, solar: Schedule -> Option<ClockTime>)
    requires s.SunCalc?
    ensures Matches(s, local, inZone, solar) <==>
            Lower(local.weekdayShort) in s.dow && solar(s).Some?
            && local.hour == solar(s).value.hour && local.minute == solar(s).value.minute
  {
  }

  /** A schedule whose weekdays omit today's is never selected, whatever the time. */
  lemma WrongDayNeverMatches(s: Schedule, local: ZonedTime, inZone: string -> Option<ZonedTime>, solar: Schedule -> Option<ClockTime>)
    requires Lower(local.weekdayShort) !in s.dow
    ensures !Matches(s, local, inZone, solar)
  {
  }

  /**
   * `deviceGroups.filter(g => wanted.includes(g.uid)).flatMap(g => g.devices)`:
   * the device entries of every configured group the schedule names, in
   * configuration order, duplicates kept.
   */
  function GroupDevices(groups: seq<DeviceGroup>, wanted: seq<string>): (r: seq<string>)
    ensures forall d :: d in r <==> exists k :: 0 <= k < |groups| && groups[k].uid in wanted && d in groups[k].devices
  {
    if groups == [] then []
    else
      var rest := GroupDevices(groups[1..], wanted);
      assert forall d :: d in rest <==> exists k :: 1 <= k < |groups| && groups[k].uid in wanted && d in groups[k].devices by {
        forall d | d in rest
          ensures exists k :: 1 <= k < |groups| && groups[k].uid in wanted && d in groups[k].devices
        {
          var k :| 0 <= k < |groups[1..]| && groups[1..][k].uid in wanted && d in groups[1..][k].devices;
          assert groups[k + 1] == groups[1..][k];
        }
        forall d, k | 1 <= k < |groups| && groups[k].uid in wanted && d in groups[k].devices
          ensures d in rest
        {
          assert groups[1..][k - 1] == groups[k];
        }
      }
      (if groups[0].uid in wanted then groups[0].devices else []) + rest
  }

  /** Concatenating configurations concatenates the results: nothing is merged or removed. */
  lemma {:induction false} GroupDevicesConcat(g1: seq<DeviceGroup>, g2: seq<DeviceGroup>, wanted: seq<string>)
    ensures GroupDevices(g1 + g2, wanted) == GroupDevices(g1, wanted) + GroupDevices(g2, wanted)
  {
    if g1 == [] {
      assert g1 + g2 == g2;
    } else {
      assert (g1 + g2)[0] == g1[0] && (g1 + g2)[1..] == g1[1..] + g2;
      GroupDevicesConcat(g1[1..], g2, wanted);
    }
  }

  /**
   * Only which uids the schedule names matters, not their order or
   * repetition, nor uids that no configured group has.
   */
  lemma {:induction false} GroupDevicesByMembership(groups: seq<DeviceGroup>, w1: seq<string>, w2: seq<string>)
    requires forall k :: 0 <= k < |groups| ==> (groups[k].uid in w1 <==> groups[k].uid in w2)
    ensures GroupDevices(groups, w1) == GroupDevices(groups, w2)
  {
    if groups != [] {
      GroupDevicesByMembership(groups[1..], w1, w2);
    }
  }

  function Decoded(entries: seq<string>, decode: string -> string): (r: seq<string>)
    ensures |r| == |entries|
    ensures forall k :: 0 <= k < |entries| ==> r[k] == decode(entries[k])
  {
    seq(|entries|, k requires 0 <= k < |entries| => decode(entries[k]))
  }

  /** The topic `fire` publishes on: the command name appended to "somfy:", for any name. */
  function CommandTopic(name: string): string {
    "somfy:" + name
  }

  /** The seven command names are exactly the ones whose topic is a command topic. */
  lemma CommandTopicOfKnownNames()
    ensures CommandTopic("up") == UpTopic && CommandTopic("down") == DownTopic
    ensures CommandTopic("setDeployment") == SetDeploymentTopic && CommandTopic("wink") == WinkTopic
    ensures CommandTopic("identify") == IdentifyTopic && CommandTopic("stop") == StopTopic
    ensures CommandTopic("my") == MyTopic
  {
  }

  /**
   * `fire(schedule)`: one info line naming the command and the schedule's
   * group uids, then one publish of the decoded device entries of its groups.
   * `decode` stands for base64 decoding followed by UTF-8 reading.
   */
  function Fire(s: Schedule, groups: seq<DeviceGroup>, decode: string -> string): (effects: seq<Effect>)
    ensures |effects| == 2 && effects[1].Publish?
    ensures effects[0] == LogInfo("Firing command \"" + s.command.name + "\" for device groups "
                                  + Join(s.deviceGroups, ","))
    ensures effects[1].topic == CommandTopic(s.command.name)
    ensures effects[1].devices == Decoded(GroupDevices(groups, s.deviceGroups), decode)
    ensures forall d :: d in effects[1].devices <==>
              exists k :: 0 <= k < |groups| && groups[k].uid in s.deviceGroups && d in Decoded(groups[k].devices, decode)
  {
    var entries := GroupDevices(groups, s.deviceGroups);
    var devices := Decoded(entries, decode);
    assert forall d :: d in devices <==> exists e :: e in entries && d == decode(e);
    [ LogInfo("Firing command \"" + s.command.name + "\" for device groups " + Join(s.deviceGroups, ",")),
      Publish(CommandTopic(s.command.name), devices) ]
  }

  /**
   * The debounce gate of `debounce(fire, debounceMs, true)`: it fires on the
   * leading edge, so a never-called `execute` fires at once, and afterwards
   * only once a full window has passed since the last call.
   */
  predicate GateOpen(last: Option<int>, now: int): (r: bool)
    ensures last.None? ==> r
    ensures last.Some? && now < last.value + DebounceMs ==> !r
    ensures last.Some? && now >= last.value + DebounceMs ==> r
  {
    last.None? || now - last.value >= DebounceMs
  }

  /** How many of the calls made at `times` get through the gate; every call restarts the window. */
  function GateFires(last: Option<int>, times: seq<int>): nat
    decreases |times|
  {
    if times == [] then 0
    else (if GateOpen(last, times[0]) then 1 else 0) + GateFires(Some(times[0]), times[1..])
  }

  /** Calls each less than a window after the previous one pass the gate at most at the first. */
  lemma {:induction false} BurstFiresOnce(last: Option<int>, times: seq<int>)
    requires |times| > 0
    requires forall k :: 0 <= k < |times| - 1 ==> times[k + 1] - times[k] < DebounceMs
    ensures GateFires(last, times) == if GateOpen(last, times[0]) then 1 else 0
    decreases |times|
  {
    if |times| > 1 {
      BurstFiresOnce(Some(times[0]), times[1..]);
    }
  }

  /**
   * The effects of calling a debounced `execute` at each of `times` in turn,
   * each call recording its time as the new last call.
   */
  function Executions(fire: seq<Effect>, last: Option<int>, times: seq<int>): seq<Effect>
    decreases |times|
  {
    if times == [] then []
    else Execution(fire, last, times[0]) + Executions(fire, Some(times[0]), times[1..])
  }

  /** `n` copies of `fire`, one after another. */
  function Repeat(fire: seq<Effect>, n: nat): (r: seq<Effect>)
    ensures |r| == n * |fire|
  {
    if n == 0 then [] else fire + Repeat(fire, n - 1)
  }

  /** A chain of calls performs `fire` once per call that gets through the gate, and nothing else. */
  lemma {:induction false} ExecutionsRepeat(fire: seq<Effect>, last: Option<int>, times: seq<int>)
    ensures Executions(fire, last, times) == Repeat(fire, GateFires(last, times))
    decreases |times|
  {
    if times != [] {
      ExecutionsRepeat(fire, Some(times[0]), times[1..]);
      var rest := Repeat(fire, GateFires(Some(times[0]), times[1..]));
      if !GateOpen(last, times[0]) {
        assert [] + rest == rest;
      }
    }
  }

  lemma ExecutionsStep(fire: seq<Effect>, last: Option<int>, times: seq<int>, k: nat)
    requires k < |times|
    ensures Executions(fire, last, times[k..])
            == Execution(fire, last, times[k]) + Executions(fire, Some(times[k]), times[k + 1..])
  {
    assert times[k..][0] == times[k] && times[k..][1..] == times[k + 1..];
  }

  /** Sixty calls 500 ms apart perform `fire` once: the one at the first call. */
  lemma SixtyTicksFireOnce(fire: seq<Effect>, start: int)
    ensures GateFires(None, seq(60, k => start + k * CheckIntervalMs)) == 1
    ensures Executions(fire, None, seq(60, k => start + k * CheckIntervalMs)) == fire
  {
    var times := seq(60, k => start + k * CheckIntervalMs);
    BurstFiresOnce(None, times);
    ExecutionsRepeat(fire, None, times);
    assert Repeat(fire, 1) == fire + [];
  }

  /** The indices below `n` whose flag is set, in increasing order. */
  function Selected(flags: seq<bool>, n: nat): (r: seq<nat>)
    requires n <= |flags|
    ensures forall k :: 0 <= k < |r| ==> r[k] < n && flags[r[k]]
    ensures forall i :: 0 <= i < n && flags[i] ==> i in r
    ensures forall k, l :: 0 <= k < l < |r| ==> r[k] < r[l]
  {
    if n == 0 then []
    else Selected(flags, n - 1) + (if flags[n - 1] then [n - 1] else [])
  }

  /** Which schedules the first pass of a tick (the fixed-time schedules) selects. */
  function FixedFlags(ss: seq<Schedule>, local: ZonedTime, inZone: string -> Option<ZonedTime>,
                      solar: Schedule -> Option<ClockTime>): (f: seq<bool>)
    ensures |f| == |ss|
    ensures forall i :: 0 <= i < |ss| ==> f[i] == (ss[i].FixedTime? && Matches(ss[i], local, inZone, solar))
  {
    seq(|ss|, i requires 0 <= i < |ss| => ss[i].FixedTime? && Matches(ss[i], local, inZone, solar))
  }

  /** Which schedules the second pass of a tick (the solar schedules) selects. */
  function SunFlags(ss: seq<Schedule>, local: ZonedTime, inZone: string -> Option<ZonedTime>,
                    solar: Schedule -> Option<ClockTime>): (f: seq<bool>)
    ensures |f| == |ss|
    ensures forall i :: 0 <= i < |ss| ==> f[i] == (ss[i].SunCalc? && Matches(ss[i], local, inZone, solar))
  {
    seq(|ss|, i requires 0 <= i < |ss| => ss[i].SunCalc? && Matches(ss[i], local, inZone, solar))
  }

  /** The order in which one tick runs the schedules' debounced `fire`: all fixed-time ones first. */
  function TickOrder(ss: seq<Schedule>, local: ZonedTime, inZone: string -> Option<ZonedTime>,
                     solar: Schedule -> Option<ClockTime>): seq<nat>
  {
    Selected(FixedFlags(ss, local, inZone, solar), |ss|) + Selected(SunFlags(ss, local, inZone, solar), |ss|)
  }

  /** The two passes together visit exactly the indices selected by either. */
  lemma TwoPassMembers(f: seq<bool>, u: seq<bool>)
    requires |f| == |u|
    ensures var order := Selected(f, |f|) + Selected(u, |u|);
            && (forall k :: 0 <= k < |order| ==> order[k] < |f| && (f[order[k]] || u[order[k]]))
            && (forall i :: 0 <= i < |f| && (f[i] || u[i]) ==> i in order)
  {
    var a := Selected(f, |f|);
    var b := Selected(u, |u|);
    forall k | 0 <= k < |a + b|
      ensures (a + b)[k] < |f| && (f[(a + b)[k]] || u[(a + b)[k]])
    {
      if k >= |a| {
        assert (a + b)[k] == b[k - |a|];
      }
    }
  }

  /**
   * Two passes over disjoint selections: every index of the first pass comes
   * before every index of the second, each pass is in increasing order, and
   * no index is visited twice.
   */
  lemma TwoPassOrder(f: seq<bool>, u: seq<bool>)
    requires |f| == |u|
    requires forall i :: 0 <= i < |f| ==> !(f[i] && u[i])
    ensures var order := Selected(f, |f|) + Selected(u, |u|);
            && (forall k, l :: 0 <= k < l < |order| && f[order[l]] ==> f[order[k]])
            && (forall k, l :: 0 <= k < l < |order| && f[order[k]] == f[order[l]] ==> order[k] < order[l])
            && (forall k, l :: 0 <= k < l < |order| ==> order[k] != order[l])
  {
    var a := Selected(f, |f|);
    var b := Selected(u, |u|);
    TwoPassMembers(f, u);
    forall k, l | 0 <= k < l < |a + b|
      ensures f[(a + b)[l]] ==> f[(a + b)[k]]
      ensures f[(a + b)[k]] == f[(a + b)[l]] ==> (a + b)[k] < (a + b)[l]
      ensures (a + b)[k] != (a + b)[l]
    {
      if l < |a| {
        assert (a + b)[k] == a[k] && (a + b)[l] == a[l];
      } else if k >= |a| {
        assert (a + b)[k] == b[k - |a|] && (a + b)[l] == b[l - |a|];
      } else {
        assert (a + b)[k] == a[k] && (a + b)[l] == b[l - |a|];
      }
    }
  }

  /**
   * Within a tick exactly the matching schedules are run, every selected
   * fixed-time schedule before every selected solar schedule, each group in
   * configuration order, and none twice.
   */
  lemma TickOrderShape(ss: seq<Schedule>, local: ZonedTime, inZone: string -> Option<ZonedTime>,
                       solar: Schedule -> Option<ClockTime>)
    ensures var order := TickOrder(ss, local, inZone, solar);
            && (forall k :: 0 <= k < |order| ==> order[k] < |ss|)
            && (forall i :: 0 <= i < |ss| ==> (i in order <==> Matches(ss[i], local, inZone, solar)))
            && (forall k, l :: 0 <= k < l < |order| && ss[order[l]].FixedTime? ==> ss[order[k]].FixedTime?)
            && (forall k, l :: 0 <= k < l < |order| && ss[order[k]].FixedTime? == ss[order[l]].FixedTime? ==>
                  order[k] < order[l])
            && (forall k, l :: 0 <= k < l < |order| ==> order[k] != order[l])
  {
    var f := FixedFlags(ss, local, inZone, solar);
    var u := SunFlags(ss, local, inZone, solar);
    TwoPassMembers(f, u);
    TwoPassOrder(f, u);
    var order := TickOrder(ss, local, inZone, solar);
    forall k | 0 <= k < |order|
      ensures ss[order[k]].FixedTime? == f[order[k]]
    {
      assert order[k] < |ss|;
    }
  }

  /** A pass over `order` after `done`: indices of schedules, none repeated, none already called in the tick. */
  ghost predicate PassOk(n: nat, done: seq<nat>, order: seq<nat>) {
    && (forall k :: 0 <= k < |order| ==> order[k] < n && order[k] !in done)
    && (forall k, l :: 0 <= k < l < |order| ==> order[k] != order[l])
  }

  /** What the two passes of a tick need of each other: each visits distinct schedules, and the second none of the first. */
  lemma TickPasses(ss: seq<Schedule>, local: ZonedTime, inZone: string -> Option<ZonedTime>,
                   solar: Schedule -> Option<ClockTime>)
    ensures var fixed := Selected(FixedFlags(ss, local, inZone, solar), |ss|);
            var sun := Selected(SunFlags(ss, local, inZone, solar), |ss|);
            && TickOrder(ss, local, inZone, solar) == fixed + sun
            && PassOk(|ss|, [], fixed) && PassOk(|ss|, fixed, sun)
  {
    var f := FixedFlags(ss, local, inZone, solar);
    var u := SunFlags(ss, local, inZone, solar);
    var fixed := Selected(f, |ss|);
    var sun := Selected(u, |ss|);
    forall k | 0 <= k < |sun|
      ensures sun[k] !in fixed
    {
      assert u[sun[k]] && !f[sun[k]];
    }
  }

  /** What each schedule's `fire` does on this configuration, by position. */
  function Fires(ss: seq<Schedule>, groups: seq<DeviceGroup>, decode: string -> string): (fires: seq<seq<Effect>>)
    ensures |fires| == |ss|
  {
    seq(|ss|, i requires 0 <= i < |ss| => Fire(ss[i], groups, decode))
  }

  /** The effects of one call of a debounced `execute`: those of `fire` when the gate is open, none otherwise. */
  function Execution(fire: seq<Effect>, last: Option<int>, now: int): seq<Effect> {
    if GateOpen(last, now) then fire else []
  }

  /** The effects of calling the debounced `execute` of the schedules at `order`, gated by `last`. */
  function TickEffects(fires: seq<seq<Effect>>, order: seq<nat>, last: seq<Option<int>>, now: int): seq<Effect>
    requires |last| == |fires|
  {
    if order == [] then []
    else
      var i := order[|order| - 1];
      TickEffects(fires, order[..|order| - 1], last, now)
      + (if i < |fires| then Execution(fires[i], last[i], now) else [])
  }

  /** Appending one schedule to the order appends its gated effects. */
  lemma TickEffectsSnoc(fires: seq<seq<Effect>>, order: seq<nat>, i: nat, last: seq<Option<int>>, now: int)
    requires |last| == |fires| && i < |fires|
    ensures TickEffects(fires, order + [i], last, now)
            == TickEffects(fires, order, last, now) + Execution(fires[i], last[i], now)
  {
    assert (order + [i])[..|order|] == order;
  }

  /** Schedules all called less than a window ago produce nothing. */
  lemma {:induction false} RecentCallsAreSilent(fires: seq<seq<Effect>>, order: seq<nat>, last: seq<Option<int>>,
                                                now: int)
    requires |last| == |fires|
    requires forall k :: 0 <= k < |order| && order[k] < |fires| ==>
               last[order[k]].Some? && now - last[order[k]].value < DebounceMs
    ensures TickEffects(fires, order, last, now) == []
  {
    if order != [] {
      RecentCallsAreSilent(fires, order[..|order| - 1], last, now);
    }
  }

  /** The gate timestamps after the schedules at `order` were called at `now`. */
  function Stamped(last: seq<Option<int>>, order: seq<nat>, now: int): (r: seq<Option<int>>)
    ensures |r| == |last|
    ensures forall i :: 0 <= i < |last| ==> r[i] == if i in order then Some(now) else last[i]
  {
    seq(|last|, i requires 0 <= i < |last| => if i in order then Some(now) else last[i])
  }

  lemma StampedSnoc(last: seq<Option<int>>, order: seq<nat>, i: nat, now: int)
    requires i < |last|
    ensures Stamped(last, order + [i], now) == Stamped(last, order, now)[i := Some(now)]
  {
    var a := Stamped(last, order + [i], now);
    var b := Stamped(last, order, now)[i := Some(now)];
    forall j | 0 <= j < |last|
      ensures a[j] == b[j]
    {
      assert j in order + [i] <==> j in order || j == i;
    }
  }

  lemma VisitedSnoc(done: seq<nat>, order: seq<nat>, k: nat)
    requires k < |order|
    ensures done + order[..k + 1] == (done + order[..k]) + [order[k]]
  {
    assert order[..k + 1] == order[..k] + [order[k]];
  }

  lemma AppendAssoc(a: seq<Effect>, b: seq<Effect>, c: seq<Effect>)
    ensures a + (b + c) == (a + b) + c
  {
  }

  lemma PassEnds(done: seq<nat>, order: seq<nat>)
    ensures done + order[..0] == done && order[..|order|] == order
  {
  }

  /** The next index of a pass was not called earlier in the tick. */
  lemma NotYetVisited(done: seq<nat>, order: seq<nat>, k: nat)
    requires k < |order| && order[k] !in done
    requires forall m :: 0 <= m < k ==> order[m] != order[k]
    ensures order[k] !in done + order[..k]
  {
    assert forall m :: 0 <= m < k ==> order[..k][m] == order[m];
  }

  /**
   * One step of a pass: the next schedule has not been called earlier in the
   * tick, so its gate still shows the timestamp from before the tick, and
   * calling it extends the effects and the timestamps by that one schedule.
   */
  lemma PassStep(fires: seq<seq<Effect>>, last0: seq<Option<int>>, now: int, done: seq<nat>, order: seq<nat>,
                 k: nat, before: seq<Effect>, effects: seq<Effect>, last: seq<Option<int>>, fired: seq<Effect>)
    requires |last0| == |fires|
    requires PassOk(|fires|, done, order) && k < |order|
    requires before + effects == TickEffects(fires, done + order[..k], last0, now)
    requires last == Stamped(last0, done + order[..k], now)
    requires fired == Execution(fires[order[k]], last[order[k]], now)
    ensures before + (effects + fired) == TickEffects(fires, done + order[..k + 1], last0, now)
    ensures last[order[k] := Some(now)] == Stamped(last0, done + order[..k + 1], now)
  {
    var i := order[k];
    var visited := done + order[..k];
    NotYetVisited(done, order, k);
    assert last[i] == last0[i];
    VisitedSnoc(done, order, k);
    TickEffectsSnoc(fires, visited, i, last0, now);
    AppendAssoc(before, effects, fired);
    StampedSnoc(last0, visited, i, now);
  }

  /** The `start`ed scheduler: the configuration and one debounce timestamp per schedule. */
  class Scheduler {
    const schedules: seq<Schedule>
    const deviceGroups: seq<DeviceGroup>
    /** When each schedule's debounced `execute` was last called. */
    var lastCall: seq<Option<int>>

    ghost predicate Valid()
      reads this
    {
      |lastCall| == |schedules|
    }

    constructor (schedules: seq<Schedule>, deviceGroups: seq<DeviceGroup>)
      ensures Valid() && this.schedules == schedules && this.deviceGroups == deviceGroups
      ensures forall i :: 0 <= i < |lastCall| ==> lastCall[i].None?
    {
      this.schedules := schedules;
      this.deviceGroups := deviceGroups;
      lastCall := seq(|schedules|, _ => None);
    }

    /** `schedule.execute()`: `fire` runs only when the gate is open; the call is recorded either way. */
    method Execute(i: nat, now: int, decode: string -> string) returns (effects: seq<Effect>)
      requires Valid() && i < |schedules|
      modifies this
      ensures Valid()
      ensures effects == Execution(Fires(schedules, deviceGroups, decode)[i], old(lastCall[i]), now)
      ensures lastCall == old(lastCall)[i := Some(now)]
    {
      if GateOpen(lastCall[i], now) {
        effects := Fire(schedules[i], deviceGroups, decode);
      } else {
        effects := [];
      }
      lastCall := lastCall[i := Some(now)];
    }

    /**
     * Calls `execute` of the schedules at `order`, one after another, where
     * `done` were called before in the same tick.
     */
    method RunPass(order: seq<nat>, now: int, decode: string -> string,
                   ghost done: seq<nat>, ghost last0: seq<Option<int>>)
      returns (effects: seq<Effect>)
      requires Valid() && |last0| == |schedules|
      requires PassOk(|schedules|, done, order)
      requires lastCall == Stamped(last0, done, now)
      modifies this
      ensures Valid()
      ensures TickEffects(Fires(schedules, deviceGroups, decode), done + order, last0, now)
              == TickEffects(Fires(schedules, deviceGroups, decode), done, last0, now) + effects
      ensures lastCall == Stamped(last0, done + order, now)
    {
      ghost var fires := Fires(schedules, deviceGroups, decode);
      ghost var before := TickEffects(fires, done, last0, now);
      effects := [];
      var k := 0;
      PassEnds(done, order);
      while k < |order|
        invariant 0 <= k <= |order| && Valid()
        invariant before + effects == TickEffects(fires, done + order[..k], last0, now)
        invariant lastCall == Stamped(last0, done + order[..k], now)
      {
        var i := order[k];
        ghost var last := lastCall;
        var fired := Execute(i, now, decode);
        PassStep(fires, last0, now, done, order, k, before, effects, last, fired);
        effects := effects + fired;
        k := k + 1;
      }
    }

    /** One run of the interval callback at instant `now` (milliseconds). */
    method Tick(now: int, local: ZonedTime, inZone: string -> Option<ZonedTime>, solar: Schedule -> Option<ClockTime>,
                decode: string -> string)
      returns (effects: seq<Effect>)
      requires Valid()
      modifies this
      ensures Valid()
      ensures effects == TickEffects(Fires(schedules, deviceGroups, decode), TickOrder(schedules, local, inZone, solar),
                                     old(lastCall), now)
      ensures lastCall == Stamped(old(lastCall), TickOrder(schedules, local, inZone, solar), now)
    {
      ghost var last0 := lastCall;
      ghost var fires := Fires(schedules, deviceGroups, decode);
      var fixed := Selected(FixedFlags(schedules, local, inZone, solar), |schedules|);
      var sun := Selected(SunFlags(schedules, local, inZone, solar), |schedules|);
      TickPasses(schedules, local, inZone, solar);
      assert lastCall == Stamped(last0, [], now);
      var first := RunPass(fixed, now, decode, [], last0);
      assert [] + fixed == fixed;
      assert TickEffects(fires, fixed, last0, now) == first;
      var second := RunPass(sun, now, decode, fixed, last0);
      effects := first + second;
    }
  }

  /** A configuration of one schedule that matches runs exactly that schedule. */
  lemma SoleScheduleOrder(s: Schedule, local: ZonedTime, inZone: string -> Option<ZonedTime>,
                          solar: Schedule -> Option<ClockTime>)
    requires Matches(s, local, inZone, solar)
    ensures TickOrder([s], local, inZone, solar) == [0]
  {
    var f := FixedFlags([s], local, inZone, solar);
    var u := SunFlags([s], local, inZone, solar);
    assert f[0] == s.FixedTime? && u[0] == s.SunCalc?;
    SelectedExactlyOne(f, u);
  }

  /** Of two one-flag passes, exactly one of which is set, the order is the single index. */
  lemma SelectedExactlyOne(f: seq<bool>, u: seq<bool>)
    requires |f| == 1 && |u| == 1 && f[0] != u[0]
    ensures Selected(f, 1) + Selected(u, 1) == [0]
  {
    assert Selected(f, 1) == Selected(f, 0) + (if f[0] then [0] else []);
    assert Selected(u, 1) == Selected(u, 0) + (if u[0] then [0] else []);
  }

  /** A tick that runs the only schedule performs its gated `fire` and stamps its gate. */
  lemma SoleScheduleTick(fires: seq<seq<Effect>>, last: Option<int>, now: int)
    requires |fires| == 1
    ensures TickEffects(fires, [0], [last], now) == Execution(fires[0], last, now)
    ensures Stamped([last], [0], now) == [Some(now)]
  {
    TickEffectsSnoc(fires, [], 0, [last], now);
    assert [] + [0] == [0];
    assert Stamped([last], [0], now)[0] == Some(now);
  }

  /** A tick of a scheduler whose only schedule is selected runs that schedule's debounced `execute`. */
  method TickSole(scheduler: Scheduler, now: int, local: ZonedTime, inZone: string -> Option<ZonedTime>,
                  solar: Schedule -> Option<ClockTime>, decode: string -> string)
    returns (effects: seq<Effect>)
    requires scheduler.Valid() && |scheduler.schedules| == 1
    requires TickOrder(scheduler.schedules, local, inZone, solar) == [0]
    modifies scheduler
    ensures scheduler.Valid()
    ensures effects == Execution(Fires(scheduler.schedules, scheduler.deviceGroups, decode)[0],
                                 old(scheduler.lastCall[0]), now)
    ensures scheduler.lastCall == [Some(now)]
  {
    ghost var last := scheduler.lastCall[0];
    assert scheduler.lastCall == [last];
    SoleScheduleTick(Fires(scheduler.schedules, scheduler.deviceGroups, decode), last, now);
    effects := scheduler.Tick(now, local, inZone, solar, decode);
  }

  /**
   * Ticks less than a window apart that each select the only schedule
   * publish its command once, at the first of them.
   */
  method SelectedTicksPublishOnce(s: Schedule, groups: seq<DeviceGroup>, times: seq<int>, local: ZonedTime,
                                  inZone: string -> Option<ZonedTime>, solar: Schedule -> Option<ClockTime>,
                                  decode: string -> string)
    returns (effects: seq<Effect>)
    requires TickOrder([s], local, inZone, solar) == [0]
    requires |times| > 0
    requires forall k :: 0 <= k < |times| - 1 ==> times[k + 1] - times[k] < DebounceMs
    ensures effects == Fire(s, groups, decode)
  {
    var scheduler := new Scheduler([s], groups);
    ghost var fire := Fires([s], groups, decode)[0];
    effects := [];
    var k := 0;
    while k < |times|
      invariant 0 <= k <= |times|
      invariant scheduler.Valid() && scheduler.schedules == [s] && scheduler.deviceGroups == groups
      invariant effects + Executions(fire, scheduler.lastCall[0], times[k..]) == Executions(fire, None, times)
    {
      ghost var last := scheduler.lastCall[0];
      ExecutionsStep(fire, last, times, k);
      var e := TickSole(scheduler, times[k], local, inZone, solar, decode);
      AppendAssoc(effects, e, Executions(fire, Some(times[k]), times[k + 1..]));
      effects := effects + e;
      k := k + 1;
    }
    assert times[k..] == [];
    assert effects + [] == effects;
    BurstFiresOnce(None, times);
    ExecutionsRepeat(fire, None, times);
    assert Repeat(fire, 1) == fire + [];
  }

  /**
   * Ticks less than a window apart on which a schedule matches (a matching
   * minute is seen by about 120 ticks) publish the schedule's command once,
   * at the first of them.
   */
  method MatchingTicksPublishOnce(s: Schedule, groups: seq<DeviceGroup>, times: seq<int>, local: ZonedTime,
                                  inZone: string -> Option<ZonedTime>, solar: Schedule -> Option<ClockTime>,
                                  decode: string -> string)
    returns (effects: seq<Effect>)
    requires Matches(s, local, inZone, solar)
    requires |times| > 0
    requires forall k :: 0 <= k < |times| - 1 ==> times[k + 1] - times[k] < DebounceMs
    ensures effects == Fire(s, groups, decode)
  {
    SoleScheduleOrder(s, local, inZone, solar);
    effects := SelectedTicksPublishOnce(s, groups, times, local, inZone, solar, decode);
  }

  /**
   * A schedule whose minute matches is seen by about 120 ticks; the tick
   * after the one that fired, half a second later, publishes nothing.
   */
  method NextTickIsSilent(schedules: seq<Schedule>, groups: seq<DeviceGroup>, now: int, local: ZonedTime,
                          inZone: string -> Option<ZonedTime>, solar: Schedule -> Option<ClockTime>, decode: string -> string)
    returns (first: seq<Effect>, second: seq<Effect>)
    ensures second == []
    ensures first == TickEffects(Fires(schedules, groups, decode), TickOrder(schedules, local, inZone, solar),
                                 seq(|schedules|, _ => None), now)
  {
    var scheduler := new Scheduler(schedules, groups);
    ghost var fresh0 := scheduler.lastCall;
    assert fresh0 == seq(|schedules|, _ => None);
    first := scheduler.Tick(now, local, inZone, solar, decode);
    ghost var order := TickOrder(schedules, local, inZone, solar);
    TickOrderShape(schedules, local, inZone, solar);
    second := scheduler.Tick(now + CheckIntervalMs, local, inZone, solar, decode);
    RecentCallsAreSilent(Fires(schedules, groups, decode), order, Stamped(fresh0, order, now), now + CheckIntervalMs);
  }
}
