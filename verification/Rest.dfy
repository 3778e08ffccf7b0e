/**
 * The HTTP front end's logic, without the HTTP: resolving device uids to
 * vendor urls, the two listings it serves, and the event each POST handler
 * publishes. Every handler is a function from the request body to the log
 * line it writes and the publication it makes.
 */
module RestApi {
  import opened Types
  import opened Text

  /** `devices.find(({ uid }) => uid === wanted)`. */
  function FindDevice(devices: seq<Device>, wanted: string): (r: Option<Device>)
    ensures r.None? <==> forall k :: 0 <= k < |devices| ==> devices[k].uid != wanted
    ensures r.Some? ==> exists k :: 0 <= k < |devices| && devices[k] == r.value && r.value.uid == wanted
                          && forall j :: 0 <= j < k ==> devices[j].uid != wanted
  {
    if devices == [] then None
    else if devices[0].uid == wanted then Some(devices[0])
    else
      var r := FindDevice(devices[1..], wanted);
      assert r.Some? ==> exists k :: 1 <= k < |devices| && devices[k] == r.value && r.value.uid == wanted
                           && forall j :: 0 <= j < k ==> devices[j].uid != wanted by {
        if r.Some? {
          var k :| 0 <= k < |devices[1..]| && devices[1..][k] == r.value && r.value.uid == wanted
                   && forall j :: 0 <= j < k ==> devices[1..][j].uid != wanted;
          assert devices[k + 1] == r.value;
          forall j | 0 <= j < k + 1
            ensures devices[j].uid != wanted
          {
            if j > 0 {
              assert devices[j] == devices[1..][j - 1];
            }
          }
        }
      }
      r
  }

  /** Some configured device has this uid. */
  predicate Known(devices: seq<Device>, uid: string) {
    exists k :: 0 <= k < |devices| && devices[k].uid == uid
  }

  /** `mapDevices`: the first device with each uid, in request order, unknown uids dropped. */
  function MapDevices(devices: seq<Device>, uids: seq<string>): (r: seq<Device>)
    ensures |r| <= |uids|
    ensures forall k :: 0 <= k < |r| ==> r[k] in devices
    ensures forall d :: d in r <==> exists k :: 0 <= k < |uids| && FindDevice(devices, uids[k]) == Some(d)
  {
    if uids == [] then []
    else
      var head := FindDevice(devices, uids[0]);
      var rest := MapDevices(devices, uids[1..]);
      assert forall d :: d in rest <==> exists k :: 1 <= k < |uids| && FindDevice(devices, uids[k]) == Some(d) by {
        forall d | d in rest
          ensures exists k :: 1 <= k < |uids| && FindDevice(devices, uids[k]) == Some(d)
        {
          var k :| 0 <= k < |uids[1..]| && FindDevice(devices, uids[1..][k]) == Some(d);
          assert uids[k + 1] == uids[1..][k];
        }
        forall d, k | 1 <= k < |uids| && FindDevice(devices, uids[k]) == Some(d)
          ensures d in rest
        {
          assert uids[1..][k - 1] == uids[k];
        }
      }
      (if head.Some? then [head.value] else []) + rest
  }

  /** Resolving a concatenation resolves each part: order follows the request and duplicates are kept. */
  lemma {:induction false} MapDevicesConcat(devices: seq<Device>, u1: seq<string>, u2: seq<string>)
    ensures MapDevices(devices, u1 + u2) == MapDevices(devices, u1) + MapDevices(devices, u2)
  {
    if u1 == [] {
      assert u1 + u2 == u2;
    } else {
      assert (u1 + u2)[0] == u1[0] && (u1 + u2)[1..] == u1[1..] + u2;
      MapDevicesConcat(devices, u1[1..], u2);
    }
  }

  /** When every requested uid is known, nothing is dropped: one device per uid, in order, with that uid. */
  lemma {:induction false} MapDevicesAllKnown(devices: seq<Device>, uids: seq<string>)
    requires forall k :: 0 <= k < |uids| ==> Known(devices, uids[k])
    ensures |MapDevices(devices, uids)| == |uids|
    ensures forall k :: 0 <= k < |uids| ==> MapDevices(devices, uids)[k].uid == uids[k]
  {
    if uids != [] {
      var head := FindDevice(devices, uids[0]);
      assert head.Some?;
      MapDevicesAllKnown(devices, uids[1..]);
      var rest := MapDevices(devices, uids[1..]);
      assert MapDevices(devices, uids) == [head.value] + rest;
    }
  }

  /** An unknown uid contributes nothing. */
  lemma UnknownUidIgnored(devices: seq<Device>, uid: string)
    requires !Known(devices, uid)
    ensures MapDevices(devices, [uid]) == []
  {
  }

  /** Each device's vendor url, in order. */
  function Urls(ds: seq<Device>): (r: seq<string>)
    ensures |r| == |ds|
    ensures forall k :: 0 <= k < |ds| ==> r[k] == ds[k].deviceUrl
  {
    seq(|ds|, k requires 0 <= k < |ds| => ds[k].deviceUrl)
  }

  /** The position of the first occurrence of `x` in `xs`. */
  function FirstIndex(xs: seq<string>, x: string): (i: nat)
    requires x in xs
    ensures i < |xs| && xs[i] == x && forall j :: 0 <= j < i ==> xs[j] != x
  {
    if xs[0] == x then 0 else 1 + FirstIndex(xs[1..], x)
  }

  lemma {:induction false} FirstIndexPrefix(xs: seq<string>, m: nat, x: string)
    requires m <= |xs| && x in xs[..m]
    ensures FirstIndex(xs, x) == FirstIndex(xs[..m], x)
  {
    var i := FirstIndex(xs[..m], x);
    assert xs[i] == x;
    var j := FirstIndex(xs, x);
    assert j <= i;
    assert xs[..m][j] == x;
  }

  predicate NoDuplicates(xs: seq<string>) {
    forall k, l :: 0 <= k < l < |xs| ==> xs[k] != xs[l]
  }

  /**
   * `Array.from(new Set(xs))`: the distinct elements of `xs`, each once, in
   * the order of their first occurrence.
   */
  function Distinct(xs: seq<string>): (r: seq<string>)
    ensures NoDuplicates(r)
    ensures forall x :: x in r <==> x in xs
    ensures forall k, l :: 0 <= k < l < |r| ==> FirstIndex(xs, r[k]) < FirstIndex(xs, r[l])
  {
    if xs == [] then []
    else
      var init := xs[..|xs| - 1];
      var last := xs[|xs| - 1];
      var d := Distinct(init);
      assert xs == init + [last];
      forall x | x in d
        ensures FirstIndex(xs, x) == FirstIndex(init, x)
      {
        FirstIndexPrefix(xs, |xs| - 1, x);
      }
      if last in d then d
      else
        assert FirstIndex(xs, last) == |xs| - 1;
        d + [last]
  }

  /**
   * `toDeviceUrls`: the url of the first device with each requested uid,
   * unknown uids dropped, duplicates removed, in the order of first request.
   */
  function ToDeviceUrls(devices: seq<Device>, uids: seq<string>): (r: seq<string>)
    ensures NoDuplicates(r)
    ensures var urls := Urls(MapDevices(devices, uids));
            forall k, l :: 0 <= k < l < |r| ==> r[k] in urls && r[l] in urls && FirstIndex(urls, r[k]) < FirstIndex(urls, r[l])
    ensures forall url :: url in r <==>
              exists k :: 0 <= k < |uids| && FindDevice(devices, uids[k]).Some?
                          && FindDevice(devices, uids[k]).value.deviceUrl == url
  {
    var ds := MapDevices(devices, uids);
    var urls := Urls(ds);
    assert forall url :: url in urls <==> exists d :: d in ds && d.deviceUrl == url by {
      forall url | url in urls
        ensures exists d :: d in ds && d.deviceUrl == url
      {
        var k :| 0 <= k < |urls| && urls[k] == url;
        assert ds[k] in ds;
      }
    }
    Distinct(urls)
  }

  /** Requesting the same known uid twice yields its url once. */
  lemma RepeatedUidOnce(devices: seq<Device>, uid: string)
    requires Known(devices, uid)
    ensures ToDeviceUrls(devices, [uid, uid]) == [FindDevice(devices, uid).value.deviceUrl]
  {
    var d := FindDevice(devices, uid).value;
    assert MapDevices(devices, [uid, uid]) == [d, d] by {
      assert [uid, uid][1..] == [uid];
      assert [uid][1..] == [];
      assert MapDevices(devices, [uid]) == [d];
    }
    assert Urls([d, d]) == [d.deviceUrl, d.deviceUrl];
    var urls := [d.deviceUrl, d.deviceUrl];
    assert urls[..1] == [d.deviceUrl];
    assert [d.deviceUrl][..0] == [];
    assert Distinct([d.deviceUrl]) == [d.deviceUrl];
    assert Distinct(urls) == [d.deviceUrl];
  }

  /** A device as listed to clients: the vendor url is not exposed. */
  datatype DeviceView = DeviceView(uid: string, name: string)

  /** A device group as listed to clients. */
  datatype GroupView = GroupView(uid: string, name: string, devices: seq<DeviceView>)

  /** `mapDevices(uids).map(({ uid, name }) => ({ uid, name }))`. */
  function DeviceViews(devices: seq<Device>, uids: seq<string>): (r: seq<DeviceView>)
    ensures var ds := MapDevices(devices, uids);
            |r| == |ds| && forall k :: 0 <= k < |ds| ==> r[k] == DeviceView(ds[k].uid, ds[k].name)
    ensures |r| <= |uids|
    ensures forall k :: 0 <= k < |r| ==>
              exists j :: 0 <= j < |devices| && devices[j].uid == r[k].uid && devices[j].name == r[k].name
  {
    var ds := MapDevices(devices, uids);
    seq(|ds|, k requires 0 <= k < |ds| => DeviceView(ds[k].uid, ds[k].name))
  }

  function GroupViewOf(devices: seq<Device>, g: DeviceGroup): (v: GroupView)
    ensures v.uid == g.uid && v.name == g.name && v.devices == DeviceViews(devices, g.devices)
    ensures |v.devices| <= |g.devices|
  {
    GroupView(g.uid, g.name, DeviceViews(devices, g.devices))
  }

  /** `GET /shutter/deviceGroups`: every configured group in order, with its known devices. */
  function GroupListing(devices: seq<Device>, groups: seq<DeviceGroup>): (r: seq<GroupView>)
    ensures |r| == |groups|
    ensures forall k :: 0 <= k < |groups| ==>
              r[k].uid == groups[k].uid && r[k].name == groups[k].name
              && r[k].devices == DeviceViews(devices, groups[k].devices)
  {
    seq(|groups|, k requires 0 <= k < |groups| => GroupViewOf(devices, groups[k]))
  }

  /** A group whose devices are all configured lists every one of them, by uid, in order. */
  lemma GroupListingComplete(devices: seq<Device>, g: DeviceGroup)
    requires forall k :: 0 <= k < |g.devices| ==> Known(devices, g.devices[k])
    ensures var v := GroupViewOf(devices, g);
            |v.devices| == |g.devices| && forall k :: 0 <= k < |g.devices| ==> v.devices[k].uid == g.devices[k]
  {
    MapDevicesAllKnown(devices, g.devices);
  }

  /** `deviceGroups.find(({ uid }) => uid === wanted)`. */
  function FindGroup(groups: seq<DeviceGroup>, wanted: string): (r: Option<DeviceGroup>)
    ensures r.None? <==> forall k :: 0 <= k < |groups| ==> groups[k].uid != wanted
    ensures r.Some? ==> exists k :: 0 <= k < |groups| && groups[k] == r.value && r.value.uid == wanted
                          && forall j :: 0 <= j < k ==> groups[j].uid != wanted
  {
    if groups == [] then None
    else if groups[0].uid == wanted then Some(groups[0])
    else
      var r := FindGroup(groups[1..], wanted);
      assert forall k :: 1 <= k < |groups| ==> groups[k] == groups[1..][k - 1];
      assert r.Some? ==> exists k :: 1 <= k < |groups| && groups[k] == r.value
                                      && forall j :: 0 <= j < k ==> groups[j].uid != wanted by {
        if r.Some? {
          var k :| 0 <= k < |groups[1..]| && groups[1..][k] == r.value
                   && forall j :: 0 <= j < k ==> groups[1..][j].uid != wanted;
          assert forall j :: 0 <= j < k + 1 ==> groups[j].uid != wanted by {
            forall j | 0 < j < k + 1
              ensures groups[j].uid != wanted
            {
              assert groups[j] == groups[1..][j - 1];
            }
          }
        }
      }
      r
  }

  /** The uids among `uids` that some configured group has, in order. */
  function KnownGroupUids(groups: seq<DeviceGroup>, uids: seq<string>): seq<string> {
    if uids == [] then []
    else (if GroupKnown(groups, uids[0]) then [uids[0]] else []) + KnownGroupUids(groups, uids[1..])
  }

  /**
   * `mapDeviceGroups`: the groups a schedule names, in the schedule's order,
   * as views: exactly the configured uids are kept, unknown ones dropped,
   * and each view is of the first group with that uid.
   */
  function GroupViews(devices: seq<Device>, groups: seq<DeviceGroup>, uids: seq<string>): (r: seq<GroupView>)
    ensures |r| <= |uids|
  {
    if uids == [] then []
    else
      var g := FindGroup(groups, uids[0]);
      (if g.Some? then [GroupViewOf(devices, g.value)] else []) + GroupViews(devices, groups, uids[1..])
  }

  /** The listed groups are exactly the configured uids among those named, in the schedule's order. */
  lemma {:induction false} GroupViewsKnown(devices: seq<Device>, groups: seq<DeviceGroup>, uids: seq<string>)
    ensures ViewUids(GroupViews(devices, groups, uids)) == KnownGroupUids(groups, uids)
  {
    if uids != [] {
      var g := FindGroup(groups, uids[0]);
      var head: seq<GroupView> := if g.Some? then [GroupViewOf(devices, g.value)] else [];
      GroupViewsKnown(devices, groups, uids[1..]);
      assert g.Some? <==> GroupKnown(groups, uids[0]);
      ViewUidsAppend(head, GroupViews(devices, groups, uids[1..]));
    }
  }

  /** `v` is the view of the first configured group with its uid. */
  predicate ViewResolved(devices: seq<Device>, groups: seq<DeviceGroup>, v: GroupView) {
    FindGroup(groups, v.uid).Some? && v == GroupViewOf(devices, FindGroup(groups, v.uid).value)
  }

  /** Each listed group is the view of the first configured group with its uid. */
  lemma {:induction false} GroupViewsResolved(devices: seq<Device>, groups: seq<DeviceGroup>, uids: seq<string>)
    ensures forall k :: 0 <= k < |GroupViews(devices, groups, uids)| ==>
              ViewResolved(devices, groups, GroupViews(devices, groups, uids)[k])
  {
    if uids != [] {
      var g := FindGroup(groups, uids[0]);
      var head: seq<GroupView> := if g.Some? then [GroupViewOf(devices, g.value)] else [];
      var rest := GroupViews(devices, groups, uids[1..]);
      GroupViewsResolved(devices, groups, uids[1..]);
      assert GroupViews(devices, groups, uids) == head + rest;
      forall k | 0 <= k < |head + rest|
        ensures ViewResolved(devices, groups, (head + rest)[k])
      {
        if k < |head| {
          assert g.value.uid == uids[0];
          assert (head + rest)[k] == GroupViewOf(devices, g.value);
        } else {
          assert (head + rest)[k] == rest[k - |head|];
        }
      }
    }
  }

  lemma ViewUidsAppend(a: seq<GroupView>, b: seq<GroupView>)
    ensures ViewUids(a + b) == ViewUids(a) + ViewUids(b)
  {
  }

  /** The uids of listed groups, in order. */
  function ViewUids(vs: seq<GroupView>): (r: seq<string>)
    ensures |r| == |vs| && forall k :: 0 <= k < |vs| ==> r[k] == vs[k].uid
  {
    seq(|vs|, k requires 0 <= k < |vs| => vs[k].uid)
  }

  /** Some configured group has this uid. */
  predicate GroupKnown(groups: seq<DeviceGroup>, uid: string) {
    exists j :: 0 <= j < |groups| && groups[j].uid == uid
  }

  /** When every group a schedule names is configured, its listing names the same groups in the same order. */
  lemma {:induction false} GroupViewsRoundTrip(devices: seq<Device>, groups: seq<DeviceGroup>, uids: seq<string>)
    requires forall k :: 0 <= k < |uids| ==> GroupKnown(groups, uids[k])
    ensures ViewUids(GroupViews(devices, groups, uids)) == uids
  {
    if uids != [] {
      assert forall k :: 0 <= k < |uids[1..]| ==> uids[1..][k] == uids[k + 1];
      GroupViewsRoundTrip(devices, groups, uids[1..]);
      var g := FindGroup(groups, uids[0]);
      assert g.Some?;
      assert GroupViews(devices, groups, uids) == [GroupViewOf(devices, g.value)] + GroupViews(devices, groups, uids[1..]);
    }
  }

  /** A schedule as listed to clients: its group uids replaced by group views. */
  datatype ScheduleView =
    | FixedTimeView(uid: string, dow: seq<string>, deviceGroups: seq<GroupView>, command: Command,
                    time: string, timezone: string)
    | SunCalcView(uid: string, dow: seq<string>, deviceGroups: seq<GroupView>, command: Command,
                  kind: string, coordinates: Coordinates)

  function ScheduleViewOf(devices: seq<Device>, groups: seq<DeviceGroup>, s: Schedule): (v: ScheduleView)
    ensures v.uid == s.uid && v.dow == s.dow && v.command == s.command
    ensures v.deviceGroups == GroupViews(devices, groups, s.deviceGroups)
    ensures v.FixedTimeView? <==> s.FixedTime?
    ensures s.FixedTime? ==> v.time == s.time && v.timezone == s.timezone
    ensures s.SunCalc? ==> v.kind == s.kind && v.coordinates == s.coordinates
  {
    var views := GroupViews(devices, groups, s.deviceGroups);
    match s
    case FixedTime(uid, dow, _, command, time, timezone) => FixedTimeView(uid, dow, views, command, time, timezone)
    case SunCalc(uid, dow, _, command, kind, coordinates) => SunCalcView(uid, dow, views, command, kind, coordinates)
  }

  /** `GET /shutter/schedules`: every schedule in order with its groups resolved. */
  function ScheduleListing(devices: seq<Device>, groups: seq<DeviceGroup>, schedules: seq<Schedule>)
    : (r: seq<ScheduleView>)
    ensures |r| == |schedules|
    ensures forall k :: 0 <= k < |schedules| ==> r[k] == ScheduleViewOf(devices, groups, schedules[k])
  {
    seq(|schedules|, k requires 0 <= k < |schedules| => ScheduleViewOf(devices, groups, schedules[k]))
  }

  /** Replacing the listed groups by their uids gives back the configured schedule. */
  function Unlisted(v: ScheduleView): Schedule {
    match v
    case FixedTimeView(uid, dow, gs, command, time, timezone) => FixedTime(uid, dow, ViewUids(gs), command, time, timezone)
    case SunCalcView(uid, dow, gs, command, kind, coordinates) => SunCalc(uid, dow, ViewUids(gs), command, kind, coordinates)
  }

  /** A schedule whose groups are all configured is listed without loss. */
  lemma ScheduleListingRoundTrip(devices: seq<Device>, groups: seq<DeviceGroup>, s: Schedule)
    requires forall k :: 0 <= k < |s.deviceGroups| ==> GroupKnown(groups, s.deviceGroups[k])
    ensures Unlisted(ScheduleViewOf(devices, groups, s)) == s
  {
    GroupViewsRoundTrip(devices, groups, s.deviceGroups);
  }

  /** What a POST handler publishes. */
  datatype Publication = Publication(topic: string, devices: seq<string>)

  /** What a POST handler does: one info line, then at most one publication. */
  datatype Handled = Handled(log: string, publication: Option<Publication>)

  /** `schedules.find(({ uid }) => uid === wanted)`. */
  function FindSchedule(schedules: seq<Schedule>, wanted: string): (r: Option<Schedule>)
    ensures r.None? <==> forall k :: 0 <= k < |schedules| ==> schedules[k].uid != wanted
    ensures r.Some? ==> exists k :: 0 <= k < |schedules| && schedules[k] == r.value && r.value.uid == wanted
                          && forall j :: 0 <= j < k ==> schedules[j].uid != wanted
  {
    if schedules == [] then None
    else if schedules[0].uid == wanted then Some(schedules[0])
    else
      var r := FindSchedule(schedules[1..], wanted);
      assert forall k :: 1 <= k < |schedules| ==> schedules[k] == schedules[1..][k - 1];
      assert r.Some? ==> exists k :: 1 <= k < |schedules| && schedules[k] == r.value
                                      && forall j :: 0 <= j < k ==> schedules[j].uid != wanted by {
        if r.Some? {
          var k :| 0 <= k < |schedules[1..]| && schedules[1..][k] == r.value
                   && forall j :: 0 <= j < k ==> schedules[1..][j].uid != wanted;
          assert forall j :: 0 <= j < k + 1 ==> schedules[j].uid != wanted by {
            forall j | 0 < j < k + 1
              ensures schedules[j].uid != wanted
            {
              assert schedules[j] == schedules[1..][j - 1];
            }
          }
        }
      }
      r
  }

  /**
   * The device uids of a schedule's groups, in the schedule's group order:
   * an unknown group contributes nothing, and empty uids are dropped by the
   * truthiness filter.
   */
  function ScheduleDeviceUids(groups: seq<DeviceGroup>, uids: seq<string>): (r: seq<string>)
    ensures "" !in r
    ensures forall u :: u in r <==> u != "" && exists k :: 0 <= k < |uids| && GroupHas(groups, uids[k], u)
  {
    if uids == [] then []
    else
      var g := FindGroup(groups, uids[0]);
      var head := if g.Some? then NonEmpty(g.value.devices) else [];
      var rest := ScheduleDeviceUids(groups, uids[1..]);
      assert forall u :: u in rest <==> u != "" && exists k :: 1 <= k < |uids| && GroupHas(groups, uids[k], u) by {
        forall u | u in rest
          ensures exists k :: 1 <= k < |uids| && GroupHas(groups, uids[k], u)
        {
          var k :| 0 <= k < |uids[1..]| && GroupHas(groups, uids[1..][k], u);
          assert uids[k + 1] == uids[1..][k];
        }
        forall u, k | u != "" && 1 <= k < |uids| && GroupHas(groups, uids[k], u)
          ensures u in rest
        {
          assert uids[1..][k - 1] == uids[k];
        }
      }
      head + rest
  }

  /** The first configured group with uid `uid` lists device `u`. */
  predicate GroupHas(groups: seq<DeviceGroup>, uid: string, u: string) {
    FindGroup(groups, uid).Some? && u in FindGroup(groups, uid).value.devices
  }

  /** `xs.filter(x => !!x)` on strings: the empty string is falsy. */
  function NonEmpty(xs: seq<string>): (r: seq<string>)
    ensures forall u :: u in r <==> u in xs && u != ""
  {
    if xs == [] then []
    else (if xs[0] != "" then [xs[0]] else []) + NonEmpty(xs[1..])
  }

  /** The filter keeps order: filtering a concatenation concatenates the filtered parts. */
  lemma {:induction false} NonEmptyConcat(xs: seq<string>, ys: seq<string>)
    ensures NonEmpty(xs + ys) == NonEmpty(xs) + NonEmpty(ys)
  {
    if xs == [] {
      assert xs + ys == ys;
    } else {
      assert (xs + ys)[0] == xs[0] && (xs + ys)[1..] == xs[1..] + ys;
      NonEmptyConcat(xs[1..], ys);
    }
  }

  /** One named group contributes the non-empty device uids of the first group with its uid, in its order. */
  lemma ScheduleDeviceUidsOne(groups: seq<DeviceGroup>, uid: string)
    ensures ScheduleDeviceUids(groups, [uid])
            == if FindGroup(groups, uid).Some? then NonEmpty(FindGroup(groups, uid).value.devices) else []
  {
    assert [uid][1..] == [];
  }

  /** The device uids follow the schedule's group order: the named groups' lists are concatenated. */
  lemma {:induction false} ScheduleDeviceUidsConcat(groups: seq<DeviceGroup>, u1: seq<string>, u2: seq<string>)
    ensures ScheduleDeviceUids(groups, u1 + u2) == ScheduleDeviceUids(groups, u1) + ScheduleDeviceUids(groups, u2)
  {
    if u1 == [] {
      assert u1 + u2 == u2;
    } else {
      var w := u1 + u2;
      assert w[0] == u1[0] && w[1..] == u1[1..] + u2;
      ScheduleDeviceUidsConcat(groups, u1[1..], u2);
      var g := FindGroup(groups, u1[0]);
      var head := if g.Some? then NonEmpty(g.value.devices) else [];
      assert ScheduleDeviceUids(groups, u1) == head + ScheduleDeviceUids(groups, u1[1..]);
      assert ScheduleDeviceUids(groups, w) == head + ScheduleDeviceUids(groups, w[1..]);
    }
  }

  /**
   * `POST /schedule/execute`: logs the requested uid; when a schedule has it,
   * publishes on the event of its command (`commandToEvent` stands for the
   * command-to-topic mapping) the urls of its groups' devices.
   */
  function ExecuteSchedule(devices: seq<Device>, groups: seq<DeviceGroup>, schedules: seq<Schedule>,
                           wanted: string, commandToEvent: string -> string): (h: Handled)
    ensures h.log == "Received schedule execute command for schedule with uid \"" + wanted + "\""
    ensures h.publication.Some? <==> exists k :: 0 <= k < |schedules| && schedules[k].uid == wanted
    ensures h.publication.Some? ==>
              var s := FindSchedule(schedules, wanted).value;
              h.publication.value == Publication(commandToEvent(s.command.name),
                                                 ToDeviceUrls(devices, ScheduleDeviceUids(groups, s.deviceGroups)))
  {
    var log := "Received schedule execute command for schedule with uid \"" + wanted + "\"";
    match FindSchedule(schedules, wanted)
    case None => Handled(log, None)
    case Some(s) =>
      Handled(log, Some(Publication(commandToEvent(s.command.name),
                                    ToDeviceUrls(devices, ScheduleDeviceUids(groups, s.deviceGroups)))))
  }

  /**
   * The first schedule with a uid is the one executed: schedules before it
   * have other uids, and later ones sharing its uid are ignored.
   */
  lemma ExecuteFirstMatch(devices: seq<Device>, groups: seq<DeviceGroup>, before: seq<Schedule>, s: Schedule,
                          after: seq<Schedule>, commandToEvent: string -> string)
    requires forall k :: 0 <= k < |before| ==> before[k].uid != s.uid
    ensures ExecuteSchedule(devices, groups, before + [s] + after, s.uid, commandToEvent).publication
            == Some(Publication(commandToEvent(s.command.name),
                                ToDeviceUrls(devices, ScheduleDeviceUids(groups, s.deviceGroups))))
  {
    var all := before + [s] + after;
    assert all[|before|] == s;
    var r := FindSchedule(all, s.uid);
    var k :| 0 <= k < |all| && all[k] == r.value && r.value.uid == s.uid
             && forall j :: 0 <= j < k ==> all[j].uid != s.uid;
    assert k == |before|;
  }

  /** The six `/shutter/<command>` routes. */
  datatype ShutterRoute = UpRoute | DownRoute | WinkRoute | IdentifyRoute | StopRoute | MyRoute

  function RouteCommand(route: ShutterRoute): string {
    match route
    case UpRoute => "up"
    case DownRoute => "down"
    case WinkRoute => "wink"
    case IdentifyRoute => "identify"
    case StopRoute => "stop"
    case MyRoute => "my"
  }

  function RouteTopic(route: ShutterRoute): (topic: string)
    ensures topic in Topics && topic != SetDeploymentTopic
  {
    match route
    case UpRoute => UpTopic
    case DownRoute => DownTopic
    case WinkRoute => WinkTopic
    case IdentifyRoute => IdentifyTopic
    case StopRoute => StopTopic
    case MyRoute => MyTopic
  }

  /** Each route publishes on the topic named after its command. */
  lemma RouteTopicNamesCommand(route: ShutterRoute)
    ensures RouteTopic(route) == "somfy:" + RouteCommand(route)
  {
  }

  /** Distinct routes publish on distinct topics. */
  lemma RouteTopicInjective(r1: ShutterRoute, r2: ShutterRoute)
    requires RouteTopic(r1) == RouteTopic(r2)
    ensures r1 == r2
  {
  }

  /** `POST /shutter/<command>`: one log line and exactly one publication of the resolved urls. */
  function ShutterCommand(devices: seq<Device>, route: ShutterRoute, uids: seq<string>): (h: Handled)
    ensures h.log == "Received \"" + RouteCommand(route) + "\" command for devices with uids [" + Join(uids, ", ") + "]"
    ensures h.publication == Some(Publication(RouteTopic(route), ToDeviceUrls(devices, uids)))
    ensures NoDuplicates(h.publication.value.devices)
    ensures forall url :: url in h.publication.value.devices <==>
              exists k :: 0 <= k < |uids| && FindDevice(devices, uids[k]).Some?
                          && FindDevice(devices, uids[k]).value.deviceUrl == url
  {
    Handled("Received \"" + RouteCommand(route) + "\" command for devices with uids [" + Join(uids, ", ") + "]",
            Some(Publication(RouteTopic(route), ToDeviceUrls(devices, uids))))
  }
}
