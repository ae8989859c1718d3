/** The device monitor: one poll compares adb's device list with the serials known to be attached. */
module AdbManager {

  datatype AdbDevice = AdbDevice(serial: string, state: string)

  datatype Event = Attached(serial: string) | Detached(serial: string)

  /** The active serials, in the vector's order, and every callback made so far. */
  datatype Monitor = Monitor(active: seq<string>, events: seq<Event>)

  predicate Listed(devices: seq<AdbDevice>, serial: string) {
    exists i :: 0 <= i < |devices| && devices[i].serial == serial
  }

  predicate Ready(devices: seq<AdbDevice>, serial: string) {
    exists i :: 0 <= i < |devices| && devices[i] == AdbDevice(serial, "device")
  }

  function Attach(m: Monitor, dev: AdbDevice): Monitor {
    if dev.state == "device" && dev.serial !in m.active
    then Monitor(m.active + [dev.serial], m.events + [Attached(dev.serial)])
    else m
  }

  function AttachAll(m: Monitor, devices: seq<AdbDevice>): Monitor
    decreases |devices|
  {
    if devices == [] then m else AttachAll(Attach(m, devices[0]), devices[1..])
  }

  /** The erase pass, from index `i` of the vector on. */
  function DetachFrom(m: Monitor, devices: seq<AdbDevice>, i: nat): Monitor
    requires i <= |m.active|
    decreases |m.active| - i
  {
    if i == |m.active| then m
    else if Listed(devices, m.active[i]) then DetachFrom(m, devices, i + 1)
    else DetachFrom(Monitor(m.active[..i] + m.active[i + 1..], m.events + [Detached(m.active[i])]), devices, i)
  }

  function Polled(m: Monitor, devices: seq<AdbDevice>): Monitor {
    DetachFrom(AttachAll(m, devices), devices, 0)
  }

  class AdbManager {
    var activeSerials: seq<string>
    var events: seq<Event>

    constructor ()
      ensures State() == Monitor([], [])
    {
      activeSerials, events := [], [];
    }

    function State(): Monitor
      reads this
    {
      Monitor(activeSerials, events)
    }

    /** One turn of monitorLoop on the list adb printed. */
    method Poll(devices: seq<AdbDevice>)
      modifies this
      ensures State() == Polled(old(State()), devices)
    {
      var k := 0;
      while k < |devices|
        invariant k <= |devices|
        invariant AttachAll(State(), devices[k..]) == AttachAll(old(State()), devices)
      {
        var dev := devices[k];
        assert devices[k..][1..] == devices[k + 1..];
        k := k + 1;
        if dev.state != "device" {
          continue;
        }
        if dev.serial !in activeSerials {
          activeSerials := activeSerials + [dev.serial];
          events := events + [Attached(dev.serial)];
        }
      }
      var it := 0;
      while it < |activeSerials|
        invariant it <= |activeSerials|
        invariant DetachFrom(State(), devices, it) == Polled(old(State()), devices)
        decreases |activeSerials| - it
      {
        if !Listed(devices, activeSerials[it]) {
          events := events + [Detached(activeSerials[it])];
          activeSerials := activeSerials[..it] + activeSerials[it + 1..];
        } else {
          it := it + 1;
        }
      }
    }
  }

  // ---- What a poll keeps ----

  ghost predicate NoDuplicates(s: seq<string>) {
    forall i, j | 0 <= i < j < |s| :: s[i] != s[j]
  }

  /** One serial's callbacks: true for attached, false for detached. */
  function History(events: seq<Event>, serial: string): seq<bool> {
    if events == [] then [] else
    var last := events[|events| - 1];
    History(events[..|events| - 1], serial) + if last.serial == serial then [last.Attached?] else []
  }

  lemma HistoryAppend(events: seq<Event>, e: Event, serial: string)
    ensures History(events + [e], serial) == History(events, serial) + if e.serial == serial then [e.Attached?] else []
  {
    assert (events + [e])[..|events|] == events;
  }

  /** Attached, detached, attached, ... ending with attached exactly while the serial is active. */
  ghost predicate Alternates(m: Monitor, serial: string) {
    var h := History(m.events, serial);
    && (forall i | 0 <= i < |h| :: h[i] == (i % 2 == 0))
    && (serial in m.active <==> |h| % 2 == 1)
  }

  ghost predicate Sound(m: Monitor) {
    NoDuplicates(m.active) && forall serial :: Alternates(m, serial)
  }

  lemma AttachAlternates(m: Monitor, dev: AdbDevice, serial: string)
    requires Alternates(m, serial)
    ensures Alternates(Attach(m, dev), serial)
  {
    var m' := Attach(m, dev);
    if m' != m {
      HistoryAppend(m.events, Attached(dev.serial), serial);
      assert serial in m'.active <==> serial in m.active || serial == dev.serial;
    }
  }

  lemma AttachSound(m: Monitor, dev: AdbDevice)
    requires Sound(m)
    ensures Sound(Attach(m, dev))
  {
    forall serial
      ensures Alternates(Attach(m, dev), serial)
    {
      AttachAlternates(m, dev, serial);
    }
  }

  lemma {:induction false} AttachAllSound(m: Monitor, devices: seq<AdbDevice>)
    requires Sound(m)
    ensures var m' := AttachAll(m, devices);
      && Sound(m')
      && forall serial :: serial in m'.active <==> serial in m.active || Ready(devices, serial)
    decreases |devices|
  {
    if devices != [] {
      AttachSound(m, devices[0]);
      AttachAllSound(Attach(m, devices[0]), devices[1..]);
      forall serial
        ensures Ready(devices, serial) <==> devices[0] == AdbDevice(serial, "device") || Ready(devices[1..], serial)
      {
        ReadyCons(devices, serial);
      }
    }
  }

  lemma ReadyCons(devices: seq<AdbDevice>, serial: string)
    requires devices != []
    ensures Ready(devices, serial) <==> devices[0] == AdbDevice(serial, "device") || Ready(devices[1..], serial)
  {
    if Ready(devices[1..], serial) {
      var i :| 0 <= i < |devices[1..]| && devices[1..][i] == AdbDevice(serial, "device");
      assert devices[i + 1] == AdbDevice(serial, "device");
    }
    if Ready(devices, serial) && devices[0] != AdbDevice(serial, "device") {
      var i :| 0 <= i < |devices| && devices[i] == AdbDevice(serial, "device");
      assert devices[1..][i - 1] == AdbDevice(serial, "device");
    }
  }

  function Erased(m: Monitor, i: nat): Monitor
    requires i < |m.active|
  {
    Monitor(m.active[..i] + m.active[i + 1..], m.events + [Detached(m.active[i])])
  }

  lemma EraseSound(m: Monitor, i: nat)
    requires Sound(m) && i < |m.active|
    ensures Sound(Erased(m, i))
    ensures forall serial :: serial in Erased(m, i).active <==> serial in m.active && serial != m.active[i]
  {
    var gone, rest := m.active[i], m.active[..i] + m.active[i + 1..];
    forall serial
      ensures serial in rest <==> serial in m.active && serial != gone
    {
      if serial in m.active && serial != gone {
        var j :| 0 <= j < |m.active| && m.active[j] == serial;
        assert rest[if j < i then j else j - 1] == serial;
      }
    }
    forall serial
      ensures Alternates(Erased(m, i), serial)
    {
      assert Alternates(m, serial);
      HistoryAppend(m.events, Detached(gone), serial);
    }
  }

  lemma {:induction false} DetachSound(m: Monitor, devices: seq<AdbDevice>, i: nat)
    requires Sound(m) && i <= |m.active|
    requires forall j | 0 <= j < i :: Listed(devices, m.active[j])
    ensures var m' := DetachFrom(m, devices, i);
      && Sound(m')
      && forall serial :: serial in m'.active <==> serial in m.active && Listed(devices, serial)
    decreases |m.active| - i
  {
    if i < |m.active| {
      if Listed(devices, m.active[i]) {
        DetachSound(m, devices, i + 1);
      } else {
        EraseSound(m, i);
        DetachSound(Erased(m, i), devices, i);
      }
    }
  }

  /** One poll: the active serials are exactly those listed as "device" now and the old ones still
      listed in any state, without duplicates, and every serial's callbacks keep alternating. */
  lemma PollSound(m: Monitor, devices: seq<AdbDevice>)
    requires Sound(m)
    ensures var m' := Polled(m, devices);
      && Sound(m')
      && forall serial ::
           serial in m'.active <==>
             || (exists i :: 0 <= i < |devices| && devices[i] == AdbDevice(serial, "device"))
             || (serial in m.active && exists i :: 0 <= i < |devices| && devices[i].serial == serial)
  {
    AttachAllSound(m, devices);
    DetachSound(AttachAll(m, devices), devices, 0);
    forall serial | Ready(devices, serial)
      ensures Listed(devices, serial)
    {
      var i :| 0 <= i < |devices| && devices[i] == AdbDevice(serial, "device");
      assert devices[i].serial == serial;
    }
  }

  // ---- Which callbacks one poll makes ----

  lemma {:induction false} AttachCallbacks(m: Monitor, devices: seq<AdbDevice>, serial: string)
    ensures History(AttachAll(m, devices).events, serial)
         == History(m.events, serial) + if serial !in m.active && Ready(devices, serial) then [true] else []
    decreases |devices|
  {
    if devices != [] {
      ReadyCons(devices, serial);
      var m' := Attach(m, devices[0]);
      AttachCallbacks(m', devices[1..], serial);
      HistoryAppend(m.events, Attached(devices[0].serial), serial);
      assert serial in m'.active <==>
        serial in m.active || devices[0] == AdbDevice(serial, "device");
    }
  }

  lemma {:induction false} DetachCallbacks(m: Monitor, devices: seq<AdbDevice>, i: nat, serial: string)
    requires Sound(m) && i <= |m.active|
    requires forall j | 0 <= j < i :: Listed(devices, m.active[j])
    ensures History(DetachFrom(m, devices, i).events, serial)
         == History(m.events, serial) + if serial in m.active && !Listed(devices, serial) then [false] else []
    decreases |m.active| - i
  {
    if i < |m.active| {
      if Listed(devices, m.active[i]) {
        DetachCallbacks(m, devices, i + 1, serial);
      } else {
        EraseSound(m, i);
        HistoryAppend(m.events, Detached(m.active[i]), serial);
        DetachCallbacks(Erased(m, i), devices, i, serial);
      }
    }
  }

  /** The callbacks of one poll: attached for a serial that is listed as "device" and was not active,
      detached for one that was active and is not listed at all, and none for any other. */
  lemma PollCallbacks(m: Monitor, devices: seq<AdbDevice>, serial: string)
    requires Sound(m)
    ensures
      var ready := exists i :: 0 <= i < |devices| && devices[i] == AdbDevice(serial, "device");
      var listed := exists i :: 0 <= i < |devices| && devices[i].serial == serial;
      History(Polled(m, devices).events, serial) == History(m.events, serial)
        + if serial in m.active then (if listed then [] else [false]) else if ready then [true] else []
  {
    AttachAllSound(m, devices);
    AttachCallbacks(m, devices, serial);
    DetachCallbacks(AttachAll(m, devices), devices, 0, serial);
    if i :| 0 <= i < |devices| && devices[i] == AdbDevice(serial, "device") {
      assert devices[i].serial == serial;
    }
  }

  /** So a device that goes "offline", or into any other state, stays active without a callback. */
  lemma OfflineStays(m: Monitor, devices: seq<AdbDevice>, i: nat)
    requires Sound(m) && i < |devices| && devices[i].serial in m.active
    ensures devices[i].serial in Polled(m, devices).active
    ensures History(Polled(m, devices).events, devices[i].serial) == History(m.events, devices[i].serial)
  {
    PollSound(m, devices);
    PollCallbacks(m, devices, devices[i].serial);
  }

  function PolledAll(m: Monitor, lists: seq<seq<AdbDevice>>): Monitor
    decreases |lists|
  {
    if lists == [] then m else PolledAll(Polled(m, lists[0]), lists[1..])
  }

  /** Main result, over every sequence of polls. */
  lemma {:induction false} EveryPollSequence(m: Monitor, lists: seq<seq<AdbDevice>>)
    requires Sound(m)
    ensures Sound(PolledAll(m, lists))
    decreases |lists|
  {
    if lists != [] {
      PollSound(m, lists[0]);
      EveryPollSequence(Polled(m, lists[0]), lists[1..]);
    }
  }

  lemma MonitorFromTheStart(lists: seq<seq<AdbDevice>>)
    ensures Sound(PolledAll(Monitor([], []), lists))
  {
    EveryPollSequence(Monitor([], []), lists);
  }
}
