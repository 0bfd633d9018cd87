/** The hardware interface: the online flag computed from the network
    interfaces, the sleep-inhibit file descriptor, the udis of network-share
    devices and, on FreeBSD and NetBSD, the smbfs mount points polled by the
    timer. What Solid, DBus, QNetworkInterface and KMountPoint report is
    passed in; the signals the interface emits and the descriptor it closes
    are recorded as events. */
module Hardware {
  import opened Common

  /** One network interface, as far as the online check looks at it. */
  datatype NetworkInterface = NetworkInterface(valid: bool, loopback: bool, running: bool)

  /** A device as Solid reports it: its udi and whether it is a network share. */
  datatype Device = Device(udi: string, networkShare: bool)

  /** One entry of the mount table. */
  datatype MountEntry = MountEntry(mountPoint: string, mountType: string)

  datatype HardwareEvent =
    | OnlineStateChanged(online: bool)
    | NetworkShareAdded
    | NetworkShareRemoved
      /** The inhibit descriptor handed back to the system. */
    | DescriptorClosed(fd: int)

  /** The descriptor value the interface stores when it holds none. */
  const NO_DESCRIPTOR: int := -1

  predicate DescriptorValid(fd: int) {
    fd != NO_DESCRIPTOR
  }

  /** An interface that makes the system online. */
  predicate Connected(i: NetworkInterface) {
    i.valid && !i.loopback && i.running
  }

  predicate Online(ifs: seq<NetworkInterface>) {
    exists i :: 0 <= i < |ifs| && Connected(ifs[i])
  }

  /** The state of the interface. `dbusValid` is whether the login1 (or,
      failing that, the ConsoleKit) manager interface could be reached. */
  datatype HardwareState = HardwareState(
    systemOnline: bool, fileDescriptor: int, dbusValid: bool,
    udis: seq<string>, mountPoints: seq<string>, events: seq<HardwareEvent>)

  // ---------------------------------------------------------------------
  // Online state

  /** The loop of checkOnlineState: online as soon as one interface is
      valid, not the loopback and running. */
  method AnyConnected(ifs: seq<NetworkInterface>) returns (online: bool)
    ensures online <==> Online(ifs)
  {
    online := false;
    var i := 0;
    while i < |ifs|
      invariant 0 <= i <= |ifs|
      invariant forall j :: 0 <= j < i ==> !Connected(ifs[j])
    {
      if ifs[i].valid && !ifs[i].loopback && ifs[i].running {
        online := true;
        break;
      }
      i := i + 1;
    }
  }

  /** checkOnlineState: the flag follows the interfaces; a change is
      announced only when `emitSignal` is set. */
  function OnlineStep(m: HardwareState, ifs: seq<NetworkInterface>, emitSignal: bool): HardwareState {
    var online := Online(ifs);
    if online == m.systemOnline then m
    else m.(systemOnline := online,
            events := m.events + (if emitSignal then [OnlineStateChanged(online)] else []))
  }

  /** The flag afterwards says whether some interface is up; the signal is
      emitted exactly when the flag changed and signalling was asked for,
      and nothing else changes. */
  lemma OnlineStepContract(m: HardwareState, ifs: seq<NetworkInterface>, emitSignal: bool)
    ensures var r := OnlineStep(m, ifs, emitSignal);
      r.systemOnline == Online(ifs) &&
      r.(systemOnline := m.systemOnline, events := m.events) == m &&
      (r.events == m.events + [OnlineStateChanged(Online(ifs))] <==>
         emitSignal && Online(ifs) != m.systemOnline) &&
      (r.events != m.events ==> r.events == m.events + [OnlineStateChanged(Online(ifs))])
  {
  }

  /** A second check against the same interfaces changes nothing. */
  lemma OnlineStepSettles(m: HardwareState, ifs: seq<NetworkInterface>, emitSignal: bool, again: bool)
    ensures OnlineStep(OnlineStep(m, ifs, emitSignal), ifs, again) == OnlineStep(m, ifs, emitSignal)
  {
  }

  // ---------------------------------------------------------------------
  // Sleep inhibition

  /** inhibit: nothing when a descriptor is held already; otherwise, when
      the manager is reachable and its reply is valid, the descriptor it
      returns is kept. */
  function InhibitStep(m: HardwareState, reply: Option<int>): HardwareState {
    if DescriptorValid(m.fileDescriptor) then m
    else if m.dbusValid && reply.Some? then m.(fileDescriptor := reply.value)
    else m
  }

  /** uninhibit: nothing without a descriptor; otherwise, when the manager
      is reachable, the descriptor is closed and forgotten. */
  function UninhibitStep(m: HardwareState): HardwareState {
    if !DescriptorValid(m.fileDescriptor) then m
    else if m.dbusValid then
      m.(fileDescriptor := NO_DESCRIPTOR, events := m.events + [DescriptorClosed(m.fileDescriptor)])
    else m
  }

  /** The two guards: a held descriptor is never replaced, a missing one is
      never closed, and only the descriptor changes (and, on release, the
      closing is recorded). */
  lemma InhibitGuards(m: HardwareState, reply: Option<int>)
    ensures DescriptorValid(m.fileDescriptor) ==> InhibitStep(m, reply) == m
    ensures !DescriptorValid(m.fileDescriptor) ==> UninhibitStep(m) == m
    ensures InhibitStep(m, reply).(fileDescriptor := m.fileDescriptor) == m
    ensures DescriptorValid(m.fileDescriptor) && m.dbusValid ==>
              !DescriptorValid(UninhibitStep(m).fileDescriptor) &&
              UninhibitStep(m).events == m.events + [DescriptorClosed(m.fileDescriptor)]
  {
  }

  /** Inhibiting with a valid reply and then releasing closes exactly the
      descriptor obtained and leaves the interface without one again. */
  lemma InhibitThenUninhibit(m: HardwareState, fd: int)
    requires !DescriptorValid(m.fileDescriptor) && m.dbusValid && DescriptorValid(fd)
    ensures UninhibitStep(InhibitStep(m, Some(fd))) ==
              m.(events := m.events + [DescriptorClosed(fd)])
  {
  }

  /** Without the manager neither call has any effect. */
  lemma NoManager(m: HardwareState, reply: Option<int>)
    requires !m.dbusValid
    ensures InhibitStep(m, reply) == m && UninhibitStep(m) == m
  {
  }

  // ---------------------------------------------------------------------
  // Network-share devices

  /** slotDeviceAdded: a network share is appended and announced; any
      other device changes nothing. */
  function DeviceAddedStep(m: HardwareState, d: Device): HardwareState {
    if d.networkShare then m.(udis := m.udis + [d.udi], events := m.events + [NetworkShareAdded])
    else m
  }

  /** slotDeviceRemoved: a network share, or a udi that is recorded, is
      announced and one occurrence of it dropped. */
  function DeviceRemovedStep(m: HardwareState, d: Device): HardwareState {
    if d.networkShare || d.udi in m.udis then
      m.(events := m.events + [NetworkShareRemoved], udis := RemoveFirst(m.udis, d.udi))
    else m
  }

  lemma DeviceStepsContract(m: HardwareState, d: Device)
    ensures d.networkShare ==> DeviceAddedStep(m, d).udis == m.udis + [d.udi] &&
                               DeviceAddedStep(m, d).events == m.events + [NetworkShareAdded]
    ensures !d.networkShare ==> DeviceAddedStep(m, d) == m
    ensures var r := DeviceRemovedStep(m, d);
      (r.events == m.events + [NetworkShareRemoved] <==> d.networkShare || d.udi in m.udis) &&
      (r.events == m.events ==> r == m) &&
      (r.events != m.events ==> multiset(r.udis) == multiset(m.udis) - multiset{d.udi})
  {
  }

  /** A network share that comes and goes leaves the recorded udis as they
      were, up to order, with one added and one removed announcement. */
  lemma AddedThenRemoved(m: HardwareState, d: Device)
    requires d.networkShare
    ensures var r := DeviceRemovedStep(DeviceAddedStep(m, d), d);
      multiset(r.udis) == multiset(m.udis) &&
      r.events == m.events + [NetworkShareAdded, NetworkShareRemoved]
  {
    var a := DeviceAddedStep(m, d);
    assert multiset(a.udis) == multiset(m.udis) + multiset{d.udi};
  }

  /** A network share not recorded before is dropped again exactly. */
  lemma AddedThenRemovedFresh(m: HardwareState, d: Device)
    requires d.networkShare && d.udi !in m.udis
    ensures DeviceRemovedStep(DeviceAddedStep(m, d), d).udis == m.udis
  {
    RemoveLast(m.udis, d.udi);
  }

  /** Dropping the first occurrence of an element appended to a list that
      does not hold it gives the list back. */
  lemma {:induction false} RemoveLast(s: seq<string>, x: string)
    requires x !in s
    ensures RemoveFirst(s + [x], x) == s
  {
    if s != [] {
      assert (s + [x])[1..] == s[1..] + [x];
      RemoveLast(s[1..], x);
    }
  }

  // ---------------------------------------------------------------------
  // Mount-point polling (FreeBSD and NetBSD)

  /** The result of comparing the recorded mount points with the current
      ones: the recorded ones still unmatched, the current ones that were
      recorded and the current ones that were not. */
  datatype MountDiff = MountDiff(vanished: seq<string>, kept: seq<string>, appeared: seq<string>)

  /** The comparison loop after the current mount points `cur`, in order:
      each one is matched against the first recorded occurrence still
      unmatched. */
  function Diff(prev: seq<string>, cur: seq<string>): MountDiff
    decreases |cur|
  {
    if cur == [] then MountDiff(prev, [], [])
    else
      var d := Diff(prev, cur[..|cur| - 1]);
      var mp := cur[|cur| - 1];
      if mp in d.vanished then MountDiff(RemoveFirst(d.vanished, mp), d.kept + [mp], d.appeared)
      else MountDiff(d.vanished, d.kept, d.appeared + [mp])
  }

  /** The matched mount points are common to both lists: together with the
      unmatched recorded ones they make up the recorded list, together with
      the new ones the current list, and no mount point is both unmatched
      and new. */
  lemma {:induction false} DiffCounts(prev: seq<string>, cur: seq<string>)
    ensures var d := Diff(prev, cur);
      multiset(d.kept) + multiset(d.vanished) == multiset(prev) &&
      multiset(d.kept) + multiset(d.appeared) == multiset(cur) &&
      multiset(d.vanished) !! multiset(d.appeared)
    decreases |cur|
  {
    if cur != [] {
      var init := cur[..|cur| - 1];
      var mp := cur[|cur| - 1];
      assert cur == init + [mp];
      DiffCounts(prev, init);
    }
  }

  /** Something is announced as removed exactly when a recorded mount point
      is no longer mounted as often, and as added exactly when a current one
      was not recorded as often. */
  lemma DiffEvents(prev: seq<string>, cur: seq<string>)
    ensures Diff(prev, cur).vanished != [] <==> !(multiset(prev) <= multiset(cur))
    ensures Diff(prev, cur).appeared != [] <==> !(multiset(cur) <= multiset(prev))
  {
    var d := Diff(prev, cur);
    DiffCounts(prev, cur);
    if d.vanished != [] {
      var x := d.vanished[0];
      assert x in multiset(d.vanished);
      assert multiset(d.appeared)[x] == 0;
      assert multiset(prev)[x] > multiset(cur)[x];
    }
    if d.appeared != [] {
      var x := d.appeared[0];
      assert x in multiset(d.appeared);
      assert multiset(d.vanished)[x] == 0;
      assert multiset(cur)[x] > multiset(prev)[x];
    }
  }

  /** The comparison loop of timerEvent, taking matched entries out of the
      recorded list as it goes. */
  method DiffMountPoints(prev: seq<string>, cur: seq<string>) returns (d: MountDiff)
    ensures d == Diff(prev, cur)
  {
    var recorded, alreadyMounted, remaining := prev, [], [];
    var i := 0;
    while i < |cur|
      invariant 0 <= i <= |cur|
      invariant MountDiff(recorded, alreadyMounted, remaining) == Diff(prev, cur[..i])
    {
      var mp := cur[i];
      assert cur[..i + 1][..i] == cur[..i];
      if mp in recorded {
        recorded := RemoveFirst(recorded, mp);
        alreadyMounted := alreadyMounted + [mp];
      } else {
        remaining := remaining + [mp];
      }
      i := i + 1;
    }
    assert cur[..i] == cur;
    d := MountDiff(recorded, alreadyMounted, remaining);
  }

  /** The mount points of the smbfs entries, in order. */
  function SmbfsMountPoints(ms: seq<MountEntry>): (r: seq<string>)
    ensures |r| <= |ms|
    ensures forall e :: e in ms && e.mountType == "smbfs" ==> e.mountPoint in r
    ensures forall p :: p in r ==> exists e :: e in ms && e.mountType == "smbfs" && e.mountPoint == p
  {
    if ms == [] then []
    else (if ms[0].mountType == "smbfs" then [ms[0].mountPoint] else []) + SmbfsMountPoints(ms[1..])
  }

  /** The mount-point part of timerEvent: removal is announced before
      addition, and the recorded list becomes the matched mount points
      followed by the new ones. */
  function MountStep(m: HardwareState, mounts: seq<MountEntry>): HardwareState {
    var d := Diff(m.mountPoints, SmbfsMountPoints(mounts));
    m.(mountPoints := d.kept + d.appeared,
       events := m.events + (if d.vanished != [] then [NetworkShareRemoved] else [])
                          + (if d.appeared != [] then [NetworkShareAdded] else []))
  }

  /** After a poll the recorded mount points are the current smbfs mount
      points, up to order, and nothing but them and the events changes. */
  lemma MountStepRecords(m: HardwareState, mounts: seq<MountEntry>)
    ensures var r := MountStep(m, mounts);
      multiset(r.mountPoints) == multiset(SmbfsMountPoints(mounts)) &&
      r.(mountPoints := m.mountPoints, events := m.events) == m
  {
    var d := Diff(m.mountPoints, SmbfsMountPoints(mounts));
    DiffCounts(m.mountPoints, SmbfsMountPoints(mounts));
    assert multiset(d.kept + d.appeared) == multiset(d.kept) + multiset(d.appeared);
  }

  /** A poll announces a share removed exactly when a mount point recorded
      before is gone, and added exactly when a new one appeared. */
  lemma MountStepEvents(m: HardwareState, mounts: seq<MountEntry>)
    ensures var cur := SmbfsMountPoints(mounts);
      var added := MountStep(m, mounts).events[|m.events|..];
      (NetworkShareRemoved in added <==> !(multiset(m.mountPoints) <= multiset(cur))) &&
      (NetworkShareAdded in added <==> !(multiset(cur) <= multiset(m.mountPoints)))
  {
    var cur := SmbfsMountPoints(mounts);
    var d := Diff(m.mountPoints, cur);
    DiffEvents(m.mountPoints, cur);
    AppendedEvents(m.events, d.vanished != [], d.appeared != []);
  }

  /** The events a poll appends announce a removal exactly when `gone` and
      an addition exactly when `come`. */
  lemma AppendedEvents(pre: seq<HardwareEvent>, gone: bool, come: bool)
    ensures var e := pre + (if gone then [NetworkShareRemoved] else []) + (if come then [NetworkShareAdded] else []);
      (NetworkShareRemoved in e[|pre|..] <==> gone) && (NetworkShareAdded in e[|pre|..] <==> come)
  {
    var g: seq<HardwareEvent> := if gone then [NetworkShareRemoved] else [];
    var c: seq<HardwareEvent> := if come then [NetworkShareAdded] else [];
    assert (pre + g + c)[|pre|..] == g + c;
  }

  /** A second poll of an unchanged mount table announces nothing. */
  lemma MountStepQuiet(m: HardwareState, mounts: seq<MountEntry>)
    ensures var r := MountStep(m, mounts);
      MountStep(r, mounts).events == r.events
  {
    var cur := SmbfsMountPoints(mounts);
    var r := MountStep(m, mounts);
    MountStepRecords(m, mounts);
    DiffEvents(r.mountPoints, cur);
    assert MountStep(r, mounts).events == r.events + [] + [];
  }

  /** timerEvent: the online check, announcing a change, then on FreeBSD
      and NetBSD builds (`pollMounts`) the mount-point comparison. */
  function TimerStep(m: HardwareState, ifs: seq<NetworkInterface>, pollMounts: bool,
                     mounts: seq<MountEntry>): HardwareState {
    var o := OnlineStep(m, ifs, true);
    if pollMounts then MountStep(o, mounts) else o
  }

  // ---------------------------------------------------------------------
  // The object

  /** The udis of the network-share devices, in order. */
  function NetworkShareUdis(ds: seq<Device>): (r: seq<string>)
    ensures |r| <= |ds|
    ensures forall d :: d in ds && d.networkShare ==> d.udi in r
    ensures forall u :: u in r ==> exists d :: d in ds && d.networkShare && d.udi == u
  {
    if ds == [] then []
    else (if ds[0].networkShare then [ds[0].udi] else []) + NetworkShareUdis(ds[1..])
  }

  /** The device loop of the constructor. */
  method CollectNetworkShares(devices: seq<Device>) returns (found: seq<string>)
    ensures found == NetworkShareUdis(devices)
  {
    found := [];
    var i := 0;
    while i < |devices|
      invariant 0 <= i <= |devices|
      invariant found + NetworkShareUdis(devices[i..]) == NetworkShareUdis(devices)
    {
      ShareUdisStep(devices, i);
      if devices[i].networkShare {
        found := found + [devices[i].udi];
      }
      i := i + 1;
    }
  }

  /** One more pass of the device loop. */
  lemma ShareUdisStep(ds: seq<Device>, i: nat)
    requires i < |ds|
    ensures var u := if ds[i].networkShare then [ds[i].udi] else [];
      forall f :: f + NetworkShareUdis(ds[i..]) == (f + u) + NetworkShareUdis(ds[i + 1..])
  {
    assert ds[i..][1..] == ds[i + 1..];
  }

  /** The state after construction: no descriptor, the udis of the network
      shares present, the online flag from the interfaces without a signal. */
  function Initial(dbusValid: bool, devices: seq<Device>, ifs: seq<NetworkInterface>): HardwareState {
    OnlineStep(HardwareState(false, NO_DESCRIPTOR, dbusValid, NetworkShareUdis(devices), [], []), ifs, false)
  }

  /** A new interface holds no descriptor, has announced nothing and is
      online exactly when an interface is up. */
  lemma InitialContract(dbusValid: bool, devices: seq<Device>, ifs: seq<NetworkInterface>)
    ensures var m := Initial(dbusValid, devices, ifs);
      !DescriptorValid(m.fileDescriptor) && m.events == [] && m.mountPoints == [] &&
      m.systemOnline == Online(ifs) && m.udis == NetworkShareUdis(devices)
  {
  }

  class HardwareInterface {
    var systemOnline: bool
    var fileDescriptor: int
    const dbusValid: bool
    var udis: seq<string>
    var mountPoints: seq<string>
    var events: seq<HardwareEvent>

    function State(): HardwareState
      reads this
    {
      HardwareState(systemOnline, fileDescriptor, dbusValid, udis, mountPoints, events)
    }

    constructor (managerValid: bool, devices: seq<Device>, ifs: seq<NetworkInterface>)
      ensures State() == Initial(managerValid, devices, ifs)
    {
      var found := CollectNetworkShares(devices);
      var online := AnyConnected(ifs);
      fileDescriptor := NO_DESCRIPTOR;
      dbusValid := managerValid;
      udis := found;
      mountPoints := [];
      events := [];
      systemOnline := online;
    }

    method IsOnline() returns (online: bool)
      ensures online == State().systemOnline
    {
      online := systemOnline;
    }

    method CheckOnlineState(ifs: seq<NetworkInterface>, emitSignal: bool)
      modifies this
      ensures State() == OnlineStep(old(State()), ifs, emitSignal)
    {
      var online := AnyConnected(ifs);
      if online != systemOnline {
        systemOnline := online;
        if emitSignal {
          events := events + [OnlineStateChanged(systemOnline)];
        }
      }
    }

    method Inhibit(reply: Option<int>)
      modifies this
      ensures State() == InhibitStep(old(State()), reply)
    {
      if DescriptorValid(fileDescriptor) {
        return;
      }
      if dbusValid && reply.Some? {
        fileDescriptor := reply.value;
      }
    }

    method Uninhibit()
      modifies this
      ensures State() == UninhibitStep(old(State()))
    {
      if !DescriptorValid(fileDescriptor) {
        return;
      }
      if dbusValid {
        events := events + [DescriptorClosed(fileDescriptor)];
        fileDescriptor := NO_DESCRIPTOR;
      }
    }

    method TimerEvent(ifs: seq<NetworkInterface>, pollMounts: bool, mounts: seq<MountEntry>)
      modifies this
      ensures State() == TimerStep(old(State()), ifs, pollMounts, mounts)
    {
      CheckOnlineState(ifs, true);
      if pollMounts {
        PollMounts(mounts);
      }
    }

    /** The mount-point comparison of timerEvent. */
    method PollMounts(mounts: seq<MountEntry>)
      modifies this
      ensures State() == MountStep(old(State()), mounts)
    {
      var d := DiffMountPoints(mountPoints, SmbfsMountPoints(mounts));
      var gone: seq<HardwareEvent> := [];
      if d.vanished != [] {
        gone := [NetworkShareRemoved];
      }
      var come: seq<HardwareEvent> := [];
      if d.appeared != [] {
        come := [NetworkShareAdded];
      }
      events := events + gone + come;
      mountPoints := d.kept + d.appeared;
    }

    method DeviceAdded(d: Device)
      modifies this
      ensures State() == DeviceAddedStep(old(State()), d)
    {
      if d.networkShare {
        udis := udis + [d.udi];
        events := events + [NetworkShareAdded];
      }
    }

    method DeviceRemoved(d: Device)
      modifies this
      ensures State() == DeviceRemovedStep(old(State()), d)
    {
      if d.networkShare || d.udi in udis {
        events := events + [NetworkShareRemoved];
        udis := RemoveFirst(udis, d.udi);
      }
    }
  }
}
