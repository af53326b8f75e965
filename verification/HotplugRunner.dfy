/**
 `Runner.attach` and `Runner.detach` (backend/qemu/internal/hotplug/hotplug.go): what a failure leaves
 behind, and what every sequence of operations keeps.
 */
module HotplugRunner {
  import opened Wrappers
  import opened Numerals
  import opened HotplugPlan
  import opened Hotplug

  // Counting ports.

  lemma {:induction false} PortsOfDistinct(attachments: map<string, Attachment>, count: int)
    requires PortsFit(attachments, count)
    ensures |Occupied(attachments)| == |attachments|
    decreases |attachments|
  {
    if attachments.Keys == {} {
      assert Occupied(attachments) == {};
    } else {
      var id :| id in attachments.Keys;
      var rest, port := attachments - {id}, attachments[id].port;
      PortsOfDistinct(rest, count);
      assert attachments.Keys == rest.Keys + {id};
      OccupiedWithout(attachments, id);
      assert port !in Occupied(rest);
    }
  }

  lemma OccupiedWithout(attachments: map<string, Attachment>, id: string)
    requires id in attachments
    ensures Occupied(attachments) == Occupied(attachments - {id}) + {attachments[id].port}
  {
    var rest := attachments - {id};
    forall p | p in Occupied(attachments)
      ensures p in Occupied(rest) + {attachments[id].port}
    {
      var k :| k in attachments && attachments[k].port == p;
      assert k == id || (k in rest && rest[k].port == p);
    }
  }

  function Range(n: nat): (r: set<int>)
    ensures forall p :: p in r <==> 0 <= p < n
    ensures |r| == n
  {
    if n == 0 then {} else Range(n - 1) + {n - 1}
  }

  lemma SubsetSize(a: set<int>, b: set<int>)
    requires a <= b
    ensures |a| <= |b| && (|a| == |b| ==> a == b)
  {
    assert b == a + (b - a);
  }

  /** Every port is taken exactly when as many devices are registered as there are ports. */
  lemma FullIffAllTaken(attachments: map<string, Attachment>, count: nat)
    requires PortsFit(attachments, count)
    ensures |attachments| == count <==> forall p :: 0 <= p < count ==> p in Occupied(attachments)
    ensures |attachments| <= count
  {
    var occupied, range := Occupied(attachments), Range(count);
    PortsOfDistinct(attachments, count);
    assert occupied <= range;
    SubsetSize(occupied, range);
    if forall p :: 0 <= p < count ==> p in occupied {
      assert range <= occupied;
      assert range == occupied;
    }
  }

  lemma PortsFitExtend(attachments: map<string, Attachment>, count: int, id: string, a: Attachment)
    requires PortsFit(attachments, count) && a.port < count && a.port !in Occupied(attachments)
    ensures PortsFit(attachments[id := a], count)
  {
    assert forall k :: k in attachments ==> attachments[k].port in Occupied(attachments);
  }

  // Buses.

  ghost predicate Holds(attachments: map<string, Attachment>, id: string, port: nat, device: string) {
    id in attachments && attachments[id].port == port && device == QemuDeviceId(id)
  }

  /** Whatever sits on a hotplug bus in QEMU is the device of a registered attachment with that port. */
  ghost predicate BusesHeld(q: Qemu, attachments: map<string, Attachment>, count: int) {
    forall d, p: nat :: d in q.devices && p < count && q.devices[d].bus == BusName(p) ==>
      exists id :: Holds(attachments, id, p, d)
  }

  /** A used bus belongs to exactly one registry entry and carries exactly one device. */
  lemma BusHeldByExactlyOne(q: Qemu, attachments: map<string, Attachment>, count: int, d: string, p: nat)
    requires PortsFit(attachments, count) && BusesHeld(q, attachments, count)
    requires d in q.devices && p < count && q.devices[d].bus == BusName(p)
    ensures exists id :: Holds(attachments, id, p, d)
                         && (forall other :: other in attachments && attachments[other].port == p ==> other == id)
                         && (forall e :: e in q.devices && q.devices[e].bus == BusName(p) ==> e == d)
  {
    var id :| Holds(attachments, id, p, d);
    forall e | e in q.devices && q.devices[e].bus == BusName(p)
      ensures e == d
    {
      var other :| Holds(attachments, other, p, e);
      assert other == id;
    }
  }

  lemma PlugHeld(q: Qemu, attachments: map<string, Attachment>, count: int, a: Attachment)
    requires BusesHeld(q, attachments, count) && !a.device.kind.UnknownKind? && a.device.id !in attachments
    ensures BusesHeld(Plugged(q, a.device, BusName(a.port)), attachments[a.device.id := a], count)
  {
    var q' := Plugged(q, a.device, BusName(a.port));
    var after := attachments[a.device.id := a];
    forall d, p: nat | d in q'.devices && p < count && q'.devices[d].bus == BusName(p)
      ensures exists id :: Holds(after, id, p, d)
    {
      if d == QemuDeviceId(a.device.id) {
        BusNameInjective(a.port, p);
        assert Holds(after, a.device.id, p, d);
      } else {
        var id :| Holds(attachments, id, p, d);
        assert Holds(after, id, p, d);
      }
    }
  }

  /** Dropping a device from QEMU, and possibly then its entry, keeps every used bus held. */
  lemma UnplugHeld(q: Qemu, q': Qemu, attachments: map<string, Attachment>, count: int, id: string)
    requires BusesHeld(q, attachments, count) && q'.devices == q.devices - {QemuDeviceId(id)}
    ensures BusesHeld(q', attachments, count) && BusesHeld(q', attachments - {id}, count)
  {
    forall d, p: nat | d in q'.devices && p < count && q'.devices[d].bus == BusName(p)
      ensures (exists k :: Holds(attachments, k, p, d)) && exists k :: Holds(attachments - {id}, k, p, d)
    {
      var k :| Holds(attachments, k, p, d);
      assert Holds(attachments - {id}, k, p, d);
    }
  }

  /** Observers change no port, no name and no device. */
  lemma HelpersDoNotMatter(q: Qemu, before: map<string, Attachment>, after: map<string, Attachment>, count: int)
    requires after.Keys == before.Keys
    requires forall id :: id in before ==> after[id] == before[id].(helper := after[id].helper)
    requires PortsFit(before, count) && Seated(q, before)
    ensures PortsFit(after, count) && Seated(q, after)
    ensures BusesHeld(q, before, count) ==> BusesHeld(q, after, count)
    ensures forall boot :: BackendsHeld(q, before, boot) ==> BackendsHeld(q, after, boot)
  {
    assert forall id, b, s :: Owns(before, id, b, s) ==> Owns(after, id, b, s);
    if BusesHeld(q, before, count) {
      forall d, p: nat | d in q.devices && p < count && q.devices[d].bus == BusName(p)
        ensures exists id :: Holds(after, id, p, d)
      {
        var id :| Holds(before, id, p, d);
        assert Holds(after, id, p, d);
      }
    }
  }

  // Seats: from the registry to QEMU.

  /**
   The device of an entry, if QEMU still has it, is where it was plugged in, and its backend is what it was
   created as and is shared with none.
   */
  ghost predicate SeatedAt(q: Qemu, a: Attachment) {
    var d := QemuDeviceId(a.device.id);
    && !a.device.kind.UnknownKind?
    && (d in q.devices ==> && Wired(q, d, SlotOf(a.device, BusName(a.port)), SettingsOf(a.device))
                           && forall e :: e in q.devices && e != d ==> q.devices[e].backend != BackendOf(a.device))
  }

  ghost predicate Seated(q: Qemu, attachments: map<string, Attachment>) {
    forall id :: id in attachments ==> attachments[id].device.id == id && SeatedAt(q, attachments[id])
  }

  /**
   All that an attach, successful or not, does to what QEMU has: it may leave a device of its own, on a backend
   of its own.
   */
  ghost predicate Confined(before: Qemu, device: Device, after: Qemu) {
    && BackendsKept(before, after)
    && (|| after.devices == before.devices
        || (NamesFree(before, device) && exists bus :: after.devices == Plugged(before, device, bus).devices))
  }

  lemma ConfinedSeats(q: Qemu, device: Device, q': Qemu, attachments: map<string, Attachment>)
    requires q.Valid() && q'.Valid() && Seated(q, attachments) && Confined(q, device, q')
    requires device.id !in attachments
    ensures Seated(q', attachments)
  {
    if q'.devices != q.devices {
      forall id | id in attachments
        ensures SeatedAt(q', attachments[id])
      {
        OtherDevice(id, device.id);
      }
    }
  }

  lemma PlugSeats(q: Qemu, a: Attachment, attachments: map<string, Attachment>)
    requires q.Valid() && Seated(q, attachments) && NamesFree(q, a.device) && a.device.id !in attachments
    ensures Seated(Plugged(q, a.device, BusName(a.port)), attachments[a.device.id := a])
  {
    ConfinedSeats(q, a.device, Plugged(q, a.device, BusName(a.port)), attachments);
  }

  /** In QEMU's own terms: what is seated is wired up as it was asked for. */
  lemma SeatedIsWired(q: Qemu, a: Attachment)
    requires SeatedAt(q, a) && "dev-" + a.device.id in q.devices
    ensures WiredAs(q, a.device, "pcie.hotplug." + Itoa(a.port))
  {
    var bus, d := "pcie.hotplug." + Itoa(a.port), a.device;
    assert Wired(q, "dev-" + d.id, SlotOf(d, bus), SettingsOf(d));
    if d.kind.Net? {
      var hostfwd := SettingsOf(d).hostfwd;
      assert Wired(q, "dev-" + d.id, Slot("virtio-net-pci", d.net.mac, Netdev("netdev-" + d.id), bus),
                   UserNet(hostfwd));
    }
  }

  /** Dropping devices and entries keeps the others seated. */
  lemma UnplugSeats(q: Qemu, q': Qemu, attachments: map<string, Attachment>, id: string)
    requires Seated(q, attachments) && q'.Valid() && BackendsKept(q, q')
    requires q'.devices == q.devices || q'.devices == q.devices - {QemuDeviceId(id)}
    ensures Seated(q', attachments) && Seated(q', attachments - {id})
  {
    assert forall k :: k in attachments ==> SeatedAt(q', attachments[k]);
  }

  lemma OtherDevice(a: string, b: string)
    requires a != b
    ensures QemuDeviceId(a) != QemuDeviceId(b)
  {
    if QemuDeviceId(a) == QemuDeviceId(b) {
      QemuDeviceIdInjective(a, b);
    }
  }

  // Backends.

  /** Whatever backend QEMU did not have at boot is that of a registered attachment, created as that one asked. */
  ghost predicate BackendsHeld(q: Qemu, attachments: map<string, Attachment>, boot: set<BackendId>) {
    forall b :: b in q.backends && b !in boot ==> exists id :: Owns(attachments, id, b, q.backends[b])
  }

  predicate Owns(attachments: map<string, Attachment>, id: string, b: BackendId, settings: Settings) {
    && id in attachments && !attachments[id].device.kind.UnknownKind?
    && BackendOf(attachments[id].device) == b && SettingsOf(attachments[id].device) == settings
  }

  lemma PlugOwned(q: Qemu, attachments: map<string, Attachment>, boot: set<BackendId>, a: Attachment)
    requires BackendsHeld(q, attachments, boot) && NamesFree(q, a.device) && a.device.id !in attachments
    ensures BackendsHeld(Plugged(q, a.device, BusName(a.port)), attachments[a.device.id := a], boot)
  {
    var after := attachments[a.device.id := a];
    var q' := Plugged(q, a.device, BusName(a.port));
    forall b | b in q'.backends && b !in boot
      ensures exists id :: Owns(after, id, b, q'.backends[b])
    {
      if b == BackendOf(a.device) {
        assert Owns(after, a.device.id, b, q'.backends[b]);
      } else {
        var id :| Owns(attachments, id, b, q.backends[b]);
        assert Owns(after, id, b, q.backends[b]);
      }
    }
  }

  /** A backend goes together with its entry, or both stay. */
  lemma UnplugOwned(q: Qemu, q': Qemu, attachments: map<string, Attachment>, boot: set<BackendId>, id: string)
    requires BackendsHeld(q, attachments, boot) && id in attachments && !attachments[id].device.kind.UnknownKind?
    requires q'.backends == q.backends - {BackendOf(attachments[id].device)}
    ensures BackendsHeld(q', attachments - {id}, boot)
  {
    forall b | b in q'.backends && b !in boot
      ensures exists k :: Owns(attachments - {id}, k, b, q.backends[b])
    {
      var k :| Owns(attachments, k, b, q.backends[b]);
      assert Owns(attachments - {id}, k, b, q.backends[b]);
    }
  }

  // Which entries can be detached.

  /** The guest mount of a device, if it has one. */
  function MountOf(device: Device): set<(string, string)> {
    if device.kind.VirtioFS? && device.target != "" then {(device.id, device.target)} else {}
  }

  /** The helper a detach has to stop, if the attachment still has one. */
  function HelperOf(a: Attachment): set<Process> {
    if a.device.kind.VirtioFS? && a.helper.Some? then {a.helper.value} else {}
  }

  /** An entry whose device QEMU no longer has, or whose mount the guest no longer has. */
  predicate Stranded(s: HostState, attachments: map<string, Attachment>, id: string) {
    && id in attachments
    && !(QemuDeviceId(id) in s.qemu.devices && MountOf(attachments[id].device) <= s.mounts)
  }

  /** Guest and QEMU accept every step of a detach, in order, if and only if the entry is not stranded. */
  lemma DetachableIff(s: HostState, attachments: map<string, Attachment>, id: string)
    requires s.qemu.Valid() && Seated(s.qemu, attachments) && id in attachments
    ensures !Stranded(s, attachments, id) <==>
              MountOf(attachments[id].device) <= s.mounts && Unpluggable(s.qemu, attachments[id].device)
  {
    assert SeatedAt(s.qemu, attachments[id]);
  }

  /**
   How an entry gets stranded: a detach of a registered device that stops after the unmount, or after
   `device_del` with the release still to come. What it leaves is stranded, while before it was not.
   */
  lemma HalfDetachStrands(s: HostState, attachments: map<string, Attachment>, a: Attachment)
    requires NamesFree(s.qemu, a.device)
    ensures var id, d := a.device.id, QemuDeviceId(a.device.id);
            var registered := attachments[id := a];
            var plugged := Plugged(s.qemu, a.device, BusName(a.port));
            var attached := HostState(plugged, s.helpers, s.mounts + MountOf(a.device));
            var unmounted := attached.(mounts := attached.mounts - MountOf(a.device));
            var deleted := unmounted.(qemu := DeviceDeleted(attached.qemu, d));
            && !Stranded(attached, registered, id)
            && (Stranded(unmounted, registered, id) <==> MountOf(a.device) != {})
            && Stranded(deleted, registered, id)
  {
    if p :| p in MountOf(a.device) {
      assert p !in s.mounts + MountOf(a.device) - MountOf(a.device);
    }
  }

  /** The host after a successful attach. */
  ghost predicate Gained(before: HostState, device: Device, a: Attachment, after: HostState) {
    && Pluggable(before.qemu, device, BusName(a.port)) && (a.helper.Some? <==> device.kind.VirtioFS?)
    && (a.helper.Some? ==> a.helper.value !in before.helpers)
    && after == Attached(before, device, a.port)
                  .(helpers := if a.helper.Some? then before.helpers[a.helper.value := device.socketPath]
                               else before.helpers)
  }

  /** What a successful attach adds to QEMU and the guest, and nothing more. */
  ghost function Attached(s: HostState, device: Device, port: nat): HostState
    requires !device.kind.UnknownKind?
  {
    HostState(Plugged(s.qemu, device, BusName(port)), s.helpers, s.mounts + MountOf(device))
  }

  /**
   The same in QEMU's, the helpers' and the guest's own terms: the device is on the bus of its port over a backend
   created as asked for; the helper of a share runs and serves the socket that the backend is connected to; the
   guest has the share mounted where it was asked to.
   */
  ghost predicate Provided(before: HostState, device: Device, a: Attachment, after: HostState) {
    && WiredAs(after.qemu, device, "pcie.hotplug." + Itoa(a.port))
    && (if device.kind.VirtioFS? then && a.helper.Some? && a.helper.value !in before.helpers
                                      && after.helpers == before.helpers[a.helper.value := device.socketPath]
        else a.helper.None? && after.helpers == before.helpers)
    && after.mounts == if device.kind.VirtioFS? && device.target != ""
                       then before.mounts + {(device.id, device.target)} else before.mounts
  }

  lemma GainedIsProvided(before: HostState, device: Device, a: Attachment, after: HostState)
    requires before.qemu.Valid() && Gained(before, device, a, after)
    ensures Provided(before, device, a, after)
  {
    PlanWires(before.qemu, device, BusName(a.port));
  }

  /** QEMU without the device and its backend. */
  ghost predicate Unplugged(before: Qemu, device: Device, after: Qemu) {
    && after.devices == before.devices - {QemuDeviceId(device.id)}
    && after.backends == if device.kind.UnknownKind? then before.backends else before.backends - {BackendOf(device)}
  }

  /** In QEMU's, the helpers' and the guest's own terms, what a detach takes away when QEMU lets go of the device. */
  ghost predicate Withdrawn(before: HostState, a: Attachment, stopped: bool, after: HostState) {
    && var id := a.device.id;
       && after.qemu.devices == before.qemu.devices - {"dev-" + id}
       && (a.device.kind.VirtioFS? ==> after.qemu.backends == before.qemu.backends - {Chardev("char-" + id)})
       && (a.device.kind.Net? ==> after.qemu.backends == before.qemu.backends - {Netdev("netdev-" + id)})
       && (a.device.kind.Block? ==> after.qemu.backends == before.qemu.backends - {BlockNode("block-" + id)})
       && after.mounts == (if a.device.kind.VirtioFS? && a.device.target != ""
                           then before.mounts - {(id, a.device.target)} else before.mounts)
       && after.helpers == if stopped && a.device.kind.VirtioFS? && a.helper.Some?
                           then before.helpers - {a.helper.value} else before.helpers
  }

  lemma UnpluggedIsWithdrawn(before: HostState, a: Attachment, stopped: bool, after: HostState)
    requires !a.device.kind.UnknownKind? && Unplugged(before.qemu, a.device, after.qemu)
    requires after.mounts == before.mounts - MountOf(a.device)
    requires after.helpers == if stopped then before.helpers - HelperOf(a) else before.helpers
    ensures Withdrawn(before, a, stopped, after)
  {
    assert before.helpers - {} == before.helpers;
  }

  /** A detach undoes an attach: of a device that was not mounted there before, nothing is left behind. */
  lemma DetachUndoesAttach(before: HostState, a: Attachment, during: HostState, after: HostState)
    requires Gained(before, a.device, a, during) && Withdrawn(during, a, true, after)
    requires (a.device.id, a.device.target) !in before.mounts
    ensures after == before
  {
    assert during.qemu.backends - {BackendOf(a.device)} == before.qemu.backends;
    assert during.qemu.devices - {QemuDeviceId(a.device.id)} == before.qemu.devices;
    assert before.mounts + MountOf(a.device) - MountOf(a.device) == before.mounts;
    if a.helper.Some? {
      assert during.helpers - {a.helper.value} == before.helpers;
    }
  }

  /** Watched helpers have been started: a new process is none of them. */
  ghost predicate HelpersKnown(observers: map<nat, Observer>, next: Process) {
    forall s :: s in observers ==> observers[s].helper < next
  }

  /** Starting a helper, failing to plug in, and stopping the helper: undone exactly when both undo steps were. */
  lemma HelperUndone(before: HostState, failed: HostState, p: Process, socketPath: string)
    requires p !in before.helpers && failed.helpers == before.helpers[p := socketPath]
    ensures failed != before
    ensures (failed.(helpers := failed.helpers - {p}) == before) ==
            (failed == before.(helpers := before.helpers[p := socketPath]))
  {
    assert before.helpers[p := socketPath] - {p} == before.helpers;
  }

  class Runner {
    const ports: int
    const runtime: Runtime
    const host: Host
    const hasStarter: bool
    const hasSockets: bool
    ghost const boot: set<BackendId>  // the backends QEMU starts with

    ghost predicate Sound() reads this, runtime, host {
      && runtime.Valid() && host.Valid() && PortsFit(runtime.attachments, ports)
      && HelpersKnown(runtime.observers, host.nextProcess)
    }

    ghost predicate Ready() reads this, runtime, host {
      Sound() && Seated(host.state.qemu, runtime.attachments)
    }

    ghost predicate Inv() reads this, runtime, host {
      && Ready()
      && (host.undoFailures == 0 ==> Held(host.state.qemu, runtime.attachments))
    }

    /** Every registered device that QEMU has is on the bus of its port, over a backend created as it asked. */
    ghost predicate AllWired() reads this, runtime, host {
      forall id :: id in runtime.attachments && "dev-" + id in host.state.qemu.devices ==>
        var a := runtime.attachments[id];
        a.device.id == id && WiredAs(host.state.qemu, a.device, "pcie.hotplug." + Itoa(a.port))
    }

    lemma ReadyIsWired()
      requires Ready()
      ensures AllWired()
    {
      forall id | id in runtime.attachments && "dev-" + id in host.state.qemu.devices
        ensures var a := runtime.attachments[id];
                a.device.id == id && WiredAs(host.state.qemu, a.device, "pcie.hotplug." + Itoa(a.port))
      {
        SeatedIsWired(host.state.qemu, runtime.attachments[id]);
      }
    }

    /** Nothing in QEMU that hotplug put there lacks a registry entry. */
    ghost predicate Held(q: Qemu, attachments: map<string, Attachment>) {
      BusesHeld(q, attachments, ports) && BackendsHeld(q, attachments, boot)
    }

    /** The boot devices of QEMU leave the hotplug buses free. */
    constructor (ports: int, qemu: Qemu, hasStarter: bool, hasSockets: bool)
      requires qemu.Valid() && forall d, p: nat :: d in qemu.devices ==> qemu.devices[d].bus != BusName(p)
      ensures Inv() && fresh(runtime) && fresh(host) && this.ports == ports
      ensures runtime.attachments == map[] && host.state.qemu == qemu && host.undoFailures == 0
      ensures boot == qemu.backends.Keys
    {
      boot := qemu.backends.Keys;
      this.ports, this.hasStarter, this.hasSockets := ports, hasStarter, hasSockets;
      runtime := new Runtime();
      host := new Host(qemu);
    }

    /** `rollbackHost`: a helper that refuses to stop is a failed undo. */
    method RollbackHost(proc: Option<Process>)
      requires host.Valid()
      modifies host`state, host`undoFailures, host`faults
      ensures host.Valid() && host.undoFailures >= old(host.undoFailures) && host.faults >= old(host.faults)
      ensures proc.None? || host.undoFailures > old(host.undoFailures) ==> host.state == old(host.state)
      ensures proc.None? ==> host.undoFailures == old(host.undoFailures)
      ensures proc.Some? && host.undoFailures == old(host.undoFailures) ==>
                host.state == old(host.state).(helpers := old(host.state.helpers) - {proc.value})
    {
      if proc.Some? {
        var ok := host.Stop(proc.value);
        if !ok {
          host.undoFailures := host.undoFailures + 1;
        }
      }
    }

    method AttachVirtioFSHost(device: Device) returns (proc: Option<Process>)
      requires host.Valid()
      modifies host
      ensures host.Valid() && host.undoFailures >= old(host.undoFailures)
      ensures host.nextProcess >= old(host.nextProcess) && host.faults >= old(host.faults)
      ensures proc.Some? ==> && old(host.nextProcess) <= proc.value < host.nextProcess
                             && proc.value !in old(host.state.helpers)
                             && host.state ==
                                  old(host.state).(helpers := old(host.state.helpers)[proc.value := device.socketPath])
                             && host.undoFailures == old(host.undoFailures)
      ensures proc.None? ==> (host.state == old(host.state) <==> host.undoFailures == old(host.undoFailures))
      ensures host.state == old(host.state).(helpers := host.state.helpers)
      ensures proc.Some? ==> hasStarter && host.faults == old(host.faults)
      ensures proc.None? && hasStarter ==> host.faults > old(host.faults)
    {
      if !hasStarter {
        return None;
      }
      proc := host.Start(device.socketPath);
      if proc.None? {
        return;
      }
      if device.socketPath != "" && hasSockets {
        var fails := host.Chance();
        if fails {
          RollbackHost(proc);
          return None;
        }
      }
    }

    /** `attachGuest`. */
    method AttachGuest(device: Device) returns (ok: bool)
      requires host.Valid()
      modifies host`state, host`faults
      ensures host.Valid() && host.faults >= old(host.faults) && (!ok <==> host.faults > old(host.faults))
      ensures host.state == if ok then old(host.state).(mounts := old(host.state.mounts) + MountOf(device))
                            else old(host.state)
      ensures !ok ==> MountOf(device) != {}
    {
      if !device.kind.VirtioFS? || device.target == "" {
        return true;
      }
      ok := host.Mount(device.id, device.target);
    }

    /** `rollbackQMP` after a failed guest mount. */
    method RollbackQmp(device: Device, ghost before: Qemu, bus: string)
      requires host.Valid() && before.Valid() && NamesFree(before, device)
      requires host.state.qemu == Plugged(before, device, bus)
      modifies host`state, host`undoFailures, host`faults
      ensures host.Valid() && host.undoFailures >= old(host.undoFailures) && host.faults >= old(host.faults)
      ensures host.state == old(host.state).(qemu := host.state.qemu)
      ensures host.state.qemu == before <==> host.undoFailures == old(host.undoFailures)
      ensures Confined(before, device, host.state.qemu)
    {
      UnplugUndoesPlug(before, device, bus);
      var ok := host.DetachDevice(device);
      if !ok {
        assert BackendOf(device) in host.state.qemu.backends;
        host.undoFailures := host.undoFailures + 1;
        assert DeviceDeleted(Plugged(before, device, bus), QemuDeviceId(device.id)).devices == before.devices;
      }
    }

    /** QEMU and guest side of an attach on a given port, with the QMP undo. */
    method PlugIn(device: Device, port: nat) returns (r: Result<(), Failure>)
      requires host.Valid()
      modifies host`state, host`undoFailures, host`faults
      ensures host.Valid() && host.undoFailures >= old(host.undoFailures) && host.faults >= old(host.faults)
      ensures Confined(old(host.state.qemu), device, host.state.qemu)
      ensures r.Err? ==> && (r.error.QmpFailed? || r.error.GuestFailed?)
                         && host.state == old(host.state).(qemu := host.state.qemu)
                         && (host.state == old(host.state) <==> host.undoFailures == old(host.undoFailures))
      ensures r.Ok? ==> && Pluggable(old(host.state.qemu), device, BusName(port))
                        && host.undoFailures == old(host.undoFailures)
                        && host.state == Attached(old(host.state), device, port)
      ensures host.faults == old(host.faults) ==> r.Ok? == Pluggable(old(host.state.qemu), device, BusName(port))
      // It is the guest's failure only if QEMU took the device and there is something to mount.
      ensures r == Err(GuestFailed) ==> Pluggable(old(host.state.qemu), device, BusName(port)) && MountOf(device) != {}
    {
      var plugged := host.AttachDevice(device, BusName(port));
      if !plugged {
        return Err(QmpFailed);
      }
      var mounted := AttachGuest(device);
      if !mounted {
        RollbackQmp(device, old(host.state.qemu), BusName(port));
        return Err(GuestFailed);
      }
      r := Ok(());
    }

    /** The preferred port if it is free, else the lowest free one. */
    ghost predicate Chosen(attachments: map<string, Attachment>, preferredPort: int, port: nat) {
      && port !in Occupied(attachments)
      && (0 <= preferredPort < ports && preferredPort !in Occupied(attachments) ==> port == preferredPort)
      && (port == preferredPort || forall p :: 0 <= p < port ==> p in Occupied(attachments))
    }

    /** A port is refused exactly when as many devices are registered as there are ports. */
    method Reserve(preferredPort: int) returns (port: int)
      requires PortsFit(runtime.attachments, ports)
      ensures port == -1 <==> Full()
      ensures port == -1 || (0 <= port < ports && Chosen(runtime.attachments, preferredPort, port))
      ensures port == -1 ==> forall p :: 0 <= p < ports ==> p in Occupied(runtime.attachments)
    {
      FullIffAllTaken(runtime.attachments, if ports < 0 then 0 else ports);
      port := runtime.AllocatePort(preferredPort, ports);
    }

    ghost predicate Full() reads this, runtime {
      |runtime.attachments| == if ports < 0 then 0 else ports
    }

    /**
     The part of `attach` after the helper is up: port, QEMU, guest and registry. Its own undo steps are
     those of the QMP side.
     */
    method Plug(device: Device, preferredPort: int, proc: Option<Process>) returns (r: Result<(), Failure>)
      requires runtime.Valid() && host.Valid() && PortsFit(runtime.attachments, ports)
      requires device.id !in runtime.attachments
      requires proc.Some? ==> HelpersKnown(runtime.observers, proc.value)
      modifies runtime, host`state, host`undoFailures, host`faults
      ensures runtime.Valid() && host.Valid() && PortsFit(runtime.attachments, ports)
      ensures host.undoFailures >= old(host.undoFailures) && host.faults >= old(host.faults)
      ensures Confined(old(host.state.qemu), device, host.state.qemu)
      ensures r.Err? ==> && RegistryUnchanged() && host.state == old(host.state).(qemu := host.state.qemu)
                         && (host.state == old(host.state) <==> host.undoFailures == old(host.undoFailures))
      ensures r.Ok? ==> && device.id in runtime.attachments
                        && Pluggable(old(host.state.qemu), device, BusName(runtime.attachments[device.id].port))
                        && host.undoFailures == old(host.undoFailures)
                        && Registers(device, preferredPort, proc, old(runtime.attachments), runtime.attachments)
                        && host.state == Attached(old(host.state), device, runtime.attachments[device.id].port)
      ensures WatchesOnly(old(runtime.observers), proc, runtime.observers)
      ensures r.Err? ==> r.error.NoPorts? || r.error.QmpFailed? || r.error.GuestFailed?
      ensures r == Err(NoPorts) <==> old(Full())
      ensures host.faults == old(host.faults) ==>
                (r.Ok? <==> NamesFree(old(host.state.qemu), device) && old(HasRoom(preferredPort)))
    {
      var port := Reserve(preferredPort);
      if port < 0 {
        return Err(NoPorts);
      }
      r := PlugIn(device, port);
      if r.Ok? {
        runtime.Register(device, port, proc);
        PortsFitExtend(old(runtime.attachments), ports, device.id, runtime.attachments[device.id]);
      }
    }

    /** No helper is watched but those that were, and the new one. */
    ghost predicate WatchesOnly(before: map<nat, Observer>, proc: Option<Process>, after: map<nat, Observer>) {
      forall s :: s in after ==> (s in before && before[s] == after[s]) || proc == Some(after[s].helper)
    }

    twostate predicate RegistryUnchanged() reads runtime {
      && runtime.attachments == old(runtime.attachments) && runtime.processes == old(runtime.processes)
      && runtime.observers == old(runtime.observers)
    }

    /** The registry gained exactly the entry of `device`, on a port nobody had. */
    ghost predicate Registers(device: Device, preferredPort: int, proc: Option<Process>,
                              before: map<string, Attachment>, after: map<string, Attachment>) {
      && device.id in after
      && var a := after[device.id];
         && a.device == device && a.helper == proc && a.port < ports && Chosen(before, preferredPort, a.port)
         && after == before[device.id := a]
    }

    /**
     All or nothing: a failure leaves the registry alone, and leaves everything else as it was exactly
     when no undo command failed; a success adds what was asked for and nothing else.
     */
    twostate predicate AllOrNothing(device: Device, preferredPort: int, new r: Result<(), Failure>)
      reads this, runtime, host
    {
      && host.undoFailures >= old(host.undoFailures) && host.faults >= old(host.faults)
      && Confined(old(host.state.qemu), device, host.state.qemu)
      && (r.Err? ==> && RegistryUnchanged() && host.state.mounts == old(host.state.mounts)
                     && (host.state == old(host.state) <==> host.undoFailures == old(host.undoFailures)))
      && (r.Ok? ==> && device.id in runtime.attachments && host.undoFailures == old(host.undoFailures)
                    && Registers(device, preferredPort, runtime.attachments[device.id].helper,
                                 old(runtime.attachments), runtime.attachments)
                    && Gained(old(host.state), device, runtime.attachments[device.id], host.state))
    }

    /** What has to be the case for an attach to succeed when the environment lets it. */
    ghost predicate Attachable(device: Device) reads this, runtime, host {
      && device.id !in runtime.attachments && NamesFree(host.state.qemu, device)
      && (device.kind.VirtioFS? ==> hasStarter)
    }

    /** There is a free port, and nothing left over from a failed undo sits on the one that will be chosen. */
    ghost predicate HasRoom(preferredPort: int) reads this, runtime, host {
      exists port: nat :: && port < ports && Chosen(runtime.attachments, preferredPort, port)
                          && BusFree(host.state.qemu, BusName(port))
    }

    /** While no undo failed a free port has a free bus. */
    lemma RoomWhileHeld(preferredPort: int)
      requires Inv() && host.undoFailures == 0
      ensures HasRoom(preferredPort) <==> !Full()
    {
      var count := if ports < 0 then 0 else ports;
      FullIffAllTaken(runtime.attachments, count);
      if !Full() {
        var port := Choice(preferredPort, count);
        assert BusFree(host.state.qemu, BusName(port));
      }
    }

    lemma Choice(preferredPort: int, count: nat) returns (port: nat)
      requires count == (if ports < 0 then 0 else ports)
      requires exists p :: 0 <= p < count && p !in Occupied(runtime.attachments)
      ensures port < ports && Chosen(runtime.attachments, preferredPort, port)
    {
      if 0 <= preferredPort < ports && preferredPort !in Occupied(runtime.attachments) {
        return preferredPort;
      }
      port := 0;
      while port in Occupied(runtime.attachments)
        invariant forall p :: 0 <= p < port ==> p in Occupied(runtime.attachments)
        invariant port < count
        decreases count - port
      {
        port := port + 1;
      }
    }

    /** `attach` for the kinds without a helper. */
    method AttachPlain(device: Device, preferredPort: int) returns (r: Result<(), Failure>)
      requires Sound() && device.id !in runtime.attachments && !device.kind.VirtioFS?
      modifies runtime, host
      ensures Sound() && AllOrNothing(device, preferredPort, r)
      ensures r != Err(AlreadyAttached) && r != Err(HostFailed) && (r == Err(NoPorts) <==> old(Full()))
      ensures host.faults == old(host.faults) ==> (r.Ok? <==> old(Attachable(device)) && old(HasRoom(preferredPort)))
    {
      r := Plug(device, preferredPort, None);
    }

    /** `attach` with a helper to start first and to stop on every failure after it. */
    method AttachVirtioFS(device: Device, preferredPort: int) returns (r: Result<(), Failure>)
      requires Sound() && device.id !in runtime.attachments && device.kind.VirtioFS?
      modifies runtime, host
      ensures Sound() && AllOrNothing(device, preferredPort, r)
      ensures r != Err(AlreadyAttached) && (r != Err(HostFailed) ==> (r == Err(NoPorts) <==> old(Full())))
      ensures host.faults == old(host.faults) ==> (r.Ok? <==> old(Attachable(device)) && old(HasRoom(preferredPort)))
    {
      var proc := AttachVirtioFSHost(device);
      if proc.None? {
        return Err(HostFailed);
      }
      r := Plug(device, preferredPort, proc);
      if r.Err? {
        HelperUndone(old(host.state), host.state, proc.value, device.socketPath);
        RollbackHost(proc);
      }
    }

    method Attach(device: Device, preferredPort: int) returns (r: Result<(), Failure>)
      requires Inv()
      modifies runtime, host
      ensures Inv() && AllOrNothing(device, preferredPort, r)
      // The refusals: an attach runs out of ports exactly when as many devices are registered.
      ensures r == Err(AlreadyAttached) <==> device.id in old(runtime.attachments)
      ensures r == Err(AlreadyAttached) ==> unchanged(host) && unchanged(runtime)
      ensures r == Err(HostFailed) ==> device.kind.VirtioFS?
      ensures r != Err(AlreadyAttached) && r != Err(HostFailed) ==> (r == Err(NoPorts) <==> old(Full()))
      // Left to itself it succeeds exactly when it can: while no undo failed, unless all ports are taken.
      ensures host.faults == old(host.faults) ==> (r.Ok? <==> old(Attachable(device)) && old(HasRoom(preferredPort)))
      ensures old(host.undoFailures) == 0 ==> (old(HasRoom(preferredPort)) <==> !old(Full()))
      // What it attaches can be detached.
      ensures r.Ok? ==> !Lost(device.id)
      ensures r.Ok? ==> Provided(old(host.state), device, runtime.attachments[device.id], host.state)
    {
      if host.undoFailures == 0 {
        RoomWhileHeld(preferredPort);
      }
      if device.id in runtime.attachments {
        return Err(AlreadyAttached);
      }
      if device.kind.VirtioFS? {
        r := AttachVirtioFS(device, preferredPort);
      } else {
        r := AttachPlain(device, preferredPort);
      }
      if r.Ok? {
        PlugSeats(old(host.state.qemu), runtime.attachments[device.id], old(runtime.attachments));
        if host.undoFailures == 0 {
          PlugHeld(old(host.state.qemu), old(runtime.attachments), ports, runtime.attachments[device.id]);
          PlugOwned(old(host.state.qemu), old(runtime.attachments), boot, runtime.attachments[device.id]);
        }
        GainedIsProvided(old(host.state), device, runtime.attachments[device.id], host.state);
      } else {
        ConfinedSeats(old(host.state.qemu), device, host.state.qemu, runtime.attachments);
      }
    }

    /** `detachGuest`. */
    method DetachGuest(device: Device) returns (ok: bool)
      requires host.Valid()
      modifies host`state, host`faults
      ensures host.Valid() && host.faults >= old(host.faults)
      ensures host.state == old(host.state).(mounts := if ok then old(host.state.mounts) - MountOf(device)
                                                       else old(host.state.mounts))
      ensures ok ==> MountOf(device) <= old(host.state.mounts)
      ensures !ok ==> MountOf(device) != {}
      ensures host.faults == old(host.faults) ==> ok == (MountOf(device) <= old(host.state.mounts))
    {
      if !device.kind.VirtioFS? || device.target == "" {
        return true;
      }
      ok := host.Unmount(device.id, device.target);
    }

    /** QEMU after a detach that failed: with the device or without it, but with every backend. */
    ghost predicate HalfUnplugged(before: Qemu, device: Device, after: Qemu) {
      && after.backends == before.backends
      && (after.devices == before.devices || after.devices == before.devices - {QemuDeviceId(device.id)})
    }

    /** Guest and QEMU side of a detach. */
    method Unplug(device: Device) returns (r: Result<(), Failure>)
      requires host.Valid()
      modifies host`state, host`faults
      ensures host.Valid() && host.state.helpers == old(host.state.helpers) && host.faults >= old(host.faults)
      ensures r == Err(GuestFailed) ==> host.state == old(host.state) && MountOf(device) != {}
      ensures r != Err(GuestFailed) ==> && MountOf(device) <= old(host.state.mounts)
                                        && host.state.mounts == old(host.state.mounts) - MountOf(device)
      ensures r.Ok? ==> && QemuDeviceId(device.id) in old(host.state.qemu.devices)
                        && Unplugged(old(host.state.qemu), device, host.state.qemu)
      ensures r.Err? ==> && (r.error.GuestFailed? || r.error.QmpFailed?)
                         && HalfUnplugged(old(host.state.qemu), device, host.state.qemu)
      ensures host.faults == old(host.faults) ==>
                (r.Ok? <==> MountOf(device) <= old(host.state.mounts) && Unpluggable(old(host.state.qemu), device))
    {
      var unmounted := DetachGuest(device);
      if !unmounted {
        return Err(GuestFailed);
      }
      var unplugged := host.DetachDevice(device);
      r := if unplugged then Ok(()) else Err(QmpFailed);
    }

    /** The end of a detach: the helper is asked to stop, and the entry goes whether it does or not. */
    method Release(id: string) returns (stopped: bool)
      requires Sound() && id in runtime.attachments
      modifies runtime, host`state, host`faults
      ensures Sound() && runtime.attachments == old(runtime.attachments) - {id}
      ensures host.state == old(host.state).(helpers := host.state.helpers)
      ensures host.state.helpers ==
                if stopped then old(host.state.helpers) - HelperOf(old(runtime.attachments[id]))
                else old(host.state.helpers)
      ensures !stopped ==> HelperOf(old(runtime.attachments[id])) != {}
      ensures old(runtime.attachments[id]).helper.Some? ==>
                runtime.processes == old(runtime.processes) - {old(runtime.attachments[id]).helper.value}
      ensures host.faults >= old(host.faults) && (!stopped <==> host.faults > old(host.faults))
    {
      var attached := runtime.attachments[id];
      stopped := true;
      if attached.device.kind.VirtioFS? && attached.helper.Some? {
        stopped := host.Stop(attached.helper.value);
      }
      runtime.Remove(id);
    }

    /** The entry of `a` is gone, with its device, its mount and, unless that was refused, its helper. */
    twostate predicate Freed(id: string, a: Attachment, new r: Result<(), Failure>) reads runtime, host {
      && runtime.attachments == old(runtime.attachments) - {id}
      && QemuDeviceId(id) in old(host.state.qemu.devices)
      && Unplugged(old(host.state.qemu), a.device, host.state.qemu)
      && host.state.mounts == old(host.state.mounts) - MountOf(a.device)
      && host.state.helpers == (if r.Ok? then old(host.state.helpers) - HelperOf(a) else old(host.state.helpers))
      && (r.Err? ==> HelperOf(a) != {})
      && (a.helper.Some? ==> runtime.processes == old(runtime.processes) - {a.helper.value})
    }

    /** The entry of `a` stays, with its helper and its backend. */
    twostate predicate Kept(a: Attachment, new r: Result<(), Failure>) reads runtime, host {
      && runtime.attachments == old(runtime.attachments) && runtime.processes == old(runtime.processes)
      && host.state.helpers == old(host.state.helpers)
      && HalfUnplugged(old(host.state.qemu), a.device, host.state.qemu)
      && (r == Err(GuestFailed) ==> host.state == old(host.state))
      && (r != Err(GuestFailed) ==> host.state.mounts == old(host.state.mounts) - MountOf(a.device))
    }

    /** What a detach does: the entry and its port go exactly when QEMU let go of device and backend, helper or not. */
    twostate predicate Detaches(id: string, new r: Result<(), Failure>) reads runtime, host {
      && (r == Err(NotAttached) <==> id !in old(runtime.attachments))
      && (id in old(runtime.attachments) ==>
            if r.Ok? || r == Err(StopFailed) then Freed(id, old(runtime.attachments[id]), r)
            else Kept(old(runtime.attachments[id]), r))
    }

    /** An entry that no detach can free. */
    ghost predicate Lost(id: string) reads runtime, host {
      Stranded(host.state, runtime.attachments, id)
    }

    method Detach(id: string) returns (r: Result<(), Failure>)
      requires Inv()
      modifies runtime, host`state, host`faults
      ensures Inv() && Detaches(id, r) && host.faults >= old(host.faults)
      ensures r == Err(NotAttached) ==> unchanged(host) && unchanged(runtime)
      // Left to itself it frees exactly the entries that are not stranded; a stranded one it never frees.
      ensures host.faults == old(host.faults) ==> (r.Ok? <==> id in old(runtime.attachments) && !old(Lost(id)))
      ensures old(Lost(id)) ==> Lost(id) && runtime.attachments == old(runtime.attachments)
      ensures r.Ok? || r == Err(StopFailed) ==>
                && id in old(runtime.attachments)
                && Withdrawn(old(host.state), old(runtime.attachments)[id], r.Ok?, host.state)
    {
      if id !in runtime.attachments {
        return Err(NotAttached);
      }
      assert runtime.Recorded(id);
      DetachableIff(host.state, runtime.attachments, id);
      r := Unplug(runtime.attachments[id].device);
      UnplugSeats(old(host.state.qemu), host.state.qemu, runtime.attachments, id);
      if old(host.undoFailures) == 0 && host.state.qemu.devices == old(host.state.qemu.devices) - {QemuDeviceId(id)} {
        UnplugHeld(old(host.state.qemu), host.state.qemu, runtime.attachments, ports, id);
      }
      if r.Ok? {
        if host.undoFailures == 0 {
          UnplugOwned(old(host.state.qemu), host.state.qemu, runtime.attachments, boot, id);
        }
        var stopped := Release(id);
        r := if stopped then Ok(()) else Err(StopFailed);
        UnpluggedIsWithdrawn(old(host.state), old(runtime.attachments)[id], stopped, host.state);
      }
    }
  }

  datatype Request =
    | AttachRequest(device: Device, preferredPort: int)
    | DetachRequest(id: string)
    | ObserverClears(serial: nat)
    | ObserverRemoves(serial: nat)

  /** Every sequence of attaches, detaches and late helper exits, with any failures, keeps the invariant. */
  method Serve(runner: Runner, requests: seq<Request>)
    requires runner.Inv()
    modifies runner.runtime, runner.host
    ensures runner.Inv()
    // A stranded entry is never freed again: its port is lost for the life of the VM.
    ensures forall id :: old(runner.Lost(id)) ==> runner.Lost(id)
    // Whatever failed on the way, a registered device that QEMU still has is wired up as it was asked for.
    ensures runner.AllWired()
  {
    for i := 0 to |requests|
      invariant runner.Inv()
      invariant forall id :: old(runner.Lost(id)) ==> runner.Lost(id)
    {
      ServeOne(runner, requests[i]);
    }
    runner.ReadyIsWired();
  }

  /** What an attach adds belongs to a name of its own, so it brings back nothing that is stranded. */
  lemma AttachKeepsStranded(s: HostState, s': HostState, attachments: map<string, Attachment>,
                            after: map<string, Attachment>, device: Device, id: string)
    requires Stranded(s, attachments, id) && id != device.id && id in after && after[id] == attachments[id]
    requires Confined(s.qemu, device, s'.qemu) && s'.mounts <= s.mounts + MountOf(device)
    requires attachments[id].device.id == id
    ensures Stranded(s', after, id)
  {
    OtherDevice(id, device.id);
  }

  method ServeAttach(runner: Runner, device: Device, preferredPort: int)
    requires runner.Inv()
    modifies runner.runtime, runner.host
    ensures runner.Inv()
    ensures forall id :: old(runner.Lost(id)) ==> runner.Lost(id)
  {
    ghost var s, attachments := runner.host.state, runner.runtime.attachments;
    assert Seated(s.qemu, attachments);
    var r := runner.Attach(device, preferredPort);
    if device.id !in attachments {
      forall id | old(runner.Lost(id))
        ensures runner.Lost(id)
      {
        AttachKeepsStranded(s, runner.host.state, attachments, runner.runtime.attachments, device, id);
      }
    }
  }

  /** A detach of one entry takes nothing from the others that they were not without already. */
  method ServeDetach(runner: Runner, id: string)
    requires runner.Inv()
    modifies runner.runtime, runner.host
    ensures runner.Inv()
    ensures forall k :: old(runner.Lost(k)) ==> runner.Lost(k)
  {
    ghost var s, attachments := runner.host.state, runner.runtime.attachments;
    var r := runner.Detach(id);
    assert runner.host.state.qemu.devices.Keys <= s.qemu.devices.Keys && runner.host.state.mounts <= s.mounts;
    forall k | old(runner.Lost(k))
      ensures runner.Lost(k)
    {
      if k != id {
        DetachKeepsStranded(s, runner.host.state, attachments, runner.runtime.attachments, k);
      }
    }
  }

  lemma DetachKeepsStranded(s: HostState, s': HostState, attachments: map<string, Attachment>,
                            after: map<string, Attachment>, id: string)
    requires Stranded(s, attachments, id) && id in after && after[id] == attachments[id]
    requires s'.qemu.devices.Keys <= s.qemu.devices.Keys && s'.mounts <= s.mounts
    ensures Stranded(s', after, id)
  {
  }

  method ServeOne(runner: Runner, request: Request)
    requires runner.Inv()
    modifies runner.runtime, runner.host
    ensures runner.Inv()
    ensures forall id :: old(runner.Lost(id)) ==> runner.Lost(id)
  {
    match request
    case AttachRequest(device, preferred) =>
      ServeAttach(runner, device, preferred);
    case DetachRequest(id) =>
      ServeDetach(runner, id);
    case ObserverClears(serial) =>
      if serial in runner.runtime.observers && !runner.runtime.observers[serial].cleared {
        runner.runtime.ObserverClears(serial);
        HelpersDoNotMatter(runner.host.state.qemu, old(runner.runtime.attachments), runner.runtime.attachments,
                           runner.ports);
      }
    case ObserverRemoves(serial) =>
      if serial in runner.runtime.observers && runner.runtime.observers[serial].cleared {
        runner.runtime.ObserverRemoves(serial);
      }
  }
}
