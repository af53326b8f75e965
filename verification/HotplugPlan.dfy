/**
 QEMU's side of hotplug: what the monitor commands of a device plan do
 (backend/qemu/internal/hotplug/hotplug.go, `planFor` and the naming functions).
 */
module HotplugPlan {
  import opened Numerals

  datatype Kind = VirtioFS | Net | Block | UnknownKind

  datatype Forward = Forward(proto: string, host: string, guest: string)

  datatype NetSettings = NetSettings(mac: string, forward: seq<Forward>)

  datatype BlockSettings = BlockSettings(imagePath: string, format: string, readOnly: bool, serial: string)

  /** `socketPath` and `target` are those of a virtio-fs device. */
  datatype Device = Device(
    id: string, kind: Kind, socketPath: string, target: string, net: NetSettings, block: BlockSettings)

  /** Backends live in one namespace per kind. */
  datatype BackendId = Chardev(name: string) | Netdev(name: string) | BlockNode(name: string)

  /** What a backend is created with. */
  datatype Settings =
    | UnixSocket(path: string)
    | UserNet(hostfwd: seq<string>)
    | ImageFile(format: string, path: string, readOnly: bool)

  /** A device on its bus; `tag` is the mount tag of a share, the address of a network card, the serial of a disk. */
  datatype Slot = Slot(driver: string, tag: string, backend: BackendId, bus: string)

  datatype Command =
    | AddBackend(backend: BackendId, settings: Settings)
    | RemoveBackend(backend: BackendId)
    | DeviceAdd(device: string, slot: Slot)
    | Malformed  // the empty command of a plan for no known kind

  datatype Plan = Plan(backend: seq<Command>, deviceAdd: Command, release: seq<Command>)

  function QemuDeviceId(id: string): string { "dev-" + id }

  function BusName(index: nat): string { "pcie.hotplug." + Itoa(index) }

  function BackendOf(d: Device): BackendId
    requires !d.kind.UnknownKind?
  {
    match d.kind
    case VirtioFS => Chardev("char-" + d.id)
    case Net => Netdev("netdev-" + d.id)
    case Block => BlockNode("block-" + d.id)
  }

  function SettingsOf(d: Device): Settings
    requires !d.kind.UnknownKind?
  {
    match d.kind
    case VirtioFS => UnixSocket(d.socketPath)
    case Net => UserNet(seq(|d.net.forward|, i requires 0 <= i < |d.net.forward| => HostForward(d.net.forward[i])))
    case Block => ImageFile(d.block.format, d.block.imagePath, d.block.readOnly)
  }

  function HostForward(f: Forward): string { f.proto + ":" + f.host + "-" + f.guest }

  function SlotOf(d: Device, bus: string): Slot
    requires !d.kind.UnknownKind?
  {
    match d.kind
    case VirtioFS => Slot("vhost-user-fs-pci", d.id, BackendOf(d), bus)
    case Net => Slot("virtio-net-pci", d.net.mac, BackendOf(d), bus)
    case Block => Slot("virtio-blk-pci", d.block.serial, BackendOf(d), bus)
  }

  function PlanFor(d: Device, bus: string): Plan {
    if d.kind.UnknownKind? then Plan([], Malformed, [])
    else Plan([AddBackend(BackendOf(d), SettingsOf(d))],
              DeviceAdd(QemuDeviceId(d.id), SlotOf(d, bus)),
              [RemoveBackend(BackendOf(d))])
  }

  /** `backends` tells what each backend was created with. */
  datatype Qemu = Qemu(backends: map<BackendId, Settings>, devices: map<string, Slot>) {
    /** Every device has its backend. */
    ghost predicate Valid() {
      forall d :: d in devices ==> devices[d].backend in backends
    }
  }

  /** A root port carries one device. */
  predicate BusFree(q: Qemu, bus: string) {
    forall d :: d in q.devices ==> q.devices[d].bus != bus
  }

  /** QEMU refuses a taken name, a missing backend, a taken root port, and to release a backend in use. */
  predicate Accepts(q: Qemu, c: Command) {
    match c
    case AddBackend(b, _) => b !in q.backends
    case RemoveBackend(b) => b in q.backends && forall d :: d in q.devices ==> q.devices[d].backend != b
    case DeviceAdd(d, slot) => d !in q.devices && slot.backend in q.backends && BusFree(q, slot.bus)
    case Malformed => false
  }

  function Apply(q: Qemu, c: Command): Qemu
    requires Accepts(q, c)
  {
    match c
    case AddBackend(b, settings) => q.(backends := q.backends[b := settings])
    case RemoveBackend(b) => q.(backends := q.backends - {b})
    case DeviceAdd(d, slot) => q.(devices := q.devices[d := slot])
  }

  function DeviceDeleted(q: Qemu, d: string): Qemu {
    q.(devices := q.devices - {d})
  }

  /** QEMU with the device plugged in: backend and frontend. */
  function Plugged(q: Qemu, d: Device, bus: string): Qemu
    requires !d.kind.UnknownKind?
  {
    Qemu(q.backends[BackendOf(d) := SettingsOf(d)], q.devices[QemuDeviceId(d.id) := SlotOf(d, bus)])
  }

  /** QEMU's device `name` has the given driver and tag, and its backend was created with `settings`. */
  ghost predicate Wired(q: Qemu, name: string, slot: Slot, settings: Settings) {
    && name in q.devices && q.devices[name] == slot
    && slot.backend in q.backends && q.backends[slot.backend] == settings
  }

  /**
   The device is there as it was asked for: a share under its own tag, over the socket of its helper; a network
   card with its address and its forwards; a disk with its serial, over its image.
   */
  ghost predicate WiredAs(q: Qemu, d: Device, bus: string) {
    match d.kind
    case VirtioFS =>
      Wired(q, "dev-" + d.id, Slot("vhost-user-fs-pci", d.id, Chardev("char-" + d.id), bus), UnixSocket(d.socketPath))
    case Net =>
      exists hostfwd ::
        && Wired(q, "dev-" + d.id, Slot("virtio-net-pci", d.net.mac, Netdev("netdev-" + d.id), bus), UserNet(hostfwd))
        && |hostfwd| == |d.net.forward|
        && forall i :: 0 <= i < |hostfwd| ==>
             hostfwd[i] == d.net.forward[i].proto + ":" + d.net.forward[i].host + "-" + d.net.forward[i].guest
    case Block =>
      Wired(q, "dev-" + d.id, Slot("virtio-blk-pci", d.block.serial, BlockNode("block-" + d.id), bus),
            ImageFile(d.block.format, d.block.imagePath, d.block.readOnly))
    case UnknownKind => false
  }

  /** The commands of a plan, all accepted, wire the device up as it was asked for. */
  lemma PlanWires(q: Qemu, d: Device, bus: string)
    requires Pluggable(q, d, bus)
    ensures var plan := PlanFor(d, bus);
            && |plan.backend| == 1 && Accepts(q, plan.backend[0])
            && Accepts(Apply(q, plan.backend[0]), plan.deviceAdd)
            && WiredAs(Apply(Apply(q, plan.backend[0]), plan.deviceAdd), d, bus)
            && Apply(Apply(q, plan.backend[0]), plan.deviceAdd) == Plugged(q, d, bus)
  {
    var wired := Plugged(q, d, bus);
    if d.kind.Net? {
      var hostfwd := SettingsOf(d).hostfwd;
      assert Wired(wired, "dev-" + d.id, Slot("virtio-net-pci", d.net.mac, Netdev("netdev-" + d.id), bus),
                   UserNet(hostfwd));
    }
  }

  /** No backend that is there before and after has become another. */
  ghost predicate BackendsKept(before: Qemu, after: Qemu) {
    forall b :: b in before.backends && b in after.backends ==> after.backends[b] == before.backends[b]
  }

  lemma QemuDeviceIdInjective(a: string, b: string)
    requires QemuDeviceId(a) == QemuDeviceId(b)
    ensures a == b
  {
    assert QemuDeviceId(a)[4..] == a && QemuDeviceId(b)[4..] == b;
  }

  lemma BusNameInjective(i: nat, j: nat)
    requires BusName(i) == BusName(j)
    ensures i == j
  {
    assert BusName(i)[13..] == Itoa(i) && BusName(j)[13..] == Itoa(j);
    ItoaInjective(i, j);
  }

  /** A known kind, and names that are free. */
  predicate NamesFree(q: Qemu, d: Device) {
    !d.kind.UnknownKind? && BackendOf(d) !in q.backends && QemuDeviceId(d.id) !in q.devices
  }

  /** What QEMU needs for a plan to go through. */
  predicate Pluggable(q: Qemu, d: Device, bus: string) {
    NamesFree(q, d) && BusFree(q, bus)
  }

  /** QEMU accepts every command of a plan, in order, if and only if the device is pluggable. */
  lemma PlanAcceptedIff(q: Qemu, d: Device, bus: string)
    ensures var plan := PlanFor(d, bus);
            Pluggable(q, d, bus) <==>
              && |plan.backend| == 1 && Accepts(q, plan.backend[0])
              && Accepts(Apply(q, plan.backend[0]), plan.deviceAdd)
    ensures |PlanFor(d, bus).backend| == 0 ==> !Accepts(q, PlanFor(d, bus).deviceAdd)
    ensures Pluggable(q, d, bus) && q.Valid() ==> Plugged(q, d, bus).Valid()
  {
  }

  /** A backend just added is free to be released, and releasing it restores QEMU exactly. */
  lemma ReleaseUndoesBackend(q: Qemu, d: Device, bus: string)
    requires q.Valid() && !d.kind.UnknownKind? && Accepts(q, PlanFor(d, bus).backend[0])
    ensures var added := Apply(q, PlanFor(d, bus).backend[0]);
            Accepts(added, PlanFor(d, bus).release[0]) && Apply(added, PlanFor(d, bus).release[0]) == q
  {
    assert q.backends[BackendOf(d) := SettingsOf(d)] - {BackendOf(d)} == q.backends;
  }

  /** Unplugging in the order of a detach restores QEMU exactly, and every command on the way is acceptable. */
  lemma UnplugUndoesPlug(q: Qemu, d: Device, bus: string)
    requires q.Valid() && !d.kind.UnknownKind? && BackendOf(d) !in q.backends && QemuDeviceId(d.id) !in q.devices
    ensures var gone := DeviceDeleted(Plugged(q, d, bus), QemuDeviceId(d.id));
            && QemuDeviceId(d.id) in Plugged(q, d, bus).devices
            && Accepts(gone, PlanFor(d, "").release[0])
            && Apply(gone, PlanFor(d, "").release[0]) == q
  {
    var gone := DeviceDeleted(Plugged(q, d, bus), QemuDeviceId(d.id));
    assert gone.devices == q.devices;
    assert gone.backends - {BackendOf(d)} == q.backends;
  }
}
