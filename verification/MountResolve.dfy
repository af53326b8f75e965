/**
 Resolution of manifest mounts to QEMU devices (internal/manifest/resolve_manifest.go): one ordered
 list built with per-kind counters, and three per-kind lists built separately.
 */
module MountResolve {
  import opened Wrappers
  import opened Document
  import opened Numerals

  datatype FsShare = FsShare(id: string, socketPath: string, tag: string, transport: string)

  datatype NinePShare = NinePShare(
    id: string, source: string, tag: string, securityModel: string, readOnly: bool, transport: string)

  datatype BlockDevice = BlockDevice(
    id: string, imagePath: string, format: string, aio: string, readOnly: bool,
    serial: string, transport: string, cache: string)

  datatype Device = FsDevice(share: FsShare) | NinePDevice(nineP: NinePShare) | Block(block: BlockDevice)

  datatype Host = Host(os: string, transport: string)

  /** `string(rune(code))`: 32-bit truncation, then U+FFFD for every value that is no Unicode scalar. */
  function RuneString(code: int): string {
    var rune := (code + 0x8000_0000) % 0x1_0000_0000 - 0x8000_0000;
    if 0 <= rune < 0xD800 || 0xE000 <= rune < 0x11_0000 then [rune as char] else [0xFFFD as char]
  }

  function ResolveFs(m: VirtioFSMount, index: nat, host: Host): FsShare {
    FsShare("fs" + Itoa(index), m.virtiofs.socket, m.tag, host.transport)
  }

  function ResolveNineP(m: NinePMount, index: nat, host: Host): NinePShare {
    NinePShare("fs9p" + Itoa(index), m.source, m.tag,
               if m.securityModel == "" then "mapped" else m.securityModel, m.readOnly, host.transport)
  }

  function ResolveImage(m: ImageMount, index: nat, host: Host): BlockDevice {
    BlockDevice("vd" + RuneString('a' as int + index), m.source,
                if m.image.format == "" then "raw" else m.image.format,
                if host.os == "linux" then "io_uring" else "threads",
                m.readOnly,
                if m.image.serial.Some? then m.image.serial.value else "",
                host.transport,
                if m.image.direct then "none" else "")
  }

  // The same, field by field.

  ghost predicate IsFs(s: FsShare, m: VirtioFSMount, n: nat, host: Host) {
    s.id == "fs" + Itoa(n) && s.socketPath == m.virtiofs.socket && s.tag == m.tag && s.transport == host.transport
  }

  ghost predicate IsNineP(s: NinePShare, m: NinePMount, n: nat, host: Host) {
    && s.id == "fs9p" + Itoa(n) && s.source == m.source && s.tag == m.tag && s.readOnly == m.readOnly
    && (if m.securityModel != "" then s.securityModel == m.securityModel else s.securityModel == "mapped")
    && s.transport == host.transport
  }

  /** The `n`-th image is named by a letter, counted from 'a', up to the surrogates. */
  ghost predicate IsImage(b: BlockDevice, m: ImageMount, n: nat, host: Host) {
    && (n < 0xD800 - 0x61 ==> b.id == ['v', 'd', (0x61 + n) as char])
    && b.imagePath == m.source && b.readOnly == m.readOnly && b.transport == host.transport
    && (if m.image.format != "" then b.format == m.image.format else b.format == "raw")
    && (if host.os == "linux" then b.aio == "io_uring" else b.aio == "threads")
    && (if m.image.serial.Some? then b.serial == m.image.serial.value else b.serial == "")
    && (if m.image.direct then b.cache == "none" else b.cache == "")
  }

  ghost predicate IsDevice(d: Device, m: Mount, n: nat, host: Host) {
    match m
    case Fs(f) => d.FsDevice? && IsFs(d.share, f, n, host)
    case NineP(p) => d.NinePDevice? && IsNineP(d.nineP, p, n, host)
    case Image(g) => d.Block? && IsImage(d.block, g, n, host)
  }

  /** Every mount becomes the device it asks for, numbered by how many of its kind came before. */
  ghost predicate AreDevices(devices: seq<Device>, mounts: seq<Mount>, host: Host) {
    |devices| == |mounts| && forall p :: 0 <= p < |mounts| ==> IsDevice(devices[p], mounts[p], Number(mounts, p), host)
  }

  lemma ImageName(n: nat)
    requires n < 0xD800 - 0x61
    ensures "vd" + RuneString('a' as int + n) == ['v', 'd', (0x61 + n) as char]
  {
    assert RuneString('a' as int + n) == [(0x61 + n) as char];
  }

  lemma ResolvedField(m: Mount, fs: nat, nineP: nat, images: nat, host: Host)
    ensures IsDevice(ResolveWith(m, fs, nineP, images, host), m,
                     match m { case Fs(_) => fs case NineP(_) => nineP case Image(_) => images }, host)
  {
    if m.Image? && images < 0xD800 - 0x61 {
      ImageName(images);
    }
  }

  lemma ResolvedFields(mounts: seq<Mount>, host: Host)
    ensures AreDevices(Resolved(mounts, host), mounts, host)
  {
    forall p | 0 <= p < |mounts|
      ensures IsDevice(Resolved(mounts, host)[p], mounts[p], Number(mounts, p), host)
    {
      ResolvedNext(mounts, host, p);
      var before := mounts[..p];
      ResolvedField(mounts[p], |VirtioFSMounts(before)|, |NinePMounts(before)|, |ImageMounts(before)|, host);
    }
  }

  /** A mount resolved after `mounts` is numbered by how many of its kind came before. */
  function ResolveNext(mounts: seq<Mount>, next: Mount, host: Host): Device {
    match next
    case Fs(m) => FsDevice(ResolveFs(m, |VirtioFSMounts(mounts)|, host))
    case NineP(m) => NinePDevice(ResolveNineP(m, |NinePMounts(mounts)|, host))
    case Image(m) => Block(ResolveImage(m, |ImageMounts(mounts)|, host))
  }

  function Resolved(mounts: seq<Mount>, host: Host): (devices: seq<Device>)
    ensures |devices| == |mounts|
  {
    if mounts == [] then []
    else
      var init := mounts[..|mounts| - 1];
      Resolved(init, host) + [ResolveNext(init, mounts[|mounts| - 1], host)]
  }

  /** A single mount under the three counters. */
  function ResolveWith(m: Mount, fs: nat, nineP: nat, images: nat, host: Host): Device {
    match m
    case Fs(f) => FsDevice(ResolveFs(f, fs, host))
    case NineP(n) => NinePDevice(ResolveNineP(n, nineP, host))
    case Image(g) => Block(ResolveImage(g, images, host))
  }

  /** The state of the loop after the mounts `done`. */
  ghost predicate Reached(done: seq<Mount>, host: Host, devices: seq<Device>, fs: nat, nineP: nat, images: nat) {
    && devices == Resolved(done, host)
    && fs == |VirtioFSMounts(done)| && nineP == |NinePMounts(done)| && images == |ImageMounts(done)|
  }

  lemma ReachedNext(done: seq<Mount>, m: Mount, host: Host, devices: seq<Device>, fs: nat, nineP: nat, images: nat)
    requires Reached(done, host, devices, fs, nineP, images)
    ensures Reached(done + [m], host, devices + [ResolveWith(m, fs, nineP, images, host)],
                    if m.Fs? then fs + 1 else fs, if m.NineP? then nineP + 1 else nineP,
                    if m.Image? then images + 1 else images)
  {
    assert (done + [m])[..|done|] == done;
    FiltersAppend(done, m);
  }

  /** `resolveQEMUMounts` with its `mountResolveContext` counters. */
  method ResolveQEMUMounts(mounts: seq<Mount>, host: Host) returns (devices: seq<Device>)
    ensures devices == Resolved(mounts, host) && AreDevices(devices, mounts, host)
  {
    devices := [];
    var virtioFSIndex, ninePIndex, blockDiskIndex := 0, 0, 0;
    for i := 0 to |mounts|
      invariant Reached(mounts[..i], host, devices, virtioFSIndex, ninePIndex, blockDiskIndex)
    {
      ReachedNext(mounts[..i], mounts[i], host, devices, virtioFSIndex, ninePIndex, blockDiskIndex);
      assert mounts[..i + 1] == mounts[..i] + [mounts[i]];
      match mounts[i]
      case Fs(m) =>
        devices := devices + [FsDevice(ResolveFs(m, virtioFSIndex, host))];
        virtioFSIndex := virtioFSIndex + 1;
      case NineP(m) =>
        devices := devices + [NinePDevice(ResolveNineP(m, ninePIndex, host))];
        ninePIndex := ninePIndex + 1;
      case Image(m) =>
        devices := devices + [Block(ResolveImage(m, blockDiskIndex, host))];
        blockDiskIndex := blockDiskIndex + 1;
    }
    assert mounts[..|mounts|] == mounts;
    ResolvedFields(mounts, host);
  }

  // The separately built lists number their entries by position.

  method ResolveVirtioFSMounts(mounts: seq<VirtioFSMount>, host: Host) returns (shares: seq<FsShare>)
    ensures |shares| == |mounts| && forall i :: 0 <= i < |mounts| ==> shares[i] == ResolveFs(mounts[i], i, host)
    ensures forall i :: 0 <= i < |mounts| ==> IsFs(shares[i], mounts[i], i, host)
  {
    shares := [];
    for i := 0 to |mounts|
      invariant |shares| == i && forall k :: 0 <= k < i ==> shares[k] == ResolveFs(mounts[k], k, host)
    {
      shares := shares + [ResolveFs(mounts[i], i, host)];
    }
  }

  method ResolveNinePMounts(mounts: seq<NinePMount>, host: Host) returns (shares: seq<NinePShare>)
    ensures |shares| == |mounts| && forall i :: 0 <= i < |mounts| ==> shares[i] == ResolveNineP(mounts[i], i, host)
    ensures forall i :: 0 <= i < |mounts| ==> IsNineP(shares[i], mounts[i], i, host)
  {
    shares := [];
    for i := 0 to |mounts|
      invariant |shares| == i && forall k :: 0 <= k < i ==> shares[k] == ResolveNineP(mounts[k], k, host)
    {
      shares := shares + [ResolveNineP(mounts[i], i, host)];
    }
  }

  method ResolveBlocks(volumes: seq<ImageMount>, host: Host) returns (blocks: seq<BlockDevice>)
    ensures |blocks| == |volumes| && forall i :: 0 <= i < |volumes| ==> blocks[i] == ResolveImage(volumes[i], i, host)
    ensures forall i :: 0 <= i < |volumes| ==> IsImage(blocks[i], volumes[i], i, host)
  {
    blocks := [];
    for i := 0 to |volumes|
      invariant |blocks| == i && forall k :: 0 <= k < i ==> blocks[k] == ResolveImage(volumes[k], k, host)
    {
      blocks := blocks + [ResolveImage(volumes[i], i, host)];
    }
    forall i | 0 <= i < |volumes|
      ensures IsImage(blocks[i], volumes[i], i, host)
    {
      ResolvedField(Image(volumes[i]), 0, 0, i, host);
    }
  }

  // The ordered list, filtered by kind.

  function FsOf(devices: seq<Device>): seq<FsShare> {
    if devices == [] then []
    else FsOf(devices[..|devices| - 1]) + (match devices[|devices| - 1] case FsDevice(s) => [s] case _ => [])
  }

  function NinePOf(devices: seq<Device>): seq<NinePShare> {
    if devices == [] then []
    else NinePOf(devices[..|devices| - 1]) + (match devices[|devices| - 1] case NinePDevice(s) => [s] case _ => [])
  }

  function BlocksOf(devices: seq<Device>): seq<BlockDevice> {
    if devices == [] then []
    else BlocksOf(devices[..|devices| - 1]) + (match devices[|devices| - 1] case Block(b) => [b] case _ => [])
  }

  ghost predicate FsMatch(shares: seq<FsShare>, mounts: seq<VirtioFSMount>, host: Host) {
    |shares| == |mounts| && forall i :: 0 <= i < |mounts| ==> shares[i] == ResolveFs(mounts[i], i, host)
  }

  ghost predicate NinePMatch(shares: seq<NinePShare>, mounts: seq<NinePMount>, host: Host) {
    |shares| == |mounts| && forall i :: 0 <= i < |mounts| ==> shares[i] == ResolveNineP(mounts[i], i, host)
  }

  ghost predicate BlockMatch(blocks: seq<BlockDevice>, mounts: seq<ImageMount>, host: Host) {
    |blocks| == |mounts| && forall i :: 0 <= i < |mounts| ==> blocks[i] == ResolveImage(mounts[i], i, host)
  }

  ghost predicate ListsMatch(mounts: seq<Mount>, devices: seq<Device>, host: Host) {
    && FsMatch(FsOf(devices), VirtioFSMounts(mounts), host)
    && NinePMatch(NinePOf(devices), NinePMounts(mounts), host)
    && BlockMatch(BlocksOf(devices), ImageMounts(mounts), host)
  }

  lemma DevicesAppend(devices: seq<Device>, d: Device)
    ensures FsOf(devices + [d]) == FsOf(devices) + (if d.FsDevice? then [d.share] else [])
    ensures NinePOf(devices + [d]) == NinePOf(devices) + (if d.NinePDevice? then [d.nineP] else [])
    ensures BlocksOf(devices + [d]) == BlocksOf(devices) + (if d.Block? then [d.block] else [])
  {
    assert (devices + [d])[..|devices|] == devices;
  }

  lemma FsExtend(shares: seq<FsShare>, mounts: seq<VirtioFSMount>, m: VirtioFSMount, host: Host)
    requires FsMatch(shares, mounts, host)
    ensures FsMatch(shares + [ResolveFs(m, |mounts|, host)], mounts + [m], host)
  {
    forall i | 0 <= i < |mounts| + 1
      ensures (shares + [ResolveFs(m, |mounts|, host)])[i] == ResolveFs((mounts + [m])[i], i, host)
    {
      assert i < |mounts| ==> shares[i] == ResolveFs(mounts[i], i, host);
    }
  }

  lemma NinePExtend(shares: seq<NinePShare>, mounts: seq<NinePMount>, m: NinePMount, host: Host)
    requires NinePMatch(shares, mounts, host)
    ensures NinePMatch(shares + [ResolveNineP(m, |mounts|, host)], mounts + [m], host)
  {
    forall i | 0 <= i < |mounts| + 1
      ensures (shares + [ResolveNineP(m, |mounts|, host)])[i] == ResolveNineP((mounts + [m])[i], i, host)
    {
      assert i < |mounts| ==> shares[i] == ResolveNineP(mounts[i], i, host);
    }
  }

  lemma BlockExtend(blocks: seq<BlockDevice>, mounts: seq<ImageMount>, m: ImageMount, host: Host)
    requires BlockMatch(blocks, mounts, host)
    ensures BlockMatch(blocks + [ResolveImage(m, |mounts|, host)], mounts + [m], host)
  {
    forall i | 0 <= i < |mounts| + 1
      ensures (blocks + [ResolveImage(m, |mounts|, host)])[i] == ResolveImage((mounts + [m])[i], i, host)
    {
      assert i < |mounts| ==> blocks[i] == ResolveImage(mounts[i], i, host);
    }
  }

  lemma ListsExtend(mounts: seq<Mount>, devices: seq<Device>, m: Mount, host: Host)
    requires ListsMatch(mounts, devices, host)
    ensures ListsMatch(mounts + [m], devices + [ResolveNext(mounts, m, host)], host)
  {
    FiltersAppend(mounts, m);
    DevicesAppend(devices, ResolveNext(mounts, m, host));
    match m {
      case Fs(f) => FsExtend(FsOf(devices), VirtioFSMounts(mounts), f, host);
      case NineP(p) => NinePExtend(NinePOf(devices), NinePMounts(mounts), p, host);
      case Image(g) => BlockExtend(BlocksOf(devices), ImageMounts(mounts), g, host);
    }
  }

  /** Filtering the ordered devices by kind gives exactly the separately built lists, identifiers included. */
  lemma {:induction false} FilteredDevicesAreTheLists(mounts: seq<Mount>, host: Host)
    ensures ListsMatch(mounts, Resolved(mounts, host), host)
  {
    if mounts != [] {
      var init, last := mounts[..|mounts| - 1], mounts[|mounts| - 1];
      FilteredDevicesAreTheLists(init, host);
      ListsExtend(init, Resolved(init, host), last, host);
      assert init + [last] == mounts;
    }
  }

  /** The three loops over the filtered mounts agree with the one loop over all of them. */
  method ResolveAll(mounts: seq<Mount>, host: Host)
    returns (devices: seq<Device>, fs: seq<FsShare>, nineP: seq<NinePShare>, blocks: seq<BlockDevice>)
    ensures devices == Resolved(mounts, host) && AreDevices(devices, mounts, host)
    ensures fs == FsOf(devices) && nineP == NinePOf(devices) && blocks == BlocksOf(devices)
  {
    devices := ResolveQEMUMounts(mounts, host);
    fs := ResolveVirtioFSMounts(VirtioFSMounts(mounts), host);
    nineP := ResolveNinePMounts(NinePMounts(mounts), host);
    blocks := ResolveBlocks(ImageMounts(mounts), host);
    FilteredDevicesAreTheLists(mounts, host);
  }

  // Identifiers.

  function Id(d: Device): string {
    match d
    case FsDevice(s) => s.id
    case NinePDevice(s) => s.id
    case Block(b) => b.id
  }

  ghost predicate DistinctIds(devices: seq<Device>) {
    forall i, j :: 0 <= i < j < |devices| ==> Id(devices[i]) != Id(devices[j])
  }

  /** One image past the last letter before the surrogate range still has a name of its own. */
  const MAX_IMAGES: nat := 0xD800 - 0x61 + 1

  lemma ImageIdsDiffer(i: nat, j: nat)
    requires i < j < MAX_IMAGES
    ensures "vd" + RuneString('a' as int + i) != "vd" + RuneString('a' as int + j)
  {
    var a, b := RuneString('a' as int + i), RuneString('a' as int + j);
    assert ("vd" + a)[2] == a[0] && ("vd" + b)[2] == b[0];
  }

  lemma NumberedIdsDiffer(prefix: string, i: nat, j: nat)
    requires i != j
    ensures prefix + Itoa(i) != prefix + Itoa(j)
  {
    if prefix + Itoa(i) == prefix + Itoa(j) {
      assert (prefix + Itoa(i))[|prefix|..] == Itoa(i);
      assert (prefix + Itoa(j))[|prefix|..] == Itoa(j);
      ItoaInjective(i, j);
    }
  }

  /** No virtio-fs number reads like a 9p identifier: 'p' is no digit. */
  lemma KindsDiffer(i: nat, j: nat)
    ensures "fs" + Itoa(i) != "fs9p" + Itoa(j)
  {
    var a, b := "fs" + Itoa(i), "fs9p" + Itoa(j);
    assert b[3] == 'p';
    if |Itoa(i)| > 1 {
      assert a[3] == Itoa(i)[1];
      assert Decimal.IsDigit(Itoa(i)[1]);
    }
  }

  /** How many mounts of this one's kind precede position `p`. */
  function Number(mounts: seq<Mount>, p: nat): nat
    requires p < |mounts|
  {
    match mounts[p]
    case Fs(_) => |VirtioFSMounts(mounts[..p])|
    case NineP(_) => |NinePMounts(mounts[..p])|
    case Image(_) => |ImageMounts(mounts[..p])|
  }

  function IdAt(m: Mount, number: nat): string {
    match m
    case Fs(_) => "fs" + Itoa(number)
    case NineP(_) => "fs9p" + Itoa(number)
    case Image(_) => "vd" + RuneString('a' as int + number)
  }

  lemma {:induction false} ResolvedNext(mounts: seq<Mount>, host: Host, p: nat)
    requires p < |mounts|
    ensures Resolved(mounts, host)[p] == ResolveNext(mounts[..p], mounts[p], host)
  {
    var init := mounts[..|mounts| - 1];
    if p < |init| {
      ResolvedNext(init, host, p);
      assert init[..p] == mounts[..p];
    }
  }

  lemma ResolvedAt(mounts: seq<Mount>, host: Host, p: nat)
    requires p < |mounts|
    ensures Id(Resolved(mounts, host)[p]) == IdAt(mounts[p], Number(mounts, p))
  {
    ResolvedNext(mounts, host, p);
  }

  lemma {:induction false} CountsGrow(mounts: seq<Mount>, p: nat, q: nat)
    requires p < q <= |mounts|
    ensures |VirtioFSMounts(mounts[..p])| + (if mounts[p].Fs? then 1 else 0) <= |VirtioFSMounts(mounts[..q])|
    ensures |NinePMounts(mounts[..p])| + (if mounts[p].NineP? then 1 else 0) <= |NinePMounts(mounts[..q])|
    ensures |ImageMounts(mounts[..p])| + (if mounts[p].Image? then 1 else 0) <= |ImageMounts(mounts[..q])|
    decreases q
  {
    assert mounts[..q][..q - 1] == mounts[..q - 1];
    if p < q - 1 {
      CountsGrow(mounts, p, q - 1);
    }
  }

  /** The position of the `n`-th image. */
  lemma {:induction false} ImagePosition(mounts: seq<Mount>, n: nat) returns (p: nat)
    requires n < |ImageMounts(mounts)|
    ensures p < |mounts| && mounts[p].Image? && Number(mounts, p) == n
  {
    var init := mounts[..|mounts| - 1];
    if n < |ImageMounts(init)| {
      p := ImagePosition(init, n);
      assert init[..p] == mounts[..p];
    } else {
      p := |mounts| - 1;
    }
  }

  /**
   Mount identifiers are pairwise distinct exactly while the image numbers stay out of the surrogate
   range: two images numbered inside it share the replacement character.
   */
  lemma IdsDistinctIff(mounts: seq<Mount>, host: Host)
    ensures DistinctIds(Resolved(mounts, host)) <==> |ImageMounts(mounts)| <= MAX_IMAGES
  {
    var devices := Resolved(mounts, host);
    if |ImageMounts(mounts)| <= MAX_IMAGES {
      forall p, q | 0 <= p < q < |devices|
        ensures Id(devices[p]) != Id(devices[q])
      {
        DistinctPair(mounts, host, p, q);
      }
    } else {
      var p, q := CollidingPair(mounts, host);
    }
  }

  /** The first two images inside the surrogate range. */
  lemma CollidingPair(mounts: seq<Mount>, host: Host) returns (p: nat, q: nat)
    requires |ImageMounts(mounts)| > MAX_IMAGES
    ensures p < |mounts| && q < |mounts| && p != q && Id(Resolved(mounts, host)[p]) == Id(Resolved(mounts, host)[q])
  {
    p := ImagePosition(mounts, MAX_IMAGES - 1);
    q := ImagePosition(mounts, MAX_IMAGES);
    ResolvedAt(mounts, host, p);
    ResolvedAt(mounts, host, q);
    SurrogatesCollide(MAX_IMAGES - 1, MAX_IMAGES);
  }

  lemma SurrogatesCollide(i: nat, j: nat)
    requires i == MAX_IMAGES - 1 && j == MAX_IMAGES
    ensures "vd" + RuneString('a' as int + i) == "vd" + RuneString('a' as int + j)
  {
  }

  predicate SameKind(m: Mount, n: Mount) {
    (m.Fs? && n.Fs?) || (m.NineP? && n.NineP?) || (m.Image? && n.Image?)
  }

  lemma IdAtDiffers(m: Mount, i: nat, n: Mount, j: nat)
    requires SameKind(m, n) ==> i != j
    requires m.Image? ==> i < MAX_IMAGES
    requires n.Image? ==> j < MAX_IMAGES
    ensures IdAt(m, i) != IdAt(n, j)
  {
    match (m, n)
    case (Fs(_), Fs(_)) => NumberedIdsDiffer("fs", i, j);
    case (NineP(_), NineP(_)) => NumberedIdsDiffer("fs9p", i, j);
    case (Image(_), Image(_)) => if i < j { ImageIdsDiffer(i, j); } else { ImageIdsDiffer(j, i); }
    case (Fs(_), NineP(_)) => KindsDiffer(i, j);
    case (NineP(_), Fs(_)) => KindsDiffer(j, i);
    case _ => assert IdAt(m, i)[0] != IdAt(n, j)[0];
  }

  lemma NumbersDiffer(mounts: seq<Mount>, p: nat, q: nat)
    requires p < q < |mounts|
    ensures SameKind(mounts[p], mounts[q]) ==> Number(mounts, p) != Number(mounts, q)
    ensures mounts[p].Image? ==> Number(mounts, p) < |ImageMounts(mounts)|
    ensures mounts[q].Image? ==> Number(mounts, q) < |ImageMounts(mounts)|
  {
    CountsGrow(mounts, p, q);
    CountsGrow(mounts, p, |mounts|);
    CountsGrow(mounts, q, |mounts|);
    assert mounts[..|mounts|] == mounts;
  }

  lemma DistinctPair(mounts: seq<Mount>, host: Host, p: nat, q: nat)
    requires p < q < |mounts| && |ImageMounts(mounts)| <= MAX_IMAGES
    ensures Id(Resolved(mounts, host)[p]) != Id(Resolved(mounts, host)[q])
  {
    NumbersDiffer(mounts, p, q);
    IdAtDiffers(mounts[p], Number(mounts, p), mounts[q], Number(mounts, q));
    ResolvedAt(mounts, host, p);
    ResolvedAt(mounts, host, q);
  }
}
