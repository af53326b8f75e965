/**
 The lens between a manifest's mount list and the shares and disks of a neutral Spec: the view is
 `specFromDocument` (manifest/manifest.go), the update is `overlaySpecMounts` (backend/qemu/spec.go).
 */
module MountOverlay {
  import opened Wrappers
  import opened MachineInts
  import opened Document
  import opened Sequences
  import ByteSize

  const MEBIBYTE := ByteSize.MEBIBYTE

  datatype Share = Share(tag: string, hostPath: string, guestPath: string, readOnly: bool)

  /** `size` counts bytes and is a 64-bit integer in the source. */
  datatype Disk = Disk(path: string, guestPath: string, format: string, size: int)

  datatype Error = TagRequired | PathRequired | Unaligned

  // The view.

  function ViewShare(m: VirtioFSMount): Share {
    Share(m.tag, m.source, m.target, m.readOnly)
  }

  /** `MiB.Bytes` multiplies in 64 bits; the view sets no guest path. */
  function ViewDisk(m: ImageMount): Disk {
    Disk(m.source, "", m.image.format, Wrap64(m.image.size * MEBIBYTE))
  }

  function ViewShares(mounts: seq<Mount>): seq<Share> {
    var fs := VirtioFSMounts(mounts);
    seq(|fs|, k requires 0 <= k < |fs| => ViewShare(fs[k]))
  }

  function ViewDisks(mounts: seq<Mount>): seq<Disk> {
    var images := ImageMounts(mounts);
    seq(|images|, k requires 0 <= k < |images| => ViewDisk(images[k]))
  }

  // The update of single entries.

  const BLANK_FS := VirtioFSMount("", "", "", false, "", VirtioFSInput("", "", []))
  const BLANK_IMAGE := ImageMount("", "", false, ImageInput(0, "", "", false, None, false, None))

  function OverlayShare(input: VirtioFSMount, share: Share): Result<VirtioFSMount, Error> {
    if share.tag == "" then Err(TagRequired)
    else
      var socket := if input.virtiofs.socket == ""
                    then input.virtiofs.(socket := share.tag + ".sock", bin := "virtiofsd") else input.virtiofs;
      Ok(input.(kind := KIND_VIRTIOFS, tag := share.tag, source := share.hostPath,
                readOnly := share.readOnly, target := share.guestPath, virtiofs := socket))
  }

  function OverlayDisk(input: ImageMount, disk: Disk): Result<ImageMount, Error> {
    if disk.path == "" then Err(PathRequired)
    else if disk.size != 0 && disk.size % MEBIBYTE != 0 then Err(Unaligned)
    else
      Ok(input.(kind := KIND_IMAGE, source := disk.path,
                image := input.image.(size := TruncDiv(disk.size, MEBIBYTE), format := disk.format,
                                      autoCreate := disk.size != 0)))
  }

  /** The entries an update can accept: exactly these. */
  predicate Acceptable(shares: seq<Share>, disks: seq<Disk>) {
    && (forall k :: 0 <= k < |shares| ==> shares[k].tag != "")
    && (forall k :: 0 <= k < |disks| ==> disks[k].path != "" && disks[k].size % MEBIBYTE == 0)
  }

  /** The document entry that the `k`-th share or disk is written over. */
  function FsAt(fs: seq<VirtioFSMount>, k: nat): VirtioFSMount {
    if k < |fs| then fs[k] else BLANK_FS
  }

  function ImageAt(images: seq<ImageMount>, k: nat): ImageMount {
    if k < |images| then images[k] else BLANK_IMAGE
  }

  // What the update does to the list.

  datatype Kind = FsKind | NinePKind | ImageKind

  function KindOf(m: Mount): Kind {
    match m
    case Fs(_) => FsKind
    case NineP(_) => NinePKind
    case Image(_) => ImageKind
  }

  function Kinds(mounts: seq<Mount>): seq<Kind> {
    seq(|mounts|, i requires 0 <= i < |mounts| => KindOf(mounts[i]))
  }

  /** The kinds of the entries that stay, in place, when there are `s` shares and `d` disks. */
  function KeptKinds(mounts: seq<Mount>, s: nat, d: nat): seq<Kind> {
    if mounts == [] then []
    else
      var before := mounts[..|mounts| - 1];
      KeptKinds(before, s, d)
      + (match mounts[|mounts| - 1]
         case Fs(_) => if |VirtioFSMounts(before)| < s then [FsKind] else []
         case NineP(_) => [NinePKind]
         case Image(_) => if |ImageMounts(before)| < d then [ImageKind] else [])
  }

  /** New entries: shares, then disks. */
  function Tail(s: int, d: int): seq<Kind> {
    var s', d' := Positive(s), Positive(d);
    seq(s' + d', i => if i < s' then FsKind else ImageKind)
  }

  function Positive(n: int): nat { if n < 0 then 0 else n }

  ghost predicate SharesWritten(fs: seq<VirtioFSMount>, shares: seq<Share>, written: seq<VirtioFSMount>) {
    && |written| <= |shares|
    && forall k :: 0 <= k < |written| ==> OverlayShare(FsAt(fs, k), shares[k]) == Ok(written[k])
  }

  ghost predicate DisksWritten(images: seq<ImageMount>, disks: seq<Disk>, written: seq<ImageMount>) {
    && |written| <= |disks|
    && forall k :: 0 <= k < |written| ==> OverlayDisk(ImageAt(images, k), disks[k]) == Ok(written[k])
  }

  /**
   The updated list: share by share and disk by disk over the entries in place, 9p entries as they
   were, surplus entries gone, and new entries at the end, shares first.
   */
  ghost predicate Overlaid(mounts: seq<Mount>, shares: seq<Share>, disks: seq<Disk>, r: seq<Mount>) {
    && |VirtioFSMounts(r)| == |shares| && SharesWritten(VirtioFSMounts(mounts), shares, VirtioFSMounts(r))
    && |ImageMounts(r)| == |disks| && DisksWritten(ImageMounts(mounts), disks, ImageMounts(r))
    && NinePMounts(r) == NinePMounts(mounts)
    && Kinds(r) == KeptKinds(mounts, |shares|, |disks|)
                   + Tail(|shares| - |VirtioFSMounts(mounts)|, |disks| - |ImageMounts(mounts)|)
  }

  // Which error is reported: that of the first entry, in the order of the updated list, that has one.

  function ShareError(share: Share): Option<Error> {
    if share.tag == "" then Some(TagRequired) else None
  }

  function DiskError(disk: Disk): Option<Error> {
    if disk.path == "" then Some(PathRequired)
    else if disk.size % MEBIBYTE != 0 then Some(Unaligned)
    else None
  }

  /** The kinds of the updated list: the entries that stay, then the new ones. */
  function Order(mounts: seq<Mount>, s: nat, d: nat): seq<Kind> {
    KeptKinds(mounts, s, d) + Tail(s - |VirtioFSMounts(mounts)|, d - |ImageMounts(mounts)|)
  }

  function Count(kind: Kind, kinds: seq<Kind>, n: nat): nat
    requires n <= |kinds|
  {
    if n == 0 then 0 else Count(kind, kinds, n - 1) + if kinds[n - 1] == kind then 1 else 0
  }

  /** What is wrong with the share or disk that goes to place `j`. */
  function ErrorAt(kinds: seq<Kind>, j: nat, shares: seq<Share>, disks: seq<Disk>): Option<Error>
    requires j < |kinds|
  {
    var k := Count(kinds[j], kinds, j);
    match kinds[j]
    case FsKind => if k < |shares| then ShareError(shares[k]) else None
    case ImageKind => if k < |disks| then DiskError(disks[k]) else None
    case NinePKind => None
  }

  ghost predicate FirstError(kinds: seq<Kind>, shares: seq<Share>, disks: seq<Disk>, j: nat, e: Error) {
    && j < |kinds| && ErrorAt(kinds, j, shares, disks) == Some(e)
    && forall i :: 0 <= i < j ==> ErrorAt(kinds, i, shares, disks) == None
  }

  lemma {:induction false} CountPrefix(kind: Kind, a: seq<Kind>, b: seq<Kind>, n: nat)
    requires n <= |a| && a <= b
    ensures Count(kind, a, n) == Count(kind, b, n)
  {
    if n > 0 {
      CountPrefix(kind, a, b, n - 1);
    }
  }

  lemma {:induction false} CountGrows(kind: Kind, kinds: seq<Kind>, i: nat, n: nat)
    requires i < n <= |kinds| && kinds[i] == kind
    ensures Count(kind, kinds, i) < Count(kind, kinds, n)
  {
    if i < n - 1 {
      CountGrows(kind, kinds, i, n - 1);
    }
  }

  /** Kinds count what the filters hold. */
  lemma {:induction false} CountKinds(r: seq<Mount>)
    ensures Count(FsKind, Kinds(r), |r|) == |VirtioFSMounts(r)|
    ensures Count(ImageKind, Kinds(r), |r|) == |ImageMounts(r)|
    decreases |r|
  {
    if r != [] {
      var before, m := r[..|r| - 1], r[|r| - 1];
      assert r == before + [m];
      CountKinds(before);
      FiltersAppend(before, m);
      KindsAppend(before, m);
      CountPrefix(FsKind, Kinds(before), Kinds(r), |before|);
      CountPrefix(ImageKind, Kinds(before), Kinds(r), |before|);
    }
  }

  /** Whatever has been written had nothing wrong with it. */
  ghost predicate Faultless(shares: seq<Share>, s: nat, disks: seq<Disk>, d: nat) {
    && (forall k :: 0 <= k < s && k < |shares| ==> ShareError(shares[k]) == None)
    && (forall k :: 0 <= k < d && k < |disks| ==> DiskError(disks[k]) == None)
  }

  lemma WrittenFaultless(fs: seq<VirtioFSMount>, shares: seq<Share>, written: seq<VirtioFSMount>,
                         images: seq<ImageMount>, disks: seq<Disk>, drawn: seq<ImageMount>)
    requires SharesWritten(fs, shares, written) && DisksWritten(images, disks, drawn)
    ensures Faultless(shares, |written|, disks, |drawn|)
  {
    forall k | 0 <= k < |written|
      ensures ShareError(shares[k]) == None
    {
      assert OverlayShare(FsAt(fs, k), shares[k]) == Ok(written[k]);
    }
    forall k | 0 <= k < |drawn|
      ensures DiskError(disks[k]) == None
    {
      assert OverlayDisk(ImageAt(images, k), disks[k]) == Ok(drawn[k]);
    }
  }

  /** The next entry of the order fails, and none before it did. */
  lemma FailsFirst(r: seq<Mount>, kind: Kind, order: seq<Kind>, shares: seq<Share>, disks: seq<Disk>, e: Error)
    requires Kinds(r) + [kind] <= order && Faultless(shares, |VirtioFSMounts(r)|, disks, |ImageMounts(r)|)
    requires match kind
             case FsKind => |VirtioFSMounts(r)| < |shares| && ShareError(shares[|VirtioFSMounts(r)|]) == Some(e)
             case ImageKind => |ImageMounts(r)| < |disks| && DiskError(disks[|ImageMounts(r)|]) == Some(e)
             case NinePKind => false
    ensures FirstError(order, shares, disks, |r|, e)
  {
    var kinds := Kinds(r);
    assert kinds <= order && order[|r|] == (kinds + [kind])[|r|] == kind;
    CountKinds(r);
    CountPrefix(kind, kinds, order, |r|);
    forall i | 0 <= i < |r|
      ensures ErrorAt(order, i, shares, disks) == None
    {
      assert order[i] == kinds[i];
      CountPrefix(kinds[i], kinds, order, i);
      CountGrows(kinds[i], kinds, i, |r|);
    }
  }

  lemma {:induction false} KeptPrefix(mounts: seq<Mount>, i: nat, s: nat, d: nat)
    requires i <= |mounts|
    ensures KeptKinds(mounts[..i], s, d) <= KeptKinds(mounts, s, d)
    decreases |mounts| - i
  {
    if i == |mounts| {
      assert mounts[..i] == mounts;
    } else {
      KeptPrefix(mounts, i + 1, s, d);
      assert mounts[..i + 1] == mounts[..i] + [mounts[i]];
      KeptStep(mounts[..i], mounts[i], s, d);
    }
  }

  /** Where a kept entry stands in the order. */
  lemma KeptInOrder(mounts: seq<Mount>, i: nat, s: nat, d: nat)
    requires i < |mounts|
    requires mounts[i].Fs? ==> |VirtioFSMounts(mounts[..i])| < s
    requires mounts[i].Image? ==> |ImageMounts(mounts[..i])| < d
    ensures KeptKinds(mounts[..i], s, d) + [KindOf(mounts[i])] <= Order(mounts, s, d)
  {
    assert mounts[..i + 1] == mounts[..i] + [mounts[i]];
    KeptStep(mounts[..i], mounts[i], s, d);
    KeptPrefix(mounts, i + 1, s, d);
  }

  /** Where a new one stands. */
  lemma NewInOrder(mounts: seq<Mount>, s: nat, d: nat, a: nat, b: nat)
    requires a <= Positive(s - |VirtioFSMounts(mounts)|) && b <= Positive(d - |ImageMounts(mounts)|)
    requires b == 0 || a == Positive(s - |VirtioFSMounts(mounts)|)
    ensures a < s - |VirtioFSMounts(mounts)| ==> KeptKinds(mounts, s, d) + Tail(a, 0) + [FsKind] <= Order(mounts, s, d)
    ensures a == Positive(s - |VirtioFSMounts(mounts)|) && b < d - |ImageMounts(mounts)| ==>
              KeptKinds(mounts, s, d) + Tail(a, b) + [ImageKind] <= Order(mounts, s, d)
  {
  }

  lemma SharesStay(fs: seq<VirtioFSMount>, m: VirtioFSMount, shares: seq<Share>, written: seq<VirtioFSMount>)
    requires SharesWritten(fs, shares, written) && |written| <= |fs|
    ensures SharesWritten(fs + [m], shares, written)
  {
    assert forall k :: 0 <= k < |written| ==> FsAt(fs + [m], k) == FsAt(fs, k);
  }

  lemma SharesAppend(fs: seq<VirtioFSMount>, shares: seq<Share>, written: seq<VirtioFSMount>, w: VirtioFSMount)
    requires SharesWritten(fs, shares, written) && |written| < |shares|
    requires OverlayShare(FsAt(fs, |written|), shares[|written|]) == Ok(w)
    ensures SharesWritten(fs, shares, written + [w])
  {
  }

  lemma DisksStay(images: seq<ImageMount>, m: ImageMount, disks: seq<Disk>, written: seq<ImageMount>)
    requires DisksWritten(images, disks, written) && |written| <= |images|
    ensures DisksWritten(images + [m], disks, written)
  {
    assert forall k :: 0 <= k < |written| ==> ImageAt(images + [m], k) == ImageAt(images, k);
  }

  lemma DisksAppend(images: seq<ImageMount>, disks: seq<Disk>, written: seq<ImageMount>, w: ImageMount)
    requires DisksWritten(images, disks, written) && |written| < |disks|
    requires OverlayDisk(ImageAt(images, |written|), disks[|written|]) == Ok(w)
    ensures DisksWritten(images, disks, written + [w])
  {
  }

  lemma KindsAppend(r: seq<Mount>, m: Mount)
    ensures Kinds(r + [m]) == Kinds(r) + [KindOf(m)]
  {
  }

  lemma KeptStep(done: seq<Mount>, m: Mount, s: nat, d: nat)
    ensures KeptKinds(done + [m], s, d) ==
              if (m.Fs? && |VirtioFSMounts(done)| >= s) || (m.Image? && |ImageMounts(done)| >= d)
              then KeptKinds(done, s, d) else KeptKinds(done, s, d) + [KindOf(m)]
  {
    assert (done + [m])[..|done|] == done;
  }

  /** The list so far, as the three separate lists it is made of. */
  ghost predicate Parts(r: seq<Mount>, fs: seq<VirtioFSMount>, images: seq<ImageMount>,
                        nineP: seq<NinePMount>, kinds: seq<Kind>) {
    VirtioFSMounts(r) == fs && ImageMounts(r) == images && NinePMounts(r) == nineP && Kinds(r) == kinds
  }

  lemma PartsAppend(r: seq<Mount>, m: Mount, fs: seq<VirtioFSMount>, images: seq<ImageMount>,
                    nineP: seq<NinePMount>, kinds: seq<Kind>)
    requires Parts(r, fs, images, nineP, kinds)
    ensures m.Fs? ==> Parts(r + [m], fs + [m.fs], images, nineP, kinds + [FsKind])
    ensures m.Image? ==> Parts(r + [m], fs, images + [m.img], nineP, kinds + [ImageKind])
    ensures m.NineP? ==> Parts(r + [m], fs, images, nineP + [m.nineP], kinds + [NinePKind])
  {
    FiltersAppend(r, m);
    KindsAppend(r, m);
  }

  /**
   The loop over the entries in place: `base` and `drawn` are the virtio-fs and image entries it has come by,
   `fs` and `images` what it has written over them, and `kinds` the entries that stay.
   */
  ghost predicate WrittenOver(base: seq<VirtioFSMount>, drawn: seq<ImageMount>,
                              nineP: seq<NinePMount>, kinds: seq<Kind>,
                              shares: seq<Share>, disks: seq<Disk>, r: seq<Mount>,
                              fs: seq<VirtioFSMount>, images: seq<ImageMount>) {
    && |fs| == Min(|base|, |shares|) && SharesWritten(base, shares, fs)
    && |images| == Min(|drawn|, |disks|) && DisksWritten(drawn, disks, images)
    && Parts(r, fs, images, nineP, kinds)
  }

  ghost predicate InPlace(done: seq<Mount>, shares: seq<Share>, disks: seq<Disk>, r: seq<Mount>,
                          fs: seq<VirtioFSMount>, images: seq<ImageMount>) {
    WrittenOver(VirtioFSMounts(done), ImageMounts(done), NinePMounts(done), KeptKinds(done, |shares|, |disks|),
                shares, disks, r, fs, images)
  }

  lemma OverShare(base: seq<VirtioFSMount>, drawn: seq<ImageMount>, nineP: seq<NinePMount>, kinds: seq<Kind>,
                  shares: seq<Share>, disks: seq<Disk>, r: seq<Mount>,
                  fs: seq<VirtioFSMount>, images: seq<ImageMount>, input: VirtioFSMount, w: VirtioFSMount)
    requires WrittenOver(base, drawn, nineP, kinds, shares, disks, r, fs, images) && |base| < |shares|
    requires OverlayShare(input, shares[|base|]) == Ok(w)
    ensures WrittenOver(base + [input], drawn, nineP, kinds + [FsKind], shares, disks, r + [Fs(w)], fs + [w], images)
  {
    SharesStay(base, input, shares, fs);
    SharesAppend(base + [input], shares, fs, w);
    PartsAppend(r, Fs(w), fs, images, nineP, kinds);
  }

  lemma OverDisk(base: seq<VirtioFSMount>, drawn: seq<ImageMount>, nineP: seq<NinePMount>, kinds: seq<Kind>,
                 shares: seq<Share>, disks: seq<Disk>, r: seq<Mount>,
                 fs: seq<VirtioFSMount>, images: seq<ImageMount>, input: ImageMount, w: ImageMount)
    requires WrittenOver(base, drawn, nineP, kinds, shares, disks, r, fs, images) && |drawn| < |disks|
    requires OverlayDisk(input, disks[|drawn|]) == Ok(w)
    ensures WrittenOver(base, drawn + [input], nineP, kinds + [ImageKind],
                        shares, disks, r + [Image(w)], fs, images + [w])
  {
    DisksStay(drawn, input, disks, images);
    DisksAppend(drawn + [input], disks, images, w);
    PartsAppend(r, Image(w), fs, images, nineP, kinds);
  }

  lemma InPlaceShare(done: seq<Mount>, shares: seq<Share>, disks: seq<Disk>, r: seq<Mount>,
                     fs: seq<VirtioFSMount>, images: seq<ImageMount>, input: VirtioFSMount, w: VirtioFSMount)
    requires InPlace(done, shares, disks, r, fs, images) && |VirtioFSMounts(done)| < |shares|
    requires OverlayShare(input, shares[|VirtioFSMounts(done)|]) == Ok(w)
    ensures InPlace(done + [Fs(input)], shares, disks, r + [Fs(w)], fs + [w], images)
  {
    FiltersAppend(done, Fs(input));
    KeptStep(done, Fs(input), |shares|, |disks|);
    OverShare(VirtioFSMounts(done), ImageMounts(done), NinePMounts(done), KeptKinds(done, |shares|, |disks|),
              shares, disks, r, fs, images, input, w);
  }

  lemma InPlaceDisk(done: seq<Mount>, shares: seq<Share>, disks: seq<Disk>, r: seq<Mount>,
                    fs: seq<VirtioFSMount>, images: seq<ImageMount>, input: ImageMount, w: ImageMount)
    requires InPlace(done, shares, disks, r, fs, images) && |ImageMounts(done)| < |disks|
    requires OverlayDisk(input, disks[|ImageMounts(done)|]) == Ok(w)
    ensures InPlace(done + [Image(input)], shares, disks, r + [Image(w)], fs, images + [w])
  {
    FiltersAppend(done, Image(input));
    KeptStep(done, Image(input), |shares|, |disks|);
    OverDisk(VirtioFSMounts(done), ImageMounts(done), NinePMounts(done), KeptKinds(done, |shares|, |disks|),
             shares, disks, r, fs, images, input, w);
  }

  /** A surplus entry goes, a 9p entry stays. */
  lemma InPlaceOther(done: seq<Mount>, shares: seq<Share>, disks: seq<Disk>, r: seq<Mount>,
                     fs: seq<VirtioFSMount>, images: seq<ImageMount>, m: Mount)
    requires InPlace(done, shares, disks, r, fs, images)
    requires m.Fs? ==> |VirtioFSMounts(done)| >= |shares|
    requires m.Image? ==> |ImageMounts(done)| >= |disks|
    ensures InPlace(done + [m], shares, disks, if m.NineP? then r + [m] else r, fs, images)
  {
    FiltersAppend(done, m);
    KeptStep(done, m, |shares|, |disks|);
    match m
    case Fs(input) => SharesStay(VirtioFSMounts(done), input, shares, fs);
    case Image(input) => DisksStay(ImageMounts(done), input, disks, images);
    case NineP(_) => PartsAppend(r, m, fs, images, NinePMounts(done), KeptKinds(done, |shares|, |disks|));
  }

  ghost predicate Reported(mounts: seq<Mount>, shares: seq<Share>, disks: seq<Disk>, e: Error) {
    exists j: nat :: FirstError(Order(mounts, |shares|, |disks|), shares, disks, j, e)
  }

  /** A refusal with `e` is called for, and `e` is the error to report. */
  ghost predicate Refused(mounts: seq<Mount>, shares: seq<Share>, disks: seq<Disk>, e: Error) {
    !Acceptable(shares, disks) && Reported(mounts, shares, disks, e)
  }

  lemma ShareRefused(mounts: seq<Mount>, shares: seq<Share>, disks: seq<Disk>, input: VirtioFSMount, k: nat)
    requires k < |shares| && OverlayShare(input, shares[k]).Err?
    requires ShareError(shares[k]).Some? ==> Reported(mounts, shares, disks, ShareError(shares[k]).value)
    ensures Refused(mounts, shares, disks, OverlayShare(input, shares[k]).error)
  {
  }

  lemma DiskRefused(mounts: seq<Mount>, shares: seq<Share>, disks: seq<Disk>, input: ImageMount, k: nat)
    requires k < |disks| && OverlayDisk(input, disks[k]).Err?
    requires DiskError(disks[k]).Some? ==> Reported(mounts, shares, disks, DiskError(disks[k]).value)
    ensures Refused(mounts, shares, disks, OverlayDisk(input, disks[k]).error)
  {
  }

  /** What a failure at the `i`-th entry in place reports. */
  lemma InPlaceShareRefused(mounts: seq<Mount>, i: nat, shares: seq<Share>, disks: seq<Disk>, r: seq<Mount>,
                            fs: seq<VirtioFSMount>, images: seq<ImageMount>, k: nat)
    requires i < |mounts| && InPlace(mounts[..i], shares, disks, r, fs, images)
    requires mounts[i].Fs? && k == |VirtioFSMounts(mounts[..i])| < |shares|
    ensures var o := OverlayShare(mounts[i].fs, shares[k]); o.Err? ==> Refused(mounts, shares, disks, o.error)
  {
    var done := mounts[..i];
    WrittenFaultless(VirtioFSMounts(done), shares, fs, ImageMounts(done), disks, images);
    if ShareError(shares[k]).Some? {
      KeptInOrder(mounts, i, |shares|, |disks|);
      FailsFirst(r, FsKind, Order(mounts, |shares|, |disks|), shares, disks, ShareError(shares[k]).value);
      ShareRefused(mounts, shares, disks, mounts[i].fs, k);
    }
  }

  lemma InPlaceDiskRefused(mounts: seq<Mount>, i: nat, shares: seq<Share>, disks: seq<Disk>, r: seq<Mount>,
                           fs: seq<VirtioFSMount>, images: seq<ImageMount>, k: nat)
    requires i < |mounts| && InPlace(mounts[..i], shares, disks, r, fs, images)
    requires mounts[i].Image? && k == |ImageMounts(mounts[..i])| < |disks|
    ensures var o := OverlayDisk(mounts[i].img, disks[k]); o.Err? ==> Refused(mounts, shares, disks, o.error)
  {
    var done := mounts[..i];
    WrittenFaultless(VirtioFSMounts(done), shares, fs, ImageMounts(done), disks, images);
    if DiskError(disks[k]).Some? {
      KeptInOrder(mounts, i, |shares|, |disks|);
      FailsFirst(r, ImageKind, Order(mounts, |shares|, |disks|), shares, disks, DiskError(disks[k]).value);
      DiskRefused(mounts, shares, disks, mounts[i].img, k);
    }
  }

  /** The state of the loop before entry `i`. */
  ghost predicate Before(mounts: seq<Mount>, i: nat, shares: seq<Share>, disks: seq<Disk>, r: seq<Mount>,
                         fs: seq<VirtioFSMount>, images: seq<ImageMount>, s: nat, d: nat) {
    && i <= |mounts| && InPlace(mounts[..i], shares, disks, r, fs, images)
    && s == |VirtioFSMounts(mounts[..i])| && d == |ImageMounts(mounts[..i])|
  }

  lemma BeforeShare(mounts: seq<Mount>, i: nat, shares: seq<Share>, disks: seq<Disk>, r: seq<Mount>,
                    fs: seq<VirtioFSMount>, images: seq<ImageMount>, s: nat, d: nat)
    requires Before(mounts, i, shares, disks, r, fs, images, s, d) && i < |mounts| && mounts[i].Fs? && s < |shares|
    ensures match OverlayShare(mounts[i].fs, shares[s])
            case Ok(w) => Before(mounts, i + 1, shares, disks, r + [Fs(w)], fs + [w], images, s + 1, d)
            case Err(e) => Refused(mounts, shares, disks, e)
  {
    assert mounts[..i + 1] == mounts[..i] + [mounts[i]];
    FiltersAppend(mounts[..i], mounts[i]);
    InPlaceShareRefused(mounts, i, shares, disks, r, fs, images, s);
    var o := OverlayShare(mounts[i].fs, shares[s]);
    if o.Ok? {
      InPlaceShare(mounts[..i], shares, disks, r, fs, images, mounts[i].fs, o.value);
    }
  }

  lemma BeforeDisk(mounts: seq<Mount>, i: nat, shares: seq<Share>, disks: seq<Disk>, r: seq<Mount>,
                   fs: seq<VirtioFSMount>, images: seq<ImageMount>, s: nat, d: nat)
    requires Before(mounts, i, shares, disks, r, fs, images, s, d) && i < |mounts| && mounts[i].Image? && d < |disks|
    ensures match OverlayDisk(mounts[i].img, disks[d])
            case Ok(w) => Before(mounts, i + 1, shares, disks, r + [Image(w)], fs, images + [w], s, d + 1)
            case Err(e) => Refused(mounts, shares, disks, e)
  {
    assert mounts[..i + 1] == mounts[..i] + [mounts[i]];
    FiltersAppend(mounts[..i], mounts[i]);
    InPlaceDiskRefused(mounts, i, shares, disks, r, fs, images, d);
    var o := OverlayDisk(mounts[i].img, disks[d]);
    if o.Ok? {
      InPlaceDisk(mounts[..i], shares, disks, r, fs, images, mounts[i].img, o.value);
    }
  }

  lemma BeforeOther(mounts: seq<Mount>, i: nat, shares: seq<Share>, disks: seq<Disk>, r: seq<Mount>,
                    fs: seq<VirtioFSMount>, images: seq<ImageMount>, s: nat, d: nat)
    requires Before(mounts, i, shares, disks, r, fs, images, s, d) && i < |mounts|
    requires (mounts[i].Fs? ==> s >= |shares|) && (mounts[i].Image? ==> d >= |disks|)
    ensures Before(mounts, i + 1, shares, disks, if mounts[i].NineP? then r + [mounts[i]] else r, fs, images,
                   if mounts[i].Fs? then s + 1 else s, if mounts[i].Image? then d + 1 else d)
  {
    assert mounts[..i + 1] == mounts[..i] + [mounts[i]];
    FiltersAppend(mounts[..i], mounts[i]);
    InPlaceOther(mounts[..i], shares, disks, r, fs, images, mounts[i]);
  }

  lemma BeforeEnd(mounts: seq<Mount>, shares: seq<Share>, disks: seq<Disk>, r: seq<Mount>,
                  fs: seq<VirtioFSMount>, images: seq<ImageMount>, s: nat, d: nat)
    requires Before(mounts, |mounts|, shares, disks, r, fs, images, s, d)
    ensures InPlace(mounts, shares, disks, r, fs, images) && s == |VirtioFSMounts(mounts)| && d == |ImageMounts(mounts)|
  {
    assert mounts[..|mounts|] == mounts;
  }

  /**
   `overlaySpecMounts`. It fails exactly when some share or disk is unacceptable, with the error of the first
   such entry of the list it was about to build.
   */
  method OverlaySpecMounts(mounts: seq<Mount>, shares: seq<Share>, disks: seq<Disk>)
      returns (r: Result<seq<Mount>, Error>)
    ensures r.Ok? <==> Acceptable(shares, disks)
    ensures r.Ok? <==> && (forall k :: 0 <= k < |shares| ==> shares[k].tag != "")
                       && (forall k :: 0 <= k < |disks| ==> disks[k].path != "" && disks[k].size % 0x10_0000 == 0)
    ensures r.Ok? ==> Overlaid(mounts, shares, disks, r.value)
    ensures r.Err? ==> Refused(mounts, shares, disks, r.error)
  {
    var result: seq<Mount> := [];
    var shareIndex, diskIndex := 0, 0;
    ghost var fs: seq<VirtioFSMount>, images: seq<ImageMount> := [], [];
    for i := 0 to |mounts|
      invariant Before(mounts, i, shares, disks, result, fs, images, shareIndex, diskIndex)
    {
      match mounts[i]
      case Fs(input) =>
        if shareIndex < |shares| {
          BeforeShare(mounts, i, shares, disks, result, fs, images, shareIndex, diskIndex);
          var overlaid :- OverlayShare(input, shares[shareIndex]);
          result, fs := result + [Fs(overlaid)], fs + [overlaid];
        } else {
          BeforeOther(mounts, i, shares, disks, result, fs, images, shareIndex, diskIndex);
        }
        shareIndex := shareIndex + 1;
      case Image(input) =>
        if diskIndex < |disks| {
          BeforeDisk(mounts, i, shares, disks, result, fs, images, shareIndex, diskIndex);
          var overlaid :- OverlayDisk(input, disks[diskIndex]);
          result, images := result + [Image(overlaid)], images + [overlaid];
        } else {
          BeforeOther(mounts, i, shares, disks, result, fs, images, shareIndex, diskIndex);
        }
        diskIndex := diskIndex + 1;
      case NineP(_) =>
        BeforeOther(mounts, i, shares, disks, result, fs, images, shareIndex, diskIndex);
        result := result + [mounts[i]];
    }
    BeforeEnd(mounts, shares, disks, result, fs, images, shareIndex, diskIndex);
    r := AppendRest(mounts, shares, disks, result, shareIndex, diskIndex, fs, images);
  }

  lemma TailGrows(kinds: seq<Kind>, s: nat, d: nat)
    ensures kinds + Tail(s + 1, 0) == kinds + Tail(s, 0) + [FsKind]
    ensures kinds + Tail(s, d + 1) == kinds + Tail(s, d) + [ImageKind]
  {
  }

  /** The list once `fs` and `images` are written, the last `s` and `d` of them behind the entries in place. */
  ghost predicate Behind(mounts: seq<Mount>, shares: seq<Share>, disks: seq<Disk>, r: seq<Mount>,
                         fs: seq<VirtioFSMount>, images: seq<ImageMount>, s: nat, d: nat) {
    && SharesWritten(VirtioFSMounts(mounts), shares, fs) && DisksWritten(ImageMounts(mounts), disks, images)
    && Parts(r, fs, images, NinePMounts(mounts), KeptKinds(mounts, |shares|, |disks|) + Tail(s, d))
  }

  lemma BehindShare(mounts: seq<Mount>, shares: seq<Share>, disks: seq<Disk>, r: seq<Mount>,
                    fs: seq<VirtioFSMount>, images: seq<ImageMount>, s: nat, w: VirtioFSMount)
    requires Behind(mounts, shares, disks, r, fs, images, s, 0) && |VirtioFSMounts(mounts)| <= |fs| < |shares|
    requires OverlayShare(BLANK_FS, shares[|fs|]) == Ok(w)
    ensures Behind(mounts, shares, disks, r + [Fs(w)], fs + [w], images, s + 1, 0)
  {
    var kept := KeptKinds(mounts, |shares|, |disks|);
    PartsAppend(r, Fs(w), fs, images, NinePMounts(mounts), kept + Tail(s, 0));
    TailGrows(kept, s, 0);
    SharesAppend(VirtioFSMounts(mounts), shares, fs, w);
  }

  lemma BehindDisk(mounts: seq<Mount>, shares: seq<Share>, disks: seq<Disk>, r: seq<Mount>,
                   fs: seq<VirtioFSMount>, images: seq<ImageMount>, s: nat, d: nat, w: ImageMount)
    requires Behind(mounts, shares, disks, r, fs, images, s, d) && |ImageMounts(mounts)| <= |images| < |disks|
    requires OverlayDisk(BLANK_IMAGE, disks[|images|]) == Ok(w)
    ensures Behind(mounts, shares, disks, r + [Image(w)], fs, images + [w], s, d + 1)
  {
    var kept := KeptKinds(mounts, |shares|, |disks|);
    PartsAppend(r, Image(w), fs, images, NinePMounts(mounts), kept + Tail(s, d));
    TailGrows(kept, s, d);
    DisksAppend(ImageMounts(mounts), disks, images, w);
  }

  lemma InPlaceIsBehind(mounts: seq<Mount>, shares: seq<Share>, disks: seq<Disk>, r: seq<Mount>,
                        fs: seq<VirtioFSMount>, images: seq<ImageMount>)
    requires InPlace(mounts, shares, disks, r, fs, images)
    ensures Behind(mounts, shares, disks, r, fs, images, 0, 0)
  {
    var kept := KeptKinds(mounts, |shares|, |disks|);
    assert kept + Tail(0, 0) == kept;
  }

  /** What a failure at the next new entry reports. */
  lemma BehindShareRefused(mounts: seq<Mount>, shares: seq<Share>, disks: seq<Disk>, r: seq<Mount>,
                           fs: seq<VirtioFSMount>, images: seq<ImageMount>, s: nat)
    requires Behind(mounts, shares, disks, r, fs, images, s, 0) && |VirtioFSMounts(mounts)| + s == |fs| < |shares|
    ensures var o := OverlayShare(BLANK_FS, shares[|fs|]); o.Err? ==> Refused(mounts, shares, disks, o.error)
  {
    WrittenFaultless(VirtioFSMounts(mounts), shares, fs, ImageMounts(mounts), disks, images);
    NewInOrder(mounts, |shares|, |disks|, s, 0);
    if ShareError(shares[|fs|]).Some? {
      FailsFirst(r, FsKind, Order(mounts, |shares|, |disks|), shares, disks, ShareError(shares[|fs|]).value);
      ShareRefused(mounts, shares, disks, BLANK_FS, |fs|);
    }
  }

  lemma BehindDiskRefused(mounts: seq<Mount>, shares: seq<Share>, disks: seq<Disk>, r: seq<Mount>,
                          fs: seq<VirtioFSMount>, images: seq<ImageMount>, s: nat, d: nat)
    requires Behind(mounts, shares, disks, r, fs, images, s, d) && |ImageMounts(mounts)| + d == |images| < |disks|
    requires s == Positive(|shares| - |VirtioFSMounts(mounts)|)
    ensures var o := OverlayDisk(BLANK_IMAGE, disks[|images|]); o.Err? ==> Refused(mounts, shares, disks, o.error)
  {
    WrittenFaultless(VirtioFSMounts(mounts), shares, fs, ImageMounts(mounts), disks, images);
    NewInOrder(mounts, |shares|, |disks|, s, d);
    if DiskError(disks[|images|]).Some? {
      FailsFirst(r, ImageKind, Order(mounts, |shares|, |disks|), shares, disks, DiskError(disks[|images|]).value);
      DiskRefused(mounts, shares, disks, BLANK_IMAGE, |images|);
    }
  }

  /** The two trailing loops of `overlaySpecMounts`. */
  method AppendRest(mounts: seq<Mount>, shares: seq<Share>, disks: seq<Disk>, start: seq<Mount>,
                    firstShare: nat, firstDisk: nat,
                    ghost startFs: seq<VirtioFSMount>, ghost startImages: seq<ImageMount>)
      returns (r: Result<seq<Mount>, Error>)
    requires firstShare == |VirtioFSMounts(mounts)| && firstDisk == |ImageMounts(mounts)|
    requires InPlace(mounts, shares, disks, start, startFs, startImages)
    ensures r.Ok? <==> Acceptable(shares, disks)
    ensures r.Ok? ==> Overlaid(mounts, shares, disks, r.value)
    ensures r.Err? ==> Refused(mounts, shares, disks, r.error)
  {
    var result, shareIndex := start, firstShare;
    ghost var fs := startFs;
    InPlaceIsBehind(mounts, shares, disks, result, fs, startImages);
    while shareIndex < |shares|
      invariant firstShare <= shareIndex && |fs| == Min(shareIndex, |shares|)
      invariant Behind(mounts, shares, disks, result, fs, startImages, Positive(|fs| - firstShare), 0)
      decreases |shares| - shareIndex
    {
      BehindShareRefused(mounts, shares, disks, result, fs, startImages, shareIndex - firstShare);
      var overlaid :- OverlayShare(BLANK_FS, shares[shareIndex]);
      BehindShare(mounts, shares, disks, result, fs, startImages, shareIndex - firstShare, overlaid);
      result, fs := result + [Fs(overlaid)], fs + [overlaid];
      shareIndex := shareIndex + 1;
    }
    r := AppendDisks(mounts, shares, disks, result, firstDisk, fs, startImages);
  }

  /** The second of them. */
  method AppendDisks(mounts: seq<Mount>, shares: seq<Share>, disks: seq<Disk>, start: seq<Mount>, firstDisk: nat,
                     ghost fs: seq<VirtioFSMount>, ghost startImages: seq<ImageMount>)
      returns (r: Result<seq<Mount>, Error>)
    requires firstDisk == |ImageMounts(mounts)| && |fs| == |shares| && |startImages| == Min(firstDisk, |disks|)
    requires Behind(mounts, shares, disks, start, fs, startImages, Positive(|shares| - |VirtioFSMounts(mounts)|), 0)
    ensures r.Ok? <==> Acceptable(shares, disks)
    ensures r.Ok? ==> Overlaid(mounts, shares, disks, r.value)
    ensures r.Err? ==> Refused(mounts, shares, disks, r.error)
  {
    var result, diskIndex := start, firstDisk;
    ghost var images, s := startImages, Positive(|shares| - |VirtioFSMounts(mounts)|);
    while diskIndex < |disks|
      invariant firstDisk <= diskIndex && |images| == Min(diskIndex, |disks|)
      invariant Behind(mounts, shares, disks, result, fs, images, s, Positive(|images| - firstDisk))
      decreases |disks| - diskIndex
    {
      BehindDiskRefused(mounts, shares, disks, result, fs, images, s, diskIndex - firstDisk);
      var overlaid :- OverlayDisk(BLANK_IMAGE, disks[diskIndex]);
      BehindDisk(mounts, shares, disks, result, fs, images, s, diskIndex - firstDisk, overlaid);
      result, images := result + [Image(overlaid)], images + [overlaid];
      diskIndex := diskIndex + 1;
    }
    BehindIsOverlaid(mounts, shares, disks, result, fs, images);
    WrittenAcceptable(mounts, shares, disks, result);
    r := Ok(result);
  }

  lemma BehindIsOverlaid(mounts: seq<Mount>, shares: seq<Share>, disks: seq<Disk>, r: seq<Mount>,
                         fs: seq<VirtioFSMount>, images: seq<ImageMount>)
    requires |fs| == |shares| && |images| == |disks|
    requires Behind(mounts, shares, disks, r, fs, images,
                    Positive(|shares| - |VirtioFSMounts(mounts)|), Positive(|disks| - |ImageMounts(mounts)|))
    ensures Overlaid(mounts, shares, disks, r)
  {
    var s, d := |shares| - |VirtioFSMounts(mounts)|, |disks| - |ImageMounts(mounts)|;
    assert Tail(Positive(s), Positive(d)) == Tail(s, d);
  }

  lemma WrittenAcceptable(mounts: seq<Mount>, shares: seq<Share>, disks: seq<Disk>, r: seq<Mount>)
    requires Overlaid(mounts, shares, disks, r)
    ensures Acceptable(shares, disks)
  {
    forall k | 0 <= k < |shares|
      ensures shares[k].tag != ""
    {
      assert OverlayShare(FsAt(VirtioFSMounts(mounts), k), shares[k]) == Ok(VirtioFSMounts(r)[k]);
    }
    forall k | 0 <= k < |disks|
      ensures disks[k].path != "" && disks[k].size % MEBIBYTE == 0
    {
      assert OverlayDisk(ImageAt(ImageMounts(mounts), k), disks[k]) == Ok(ImageMounts(r)[k]);
    }
  }

  // The laws.

  /** Lists with the same kinds and the same three filters are the same. */
  lemma {:induction false} FiltersDetermine(a: seq<Mount>, b: seq<Mount>)
    requires Kinds(a) == Kinds(b) && VirtioFSMounts(a) == VirtioFSMounts(b)
    requires ImageMounts(a) == ImageMounts(b) && NinePMounts(a) == NinePMounts(b)
    ensures a == b
    decreases |a|
  {
    assert |Kinds(a)| == |a| && |Kinds(b)| == |b|;
    if a != [] {
      var a', b' := a[..|a| - 1], b[..|b| - 1];
      var x, y := a[|a| - 1], b[|b| - 1];
      assert a == a' + [x] && b == b' + [y];
      assert KindOf(x) == Kinds(a)[|a| - 1] == Kinds(b)[|a| - 1] == KindOf(y);
      FiltersAppend(a', x);
      FiltersAppend(b', y);
      assert Kinds(a') == Kinds(a)[..|a| - 1] == Kinds(b');
      FiltersDetermineStep(a', x, b', y);
      FiltersDetermine(a', b');
    }
  }

  lemma FiltersDetermineStep(a: seq<Mount>, x: Mount, b: seq<Mount>, y: Mount)
    requires KindOf(x) == KindOf(y)
    requires VirtioFSMounts(a + [x]) == VirtioFSMounts(b + [y]) && NinePMounts(a + [x]) == NinePMounts(b + [y])
    requires ImageMounts(a + [x]) == ImageMounts(b + [y])
    ensures x == y && VirtioFSMounts(a) == VirtioFSMounts(b)
    ensures NinePMounts(a) == NinePMounts(b) && ImageMounts(a) == ImageMounts(b)
  {
    FiltersAppend(a, x);
    FiltersAppend(b, y);
    match x
    case Fs(m) => LastEqual(VirtioFSMounts(a), m, VirtioFSMounts(b), y.fs);
    case NineP(m) => LastEqual(NinePMounts(a), m, NinePMounts(b), y.nineP);
    case Image(m) => LastEqual(ImageMounts(a), m, ImageMounts(b), y.img);
  }

  /** The update says everything: its result is unique. */
  lemma OverlaidUnique(mounts: seq<Mount>, shares: seq<Share>, disks: seq<Disk>, r: seq<Mount>, q: seq<Mount>)
    requires Overlaid(mounts, shares, disks, r) && Overlaid(mounts, shares, disks, q)
    ensures r == q
  {
    forall k | 0 <= k < |shares|
      ensures VirtioFSMounts(r)[k] == VirtioFSMounts(q)[k]
    {
      var over := OverlayShare(FsAt(VirtioFSMounts(mounts), k), shares[k]);
      assert over == Ok(VirtioFSMounts(r)[k]) == Ok(VirtioFSMounts(q)[k]);
    }
    forall k | 0 <= k < |disks|
      ensures ImageMounts(r)[k] == ImageMounts(q)[k]
    {
      assert OverlayDisk(ImageAt(ImageMounts(mounts), k), disks[k]) == Ok(ImageMounts(r)[k]) == Ok(ImageMounts(q)[k]);
    }
    FiltersDetermine(r, q);
  }

  /** Writing and reading back: the shares as given, the disks as given but for the guest path. */
  lemma PutGet(mounts: seq<Mount>, shares: seq<Share>, disks: seq<Disk>, r: seq<Mount>)
    requires Overlaid(mounts, shares, disks, r)
    requires forall k :: 0 <= k < |disks| ==> InInt64(disks[k].size)
    ensures ViewShares(r) == shares
    ensures |ViewDisks(r)| == |disks| && forall k :: 0 <= k < |disks| ==> ViewDisks(r)[k] == disks[k].(guestPath := "")
  {
    forall k | 0 <= k < |shares|
      ensures ViewShare(VirtioFSMounts(r)[k]) == shares[k]
    {
      assert OverlayShare(FsAt(VirtioFSMounts(mounts), k), shares[k]) == Ok(VirtioFSMounts(r)[k]);
    }
    forall k | 0 <= k < |disks|
      ensures ViewDisk(ImageMounts(r)[k]) == disks[k].(guestPath := "")
    {
      assert OverlayDisk(ImageAt(ImageMounts(mounts), k), disks[k]) == Ok(ImageMounts(r)[k]);
      assert disks[k].size % MEBIBYTE == 0;
    }
  }

  /** The `k`-th share is the `k`-th virtio-fs entry, over a socket named after it unless the entry had one. */
  ghost predicate IsShare(m: VirtioFSMount, share: Share, was: Option<VirtioFSMount>) {
    && m.kind == "virtiofs" && m.tag == share.tag && m.source == share.hostPath && m.target == share.guestPath
    && m.readOnly == share.readOnly
    && m.virtiofs.args == (if was.Some? then was.value.virtiofs.args else [])
    && if was.Some? && was.value.virtiofs.socket != ""
       then m.virtiofs.socket == was.value.virtiofs.socket && m.virtiofs.bin == was.value.virtiofs.bin
       else m.virtiofs.socket == share.tag + ".sock" && m.virtiofs.bin == "virtiofsd"
  }

  /** The `k`-th disk is the `k`-th image entry, which is created unless its size is zero. */
  ghost predicate IsDisk(m: ImageMount, disk: Disk, was: Option<ImageMount>) {
    && m.kind == "image" && m.source == disk.path && m.image.format == disk.format
    && m.image.size * 0x10_0000 == disk.size && (m.image.autoCreate <==> disk.size != 0)
    && if was.Some?
       then && m.readOnly == was.value.readOnly && m.image.fsType == was.value.image.fsType
            && m.image.fsLabel == was.value.image.fsLabel && m.image.direct == was.value.image.direct
            && m.image.serial == was.value.image.serial
       else && !m.readOnly && m.image.fsType == "" && m.image.fsLabel.None? && !m.image.direct && m.image.serial.None?
  }

  /** What an update writes, field by field. */
  lemma EntriesAsGiven(mounts: seq<Mount>, shares: seq<Share>, disks: seq<Disk>, r: seq<Mount>, k: nat)
    requires Overlaid(mounts, shares, disks, r)
    ensures var fs := VirtioFSMounts(mounts);
            k < |shares| ==> IsShare(VirtioFSMounts(r)[k], shares[k], if k < |fs| then Some(fs[k]) else None)
    ensures var images := ImageMounts(mounts);
            k < |disks| ==> IsDisk(ImageMounts(r)[k], disks[k], if k < |images| then Some(images[k]) else None)
  {
    if k < |shares| {
      assert OverlayShare(FsAt(VirtioFSMounts(mounts), k), shares[k]) == Ok(VirtioFSMounts(r)[k]);
    }
    if k < |disks| {
      assert OverlayDisk(ImageAt(ImageMounts(mounts), k), disks[k]) == Ok(ImageMounts(r)[k]);
      assert disks[k].size % MEBIBYTE == 0;
    }
  }

  /** New entries come last, shares before disks. */
  lemma NewEntriesLast(mounts: seq<Mount>, shares: seq<Share>, disks: seq<Disk>, r: seq<Mount>)
    requires Overlaid(mounts, shares, disks, r)
    requires |VirtioFSMounts(mounts)| <= |shares| && |ImageMounts(mounts)| <= |disks|
    ensures var s, d := |shares| - |VirtioFSMounts(mounts)|, |disks| - |ImageMounts(mounts)|;
            && |r| == |mounts| + s + d
            && (forall i :: |mounts| <= i < |mounts| + s ==> r[i].Fs?)
            && (forall i :: |mounts| + s <= i < |r| ==> r[i].Image?)
            && (forall i :: 0 <= i < |mounts| ==>
                  (r[i].Fs? <==> mounts[i].Fs?) && (r[i].Image? <==> mounts[i].Image?))
  {
    KeptAll(mounts, |shares|, |disks|);
    assert |Kinds(r)| == |r|;
    assert forall i :: 0 <= i < |r| ==> Kinds(r)[i] == KindOf(r[i]);
    assert forall i :: 0 <= i < |mounts| ==> Kinds(r)[i] == Kinds(mounts)[i];
  }

  /** Which error is reported is what is wrong with some entry; a path comes before a size. */
  lemma RefusedMeans(mounts: seq<Mount>, shares: seq<Share>, disks: seq<Disk>, e: Error)
    requires Refused(mounts, shares, disks, e)
    ensures e == TagRequired ==> exists k :: 0 <= k < |shares| && shares[k].tag == ""
    ensures e == PathRequired ==> exists k :: 0 <= k < |disks| && disks[k].path == ""
    ensures e == Unaligned ==> exists k :: 0 <= k < |disks| && disks[k].path != "" && disks[k].size % 0x10_0000 != 0
  {
  }

  /** What an update takes from the document: a set socket with daemon and arguments; an image's other settings. */
  lemma SettingsSurvive(mounts: seq<Mount>, shares: seq<Share>, disks: seq<Disk>, r: seq<Mount>, k: nat)
    requires Overlaid(mounts, shares, disks, r)
    ensures k < |shares| && k < |VirtioFSMounts(mounts)| && VirtioFSMounts(mounts)[k].virtiofs.socket != "" ==>
              VirtioFSMounts(r)[k].virtiofs == VirtioFSMounts(mounts)[k].virtiofs
    ensures k < |disks| && k < |ImageMounts(mounts)| ==>
              var was, now := ImageMounts(mounts)[k], ImageMounts(r)[k];
              now.readOnly == was.readOnly
              && now.image == was.image.(size := now.image.size, format := now.image.format,
                                         autoCreate := now.image.autoCreate)
  {
    if k < |shares| {
      assert OverlayShare(FsAt(VirtioFSMounts(mounts), k), shares[k]) == Ok(VirtioFSMounts(r)[k]);
    }
    if k < |disks| {
      assert OverlayDisk(ImageAt(ImageMounts(mounts), k), disks[k]) == Ok(ImageMounts(r)[k]);
    }
  }

  lemma {:induction false} KeptAll(mounts: seq<Mount>, s: nat, d: nat)
    requires |VirtioFSMounts(mounts)| <= s && |ImageMounts(mounts)| <= d
    ensures KeptKinds(mounts, s, d) == Kinds(mounts)
    decreases |mounts|
  {
    if mounts != [] {
      var before, m := mounts[..|mounts| - 1], mounts[|mounts| - 1];
      assert mounts == before + [m];
      FiltersAppend(before, m);
      KeptAll(before, s, d);
      KeptStep(before, m, s, d);
      KindsAppend(before, m);
    }
  }

  /** An update with as many shares and disks as there are entries keeps every entry where it is. */
  lemma KindsKept(mounts: seq<Mount>, shares: seq<Share>, disks: seq<Disk>, r: seq<Mount>)
    requires Overlaid(mounts, shares, disks, r)
    requires |shares| == |VirtioFSMounts(mounts)| && |disks| == |ImageMounts(mounts)|
    ensures Kinds(r) == Kinds(mounts)
  {
    KeptAll(mounts, |shares|, |disks|);
    assert Tail(0, 0) == [];
  }

  /** Writing the same shares and disks twice is writing them once. */
  lemma OverlayIdempotent(mounts: seq<Mount>, shares: seq<Share>, disks: seq<Disk>, r: seq<Mount>, q: seq<Mount>)
    requires Overlaid(mounts, shares, disks, r) && Overlaid(r, shares, disks, q)
    ensures q == r
  {
    forall k | 0 <= k < |shares|
      ensures VirtioFSMounts(q)[k] == VirtioFSMounts(r)[k]
    {
      assert OverlayShare(FsAt(VirtioFSMounts(mounts), k), shares[k]) == Ok(VirtioFSMounts(r)[k]);
      assert OverlayShare(FsAt(VirtioFSMounts(r), k), shares[k]) == Ok(VirtioFSMounts(q)[k]);
    }
    forall k | 0 <= k < |disks|
      ensures ImageMounts(q)[k] == ImageMounts(r)[k]
    {
      assert OverlayDisk(ImageAt(ImageMounts(mounts), k), disks[k]) == Ok(ImageMounts(r)[k]);
      assert OverlayDisk(ImageAt(ImageMounts(r), k), disks[k]) == Ok(ImageMounts(q)[k]);
    }
    KindsKept(r, shares, disks, q);
    FiltersDetermine(q, r);
  }

  // Reading and writing back.

  function NormalFs(m: VirtioFSMount): VirtioFSMount {
    var m' := m.(kind := KIND_VIRTIOFS);
    if m.virtiofs.socket == "" then m'.(virtiofs := m.virtiofs.(socket := m.tag + ".sock", bin := "virtiofsd")) else m'
  }

  /** The size in mebibytes that survives the 64-bit product. */
  function NormalSize(size: int): int {
    TruncDiv(Wrap64(size * MEBIBYTE), MEBIBYTE)
  }

  function NormalImage(m: ImageMount): ImageMount {
    m.(kind := KIND_IMAGE,
       image := m.image.(size := NormalSize(m.image.size), autoCreate := NormalSize(m.image.size) != 0))
  }

  function Normal(m: Mount): Mount {
    match m
    case Fs(fs) => Fs(NormalFs(fs))
    case Image(img) => Image(NormalImage(img))
    case NineP(_) => m
  }

  function NormalMounts(mounts: seq<Mount>): seq<Mount> {
    seq(|mounts|, i requires 0 <= i < |mounts| => Normal(mounts[i]))
  }

  lemma WrappedIsAligned(size: int)
    ensures Wrap64(size * MEBIBYTE) % MEBIBYTE == 0
    ensures NormalSize(size) * MEBIBYTE == Wrap64(size * MEBIBYTE)
    ensures NormalSize(size) == size <==> InInt64(size * MEBIBYTE)
  {
    var w := Wrap64(size * MEBIBYTE);
    var turns := (size * MEBIBYTE - w) / 0x1_0000_0000_0000_0000;
    assert w == (size - turns * 0x1000_0000_0000) * MEBIBYTE;
  }

  predicate Tagged(fs: seq<VirtioFSMount>) {
    forall k :: 0 <= k < |fs| ==> fs[k].tag != ""
  }

  predicate Located(images: seq<ImageMount>) {
    forall k :: 0 <= k < |images| ==> images[k].source != ""
  }

  /** A document's own view is accepted exactly when shares have tags and disks paths: wrapped sizes stay aligned. */
  lemma OwnViewAcceptable(mounts: seq<Mount>)
    ensures Acceptable(ViewShares(mounts), ViewDisks(mounts)) <==>
              Tagged(VirtioFSMounts(mounts)) && Located(ImageMounts(mounts))
  {
    var fs, images := VirtioFSMounts(mounts), ImageMounts(mounts);
    var shares, disks := ViewShares(mounts), ViewDisks(mounts);
    forall k | 0 <= k < |images|
      ensures disks[k].path == images[k].source && disks[k].size % MEBIBYTE == 0
    {
      WrappedIsAligned(images[k].image.size);
    }
    forall k | 0 <= k < |fs|
      ensures shares[k].tag == fs[k].tag
    {
    }
    assert Tagged(fs) <==> forall k :: 0 <= k < |shares| ==> shares[k].tag != "";
    assert Located(images) <==> forall k :: 0 <= k < |disks| ==> disks[k].path != "";
  }

  ghost predicate NormalisedFs(fs: seq<VirtioFSMount>, r: seq<VirtioFSMount>) {
    |r| == |fs| && forall k :: 0 <= k < |fs| ==> r[k] == NormalFs(fs[k])
  }

  ghost predicate NormalisedImages(images: seq<ImageMount>, r: seq<ImageMount>) {
    |r| == |images| && forall k :: 0 <= k < |images| ==> r[k] == NormalImage(images[k])
  }

  lemma {:induction false} NormalFilters(mounts: seq<Mount>)
    ensures NinePMounts(NormalMounts(mounts)) == NinePMounts(mounts)
    ensures NormalisedFs(VirtioFSMounts(mounts), VirtioFSMounts(NormalMounts(mounts)))
    ensures NormalisedImages(ImageMounts(mounts), ImageMounts(NormalMounts(mounts)))
    decreases |mounts|
  {
    if mounts != [] {
      var before, m := mounts[..|mounts| - 1], mounts[|mounts| - 1];
      NormalFilters(before);
      assert mounts == before + [m];
      assert NormalMounts(mounts) == NormalMounts(before) + [Normal(m)];
      FiltersAppend(before, m);
      FiltersAppend(NormalMounts(before), Normal(m));
      match m
      case Fs(fs) => NormalisedFsMore(VirtioFSMounts(before), VirtioFSMounts(NormalMounts(before)), fs);
      case Image(img) => NormalisedImagesMore(ImageMounts(before), ImageMounts(NormalMounts(before)), img);
      case NineP(_) =>
    }
  }

  lemma NormalisedFsMore(fs: seq<VirtioFSMount>, r: seq<VirtioFSMount>, m: VirtioFSMount)
    requires NormalisedFs(fs, r)
    ensures NormalisedFs(fs + [m], r + [NormalFs(m)])
  {
  }

  lemma NormalisedImagesMore(images: seq<ImageMount>, r: seq<ImageMount>, m: ImageMount)
    requires NormalisedImages(images, r)
    ensures NormalisedImages(images + [m], r + [NormalImage(m)])
  {
  }

  /** Writing a document's own view back onto it normalises each entry and does nothing else. */
  lemma GetPut(mounts: seq<Mount>, r: seq<Mount>)
    requires Overlaid(mounts, ViewShares(mounts), ViewDisks(mounts), r)
    ensures r == NormalMounts(mounts)
  {
    var shares, disks, normal := ViewShares(mounts), ViewDisks(mounts), NormalMounts(mounts);
    NormalFilters(mounts);
    assert Kinds(normal) == Kinds(mounts);
    KindsKept(mounts, shares, disks, r);
    forall k | 0 <= k < |shares|
      ensures VirtioFSMounts(r)[k] == VirtioFSMounts(normal)[k]
    {
      assert OverlayShare(FsAt(VirtioFSMounts(mounts), k), shares[k]) == Ok(VirtioFSMounts(r)[k]);
    }
    forall k | 0 <= k < |disks|
      ensures ImageMounts(r)[k] == ImageMounts(normal)[k]
    {
      assert OverlayDisk(ImageAt(ImageMounts(mounts), k), disks[k]) == Ok(ImageMounts(r)[k]);
      WrappedIsAligned(ImageMounts(mounts)[k].image.size);
    }
    FiltersDetermine(r, normal);
  }

  /** Exactly which entries come back unchanged. */
  lemma NormalIff(m: Mount)
    ensures Normal(m) == m <==>
              match m
              case Fs(fs) => fs.kind == "virtiofs" && fs.virtiofs.socket != ""
              case NineP(_) => true
              case Image(img) =>
                && img.kind == "image" && InInt64(img.image.size * 0x10_0000)
                && (img.image.autoCreate <==> img.image.size != 0)
  {
    match m
    case Fs(fs) => assert |fs.tag + ".sock"| > 0;
    case NineP(_) =>
    case Image(img) => WrappedIsAligned(img.image.size);
  }
}
