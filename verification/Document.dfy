/** The manifest document entries that mounts, ports and files are written in (internal/manifest/document.go). */
module Document {
  import opened Wrappers

  datatype VirtioFSInput = VirtioFSInput(socket: string, bin: string, args: seq<string>)

  datatype VirtioFSMount = VirtioFSMount(
    kind: string, tag: string, source: string, readOnly: bool, target: string, virtiofs: VirtioFSInput)

  datatype NinePMount = NinePMount(
    kind: string, tag: string, source: string, readOnly: bool, securityModel: string)

  /** `size` counts mebibytes. */
  datatype ImageInput = ImageInput(
    size: int, fsType: string, format: string, autoCreate: bool,
    fsLabel: Option<string>, direct: bool, serial: Option<string>)

  datatype ImageMount = ImageMount(kind: string, source: string, readOnly: bool, image: ImageInput)

  datatype Mount = Fs(fs: VirtioFSMount) | NineP(nineP: NinePMount) | Image(img: ImageMount)

  const KIND_VIRTIOFS := "virtiofs"
  const KIND_IMAGE := "image"

  datatype ForwardPort = ForwardPort(proto: string, from: string, host: string, guest: string)

  datatype Network = Network(id: string, kind: string, mac: string, forward: seq<ForwardPort>)

  datatype WriteFile = WriteFile(
    guestPath: string, chown: Option<string>, text: Option<string>, mode: Option<string>,
    overwrite: Option<bool>, followLinks: Option<bool>, writeBack: Option<bool>, path: Option<string>)

  // The typed filters of the mount list, in list order.

  function VirtioFSMounts(mounts: seq<Mount>): seq<VirtioFSMount> {
    if mounts == [] then []
    else
      VirtioFSMounts(mounts[..|mounts| - 1])
      + (match mounts[|mounts| - 1] case Fs(m) => [m] case _ => [])
  }

  function NinePMounts(mounts: seq<Mount>): seq<NinePMount> {
    if mounts == [] then []
    else
      NinePMounts(mounts[..|mounts| - 1])
      + (match mounts[|mounts| - 1] case NineP(m) => [m] case _ => [])
  }

  function ImageMounts(mounts: seq<Mount>): seq<ImageMount> {
    if mounts == [] then []
    else
      ImageMounts(mounts[..|mounts| - 1])
      + (match mounts[|mounts| - 1] case Image(m) => [m] case _ => [])
  }

  /** Appending one mount appends it to its own filter and leaves the other two alone. */
  lemma FiltersAppend(mounts: seq<Mount>, m: Mount)
    ensures VirtioFSMounts(mounts + [m]) == if m.Fs? then VirtioFSMounts(mounts) + [m.fs] else VirtioFSMounts(mounts)
    ensures NinePMounts(mounts + [m]) == if m.NineP? then NinePMounts(mounts) + [m.nineP] else NinePMounts(mounts)
    ensures ImageMounts(mounts + [m]) == if m.Image? then ImageMounts(mounts) + [m.img] else ImageMounts(mounts)
  {
    assert (mounts + [m])[..|mounts|] == mounts;
  }
}
