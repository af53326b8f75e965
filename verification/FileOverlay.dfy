/**
 The lens between a manifest's guest files and the files of a neutral Spec: the view is
 `specFromDocument` (manifest/manifest.go), the update is `overlaySpecFiles` (backend/qemu/spec.go).
 */
module FileOverlay {
  import opened Wrappers
  import opened Numerals
  import opened MachineInts
  import opened Sequences
  import opened Document

  /** What reading a file's content comes to. */
  datatype Content = Missing | Broken | Readable(text: string)

  /** `mode` is the 32 bits of a file mode. */
  datatype File = File(guestPath: string, content: Content, mode: nat)

  datatype Error = GuestPathRequired | ContentRequired | ReadFailed | InvalidMode

  const MODES: nat := 0x1_0000_0000

  // File modes.

  /** Zero-padded to width three. */
  function Pad3(s: string): string {
    if |s| >= 3 then s else if |s| == 2 then "0" + s else if |s| == 1 then "00" + s else "000"
  }

  /** The `%03o` verb on the permission bits. */
  function ShowMode(mode: nat): string {
    Pad3(Digits(mode % 512, Octal))
  }

  /** `strconv.ParseUint(s, 8, 32)`. */
  function ParseMode(s: string): Option<nat> {
    if s == "" || !Octal.AllDigits(s) || Value(s, Octal) >= MODES then None else Some(Value(s, Octal))
  }

  lemma {:induction false} LeadingZero(s: string)
    requires Octal.AllDigits(s)
    ensures Octal.AllDigits("0" + s) && Value("0" + s, Octal) == Value(s, Octal)
  {
    var t := "0" + s;
    assert forall c :: c in t ==> c == '0' || c in s;
    if s == [] {
      assert t[..0] == [];
    } else {
      var init := s[..|s| - 1];
      assert Octal.AllDigits(init);
      LeadingZero(init);
      assert t[..|t| - 1] == "0" + init;
    }
  }

  /** What is printed reads back as the permission bits. */
  lemma ModeRoundTrip(mode: nat)
    ensures ParseMode(ShowMode(mode)) == Some(mode % 512)
  {
    var digits := Digits(mode % 512, Octal);
    ValueOfDigits(mode % 512, Octal);
    LeadingZero(digits);
    LeadingZero("0" + digits);
    assert "00" + digits == "0" + ("0" + digits);
  }

  lemma OctalLength(m: nat)
    ensures m < 8 ==> |Digits(m, Octal)| == 1
    ensures m < 64 ==> |Digits(m, Octal)| <= 2
    ensures m < 512 ==> |Digits(m, Octal)| <= 3
  {
    if m >= 8 {
      OctalLength(m / 8);
    }
  }

  lemma ThreeDigits(s: string)
    requires |s| == 3 && Octal.AllDigits(s)
    ensures Value(s, Octal) == 64 * (s[0] as int - 48) + 8 * (s[1] as int - 48) + (s[2] as int - 48)
  {
    var two, one := s[..2], s[..1];
    assert two[..1] == one && one[..0] == [];
    assert Value(one, Octal) == s[0] as int - 48;
    assert Value(two, Octal) == 8 * Value(one, Octal) + (s[1] as int - 48);
  }

  /** What is printed are the three octal digits of the permission bits. */
  lemma ModeDigits(mode: nat)
    ensures var s := ShowMode(mode);
            && |s| == 3 && (forall i :: 0 <= i < 3 ==> '0' <= s[i] <= '7')
            && 64 * (s[0] as int - 48) + 8 * (s[1] as int - 48) + (s[2] as int - 48) == mode % 512
  {
    OctalLength(mode % 512);
    ModeRoundTrip(mode);
    ThreeDigits(ShowMode(mode));
  }

  /** A numeral is read as what it says, unless that takes more than 32 bits. */
  lemma ModeBound(n: nat)
    ensures ParseMode(Digits(n, Octal)) == if n < 4_294_967_296 then Some(n) else None
  {
    ValueOfDigits(n, Octal);
  }

  // The view.

  /** A file with text is the Spec's; one copied from the host belongs to the document alone. */
  function ViewMode(mode: Option<string>): Option<nat> {
    if mode.None? then Some(0) else ParseMode(mode.value)
  }

  predicate Readable(w: WriteFile) {
    w.text.Some? ==> ViewMode(w.mode).Some?
  }

  function ViewFile(w: WriteFile): File
    requires w.text.Some? && Readable(w)
  {
    File(w.guestPath, Content.Readable(w.text.value), ViewMode(w.mode).value)
  }

  /** The entries with text among the first `n`, in order. */
  function TextFirst(ws: seq<WriteFile>, n: nat): seq<WriteFile>
    requires n <= |ws|
  {
    if n == 0 then []
    else if ws[n - 1].text.Some? then TextFirst(ws, n - 1) + [ws[n - 1]]
    else TextFirst(ws, n - 1)
  }

  function Texts(ws: seq<WriteFile>): seq<WriteFile> {
    TextFirst(ws, |ws|)
  }

  /** The entries without. */
  function HostFirst(ws: seq<WriteFile>, n: nat): seq<WriteFile>
    requires n <= |ws|
  {
    if n == 0 then []
    else if ws[n - 1].text.Some? then HostFirst(ws, n - 1)
    else HostFirst(ws, n - 1) + [ws[n - 1]]
  }

  function Hosts(ws: seq<WriteFile>): seq<WriteFile> {
    HostFirst(ws, |ws|)
  }

  /** The file loop of `specFromDocument`: all texts, or an error at a mode that is no octal number. */
  method ViewFiles(ws: seq<WriteFile>) returns (r: Result<seq<File>, Error>)
    ensures r.Ok? <==> forall i :: 0 <= i < |ws| ==> Readable(ws[i])
    ensures r.Ok? ==> Views(Texts(ws), r.value)
    ensures r.Err? ==> r.error == InvalidMode
  {
    var files := [];
    for i := 0 to |ws|
      invariant forall j :: 0 <= j < i ==> Readable(ws[j])
      invariant Views(TextFirst(ws, i), files)
    {
      if ws[i].text.None? {
        continue;
      }
      var mode := 0;
      if ws[i].mode.Some? {
        var parsed := ParseMode(ws[i].mode.value);
        if parsed.None? {
          return Err(InvalidMode);
        }
        mode := parsed.value;
      }
      files := files + [File(ws[i].guestPath, Content.Readable(ws[i].text.value), mode)];
    }
    r := Ok(files);
  }

  ghost predicate Views(texts: seq<WriteFile>, files: seq<File>) {
    && |texts| == |files|
    && forall k :: 0 <= k < |files| ==> texts[k].text.Some? && Readable(texts[k]) && files[k] == ViewFile(texts[k])
  }

  // The update.

  const BLANK := WriteFile("", None, None, None, None, None, None, None)

  predicate Acceptable(file: File) {
    file.guestPath != "" && file.content.Readable?
  }

  function OverlayFile(input: WriteFile, file: File): Result<WriteFile, Error> {
    if file.guestPath == "" then Err(GuestPathRequired)
    else if file.content.Missing? then Err(ContentRequired)
    else if file.content.Broken? then Err(ReadFailed)
    else Ok(Over(input, file))
  }

  function TextOf(content: Content): string {
    if content.Readable? then content.text else ""
  }

  /** What is wrong with a file that is not acceptable. */
  function ErrorOf(file: File): Error {
    if file.guestPath == "" then GuestPathRequired
    else if file.content.Missing? then ContentRequired
    else ReadFailed
  }

  /** The same, the other way round. */
  ghost predicate Wrong(file: File, e: Error) {
    match e
    case GuestPathRequired => file.guestPath == ""
    case ContentRequired => file.guestPath != "" && file.content.Missing?
    case ReadFailed => file.guestPath != "" && file.content.Broken?
    case InvalidMode => false
  }

  /** From `from` on, the first file that is not acceptable, and what is wrong with it. */
  ghost predicate FirstError(files: seq<File>, from: nat, k: nat, e: Error) {
    && from <= k < |files| && !Acceptable(files[k]) && e == ErrorOf(files[k])
    && forall j :: from <= j < k ==> Acceptable(files[j])
  }

  function Over(input: WriteFile, file: File): WriteFile {
    input.(guestPath := file.guestPath, text := Some(TextOf(file.content)), path := None,
           mode := if file.mode == 0 then None else Some(ShowMode(file.mode)))
  }

  function TextCount(ws: seq<WriteFile>, n: nat): nat
    requires n <= |ws|
  {
    if n == 0 then 0 else TextCount(ws, n - 1) + if ws[n - 1].text.Some? then 1 else 0
  }

  ghost predicate AllAcceptable(files: seq<File>) {
    forall k :: 0 <= k < |files| ==> Acceptable(files[k])
  }

  /** The first `n` entries, texts replaced by the files in order or dropped when there are none left. */
  function Refilled(ws: seq<WriteFile>, n: nat, files: seq<File>): seq<WriteFile>
    requires n <= |ws|
  {
    if n == 0 then []
    else
      var k := TextCount(ws, n - 1);
      if ws[n - 1].text.None? then Refilled(ws, n - 1, files) + [ws[n - 1]]
      else if k < |files| then Refilled(ws, n - 1, files) + [Over(ws[n - 1], files[k])]
      else Refilled(ws, n - 1, files)
  }

  /** Files without an entry of their own, from `a` on and before `b`. */
  function Fresh(files: seq<File>, a: nat, b: nat): seq<WriteFile>
    requires b <= |files|
  {
    if a >= b then [] else Fresh(files, a, b - 1) + [Over(BLANK, files[b - 1])]
  }

  function Overlaid(ws: seq<WriteFile>, files: seq<File>): seq<WriteFile> {
    Refilled(ws, |ws|, files) + Fresh(files, TextCount(ws, |ws|), |files|)
  }

  /** `overlaySpecFiles`: it fails exactly when some file lacks a path or readable content. */
  method OverlaySpecFiles(ws: seq<WriteFile>, files: seq<File>) returns (r: Result<seq<WriteFile>, Error>)
    ensures r.Ok? <==> AllAcceptable(files)
    ensures r.Ok? <==> forall k :: 0 <= k < |files| ==> files[k].guestPath != "" && files[k].content.Readable?
    ensures r.Ok? ==> r.value == Overlaid(ws, files)
    ensures r.Err? ==> exists k: nat :: FirstError(files, 0, k, r.error)
    ensures r.Err? ==> exists k :: 0 <= k < |files| && Wrong(files[k], r.error)
  {
    var result: seq<WriteFile> := [];
    var fileIndex := 0;
    for i := 0 to |ws|
      invariant fileIndex == TextCount(ws, i) && result == Refilled(ws, i, files)
      invariant forall k :: 0 <= k < fileIndex && k < |files| ==> Acceptable(files[k])
    {
      if ws[i].text.None? {
        result := result + [ws[i]];
        continue;
      }
      if fileIndex < |files| {
        assert !Acceptable(files[fileIndex]) ==> FirstError(files, 0, fileIndex, ErrorOf(files[fileIndex]));
        var overlaid :- OverlayFile(ws[i], files[fileIndex]);
        result := result + [overlaid];
      }
      fileIndex := fileIndex + 1;
    }
    if fileIndex < |files| {
      var appended := AppendFresh(result, files, fileIndex);
      if appended.Err? {
        ghost var k: nat :| FirstError(files, fileIndex, k, appended.error);
        assert FirstError(files, 0, k, appended.error);
        return appended;
      }
      result := appended.value;
    } else {
      assert result == result + Fresh(files, fileIndex, |files|);
    }
    r := Ok(result);
  }

  /** Its trailing loop. */
  method AppendFresh(kept: seq<WriteFile>, files: seq<File>, first: nat) returns (r: Result<seq<WriteFile>, Error>)
    requires first <= |files|
    ensures r.Ok? <==> forall k :: first <= k < |files| ==> Acceptable(files[k])
    ensures r.Ok? ==> r.value == kept + Fresh(files, first, |files|)
    ensures r.Err? ==> exists k: nat :: FirstError(files, first, k, r.error)
  {
    var result := kept;
    for i := first to |files|
      invariant result == kept + Fresh(files, first, i)
      invariant forall k :: first <= k < i ==> Acceptable(files[k])
    {
      assert !Acceptable(files[i]) ==> FirstError(files, first, i, ErrorOf(files[i]));
      var overlaid :- OverlayFile(BLANK, files[i]);
      Assoc(kept, Fresh(files, first, i), [overlaid]);
      result := result + [overlaid];
    }
    r := Ok(result);
  }

  // The laws.

  lemma {:induction false} SamePrefix(a: seq<WriteFile>, b: seq<WriteFile>, n: nat)
    requires n <= |a| && n <= |b| && forall i :: 0 <= i < n ==> a[i] == b[i]
    ensures TextFirst(a, n) == TextFirst(b, n) && HostFirst(a, n) == HostFirst(b, n)
  {
    if n > 0 {
      SamePrefix(a, b, n - 1);
    }
  }

  lemma Append(ws: seq<WriteFile>, w: WriteFile)
    ensures Texts(ws + [w]) == if w.text.Some? then Texts(ws) + [w] else Texts(ws)
    ensures Hosts(ws + [w]) == if w.text.Some? then Hosts(ws) else Hosts(ws) + [w]
  {
    SamePrefix(ws, ws + [w], |ws|);
  }

  /** The entry that the `k`-th file is written over. */
  function TextAt(texts: seq<WriteFile>, k: nat): WriteFile {
    if k < |texts| then texts[k] else BLANK
  }

  ghost predicate FilesWritten(texts: seq<WriteFile>, files: seq<File>, written: seq<WriteFile>) {
    && |written| <= |files|
    && forall k :: 0 <= k < |written| ==> written[k] == Over(TextAt(texts, k), files[k])
  }

  lemma {:induction false} TextFirstCount(ws: seq<WriteFile>, n: nat)
    requires n <= |ws|
    ensures |TextFirst(ws, n)| == TextCount(ws, n)
  {
    if n > 0 {
      TextFirstCount(ws, n - 1);
    }
  }

  ghost predicate Progress(texts: seq<WriteFile>, files: seq<File>, n: nat, r: seq<WriteFile>) {
    |Texts(r)| == n && FilesWritten(texts, files, Texts(r))
  }

  lemma WriteNext(texts: seq<WriteFile>, files: seq<File>, r: seq<WriteFile>, n: nat)
    requires n < |files| && Progress(texts, files, n, r)
    ensures var w := Over(TextAt(texts, n), files[n]);
            Progress(texts, files, n + 1, r + [w]) && Hosts(r + [w]) == Hosts(r)
  {
    Append(r, Over(TextAt(texts, n), files[n]));
  }

  /** More entries to write over make no difference to what has been written. */
  lemma MoreTexts(texts: seq<WriteFile>, w: WriteFile, files: seq<File>, n: nat, r: seq<WriteFile>)
    requires Progress(texts, files, n, r) && n <= |texts|
    ensures Progress(texts + [w], files, n, r)
  {
    assert forall k :: 0 <= k < n ==> TextAt(texts + [w], k) == TextAt(texts, k);
  }

  lemma {:induction false} RefilledTexts(ws: seq<WriteFile>, n: nat, files: seq<File>)
    requires n <= |ws|
    ensures Progress(TextFirst(ws, n), files, Min(TextCount(ws, n), |files|), Refilled(ws, n, files))
    ensures Hosts(Refilled(ws, n, files)) == HostFirst(ws, n)
  {
    if n > 0 {
      RefilledTexts(ws, n - 1, files);
      TextFirstCount(ws, n - 1);
      var was, k, w := Refilled(ws, n - 1, files), TextCount(ws, n - 1), ws[n - 1];
      if w.text.None? {
        Append(was, w);
      } else {
        MoreTexts(TextFirst(ws, n - 1), w, files, Min(k, |files|), was);
        if k < |files| {
          WriteNext(TextFirst(ws, n), files, was, k);
        }
      }
    }
  }

  lemma {:induction false} FreshTexts(ws: seq<WriteFile>, texts: seq<WriteFile>, files: seq<File>, b: nat)
    requires |texts| <= b <= |files| && Progress(texts, files, |texts|, ws)
    ensures Progress(texts, files, b, ws + Fresh(files, |texts|, b))
    ensures Hosts(ws + Fresh(files, |texts|, b)) == Hosts(ws)
    decreases b
  {
    if |texts| == b {
      assert ws + Fresh(files, |texts|, b) == ws;
    } else {
      FreshTexts(ws, texts, files, b - 1);
      Assoc(ws, Fresh(files, |texts|, b - 1), [Over(BLANK, files[b - 1])]);
      WriteNext(texts, files, ws + Fresh(files, |texts|, b - 1), b - 1);
    }
  }

  /** Host entries stay as they were, and the texts are the files, one by one, over the entries that were there. */
  lemma OverlaidTexts(ws: seq<WriteFile>, files: seq<File>)
    ensures |Texts(Overlaid(ws, files))| == |files| && FilesWritten(Texts(ws), files, Texts(Overlaid(ws, files)))
    ensures Hosts(Overlaid(ws, files)) == Hosts(ws)
  {
    var kept := Refilled(ws, |ws|, files);
    RefilledTexts(ws, |ws|, files);
    TextFirstCount(ws, |ws|);
    if |Texts(ws)| <= |files| {
      FreshTexts(kept, Texts(ws), files, |files|);
    } else {
      assert kept + Fresh(files, |Texts(ws)|, |files|) == kept;
    }
  }

  /** The `k`-th file is the `k`-th entry with text: its path, its content, its mode, and no host path. */
  ghost predicate IsFile(w: WriteFile, file: File, was: Option<WriteFile>) {
    && w.guestPath == file.guestPath && w.path.None?
    && (file.content.Readable? ==> w.text == Some(file.content.text))
    && (if file.mode == 0 then w.mode.None? else w.mode.Some? && ParseMode(w.mode.value) == Some(file.mode % 512))
    && if was.Some?
       then && w.chown == was.value.chown && w.overwrite == was.value.overwrite
            && w.followLinks == was.value.followLinks && w.writeBack == was.value.writeBack
       else w.chown.None? && w.overwrite.None? && w.followLinks.None? && w.writeBack.None?
  }

  lemma FilesAsGiven(ws: seq<WriteFile>, files: seq<File>, k: nat)
    requires k < |files|
    ensures var texts, written := Texts(ws), Texts(Overlaid(ws, files));
            k < |written| && IsFile(written[k], files[k], if k < |texts| then Some(texts[k]) else None)
  {
    OverlaidTexts(ws, files);
    ModeRoundTrip(files[k].mode);
  }

  lemma {:induction false} RefilledPlaces(ws: seq<WriteFile>, n: nat, files: seq<File>)
    requires n <= |ws| && TextCount(ws, n) <= |files|
    ensures var r := Refilled(ws, n, files);
            |r| == n && forall j :: 0 <= j < n ==> if ws[j].text.Some? then r[j].text.Some? else r[j] == ws[j]
  {
    if n > 0 {
      RefilledPlaces(ws, n - 1, files);
    }
  }

  lemma {:induction false} FreshHasText(files: seq<File>, a: nat, b: nat)
    requires b <= |files|
    ensures forall w :: w in Fresh(files, a, b) ==> w.text.Some?
  {
    if a < b {
      FreshHasText(files, a, b - 1);
    }
  }

  /** With a file for every text, all entries stay in their places, and what is new comes behind them. */
  lemma PlacesKept(ws: seq<WriteFile>, files: seq<File>)
    requires |Texts(ws)| <= |files|
    ensures var r := Overlaid(ws, files);
            && |r| == |ws| + (|files| - |Texts(ws)|)
            && (forall j :: 0 <= j < |ws| ==> if ws[j].text.Some? then r[j].text.Some? else r[j] == ws[j])
            && (forall j :: |ws| <= j < |r| ==> r[j].text.Some?)
  {
    TextFirstCount(ws, |ws|);
    RefilledPlaces(ws, |ws|, files);
    FreshHasText(files, TextCount(ws, |ws|), |files|);
    FreshCount(files, TextCount(ws, |ws|), |files|);
  }

  lemma {:induction false} FreshCount(files: seq<File>, a: nat, b: nat)
    requires b <= |files|
    ensures |Fresh(files, a, b)| == if a < b then b - a else 0
  {
    if a < b {
      FreshCount(files, a, b - 1);
    }
  }

  lemma {:induction false} TextIndex(ws: seq<WriteFile>, n: nat, j: nat)
    requires j < n <= |ws| && ws[j].text.Some?
    ensures TextCount(ws, j) < |TextFirst(ws, n)| && TextFirst(ws, n)[TextCount(ws, j)] == ws[j]
  {
    TextFirstCount(ws, n - 1);
    if j < n - 1 {
      TextIndex(ws, n - 1, j);
    }
  }

  /** Reading back after writing succeeds and gives the files as they were, with the permission bits of their modes. */
  lemma PutGet(ws: seq<WriteFile>, files: seq<File>)
    requires AllAcceptable(files)
    ensures forall i :: 0 <= i < |Overlaid(ws, files)| ==> Readable(Overlaid(ws, files)[i])
    ensures Views(Texts(Overlaid(ws, files)), PermissionsOnly(files))
  {
    var r := Overlaid(ws, files);
    OverlaidTexts(ws, files);
    forall k | 0 <= k < |files|
      ensures Texts(r)[k].text.Some? && Readable(Texts(r)[k]) && ViewFile(Texts(r)[k]) == PermissionsOnly(files)[k]
    {
      ModeRoundTrip(files[k].mode);
      assert Texts(r)[k] == Over(TextAt(Texts(ws), k), files[k]);
    }
    forall i | 0 <= i < |r|
      ensures Readable(r[i])
    {
      if r[i].text.Some? {
        TextIndex(r, |r|, i);
      }
    }
  }

  function PermissionsOnly(files: seq<File>): seq<File> {
    seq(|files|, k requires 0 <= k < |files| => files[k].(mode := files[k].mode % 512))
  }

  // Reading and writing back.

  function NormalFile(w: WriteFile): WriteFile
    requires Readable(w)
  {
    if w.text.None? then w
    else
      var mode := ViewMode(w.mode).value;
      w.(path := None, mode := if mode == 0 then None else Some(ShowMode(mode)))
  }

  lemma {:induction false} RefilledOwn(ws: seq<WriteFile>, n: nat, files: seq<File>)
    requires n <= |ws| && Views(Texts(ws), files) && forall i :: 0 <= i < |ws| ==> Readable(ws[i])
    ensures |Refilled(ws, n, files)| == n && forall j :: 0 <= j < n ==> Refilled(ws, n, files)[j] == NormalFile(ws[j])
  {
    if n > 0 {
      RefilledOwn(ws, n - 1, files);
      if ws[n - 1].text.Some? {
        TextIndex(ws, |ws|, n - 1);
        assert files[TextCount(ws, n - 1)] == ViewFile(ws[n - 1]);
      }
    }
  }

  /** Writing a document's own view back respells non-zero modes, drops zero ones and host paths, and no more. */
  lemma GetPut(ws: seq<WriteFile>, files: seq<File>)
    requires Views(Texts(ws), files) && forall i :: 0 <= i < |ws| ==> Readable(ws[i])
    ensures |Overlaid(ws, files)| == |ws| && forall j :: 0 <= j < |ws| ==> Overlaid(ws, files)[j] == NormalFile(ws[j])
    ensures AllAcceptable(files) <==> forall k :: 0 <= k < |Texts(ws)| ==> Texts(ws)[k].guestPath != ""
  {
    RefilledOwn(ws, |ws|, files);
    TextFirstCount(ws, |ws|);
    assert forall k :: 0 <= k < |files| ==> files[k].guestPath == Texts(ws)[k].guestPath && files[k].content.Readable?;
  }

  /** Exactly which entries come back unchanged, and which keep at least the mode they show. */
  lemma NormalIff(w: WriteFile)
    requires Readable(w) && w.text.Some?
    ensures NormalFile(w) == w <==>
              && w.path.None?
              && (w.mode.Some? ==> && ViewMode(w.mode).value != 0
                                   && w.mode.value == ShowMode(ViewMode(w.mode).value))
    ensures Readable(NormalFile(w))
    ensures ViewFile(NormalFile(w)) == ViewFile(w) <==> ViewMode(w.mode).value < 512
  {
    ModeRoundTrip(ViewMode(w.mode).value);
  }
}
