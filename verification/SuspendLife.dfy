/**
 The saves and the commit in the life of one VM, as steps that interleave: the suspend handler saves at most
 once (backend/qemu/internal/vmm/manager.go), but `VM.Suspend` (backend/qemu/internal/vmm/api.go) saves without
 its guard, beside it or beside another `VM.Suspend`. Then launches after one another, each with such a life.
 A crash is the end of a life at any step.
 */
module SuspendLife {
  import opened Wrappers
  import opened SuspendDisk

  /** One launch: its manifest, the state it resumed, if any, and its context id. */
  datatype Vm = Vm(manifest: Manifest, resume: Option<SuspendState>, cid: int) {
    predicate Valid() {
      manifest.Valid() && manifest.cidStart <= cid <= manifest.cidEnd
    }

    function Path(): string {
      manifest.vmState
    }
  }

  /** Where one save is. `file` numbers the contents that its migration writes. */
  datatype Phase =
    | NotBegun
    | Removed                // the old stream is gone
    | Prepared               // an empty file was created
    | Streaming(file: nat)   // QEMU has opened the path and is writing
    | Runaway(file: nat)     // still writing, though the save has failed
    | Streamed(file: nat)    // the migration is reported complete
    | Marking(file: nat)     // the marker is truncated
    | Over

  datatype CommitPhase = Uncommitted | StreamDropped | Committed

  /**
   `contents` numbers what is under the stream's path, if this life put it there; `next` is the next number;
   `marks` counts the markers written.
   */
  datatype Life = Life(
    disk: Disk, contents: Option<nat>, next: nat, saves: seq<Phase>, commit: CommitPhase, marks: nat)

  function Born(disk: Disk, saves: nat): Life {
    Life(disk, None, 0, seq(saves, i => NotBegun), Uncommitted, 0)
  }

  /** `Undo` is the removal after a file that was created could not be handed to QEMU's user. */
  datatype Step = Clear | Create | Undo | Open | Finish | Truncate | Write | Fail

  datatype Move = SaveStep(save: nat, step: Step) | DropStream | DropMarker

  predicate Fits(p: Phase, s: Step) {
    match s
    case Clear => p.NotBegun?
    case Create => p.Removed?
    case Undo => p.Prepared?
    case Open => p.Prepared?
    case Finish => p.Streaming? || p.Runaway?
    case Truncate => p.Streamed?
    case Write => p.Marking?
    case Fail => UnderWay(p)
  }

  predicate UnderWay(p: Phase) {
    p.Removed? || p.Prepared? || p.Streaming? || p.Streamed? || p.Marking?
  }

  /** The file is created exclusively; a commit drops the stream, then the marker. */
  predicate Enabled(vm: Vm, l: Life, mv: Move) {
    match mv
    case SaveStep(i, s) => i < |l.saves| && Fits(l.saves[i], s) && (s.Create? ==> vm.Path() !in l.disk.streams)
    case DropStream => vm.resume.Some? && l.commit.Uncommitted?
    case DropMarker => l.commit.StreamDropped?
  }

  function NextPhase(p: Phase, s: Step, next: nat): Phase
    requires Fits(p, s)
  {
    match s
    case Clear => Removed
    case Create => Prepared
    case Undo => Over
    case Open => Streaming(next)
    case Finish => if p.Streaming? then Streamed(p.file) else Over
    case Truncate => Marking(p.file)
    case Write => Over
    case Fail => if p.Streaming? then Runaway(p.file) else Over
  }

  /** What a step does to the files; `p` is the phase it is taken in. */
  function Effect(vm: Vm, l: Life, p: Phase, s: Step): Life
    requires Fits(p, s)
  {
    match s
    case Clear => l.(disk := Cleared(vm.manifest, l.disk), contents := None)
    case Create => l.(disk := Emptied(vm.manifest, l.disk), contents := Some(l.next), next := l.next + 1)
    case Undo => l.(disk := Cleared(vm.manifest, l.disk), contents := None)
    case Open => l.(disk := Emptied(vm.manifest, l.disk), contents := Some(l.next), next := l.next + 1)
    case Finish => if l.contents == Some(p.file) then l.(disk := Filled(vm.manifest, l.disk)) else l
    case Truncate => l.(disk := l.disk.(marker := Unreadable))
    case Write => l.(disk := l.disk.(marker := MarkerFor(vm.manifest, vm.cid)), marks := l.marks + 1)
    case Fail => l
  }

  function Next(vm: Vm, l: Life, mv: Move): Life
    requires Enabled(vm, l, mv)
  {
    match mv
    case SaveStep(i, s) =>
      Effect(vm, l, l.saves[i], s).(saves := l.saves[i := NextPhase(l.saves[i], s, l.next)])
    case DropStream =>
      var path := vm.resume.value.path;
      l.(disk := l.disk.(streams := l.disk.streams - {path}), commit := StreamDropped,
         contents := if path == vm.Path() then None else l.contents)
    case DropMarker => l.(disk := l.disk.(marker := NoMarker), commit := Committed)
  }

  /** The life after the first `n` moves; those that are not possible are skipped. */
  function At(vm: Vm, l: Life, moves: seq<Move>, n: nat): Life
    requires n <= |moves|
  {
    if n == 0 then l
    else
      var before := At(vm, l, moves, n - 1);
      if Enabled(vm, before, moves[n - 1]) then Next(vm, before, moves[n - 1]) else before
  }

  // What a life can come to.

  /** The only markers a life leaves: the one it found, none, a truncated one, or its own, under its own context id. */
  ghost predicate OwnMarker(vm: Vm, found: Marker, left: Marker) {
    || left == found || left.NoMarker? || left.Unreadable?
    || left == Marker(SuspendState("saved", "qemu-v1", vm.cid, vm.manifest.vmState))
  }

  lemma {:induction false} MarkerIsOwn(vm: Vm, l: Life, moves: seq<Move>, n: nat)
    requires n <= |moves|
    ensures OwnMarker(vm, l.disk.marker, At(vm, l, moves, n).disk.marker)
  {
    if n > 0 {
      MarkerIsOwn(vm, l, moves, n - 1);
    }
  }

  /** No life touches a stream that is neither its own nor the one it resumed. */
  lemma {:induction false} OtherStreamsKept(vm: Vm, l: Life, moves: seq<Move>, n: nat, path: string)
    requires n <= |moves| && path != vm.manifest.vmState && (vm.resume.Some? ==> path != vm.resume.value.path)
    ensures var streams := At(vm, l, moves, n).disk.streams;
            (path in streams <==> path in l.disk.streams)
            && (path in streams ==> streams[path] == l.disk.streams[path])
  {
    if n > 0 {
      OtherStreamsKept(vm, l, moves, n - 1, path);
    }
  }

  /** One save from its first step to its last. */
  const ONE_SAVE: seq<Move> :=
    [SaveStep(0, Clear), SaveStep(0, Create), SaveStep(0, Open), SaveStep(0, Finish),
     SaveStep(0, Truncate), SaveStep(0, Write)]

  lemma OneSaveStreams(vm: Vm, disk: Disk)
    ensures At(vm, Born(disk, 1), ONE_SAVE, 4) ==
              Life(Disk(disk.marker, disk.streams[vm.manifest.vmState := Complete]), Some(1), 2, [Streamed(1)],
                   Uncommitted, 0)
  {
    var start, path := Born(disk, 1), vm.manifest.vmState;
    var partial := Disk(disk.marker, disk.streams[path := Partial]);
    Prepares(vm, disk, ONE_SAVE);
    assert partial.streams[path := Partial] == partial.streams;
    assert At(vm, start, ONE_SAVE, 3) == Life(partial, Some(1), 2, [Streaming(1)], Uncommitted, 0);
    assert partial.streams[path := Complete] == disk.streams[path := Complete];
  }

  /** By itself, and on any disk, a save does what `StateDir.Save` promises of a success. */
  lemma UndisturbedSave(vm: Vm, disk: Disk)
    ensures At(vm, Born(disk, 1), ONE_SAVE, |ONE_SAVE|).disk ==
              Disk(Marker(SuspendState("saved", "qemu-v1", vm.cid, vm.manifest.vmState)),
                   disk.streams[vm.manifest.vmState := Complete])
  {
    OneSaveStreams(vm, disk);
    var streamed := At(vm, Born(disk, 1), ONE_SAVE, 4);
    assert At(vm, Born(disk, 1), ONE_SAVE, 5) ==
             streamed.(disk := streamed.disk.(marker := Unreadable), saves := [Marking(1)]);
  }

  /** A file that could not be handed over is gone again; a migration that was given up may still complete, unmarked. */
  lemma UnfinishedSaves(vm: Vm, disk: Disk)
    ensures var undone: seq<Move> := [SaveStep(0, Clear), SaveStep(0, Create), SaveStep(0, Undo)];
            At(vm, Born(disk, 1), undone, 3).disk == Disk(disk.marker, disk.streams - {vm.manifest.vmState})
    ensures var givenUp: seq<Move> :=
              [SaveStep(0, Clear), SaveStep(0, Create), SaveStep(0, Open), SaveStep(0, Fail), SaveStep(0, Finish)];
            At(vm, Born(disk, 1), givenUp, 5).disk ==
              Disk(disk.marker, disk.streams[vm.manifest.vmState := Complete])
  {
    var path, start := vm.manifest.vmState, Born(disk, 1);
    var undone: seq<Move> := [SaveStep(0, Clear), SaveStep(0, Create), SaveStep(0, Undo)];
    var givenUp: seq<Move> :=
      [SaveStep(0, Clear), SaveStep(0, Create), SaveStep(0, Open), SaveStep(0, Fail), SaveStep(0, Finish)];
    assert start.saves == [NotBegun];
    Prepares(vm, disk, undone);
    assert disk.streams[path := Partial] - {path} == disk.streams - {path};
    Prepares(vm, disk, givenUp);
    var partial := Disk(disk.marker, disk.streams[path := Partial]);
    assert partial.streams[path := Partial] == partial.streams;
    assert At(vm, start, givenUp, 3) == Life(partial, Some(1), 2, [Streaming(1)], Uncommitted, 0);
    assert At(vm, start, givenUp, 4) == Life(partial, Some(1), 2, [Runaway(1)], Uncommitted, 0);
    assert partial.streams[path := Complete] == disk.streams[path := Complete];
  }

  /** The first two steps of a save. */
  lemma Prepares(vm: Vm, disk: Disk, moves: seq<Move>)
    requires |moves| >= 2 && moves[0] == SaveStep(0, Clear) && moves[1] == SaveStep(0, Create)
    ensures At(vm, Born(disk, 1), moves, 2) ==
              Life(Disk(disk.marker, disk.streams[vm.manifest.vmState := Partial]), Some(0), 1, [Prepared],
                   Uncommitted, 0)
  {
    var start, path := Born(disk, 1), vm.manifest.vmState;
    var cleared := Disk(disk.marker, disk.streams - {path});
    assert start.saves == [NotBegun];
    assert At(vm, start, moves, 1) == Life(cleared, None, 0, [Removed], Uncommitted, 0);
    assert cleared.streams[path := Partial] == disk.streams[path := Partial];
  }

  /** A commit by itself, and on any disk: the stream that was resumed and the marker are gone, nothing else. */
  lemma UndisturbedCommit(vm: Vm, disk: Disk)
    requires vm.resume.Some?
    ensures At(vm, Born(disk, 0), [DropStream, DropMarker], 2).disk ==
              Disk(NoMarker, disk.streams - {vm.resume.value.path})
  {
    var moves: seq<Move> := [DropStream, DropMarker];
    assert At(vm, Born(disk, 0), moves, 1).commit.StreamDropped?;
    assert At(vm, Born(disk, 0), moves, 1).disk == Disk(disk.marker, disk.streams - {vm.resume.value.path});
  }

  // When is a crash harmless?

  predicate PartialThere(vm: Vm, disk: Disk) {
    vm.Path() in disk.streams && disk.streams[vm.Path()].Partial?
  }

  /**
   The two steps after which a crash is not: the stream of a saved state is emptied, or a marker is written
   over a stream that is not complete.
   */
  predicate Hazard(vm: Vm, l: Life, mv: Move) {
    && Enabled(vm, l, mv) && mv.SaveStep?
    && (|| ((mv.step.Create? || mv.step.Open?) && SavedHere(vm.manifest, l.disk))
        || (mv.step.Write? && PartialThere(vm, l.disk)))
  }

  /** From a safe disk a step leads to a safe one if and only if it is no hazard. */
  lemma StepSafeIff(vm: Vm, l: Life, mv: Move)
    requires vm.Valid() && Safe(vm.manifest, l.disk) && Enabled(vm, l, mv)
    ensures Safe(vm.manifest, Next(vm, l, mv).disk) <==> !Hazard(vm, l, mv)
  {
  }

  /** The disk is safe at the start and after each of the first `n` moves. */
  predicate SafeThroughout(vm: Vm, l: Life, moves: seq<Move>, n: nat)
    requires n <= |moves|
  {
    Safe(vm.manifest, At(vm, l, moves, n).disk) && (n > 0 ==> SafeThroughout(vm, l, moves, n - 1))
  }

  /** One of the first `n` moves is a hazard. */
  predicate Exposes(vm: Vm, l: Life, moves: seq<Move>, n: nat)
    requires n <= |moves|
  {
    n > 0 && (Exposes(vm, l, moves, n - 1) || Hazard(vm, At(vm, l, moves, n - 1), moves[n - 1]))
  }

  lemma SafeNext(vm: Vm, l: Life, moves: seq<Move>, n: nat)
    requires vm.Valid() && n < |moves| && Safe(vm.manifest, At(vm, l, moves, n).disk)
    ensures Safe(vm.manifest, At(vm, l, moves, n + 1).disk) <==> !Hazard(vm, At(vm, l, moves, n), moves[n])
  {
    if Enabled(vm, At(vm, l, moves, n), moves[n]) {
      StepSafeIff(vm, At(vm, l, moves, n), moves[n]);
    }
  }

  /**
   However the saves of a VM and its commit interleave: a crash is harmless at every point of the run if and
   only if no step of it empties the stream of a saved state, or writes a marker over a partial stream.
   */
  lemma {:induction false} SafeThroughoutIff(vm: Vm, l: Life, moves: seq<Move>, n: nat)
    requires vm.Valid() && Safe(vm.manifest, l.disk) && n <= |moves|
    ensures SafeThroughout(vm, l, moves, n) <==> !Exposes(vm, l, moves, n)
  {
    if n > 0 {
      SafeThroughoutIff(vm, l, moves, n - 1);
      if SafeThroughout(vm, l, moves, n - 1) {
        SafeNext(vm, l, moves, n - 1);
      }
    }
  }

  // Whose file is under the path.

  predicate HasFile(p: Phase) {
    p.Streaming? || p.Runaway? || p.Streamed? || p.Marking?
  }

  /** Contents that are still there are complete once their migration is. */
  ghost predicate FilesFit(vm: Vm, l: Life) {
    && (l.contents.Some? ==> l.contents.value < l.next)
    && (forall i :: 0 <= i < |l.saves| && HasFile(l.saves[i]) ==> l.saves[i].file < l.next)
    && (forall i :: 0 <= i < |l.saves| && (l.saves[i].Streamed? || l.saves[i].Marking?)
                    && l.contents == Some(l.saves[i].file) ==>
                      vm.Path() in l.disk.streams && l.disk.streams[vm.Path()].Complete?)
  }

  lemma FilesStep(vm: Vm, l: Life, mv: Move)
    requires FilesFit(vm, l) && Enabled(vm, l, mv)
    ensures FilesFit(vm, Next(vm, l, mv))
  {
  }

  /** A marker over a partial stream is one whose own contents another save has replaced since. */
  lemma MarkedPartialIsReplaced(vm: Vm, l: Life, i: nat)
    requires FilesFit(vm, l) && i < |l.saves| && l.saves[i].Marking? && PartialThere(vm, l.disk)
    ensures l.contents != Some(l.saves[i].file)
  {
  }

  // What a caller can see beforehand.

  /** A save begins while another is under way, after a marker was written, or before a resume is committed. */
  ghost predicate Rash(vm: Vm, l: Life, mv: Move) {
    && Enabled(vm, l, mv) && mv.SaveStep? && mv.step.Clear?
    && (|| (exists j :: 0 <= j < |l.saves| && UnderWay(l.saves[j]))
        || l.marks > 0 || (vm.resume.Some? && !l.commit.Committed?))
  }

  predicate MaySave(vm: Vm, l: Life) {
    l.marks == 0 && (vm.resume.None? || l.commit.Committed?)
  }

  /** One save at a time, on a disk without a saved marker, over contents of its own. */
  ghost predicate Solo(vm: Vm, l: Life) {
    && (MaySave(vm, l) ==> !Saved(l.disk))
    && (forall i, j :: 0 <= i < |l.saves| && 0 <= j < |l.saves| && UnderWay(l.saves[i]) && UnderWay(l.saves[j]) ==>
                         i == j)
    && (forall i :: 0 <= i < |l.saves| && UnderWay(l.saves[i]) ==>
          MaySave(vm, l) && (HasFile(l.saves[i]) ==> l.contents == Some(l.saves[i].file)))
  }

  lemma SoloStep(vm: Vm, l: Life, mv: Move)
    requires Solo(vm, l) && Enabled(vm, l, mv) && !Rash(vm, l, mv)
    ensures Solo(vm, Next(vm, l, mv))
  {
  }

  lemma SoloIsHarmless(vm: Vm, l: Life, mv: Move)
    requires FilesFit(vm, l) && Solo(vm, l)
    ensures !Hazard(vm, l, mv)
  {
  }

  /** One of the first `n` moves is rash. */
  ghost predicate RashRun(vm: Vm, l: Life, moves: seq<Move>, n: nat)
    requires n <= |moves|
  {
    n > 0 && (RashRun(vm, l, moves, n - 1) || Rash(vm, At(vm, l, moves, n - 1), moves[n - 1]))
  }

  ghost predicate Calm(vm: Vm, l: Life) {
    FilesFit(vm, l) && Solo(vm, l)
  }

  lemma CalmStep(vm: Vm, l: Life, mv: Move)
    requires Calm(vm, l) && !Rash(vm, l, mv)
    ensures !Hazard(vm, l, mv)
    ensures Calm(vm, if Enabled(vm, l, mv) then Next(vm, l, mv) else l)
  {
    SoloIsHarmless(vm, l, mv);
    if Enabled(vm, l, mv) {
      FilesStep(vm, l, mv);
      SoloStep(vm, l, mv);
    }
  }

  lemma {:induction false} CalmRun(vm: Vm, l: Life, moves: seq<Move>, n: nat)
    requires Calm(vm, l) && n <= |moves| && !RashRun(vm, l, moves, n)
    ensures Calm(vm, At(vm, l, moves, n)) && !Exposes(vm, l, moves, n)
  {
    if n > 0 {
      CalmRun(vm, l, moves, n - 1);
      CalmStep(vm, At(vm, l, moves, n - 1), moves[n - 1]);
    }
  }

  /** Saves one at a time, none after a marker, and after a resume only once it is committed: no crash does harm. */
  lemma CalmIsSafe(vm: Vm, disk: Disk, saves: nat, moves: seq<Move>)
    requires vm.Valid() && Safe(vm.manifest, disk) && (vm.resume.None? ==> !Saved(disk))
    requires !RashRun(vm, Born(disk, saves), moves, |moves|)
    ensures SafeThroughout(vm, Born(disk, saves), moves, |moves|)
  {
    CalmLife(vm, disk, saves, moves);
    SafeThroughoutIff(vm, Born(disk, saves), moves, |moves|);
  }

  lemma CalmLife(vm: Vm, disk: Disk, saves: nat, moves: seq<Move>)
    requires vm.resume.None? ==> !Saved(disk)
    ensures !RashRun(vm, Born(disk, saves), moves, |moves|) ==> !Exposes(vm, Born(disk, saves), moves, |moves|)
  {
    var start := Born(disk, saves);
    assert forall i :: 0 <= i < |start.saves| ==> start.saves[i].NotBegun?;
    if !RashRun(vm, start, moves, |moves|) {
      CalmRun(vm, start, moves, |moves|);
    }
  }

  // Which schedules are calm, whatever happens in them.

  predicate Begins(mv: Move) {
    mv.SaveStep? && mv.step.Clear?
  }

  /** Before its `n`-th move a schedule drops stream and marker of what was resumed. */
  ghost predicate CommitsBefore(moves: seq<Move>, n: nat) {
    n <= |moves| && exists a, b :: 0 <= a < b < n && moves[a].DropStream? && moves[b].DropMarker?
  }

  /** One save begins at most, and after a resume only behind the commit. */
  ghost predicate Orderly(resumed: bool, moves: seq<Move>) {
    forall k :: 0 <= k < |moves| && Begins(moves[k]) ==>
                  (forall j :: 0 <= j < k ==> !Begins(moves[j])) && (resumed ==> CommitsBefore(moves, k))
  }

  lemma {:induction false} NoneBegun(vm: Vm, disk: Disk, saves: nat, moves: seq<Move>, n: nat)
    requires n <= |moves| && forall j :: 0 <= j < n ==> !Begins(moves[j])
    ensures var l := At(vm, Born(disk, saves), moves, n);
            l.marks == 0 && forall i :: 0 <= i < |l.saves| ==> l.saves[i].NotBegun?
  {
    if n > 0 {
      NoneBegun(vm, disk, saves, moves, n - 1);
    }
  }

  lemma {:induction false} StreamIsDropped(vm: Vm, l: Life, moves: seq<Move>, a: nat, n: nat)
    requires vm.resume.Some? && a < n <= |moves| && moves[a].DropStream?
    ensures !At(vm, l, moves, n).commit.Uncommitted?
  {
    if a < n - 1 {
      StreamIsDropped(vm, l, moves, a, n - 1);
    }
  }

  lemma {:induction false} MarkerIsDropped(vm: Vm, l: Life, moves: seq<Move>, a: nat, b: nat, n: nat)
    requires vm.resume.Some? && a < b < n <= |moves| && moves[a].DropStream? && moves[b].DropMarker?
    ensures At(vm, l, moves, n).commit.Committed?
  {
    StreamIsDropped(vm, l, moves, a, n - 1);
    if b < n - 1 {
      MarkerIsDropped(vm, l, moves, a, b, n - 1);
    }
  }

  lemma {:induction false} OrderlyIsCalm(vm: Vm, disk: Disk, saves: nat, moves: seq<Move>, n: nat)
    requires Orderly(vm.resume.Some?, moves) && n <= |moves|
    ensures !RashRun(vm, Born(disk, saves), moves, n)
  {
    if n > 0 {
      OrderlyIsCalm(vm, disk, saves, moves, n - 1);
      if Begins(moves[n - 1]) {
        NoneBegun(vm, disk, saves, moves, n - 1);
        if vm.resume.Some? {
          var a, b :| 0 <= a < b < n - 1 && moves[a].DropStream? && moves[b].DropMarker?;
          MarkerIsDropped(vm, Born(disk, saves), moves, a, b, n - 1);
        }
      }
    }
  }

  /** The first save's migration completes, a second save replaces the stream and fails, the first writes its marker. */
  const OVERLAP: seq<Move> :=
    [SaveStep(0, Clear), SaveStep(0, Create), SaveStep(0, Open), SaveStep(0, Finish),
     SaveStep(1, Clear), SaveStep(1, Create), SaveStep(1, Fail),
     SaveStep(0, Truncate), SaveStep(0, Write)]

  const EMPTY_DISK := Disk(NoMarker, map[])

  /** Up to the end of the first save's migration. */
  lemma OverlapStreams(vm: Vm)
    ensures At(vm, Born(EMPTY_DISK, 2), OVERLAP, 4) ==
              Life(Disk(NoMarker, map[vm.Path() := Complete]), Some(1), 2, [Streamed(1), NotBegun], Uncommitted, 0)
  {
    var start, partial := Born(EMPTY_DISK, 2), Disk(NoMarker, map[vm.Path() := Partial]);
    assert start.saves == [NotBegun, NotBegun] && EMPTY_DISK.streams - {vm.Path()} == EMPTY_DISK.streams;
    assert At(vm, start, OVERLAP, 1) == Life(EMPTY_DISK, None, 0, [Removed, NotBegun], Uncommitted, 0);
    assert At(vm, start, OVERLAP, 2) == Life(partial, Some(0), 1, [Prepared, NotBegun], Uncommitted, 0);
    assert At(vm, start, OVERLAP, 3) == Life(partial, Some(1), 2, [Streaming(1), NotBegun], Uncommitted, 0);
  }

  /** Up to the second save's failure. */
  lemma OverlapReplaces(vm: Vm)
    ensures At(vm, Born(EMPTY_DISK, 2), OVERLAP, 7) ==
              Life(Disk(NoMarker, map[vm.Path() := Partial]), Some(2), 3, [Streamed(1), Over], Uncommitted, 0)
  {
    var start, path := Born(EMPTY_DISK, 2), vm.Path();
    OverlapStreams(vm);
    assert map[path := Complete] - {path} == EMPTY_DISK.streams;
    assert At(vm, start, OVERLAP, 5) == Life(EMPTY_DISK, None, 2, [Streamed(1), Removed], Uncommitted, 0);
    assert At(vm, start, OVERLAP, 6) ==
             Life(Disk(NoMarker, map[path := Partial]), Some(2), 3, [Streamed(1), Prepared], Uncommitted, 0);
  }

  /**
   Two overlapping saves on a disk without a marker: no save began over a saved state, and yet in the end the
   marker says saved over a partial stream, which a forced resume takes.
   */
  lemma OverlappingSavesLose(vm: Vm)
    requires vm.Valid()
    ensures var start := Born(EMPTY_DISK, 2);
            var disk := At(vm, start, OVERLAP, |OVERLAP|).disk;
            && (forall k :: 0 <= k < 8 ==> !SavedHere(vm.manifest, At(vm, start, OVERLAP, k).disk))
            && SavedHere(vm.manifest, disk) && !Safe(vm.manifest, disk) && PartialThere(vm, disk)
            && ResolveResumeState(vm.manifest, disk, FORCE) == Ok(Some(MarkerFor(vm.manifest, vm.cid).state))
  {
    var start := Born(EMPTY_DISK, 2);
    OverlapReplaces(vm);
    var replaced := At(vm, start, OVERLAP, 7);
    assert At(vm, start, OVERLAP, 8) ==
             replaced.(disk := replaced.disk.(marker := Unreadable), saves := [Marking(1), Over]);
    assert At(vm, start, OVERLAP, 9).disk == Disk(MarkerFor(vm.manifest, vm.cid), map[vm.Path() := Partial]);
    forall k | 0 <= k < 8
      ensures !SavedHere(vm.manifest, At(vm, start, OVERLAP, k).disk)
    {
      NoMarkerBefore(vm, start, OVERLAP, k);
    }
  }

  lemma {:induction false} NoMarkerBefore(vm: Vm, l: Life, moves: seq<Move>, n: nat)
    requires n <= |moves| && !Saved(l.disk) && forall k :: 0 <= k < n ==> moves[k].SaveStep? && !moves[k].step.Write?
    ensures !Saved(At(vm, l, moves, n).disk)
  {
    if n > 0 {
      NoMarkerBefore(vm, l, moves, n - 1);
    }
  }

  // Launches.

  lemma StepKeepsDisk(vm: Vm, l: Life, mv: Move)
    requires vm.Valid() && Ours(vm.manifest, l.disk) && Enabled(vm, l, mv)
    ensures Ours(vm.manifest, Next(vm, l, mv).disk)
    ensures Safe(vm.manifest, l.disk) ==> Safe(vm.manifest, Next(vm, l, mv).disk) || Hazard(vm, l, mv)
  {
    if Safe(vm.manifest, l.disk) {
      StepSafeIff(vm, l, mv);
    }
  }

  datatype LaunchError = LockRefused | CidRefused(reason: CidError)

  /** The life of a VM on the disk of a state directory, up to its exit or a crash. */
  method Live(dir: StateDir, vm: Vm, saves: nat, moves: seq<Move>)
    requires dir.Valid() && vm.Valid() && vm.manifest == dir.manifest && (vm.resume.None? ==> !Saved(dir.disk))
    modifies dir`disk, dir`past
    ensures dir.Valid() && dir.disk == At(vm, Born(old(dir.disk), saves), moves, |moves|).disk
    ensures dir.Exposed() <==> old(dir.Exposed()) || Exposes(vm, Born(old(dir.disk), saves), moves, |moves|)
    ensures !RashRun(vm, Born(old(dir.disk), saves), moves, |moves|) ==> dir.Exposed() == old(dir.Exposed())
  {
    var life := Born(dir.disk, saves);
    ghost var start := life;
    for k := 0 to |moves|
      invariant life == At(vm, start, moves, k) && life.disk == dir.disk && dir.Valid()
      invariant dir.Exposed() <==> old(dir.Exposed()) || Exposes(vm, start, moves, k)
    {
      if Enabled(vm, life, moves[k]) {
        StepKeepsDisk(vm, life, moves[k]);
        life := Next(vm, life, moves[k]);
        dir.Put(life.disk);
      }
    }
    CalmLife(vm, old(dir.disk), saves, moves);
  }

  predicate PlannedPartial(disk: Disk, resume: Option<SuspendState>) {
    resume.Some? && resume.value.path in disk.streams && disk.streams[resume.value.path].Partial?
  }

  /**
   A launch from its lock to its end, with the resume state its plan found. `r` is the CID it ran under, or why
   it never ran; `rash` says that it began a save rashly.
   */
  method Launch(dir: StateDir, resume: Option<SuspendState>, checker: Option<int -> Probe>, restore: RestoreAnswers,
                saves: nat, moves: seq<Move>)
      returns (r: Result<int, LaunchError>, ghost rash: bool)
    requires dir.Valid()
    modifies dir
    ensures dir.Valid() && (old(dir.Exposed()) ==> dir.Exposed()) && (!rash ==> dir.Exposed() == old(dir.Exposed()))
    // When it is refused: by a fault, for want of the stream to resume, or for want of a context id.
    ensures dir.faults >= old(dir.faults)
    ensures r == Err(LockRefused) <==>
              dir.faults > old(dir.faults) || (resume.Some? && resume.value.path !in old(dir.disk.streams))
    ensures r.Err? && r.error.CidRefused? && resume.None? ==>
              forall c :: !Allocated(dir.manifest, checker, c)
    ensures r.Ok? && resume.None? ==> Allocated(dir.manifest, checker, r.value)
    // What it does to the disk once it runs.
    ensures r.Ok? && resume.Some? && !Restored(restore) ==> dir.disk == old(dir.disk)
    ensures r.Ok? && (resume.Some? ==> Restored(restore)) ==>
              var found := if resume.Some? then old(dir.disk) else old(dir.disk).(marker := NoMarker);
              dir.disk == At(Vm(dir.manifest, resume, r.value), Born(found, saves), moves, |moves|).disk
    ensures r.Ok? ==> dir.manifest.cidStart <= r.value <= dir.manifest.cidEnd
    ensures resume.Some? ==> && (r.Ok? ==> r.value == resume.value.cid)
                             && (r.Err? && r.error.CidRefused? ==>
                                   !(dir.manifest.cidStart <= resume.value.cid <= dir.manifest.cidEnd))
    // A restore reads a partial stream exactly when the planned stream is partial at the time of the lock.
    ensures dir.restoredPartial <==> old(dir.restoredPartial) || (r.Ok? && PlannedPartial(old(dir.disk), resume))
    // A resume that neither commits nor saves leaves the disk alone, however it ends.
    ensures resume.Some? && moves == [] ==> dir.disk == old(dir.disk) && !rash
    ensures Orderly(resume.Some?, moves) ==> !rash
  {
    rash := false;
    var locked := dir.AcquireRuntimeLock(resume);
    if !locked {
      return Err(LockRefused), false;
    }
    var cid := AcquireCid(dir.manifest, resume, checker);
    if cid.Err? {
      return Err(CidRefused(cid.error)), false;
    }
    r := Ok(cid.value);
    if resume.Some? {
      dir.restoredPartial := dir.restoredPartial || dir.disk.streams[resume.value.path].Partial?;
      var restored := RestoreFromFile(restore);
      if !restored {
        return;
      }
    }
    var vm := Vm(dir.manifest, resume, cid.value);
    rash := RashRun(vm, Born(dir.disk, saves), moves, |moves|);
    if Orderly(resume.Some?, moves) {
      OrderlyIsCalm(vm, dir.disk, saves, moves, |moves|);
    }
    Live(dir, vm, saves, moves);
  }

  /** Plans are made before the lock is taken, so a plan may be carried out much later than it was made. */
  datatype Event =
    | Plan(mode: string)
    | Go(plan: nat, checker: Option<int -> Probe>, restore: RestoreAnswers, saves: nat, moves: seq<Move>)

  /**
   Every sequence of plans and launches, with saves that interleave in any way and crashes anywhere. `stale` says
   that some launch went by a plan that the disk no longer supported when it took the lock, `rash` that some
   launch began a save while another was under way, after a marker, or before committing what it had resumed.
   */
  method Launches(dir: StateDir, events: seq<Event>) returns (ghost stale: bool, ghost rash: bool)
    requires dir.Valid() && !dir.Exposed() && !dir.restoredPartial
    modifies dir
    ensures dir.Valid()
    ensures !dir.Exposed() ==> Safe(dir.manifest, dir.disk)
    ensures !dir.Exposed() && !stale ==> !dir.restoredPartial
    ensures !rash ==> !dir.Exposed()
    ensures rash ==> exists i :: 0 <= i < |events| && events[i].Go? && !Orderly(true, events[i].moves)
  {
    stale, rash := false, false;
    var plans: seq<(string, Option<SuspendState>)> := [];
    for i := 0 to |events|
      invariant dir.Valid()
      invariant !dir.Exposed() && !stale ==> !dir.restoredPartial
      invariant !rash ==> !dir.Exposed()
      invariant rash ==> exists j :: 0 <= j < i && events[j].Go? && !Orderly(true, events[j].moves)
    {
      match events[i]
      case Plan(mode) =>
        var plan := ResolveResumeState(dir.manifest, dir.disk, mode);
        if plan.Ok? {
          plans := plans + [(mode, plan.value)];
        }
      case Go(k, checker, restore, saves, moves) =>
        if k < |plans| {
          ghost var now := ResolveResumeState(dir.manifest, dir.disk, plans[k].0);
          stale := stale || now != Ok(plans[k].1);
          if now == Ok(plans[k].1) && plans[k].1.Some? {
            ResolvedStreamIsComplete(dir.manifest, dir.disk, plans[k].0);
          }
          var ran, wasRash := Launch(dir, plans[k].1, checker, restore, saves, moves);
          rash := rash || wasRash;
        }
    }
  }

  /**
   From a resumable disk, any number of resumes that end before their commit: the disk never changes,
   every one of them runs under the saved CID, and none is refused for it.
   */
  method UncommittedResumes(dir: StateDir, modes: seq<string>, restore: RestoreAnswers)
      returns (results: seq<Result<int, LaunchError>>)
    requires dir.Valid() && Resumable(dir.manifest, dir.disk)
    requires forall i :: 0 <= i < |modes| ==> modes[i] in {AUTO, FORCE}
    modifies dir
    ensures dir.disk == old(dir.disk) && |results| == |modes| && dir.faults >= old(dir.faults)
    ensures dir.faults == old(dir.faults) ==>
              forall i :: 0 <= i < |results| ==> results[i] == Ok(dir.disk.marker.state.cid)
    ensures forall i :: 0 <= i < |results| ==>
                          results[i] == Ok(dir.disk.marker.state.cid) || results[i] == Err(LockRefused)
    ensures dir.manifest.cidStart <= dir.disk.marker.state.cid <= dir.manifest.cidEnd
    ensures forall mode :: mode in {AUTO, FORCE} ==>
              var found := ResolveResumeState(dir.manifest, dir.disk, mode); found.Ok? && found.value.Some?
  {
    results := [];
    for i := 0 to |modes|
      invariant dir.Valid() && dir.disk == old(dir.disk) && |results| == i && dir.faults >= old(dir.faults)
      invariant dir.faults == old(dir.faults) ==>
                  forall j :: 0 <= j < |results| ==> results[j] == Ok(dir.disk.marker.state.cid)
      invariant forall j :: 0 <= j < |results| ==>
                              results[j] == Ok(dir.disk.marker.state.cid) || results[j] == Err(LockRefused)
    {
      ResolveModes(dir.manifest, dir.disk);
      var plan := ResolveResumeState(dir.manifest, dir.disk, modes[i]);
      assert plan.value.value.cid == dir.disk.marker.state.cid;
      var ran, rash := Launch(dir, plan.value, None, restore, 0, []);
      assert ran == Ok(dir.disk.marker.state.cid) || ran == Err(LockRefused);
      results := results + [ran];
    }
  }
}
