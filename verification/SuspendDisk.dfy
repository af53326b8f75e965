/**
 Suspend and resume on disk: the saved marker, the state stream, and what a crash between any two file
 operations can leave behind (backend/qemu/internal/launch and backend/qemu/internal/qmpclient/migration.go).

 A crash is an early return: each method may stop, reporting failure, before or after each of its file
 operations, so what it promises on failure holds at every crash point.
 */
module SuspendDisk {
  import opened Wrappers

  const NO := "no"
  const AUTO := "auto"
  const FORCE := "force"
  const SAVED := "saved"
  const STATE_VERSION := "qemu-v1"
  const MIN_CID := 3

  datatype SuspendState = SuspendState(status: string, version: string, cid: int, path: string)

  datatype Marker = NoMarker | Unreadable | Marker(state: SuspendState)

  /** A stream file is partial until the migration that writes it reports completion. */
  datatype Stream = Partial | Complete

  datatype Disk = Disk(marker: Marker, streams: map<string, Stream>)

  /** What validation promises of a manifest, as far as suspending goes. */
  datatype Manifest = Manifest(vmState: string, cidStart: int, cidEnd: int) {
    predicate Valid() {
      vmState != "" && MIN_CID <= cidStart <= cidEnd
    }

    function PathOf(state: SuspendState): string {
      if state.path == "" then vmState else state.path
    }
  }

  datatype ResumeError = NoState | DecodeFailed | NotSaved | VersionMismatch | NoCid | StreamMissing

  function NormalizeResumeMode(mode: string): (r: Option<string>)
    ensures r.Some? <==> mode in {"", NO, AUTO, FORCE}
    ensures r.Some? ==> r.value == if mode == "" then NO else mode
  {
    if mode == "" || mode == NO then Some(NO)
    else if mode == AUTO || mode == FORCE then Some(mode)
    else None
  }

  /** `ReadSuspendState` and the checks of `ResolveResumeState`. */
  function ResolveResumeState(m: Manifest, disk: Disk, mode: string): (r: Result<Option<SuspendState>, ResumeError>) {
    if mode == NO then Ok(None)
    else match disk.marker
      case NoMarker => if mode == AUTO then Ok(None) else Err(NoState)
      case Unreadable => Err(DecodeFailed)
      case Marker(state) =>
        if state.status != SAVED then
          if mode == AUTO then Ok(None) else Err(NotSaved)
        else if state.version != STATE_VERSION then
          Err(VersionMismatch)
        else if state.cid <= 0 then
          if mode == AUTO then Ok(None) else Err(NoCid)
        else if m.PathOf(state) !in disk.streams then
          if mode == AUTO then Ok(None) else Err(StreamMissing)
        else
          Ok(Some(state.(path := m.PathOf(state))))
  }

  predicate Saved(disk: Disk) {
    disk.marker.Marker? && disk.marker.state.status == SAVED
  }

  /** A marker that reads saved names a stream that is absent or complete. */
  predicate Safe(m: Manifest, disk: Disk) {
    Saved(disk) && m.PathOf(disk.marker.state) in disk.streams ==> disk.streams[m.PathOf(disk.marker.state)].Complete?
  }

  /** A saved marker is one that the manifest can resume from, except for its stream. */
  predicate Ours(m: Manifest, disk: Disk) {
    Saved(disk) ==> && disk.marker.state.version == STATE_VERSION
                    && m.cidStart <= disk.marker.state.cid <= m.cidEnd
  }

  /** A saved marker over the stream the next save will write. */
  predicate SavedHere(m: Manifest, disk: Disk) {
    Saved(disk) && m.PathOf(disk.marker.state) == m.vmState
  }

  /** Exactly when does a resume get hold of a state: the same for auto and force. */
  predicate Resumable(m: Manifest, disk: Disk) {
    && Saved(disk) && disk.marker.state.version == STATE_VERSION && disk.marker.state.cid > 0
    && m.PathOf(disk.marker.state) in disk.streams
  }

  // What a save does to the files, step by step.

  function Cleared(m: Manifest, disk: Disk): Disk {
    disk.(streams := disk.streams - {m.vmState})
  }

  function Emptied(m: Manifest, disk: Disk): Disk {
    disk.(streams := disk.streams[m.vmState := Partial])
  }

  function Filled(m: Manifest, disk: Disk): Disk {
    disk.(streams := disk.streams[m.vmState := Complete])
  }

  /** The marker a successful save leaves. */
  function MarkerFor(m: Manifest, cid: int): Marker {
    Marker(SuspendState(SAVED, STATE_VERSION, cid, m.vmState))
  }

  /** What the three modes come to, in terms of one condition on the disk. */
  lemma ResolveModes(m: Manifest, disk: Disk)
    ensures var auto, force := ResolveResumeState(m, disk, AUTO), ResolveResumeState(m, disk, FORCE);
            && (force.Ok? <==> Resumable(m, disk)) && force != Ok(None)
            && (Resumable(m, disk) ==> auto == force)
            && (!Resumable(m, disk) ==>
                  if disk.marker.Unreadable? || (Saved(disk) && disk.marker.state.version != STATE_VERSION)
                  then auto == force else auto == Ok(None))
    ensures ResolveResumeState(m, disk, NO) == Ok(None)
  {
  }

  /** What a forced resume reports, and the paths on which an automatic one says nothing and boots afresh. */
  lemma ResumeErrors(m: Manifest, disk: Disk)
    ensures var force := ResolveResumeState(m, disk, "force");
            && (force == Err(NoState) <==> disk.marker.NoMarker?)
            && (force == Err(DecodeFailed) <==> disk.marker.Unreadable?)
            && (force == Err(NotSaved) <==> disk.marker.Marker? && disk.marker.state.status != "saved")
            && (force.Ok? || force.error in {VersionMismatch, NoCid, StreamMissing} ==>
                  disk.marker.Marker? && disk.marker.state.status == "saved")
            && (force.Ok? || force.error in {NoCid, StreamMissing} ==> disk.marker.state.version == "qemu-v1")
            && (force == Err(VersionMismatch) ==> disk.marker.state.version != "qemu-v1")
            && (force.Ok? || force.error == StreamMissing ==> disk.marker.state.cid > 0)
            && (force == Err(NoCid) ==> disk.marker.state.cid <= 0)
            && (force == Err(StreamMissing) ==>
                  var path := disk.marker.state.path; (if path == "" then m.vmState else path) !in disk.streams)
    ensures var auto, force := ResolveResumeState(m, disk, "auto"), ResolveResumeState(m, disk, "force");
            auto == Ok(None) <==> force.Err? && force.error in {NoState, NotSaved, NoCid, StreamMissing}
  {
  }

  /** On a safe disk no mode ever yields a partial stream; of a resumable disk, only a safe one has that property. */
  lemma ResolvedStreamIsComplete(m: Manifest, disk: Disk, mode: string)
    requires ResolveResumeState(m, disk, mode).Ok? && ResolveResumeState(m, disk, mode).value.Some?
    ensures var state := ResolveResumeState(m, disk, mode).value.value;
            && Resumable(m, disk) && state == disk.marker.state.(path := m.PathOf(disk.marker.state))
            && state.path in disk.streams && (disk.streams[state.path].Complete? <==> Safe(m, disk))
  {
  }

  // Waiting for a migration.

  /** One turn of the poll loop: what `query-migrate` answers, and whether the context is found done after it. */
  datatype Poll = QueryFailed | Status(status: string, expired: bool)

  /** `Cut`: the polls ran out, for the process was stopped in the wait. */
  datatype Waited = Completed | Ended(status: string) | QueryError | TimedOut(last: string) | Cut

  /** The last status that said anything among the first `n` polls. */
  function LastStatus(polls: seq<Poll>, n: nat): string
    requires n <= |polls|
  {
    if n == 0 then ""
    else if polls[n - 1].Status? && polls[n - 1].status != "" then polls[n - 1].status
    else LastStatus(polls, n - 1)
  }

  ghost predicate Silent(polls: seq<Poll>, a: nat, n: nat) {
    forall j :: a <= j < n <= |polls| && polls[j].Status? ==> polls[j].status == ""
  }

  /** Poll `j` said `last`, and none after it among the first `n` said anything. */
  ghost predicate SaidAt(polls: seq<Poll>, n: nat, j: nat, last: string) {
    j < n <= |polls| && polls[j].Status? && polls[j].status == last != "" && Silent(polls, j + 1, n)
  }

  ghost predicate Said(polls: seq<Poll>, n: nat, last: string) {
    exists j :: SaidAt(polls, n, j, last)
  }

  lemma {:induction false} LastStatusSaid(polls: seq<Poll>, n: nat)
    requires n <= |polls|
    ensures var last := LastStatus(polls, n);
            if last == "" then Silent(polls, 0, n) else Said(polls, n, last)
  {
    if n > 0 {
      LastStatusSaid(polls, n - 1);
      var last := LastStatus(polls, n);
      if polls[n - 1].Status? && polls[n - 1].status != "" {
        assert SaidAt(polls, n, n - 1, last);
      } else if last != "" {
        var j :| SaidAt(polls, n - 1, j, last);
        assert SaidAt(polls, n, j, last);
      }
    }
  }

  /** Answers and a context that keep the loop going. */
  ghost predicate GoesOn(p: Poll) {
    p.Status? && p.status != "completed" && p.status != "failed" && p.status != "cancelled" && !p.expired
  }

  /** The migration is seen to complete by poll `k`, and nothing before it ended the wait. */
  ghost predicate CompletesAt(polls: seq<Poll>, k: nat) {
    k < |polls| && polls[k].Status? && polls[k].status == "completed" && forall j :: 0 <= j < k ==> GoesOn(polls[j])
  }

  /** `n` polls keep the wait going, and the one after them, if any, decides. */
  method WaitForMigration(polls: seq<Poll>) returns (r: Waited, n: nat)
    ensures n <= |polls| && (forall j :: 0 <= j < n ==> GoesOn(polls[j])) && (n < |polls| ==> !GoesOn(polls[n]))
    ensures r == Cut <==> n == |polls|
    ensures r == QueryError <==> n < |polls| && polls[n].QueryFailed?
    ensures r == Completed <==> CompletesAt(polls, n)
    ensures forall s :: r == Ended(s) <==>
                          n < |polls| && polls[n].Status? && polls[n].status == s && s in {"failed", "cancelled"}
    ensures r.TimedOut? <==>
              && n < |polls| && polls[n].Status? && polls[n].expired
              && polls[n].status !in {"completed", "failed", "cancelled"}
    // It reports the last status that said anything.
    ensures r.TimedOut? ==> (r.last == "unknown" && Silent(polls, 0, n + 1)) || Said(polls, n + 1, r.last)
    // No other poll completes it.
    ensures r == Completed <==> exists k :: CompletesAt(polls, k)
  {
    var last := "";
    n := 0;
    while n < |polls|
      invariant n <= |polls| && forall j :: 0 <= j < n ==> GoesOn(polls[j])
      invariant last == LastStatus(polls, n)
    {
      if polls[n].QueryFailed? {
        return QueryError, n;
      }
      var status := polls[n].status;
      if status != "" {
        last := status;
      }
      assert last == LastStatus(polls, n + 1);
      if status == COMPLETED {
        return Completed, n;
      }
      if status == "failed" || status == "cancelled" {
        return Ended(status), n;
      }
      if polls[n].expired {
        LastStatusSaid(polls, n + 1);
        return TimedOut(if last == "" then "unknown" else last), n;
      }
      n := n + 1;
    }
    r := Cut;
  }

  const COMPLETED := "completed"

  /** What QEMU's monitor answers to the commands of one save; no status is a failed query. */
  datatype SaveAnswers = SaveAnswers(status: Option<string>, stops: bool, migrates: bool, polls: seq<Poll>)

  /** The machine is paused, or is running and can be stopped, and QEMU takes the migration. */
  ghost predicate Begun(a: SaveAnswers) {
    (a.status == Some("paused") || (a.status == Some("running") && a.stops)) && a.migrates
  }

  ghost predicate Streamed(a: SaveAnswers) {
    Begun(a) && exists k :: CompletesAt(a.polls, k)
  }

  /** What it answers to those of a restore. */
  datatype RestoreAnswers = RestoreAnswers(incoming: bool, polls: seq<Poll>, continues: bool)

  ghost predicate Restored(a: RestoreAnswers) {
    a.incoming && a.continues && exists k :: CompletesAt(a.polls, k)
  }

  method RestoreFromFile(a: RestoreAnswers) returns (ok: bool)
    ensures ok <==> a.incoming && a.continues && exists k :: CompletesAt(a.polls, k)
  {
    if !a.incoming {
      return false;
    }
    var waited, n := WaitForMigration(a.polls);
    ok := waited.Completed? && a.continues;
  }

  // Context ids.

  datatype Probe = Free | Taken | Broken

  datatype CidError = ProbeFailed | NoneFree | OutsideRange

  /** The first context id of the range that is free, every one before it being taken; without a probe, the first. */
  ghost predicate Allocated(m: Manifest, checker: Option<int -> Probe>, cid: int) {
    && m.cidStart <= cid <= m.cidEnd
    && if checker.None? then cid == m.cidStart
       else checker.value(cid).Free? && forall c :: m.cidStart <= c < cid ==> checker.value(c).Taken?
  }

  /** `allocateCID`: the smallest free id, looking no further than the first probe that fails. */
  method AllocateCid(m: Manifest, checker: Option<int -> Probe>) returns (r: Result<int, CidError>)
    ensures r.Ok? ==> && m.cidStart <= r.value <= m.cidEnd
                      && (checker.Some? ==> && checker.value(r.value).Free?
                                            && forall c :: m.cidStart <= c < r.value ==> checker.value(c).Taken?)
                      && (checker.None? ==> r.value == m.cidStart)
    ensures r == Err(NoneFree) <==>
              || m.cidStart > m.cidEnd
              || (checker.Some? && forall c :: m.cidStart <= c <= m.cidEnd ==> checker.value(c).Taken?)
    ensures r == Err(ProbeFailed) ==>
              checker.Some? && exists c :: && m.cidStart <= c <= m.cidEnd && checker.value(c).Broken?
                                           && forall b :: m.cidStart <= b < c ==> checker.value(b).Taken?
    ensures r != Err(OutsideRange)
    ensures if r.Ok? then Allocated(m, checker, r.value) else forall c :: !Allocated(m, checker, c)
  {
    var cid := m.cidStart;
    while cid <= m.cidEnd
      invariant m.cidStart <= cid
      invariant cid <= m.cidEnd + 1 || cid == m.cidStart
      invariant cid > m.cidStart ==> checker.Some?
      invariant checker.Some? ==> forall c :: m.cidStart <= c < cid ==> checker.value(c).Taken?
      decreases m.cidEnd - cid
    {
      if checker.None? {
        return Ok(cid);
      }
      match checker.value(cid)
      case Broken => return Err(ProbeFailed);
      case Free => return Ok(cid);
      case Taken =>
      cid := cid + 1;
    }
    r := Err(NoneFree);
  }

  /** `AcquireCID`: a resume takes the saved id or nothing, whatever the host's probes say. */
  method AcquireCid(m: Manifest, state: Option<SuspendState>, checker: Option<int -> Probe>)
      returns (r: Result<int, CidError>)
    ensures r.Ok? ==> m.cidStart <= r.value <= m.cidEnd
    ensures state.Some? ==> (r == Ok(state.value.cid) <==> m.cidStart <= state.value.cid <= m.cidEnd)
    ensures state.Some? ==> r == Ok(state.value.cid) || r == Err(OutsideRange)
    ensures r == Err(OutsideRange) ==> state.Some?
    ensures state.None? ==>
              if r.Ok? then Allocated(m, checker, r.value) else forall c :: !Allocated(m, checker, c)
  {
    if state.None? {
      r := AllocateCid(m, checker);
    } else if state.value.cid < m.cidStart || state.value.cid > m.cidEnd {
      r := Err(OutsideRange);
    } else {
      r := Ok(state.value.cid);
    }
  }

  /**
   A plan resolved before the lock is taken can outlive its stream: here another launch has meanwhile
   committed the same state and crashed in its own save, on a disk that is safe throughout.
   */
  lemma StalePlanMeetsPartialStream(m: Manifest, cid: int)
    requires m.Valid() && cid > 0
    ensures var saved := SuspendState(SAVED, STATE_VERSION, cid, m.vmState);
            var planned := Disk(Marker(saved), map[m.vmState := Complete]);
            var locked := Disk(NoMarker, (planned.streams - {m.vmState})[m.vmState := Partial]);
            && ResolveResumeState(m, planned, FORCE) == Ok(Some(saved))
            && Safe(m, planned) && Safe(m, locked)
            && saved.path in locked.streams && locked.streams[saved.path].Partial?
  {
  }

  ghost predicate AllSafe(m: Manifest, past: seq<Disk>) {
    forall k :: 0 <= k < |past| ==> Safe(m, past[k])
  }

  lemma AllSafeMore(m: Manifest, past: seq<Disk>, d: Disk)
    ensures AllSafe(m, past + [d]) <==> AllSafe(m, past) && Safe(m, d)
  {
    var more := past + [d];
    assert more[|past|] == d && forall k :: 0 <= k < |past| ==> more[k] == past[k];
  }

  class StateDir {
    const manifest: Manifest
    var disk: Disk

    // Every state the disk has been in, the present one last: what a crash would have left.
    ghost var past: seq<Disk>
    // A restore was begun from a stream that no completed migration wrote.
    ghost var restoredPartial: bool
    // File operations that failed, or before which the process was stopped.
    ghost var faults: nat

    ghost predicate Valid() reads this {
      manifest.Valid() && Recorded() && Ours(manifest, disk)
    }

    ghost predicate Recorded() reads this {
      past != [] && past[|past| - 1] == disk
    }

    /** At some point a crash would have left a saved marker over a partial stream. */
    ghost predicate Exposed() reads this {
      !AllSafe(manifest, past)
    }

    constructor (m: Manifest)
      requires m.Valid()
      ensures Valid() && manifest == m && disk == Disk(NoMarker, map[]) && !Exposed() && !restoredPartial
    {
      manifest := m;
      disk := Disk(NoMarker, map[]);
      past, restoredPartial, faults := [Disk(NoMarker, map[])], false, 0;
    }

    /** One file operation. */
    method Put(d: Disk)
      modifies this`disk, this`past
      ensures disk == d && past == old(past) + [d] && Recorded()
      ensures Exposed() <==> old(Exposed()) || !Safe(manifest, d)
    {
      AllSafeMore(manifest, past, d);
      disk, past := d, past + [d];
    }

    /** Does something outside make the next step fail? */
    method Chance() returns (fails: bool)
      modifies this`faults
      ensures faults >= old(faults) && (fails <==> faults > old(faults))
    {
      fails := *;
      if fails {
        faults := faults + 1;
      }
    }

    /**
     `PrepareVMStateFile`: remove the old stream, then create an empty one, which is removed again, if that works,
     when it cannot be handed to QEMU's user.
     */
    method PrepareVMStateFile() returns (ok: bool)
      requires Recorded()
      modifies this`disk, this`past, this`faults
      ensures Recorded()
      ensures faults >= old(faults) && (ok <==> faults == old(faults))
      ensures disk.marker == old(disk.marker)
      ensures ok ==> disk.streams == old(disk.streams)[manifest.vmState := Partial]
      ensures !ok ==> disk.streams in {old(disk.streams), old(disk.streams) - {manifest.vmState},
                                       old(disk.streams)[manifest.vmState := Partial]}
      ensures Exposed() ==> old(Exposed()) || SavedHere(manifest, old(disk))
      ensures old(Exposed()) || (ok && SavedHere(manifest, old(disk))) ==> Exposed()
      // The old stream is gone before the new one is created.
      ensures ok ==> past == old(past) + [Disk(disk.marker, old(disk.streams) - {manifest.vmState}), disk]
      ensures past == old(past) || (|past| > |old(past)| && manifest.vmState !in past[|old(past)|].streams)
      // From here on a crash is harmless exactly when no saved marker speaks of this stream.
      ensures ok && Safe(manifest, old(disk)) ==> (Safe(manifest, disk) <==> !SavedHere(manifest, old(disk)))
    {
      var fails := Chance();
      if fails {
        return false;
      }
      Put(Cleared(manifest, disk));
      fails := Chance();
      if fails {
        return false;
      }
      Put(Emptied(manifest, disk));
      assert disk.streams == old(disk.streams)[manifest.vmState := Partial];
      fails := Chance();
      ok := !fails;
      if fails {
        fails := Chance();
        if !fails {
          Put(Cleared(manifest, disk));
          assert disk.streams == old(disk.streams) - {manifest.vmState};
        }
      }
    }

    /**
     `SaveToFile`: QEMU fills the stream; only a migration that is seen to complete is a success. One that was
     begun and did not fail may still complete unseen.
     */
    method SaveToFile(a: SaveAnswers) returns (ok: bool)
      requires Recorded() && manifest.vmState in disk.streams && disk.streams[manifest.vmState].Partial?
      modifies this`disk, this`past
      ensures Recorded() && Exposed() == old(Exposed())
      ensures ok <==> && (a.status == Some("paused") || (a.status == Some("running") && a.stops)) && a.migrates
                      && exists k :: CompletesAt(a.polls, k)
      ensures disk.marker == old(disk.marker)
      ensures ok ==> disk.streams == old(disk.streams)[manifest.vmState := Complete]
      ensures !ok && disk != old(disk) ==>
                Begun(a) && disk.streams == old(disk.streams)[manifest.vmState := Complete]
    {
      if a.status.None? || (a.status.value != "paused" && a.status.value != "running") {
        return false;
      }
      if (a.status.value == "running" && !a.stops) || !a.migrates {
        return false;
      }
      var waited, n := WaitForMigration(a.polls);
      ok := waited.Completed?;
      var finishes: bool := *;
      if ok || (!waited.Ended? && finishes) {
        Put(Filled(manifest, disk));
      }
    }

    /** `WriteSuspendStateData`: truncating the file comes before writing it. */
    method WriteSuspendState(state: SuspendState) returns (ok: bool)
      requires Recorded()
      modifies this`disk, this`past, this`faults
      ensures Recorded()
      ensures faults >= old(faults) && (ok <==> faults == old(faults))
      ensures disk.streams == old(disk.streams)
      ensures Exposed() ==> old(Exposed()) || !Safe(manifest, old(disk).(marker := Marker(state)))
      ensures old(Exposed()) ==> Exposed()
      ensures disk.marker in {old(disk.marker), Unreadable, Marker(state)}
      ensures ok ==> disk.marker == Marker(state)
      ensures ok ==> past == old(past) + [Disk(Unreadable, disk.streams), disk]
    {
      var fails := Chance();
      if fails {
        return false;
      }
      Put(disk.(marker := Unreadable));
      fails := Chance();
      if fails {
        return false;
      }
      Put(disk.(marker := Marker(state)));
      fails := Chance();
      ok := !fails;
    }

    /**
     `saveSuspendStateConnected`, with no other save between its steps. Success leaves a complete stream under
     a saved marker whatever was there before; a save stopped at any point leaves a safe disk unless it
     emptied the stream of a saved state.
     */
    method Save(cid: int, a: SaveAnswers) returns (ok: bool)
      requires Valid() && manifest.cidStart <= cid <= manifest.cidEnd
      modifies this`disk, this`past, this`faults
      // It succeeds exactly when no file operation fails and the migration is seen to complete.
      ensures ok <==> Streamed(a) && faults == old(faults)
      ensures Valid() && (Exposed() ==> old(Exposed()) || SavedHere(manifest, old(disk)))
      ensures (ok && SavedHere(manifest, old(disk))) || old(Exposed()) ==> Exposed()
      ensures ok ==> disk.streams == old(disk.streams)[manifest.vmState := Complete]
      ensures ok ==> disk.marker == Marker(SuspendState("saved", "qemu-v1", cid, manifest.vmState))
      // What is saved is what the next resume finds, its context id included.
      ensures ok ==> forall mode :: mode == AUTO || mode == FORCE ==>
                       ResolveResumeState(manifest, disk, mode) == Ok(Some(disk.marker.state))
      ensures disk.streams - {manifest.vmState} == old(disk.streams) - {manifest.vmState}
      // Nothing reads saved that did not before, unless there is a complete stream for it.
      ensures Saved(disk) ==> disk.marker == old(disk.marker) || Resumable(manifest, disk)
    {
      ok := PrepareVMStateFile();
      if ok {
        ok := SaveToFile(a);
      }
      if ok {
        ok := WriteSuspendState(MarkerFor(manifest, cid).state);
      }
    }

    /** `RemoveSuspendState`. */
    method RemoveSuspendState() returns (ok: bool)
      requires Recorded()
      modifies this`disk, this`past, this`faults
      ensures Recorded() && faults >= old(faults) && (ok <==> faults == old(faults))
      ensures disk == old(disk).(marker := NoMarker) || (!ok && disk == old(disk))
      ensures past == old(past) || past == old(past) + [disk]
      ensures Exposed() == old(Exposed())
    {
      var fails := Chance();
      if fails {
        return false;
      }
      Put(disk.(marker := NoMarker));
      fails := Chance();
      ok := !fails;
    }

    /** `RemoveRestoredSuspendState`: the stream goes first, so a stream never outlives its marker. */
    method RemoveRestoredSuspendState(state: SuspendState) returns (ok: bool)
      requires Valid()
      modifies this`disk, this`past, this`faults
      ensures Valid() && faults >= old(faults) && (ok <==> faults == old(faults))
      ensures ok ==> disk == Disk(NoMarker, old(disk.streams) - {state.path})
      ensures disk == old(disk) || state.path !in disk.streams
      // At no point is there a stream without its marker.
      ensures forall k :: |old(past)| <= k < |past| ==> state.path !in past[k].streams
      ensures Exposed() == old(Exposed())
      // Stopped half-way there is nothing left to resume from.
      ensures Saved(old(disk)) && manifest.PathOf(old(disk).marker.state) == state.path && disk != old(disk) ==>
                !Resumable(manifest, disk)
    {
      var fails := Chance();
      if fails {
        return false;
      }
      Put(disk.(streams := disk.streams - {state.path}));
      ok := RemoveSuspendState();
    }

    /** `AcquireRuntimeLock`, with the lock held: a fresh boot drops the marker, a resume touches nothing. */
    method AcquireRuntimeLock(resume: Option<SuspendState>) returns (ok: bool)
      requires Valid()
      modifies this`disk, this`past, this`faults
      ensures Valid() && faults >= old(faults) && Exposed() == old(Exposed())
      ensures ok <==> faults == old(faults) && (resume.Some? ==> resume.value.path in old(disk.streams))
      ensures resume.Some? ==> disk == old(disk) && (ok ==> resume.value.path in disk.streams)
      ensures resume.None? ==> && disk.streams == old(disk.streams)
                               && (disk.marker.NoMarker? || (!ok && disk == old(disk)))
    {
      if resume.None? {
        ok := RemoveSuspendState();
        if !ok {
          return;
        }
      } else if resume.value.path !in disk.streams {
        return false;
      }
      var fails := Chance();                          // writing the pid file
      ok := !fails;
    }
  }
}
