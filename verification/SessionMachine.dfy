/**
 Concurrent callers of one wire session (backend/qemu/internal/qmpwire/session.go): `Session.do` as steps
 that interleave with one another, with the peer and with the cancellation callback that
 `context.AfterFunc` runs on a goroutine of its own.
 */
module SessionMachine {

  /** Life of one operation's cancellation callback. */
  datatype Callback =
    | Unarmed
    | Armed    // registered, not started
    | Firing   // started on its goroutine
    | Wrote    // has moved the connection deadline
    | Fired    // has closed its done channel
    | Stopped  // unregistered before it started

  datatype Verdict = Success | ServerError | WireFailure | LocalFailure | ContextEnded | Refused

  /** Where an operation is inside `do`. */
  datatype Place =
    | Queued                       // waiting for the mutex
    | Checking                     // holds it
    | DeadlineSet
    | Running                      // inside fn
    | Returned(verdict: Verdict)   // fn is back, stop() not yet called
    | Waiting(verdict: Verdict)    // stop() came too late: waiting for the callback
    | Settled(verdict: Verdict)    // latch updated, deadline not yet cleared
    | Leaving(verdict: Verdict)    // only the unlock is left
    | Done(verdict: Verdict)

  /** `asked` and `got` are the numbers of the commands sent and of the replies taken. */
  datatype Op = Op(place: Place, bounded: bool, cancellable: bool, cancelled: bool, callback: Callback,
                   asked: seq<nat>, got: seq<nat>)

  datatype Deadline = NoDeadline | Bound(op: nat) | Interrupt(op: nat)

  /** `sent` commands and `taken` replies so far; the peer answers in order. `torn`: position unknown. */
  datatype World = World(ops: seq<Op>, holder: int, deadline: Deadline, broken: bool,
                         sent: nat, taken: nat, torn: bool)

  const NOBODY: int := -1

  datatype Step =
    | Lock | Refuse | RejectEnded | FailDeadline | SetDeadline | Start
    | Send | SendFails(delivered: bool) | ReceiveEvent | ReceiveReply | ReceiveError | ReceiveFails
    | ReturnOk | ReturnLocal
    | Stop | JoinCallback | ClearDeadline(cleared: bool) | Unlock
    | CancelContext | CallbackStarts | CallbackWrites | CallbackCloses

  /** What a step asks of the operation that takes it. */
  predicate Ready(op: Op, s: Step) {
    match s
    case Lock => op.place.Queued?
    case Refuse => op.place.Checking?
    case RejectEnded => op.place.Checking? && op.cancelled
    case FailDeadline => op.place.Checking? && !op.cancelled
    case SetDeadline => op.place.Checking? && !op.cancelled
    case Start => op.place.DeadlineSet?
    case Send => op.place.Running?
    case SendFails(_) => op.place.Running?
    case ReceiveEvent => op.place.Running?
    case ReceiveReply => op.place.Running?
    case ReceiveError => op.place.Running? && |op.got| + 1 == |op.asked|
    case ReceiveFails => op.place.Running?
    case ReturnOk => op.place.Running? && |op.got| == |op.asked|
    case ReturnLocal => op.place.Running? && |op.got| == |op.asked|
    case Stop => op.place.Returned?
    case JoinCallback => op.place.Waiting? && op.callback.Fired?
    case ClearDeadline(_) => op.place.Settled?
    case Unlock => op.place.Leaving?
    case CancelContext => op.cancellable
    case CallbackStarts => op.callback.Armed? && op.cancelled
    case CallbackWrites => op.callback.Firing?
    case CallbackCloses => op.callback.Wrote?
  }

  /** What it asks of the session and the peer. */
  predicate Allowed(w: World, s: Step) {
    && (s.Lock? ==> w.holder == NOBODY)
    && (s.Refuse? ==> w.broken)
    && (s.RejectEnded? || s.FailDeadline? || s.SetDeadline? ==> !w.broken)
    && (s.ReceiveReply? || s.ReceiveError? ==> w.taken < w.sent)
  }

  predicate Enabled(w: World, i: nat, s: Step)
    requires i < |w.ops|
  {
    Ready(w.ops[i], s) && Allowed(w, s)
  }

  /** The latch of `do`: an interrupted failure or a wire failure poisons the session. */
  function Latch(broken: bool, verdict: Verdict, interrupted: bool): bool {
    broken || (verdict != Success && (interrupted || verdict == WireFailure))
  }

  /** `stop()` comes before the callback has started, or there is none. */
  predicate InTime(op: Op) {
    op.callback.Armed? || op.callback.Unarmed?
  }

  /** What a step does to the operation that takes it; `sent` and `taken` number the next command and reply. */
  function Own(op: Op, sent: nat, taken: nat, s: Step): Op
    requires Ready(op, s)
  {
    match s
    case Lock => op.(place := Checking)
    case Refuse => op.(place := Leaving(Refused))
    case RejectEnded => op.(place := Leaving(ContextEnded))
    case FailDeadline => op.(place := Leaving(LocalFailure))
    case SetDeadline => op.(place := DeadlineSet)
    case Start => op.(place := Running, callback := if op.cancellable then Armed else Unarmed)
    case Send => op.(asked := op.asked + [sent])
    case SendFails(_) => op.(place := Returned(WireFailure))
    case ReceiveEvent => op
    case ReceiveReply => op.(got := op.got + [taken])
    case ReceiveError => op.(got := op.got + [taken], place := Returned(ServerError))
    case ReceiveFails => op.(place := Returned(WireFailure))
    case ReturnOk => op.(place := Returned(Success))
    case ReturnLocal => op.(place := Returned(LocalFailure))
    case Stop =>
      if InTime(op) then
        op.(place := Settled(op.place.verdict), callback := if op.callback.Armed? then Stopped else Unarmed)
      else
        op.(place := Waiting(op.place.verdict))
    case JoinCallback => op.(place := Settled(op.place.verdict))
    case ClearDeadline(_) => op.(place := Leaving(op.place.verdict))
    case Unlock => op.(place := Done(op.place.verdict))
    case CancelContext => op.(cancelled := true)
    case CallbackStarts => op.(callback := Firing)
    case CallbackWrites => op.(callback := Wrote)
    case CallbackCloses => op.(callback := Fired)
  }

  /** What it does to the session and the peer. */
  function Shared(w: World, i: nat, s: Step): World
    requires i < |w.ops| && Ready(w.ops[i], s)
  {
    var op := w.ops[i];
    match s
    case Lock => w.(holder := i)
    case SetDeadline => w.(deadline := if op.bounded then Bound(i) else NoDeadline)
    case Send => w.(sent := w.sent + 1)
    case SendFails(delivered) => w.(sent := if delivered then w.sent + 1 else w.sent, torn := true)
    case ReceiveReply => w.(taken := w.taken + 1)
    case ReceiveError => w.(taken := w.taken + 1)
    case ReceiveFails => w.(torn := true)
    case Stop => if InTime(op) then w.(broken := Latch(w.broken, op.place.verdict, false)) else w
    case JoinCallback => w.(broken := Latch(w.broken, op.place.verdict, true))
    case ClearDeadline(cleared) => w.(deadline := if cleared then NoDeadline else w.deadline)
    case Unlock => w.(holder := NOBODY)
    case CallbackWrites => w.(deadline := Interrupt(i))
    case _ => w
  }

  function Next(w: World, i: nat, s: Step): World
    requires i < |w.ops| && Enabled(w, i, s)
  {
    Shared(w, i, s).(ops := w.ops[i := Own(w.ops[i], w.sent, w.taken, s)])
  }

  // Invariant.

  /** Inside `do`, holding the mutex. */
  predicate Inside(p: Place) {
    !p.Queued? && !p.Done?
  }

  /** Between setting its deadline and updating the latch. */
  predicate Active(p: Place) {
    p.DeadlineSet? || p.Running? || p.Returned? || p.Waiting?
  }

  predicate CallbackFits(op: Op) {
    && (op.place.Queued? || op.place.Checking? || op.place.DeadlineSet? ==> op.callback.Unarmed?)
    && (op.callback.Armed? || op.callback.Firing? || op.callback.Wrote? ==>
          op.place.Running? || op.place.Returned? || op.place.Waiting?)
    && (op.place.Waiting? ==> !op.callback.Armed? && !op.callback.Unarmed? && !op.callback.Stopped?)
    && (op.place.Running? || op.place.Returned? ==> !op.callback.Stopped?)
    && (op.place.Running? || op.place.Returned? ==> (op.callback.Unarmed? <==> !op.cancellable))
    && (op.callback.Firing? || op.callback.Wrote? || op.callback.Fired? ==> op.cancelled)
  }

  /** The replies taken are the first ones of the commands sent. */
  ghost predicate OwnReplies(op: Op) {
    |op.got| <= |op.asked| && op.got == op.asked[..|op.got|]
  }

  /** In step with the peer: commands sent and replies taken differ exactly by this operation's open one. */
  ghost predicate InStep(w: World, op: Op) {
    && !w.torn
    && |op.asked| <= w.sent && |op.got| <= w.taken <= w.sent && |op.asked| - |op.got| == w.sent - w.taken
    && (forall k :: 0 <= k < |op.asked| ==> op.asked[k] == w.sent - |op.asked| + k)
  }

  ghost predicate VerdictFits(op: Op) {
    match op.place
    case Returned(v) => v.Success? || v.ServerError? ==> |op.got| == |op.asked|
    case Waiting(v) => v.Success? || v.ServerError? ==> |op.got| == |op.asked|
    case Settled(v) => v.Success? ==> |op.got| == |op.asked|
    case Leaving(v) => v.Success? ==> |op.got| == |op.asked|
    case Done(v) => v.Success? ==> |op.got| == |op.asked|
    case _ => true
  }

  predicate HolderInRange(w: World) {
    w.holder == NOBODY || 0 <= w.holder < |w.ops|
  }

  /** What holds of every operation by itself. */
  ghost predicate OpInv(op: Op) {
    && CallbackFits(op) && OwnReplies(op) && VerdictFits(op)
    && (op.place.Queued? || op.place.Checking? || op.place.DeadlineSet? ==> op.asked == [])
  }

  /** The stream is in step unless the latch is, or is about to be, closed. */
  ghost predicate StreamFits(w: World)
    requires HolderInRange(w)
  {
    if w.holder == NOBODY || !Active(w.ops[w.holder].place) then
      !w.broken ==> !w.torn && w.taken == w.sent
    else
      var op := w.ops[w.holder];
      && !w.broken
      && match op.place
         case Returned(v) => v.WireFailure? || (InStep(w, op) && |op.got| == |op.asked|)
         case Waiting(v) => v.WireFailure? || (InStep(w, op) && |op.got| == |op.asked|)
         case _ => InStep(w, op)
  }

  /** An interrupt once its callback has written it, its own bound until then. */
  function OwnDeadline(op: Op, i: nat): Deadline {
    if op.callback.Wrote? || op.callback.Fired? then Interrupt(i) else if op.bounded then Bound(i) else NoDeadline
  }

  /** While the holder is active the deadline is its own. */
  predicate DeadlineFits(w: World)
    requires HolderInRange(w)
  {
    w.holder != NOBODY && Active(w.ops[w.holder].place) ==> w.deadline == OwnDeadline(w.ops[w.holder], w.holder)
  }

  /** The holder of the mutex, and nobody else, is inside `do`. */
  ghost predicate HolderFits(w: World) {
    HolderInRange(w) && forall i :: 0 <= i < |w.ops| ==> (Inside(w.ops[i].place) <==> i == w.holder)
  }

  /** Past the latch with a failure that may have left a reply behind. */
  predicate Untrusted(op: Op) {
    && (op.place.Settled? || op.place.Leaving? || op.place.Done?)
    && op.place.verdict != Success && (op.place.verdict == WireFailure || op.callback.Fired?)
  }

  /** The latch is closed if and only if such an operation has been. */
  ghost predicate LatchFits(w: World) {
    w.broken <==> exists i :: 0 <= i < |w.ops| && Untrusted(w.ops[i])
  }

  ghost predicate Inv(w: World) {
    && HolderFits(w) && StreamFits(w) && DeadlineFits(w) && LatchFits(w)
    && forall i :: 0 <= i < |w.ops| ==> OpInv(w.ops[i])
  }

  /** Any callers, none of them started, on a fresh session over a stream in step. */
  ghost predicate Init(w: World) {
    && w.holder == NOBODY && !w.broken && !w.torn && w.sent == w.taken
    && forall i :: 0 <= i < |w.ops| ==>
         w.ops[i].place.Queued? && w.ops[i].callback.Unarmed? && w.ops[i].asked == [] && w.ops[i].got == []
  }

  lemma InitInv(w: World)
    requires Init(w)
    ensures Inv(w)
  {}

  /** Only the holder acts; the others can at most queue up or see their context end. */
  lemma ActorIsHolder(w: World, i: nat, s: Step)
    requires Inv(w) && i < |w.ops| && Enabled(w, i, s)
    ensures i == w.holder || s.Lock? || s.CancelContext?
  {
    assert OpInv(w.ops[i]);
  }

  predicate TouchesWire(s: Step) {
    s.Send? || s.SendFails? || s.ReceiveEvent? || s.ReceiveReply? || s.ReceiveError? || s.ReceiveFails?
  }

  /** From the mutex to `fn`. */
  predicate Enters(s: Step) {
    s.Lock? || s.Refuse? || s.RejectEnded? || s.FailDeadline? || s.SetDeadline? || s.Start?
  }

  /** Steps of the context and its callback. */
  predicate Cancels(s: Step) {
    s.CancelContext? || s.CallbackStarts? || s.CallbackWrites? || s.CallbackCloses?
  }

  lemma HolderStep(w: World, i: nat, s: Step)
    requires Inv(w) && i < |w.ops| && Enabled(w, i, s)
    ensures HolderFits(Next(w, i, s))
  {
    ActorIsHolder(w, i, s);
    Frame(w, i, s);
    HolderMoves(w, i, s);
    assert HolderFits(w);
  }

  /** Only the lock and the unlock change who is inside. */
  lemma HolderMoves(w: World, i: nat, s: Step)
    requires i < |w.ops| && Enabled(w, i, s)
    ensures var w' := Next(w, i, s);
            && w'.holder == (if s.Lock? then i else if s.Unlock? then NOBODY else w.holder)
            && Inside(w'.ops[i].place) == (s.Lock? || (!s.Unlock? && Inside(w.ops[i].place)))
    ensures s.Lock? ==> w.holder == NOBODY
  {
  }

  lemma OpWireStep(op: Op, sent: nat, taken: nat, s: Step)
    requires OpInv(op) && Ready(op, s) && TouchesWire(s)
    requires s.ReceiveReply? || s.ReceiveError? ==> |op.got| < |op.asked| && op.asked[|op.got|] == taken
    ensures OpInv(Own(op, sent, taken, s))
  {
    var op' := Own(op, sent, taken, s);
    if s.ReceiveReply? || s.ReceiveError? {
      assert op'.got == op.asked[..|op.got| + 1];
    } else if s.Send? {
      assert op'.asked[..|op.got|] == op.asked[..|op.got|];
    }
  }

  lemma OpQuietStep(op: Op, sent: nat, taken: nat, s: Step)
    requires OpInv(op) && Ready(op, s) && !TouchesWire(s)
    ensures OpInv(Own(op, sent, taken, s))
  {
  }

  lemma OpStep(w: World, i: nat, s: Step)
    requires Inv(w) && i < |w.ops| && Enabled(w, i, s)
    ensures OpInv(Next(w, i, s).ops[i])
  {
    var op := w.ops[i];
    assert OpInv(op);
    if TouchesWire(s) {
      assert w.holder == i && InStep(w, op);
      OpWireStep(op, w.sent, w.taken, s);
    } else {
      OpQuietStep(op, w.sent, w.taken, s);
    }
  }

  lemma StreamWireStep(w: World, i: nat, s: Step)
    requires Inv(w) && i < |w.ops| && Enabled(w, i, s) && TouchesWire(s) && HolderFits(Next(w, i, s))
    ensures StreamFits(Next(w, i, s))
  {
    assert OpInv(w.ops[i]) && w.holder == i;
  }

  lemma StreamEnterStep(w: World, i: nat, s: Step)
    requires Inv(w) && i < |w.ops| && Enabled(w, i, s) && Enters(s) && HolderFits(Next(w, i, s))
    ensures StreamFits(Next(w, i, s))
  {
    assert OpInv(w.ops[i]) && (s.Lock? || w.holder == i);
  }

  lemma StreamReturnStep(w: World, i: nat, s: Step)
    requires Inv(w) && i < |w.ops| && Enabled(w, i, s) && (s.ReturnOk? || s.ReturnLocal?)
    requires HolderFits(Next(w, i, s))
    ensures StreamFits(Next(w, i, s))
  {
    assert w.holder == i;
  }

  lemma StreamSettleStep(w: World, i: nat, s: Step)
    requires Inv(w) && i < |w.ops| && Enabled(w, i, s) && (s.Stop? || s.JoinCallback?)
    requires HolderFits(Next(w, i, s))
    ensures StreamFits(Next(w, i, s))
  {
    assert w.holder == i;
  }

  lemma StreamReleaseStep(w: World, i: nat, s: Step)
    requires Inv(w) && i < |w.ops| && Enabled(w, i, s) && (s.ClearDeadline? || s.Unlock?)
    requires HolderFits(Next(w, i, s))
    ensures StreamFits(Next(w, i, s))
  {
    assert w.holder == i;
  }

  /** A context or a callback changes neither the stream nor anybody's place. */
  lemma StreamCancelStep(w: World, i: nat, s: Step)
    requires Inv(w) && i < |w.ops| && Enabled(w, i, s) && Cancels(s) && HolderFits(Next(w, i, s))
    ensures StreamFits(Next(w, i, s))
  {
    CancelLeavesAlone(w, i, s);
    assert w.holder != NOBODY && w.holder != i ==> Next(w, i, s).ops[w.holder] == w.ops[w.holder];
    SameStream(w, Next(w, i, s));
  }

  lemma CancelLeavesAlone(w: World, i: nat, s: Step)
    requires i < |w.ops| && Enabled(w, i, s) && Cancels(s)
    ensures var w' := Next(w, i, s);
            && SameWire(w, w') && w'.ops == w.ops[i := w'.ops[i]] && SameTraffic(w.ops[i], w'.ops[i])
  {
  }

  /** Everything about a session but its deadline. */
  predicate SameWire(w: World, w': World) {
    && w'.holder == w.holder && w'.broken == w.broken && w'.torn == w.torn && w'.sent == w.sent && w'.taken == w.taken
    && |w'.ops| == |w.ops|
  }

  /** Everything about an operation but its callback. */
  predicate SameTraffic(op: Op, op': Op) {
    op'.place == op.place && op'.asked == op.asked && op'.got == op.got
  }

  lemma SameStream(w: World, w': World)
    requires HolderInRange(w) && StreamFits(w) && SameWire(w, w')
    requires w.holder != NOBODY ==> SameTraffic(w.ops[w.holder], w'.ops[w.holder])
    ensures HolderInRange(w') && StreamFits(w')
  {
  }

  lemma StreamStep(w: World, i: nat, s: Step)
    requires Inv(w) && i < |w.ops| && Enabled(w, i, s) && HolderFits(Next(w, i, s))
    ensures StreamFits(Next(w, i, s))
  {
    if TouchesWire(s) {
      StreamWireStep(w, i, s);
    } else if Enters(s) {
      StreamEnterStep(w, i, s);
    } else if s.ReturnOk? || s.ReturnLocal? {
      StreamReturnStep(w, i, s);
    } else if s.Stop? || s.JoinCallback? {
      StreamSettleStep(w, i, s);
    } else if s.ClearDeadline? || s.Unlock? {
      StreamReleaseStep(w, i, s);
    } else {
      StreamCancelStep(w, i, s);
    }
  }

  lemma DeadlineStep(w: World, i: nat, s: Step)
    requires Inv(w) && i < |w.ops| && Enabled(w, i, s) && HolderFits(Next(w, i, s))
    ensures DeadlineFits(Next(w, i, s))
  {
    ActorIsHolder(w, i, s);
    assert OpInv(w.ops[i]);
  }

  lemma StepInv(w: World, i: nat, s: Step)
    requires Inv(w) && i < |w.ops| && Enabled(w, i, s)
    ensures Inv(Next(w, i, s))
  {
    HolderStep(w, i, s);
    OpStep(w, i, s);
    StreamStep(w, i, s);
    DeadlineStep(w, i, s);
    LatchStep(w, i, s);
    Frame(w, i, s);
  }

  lemma LatchStep(w: World, i: nat, s: Step)
    requires Inv(w) && i < |w.ops| && Enabled(w, i, s)
    ensures LatchFits(Next(w, i, s))
  {
    assert OpInv(w.ops[i]);
    NewlyUntrusted(w, i, s);
    Frame(w, i, s);
    var w' := Next(w, i, s);
    if w'.broken {
      if w.broken {
        var k :| 0 <= k < |w.ops| && Untrusted(w.ops[k]);
        assert Untrusted(w'.ops[k]);
      } else {
        assert Untrusted(w'.ops[i]);
      }
    }
    assert forall k :: 0 <= k < |w.ops| && k != i ==> w'.ops[k] == w.ops[k];
  }

  lemma NewlyUntrusted(w: World, i: nat, s: Step)
    requires i < |w.ops| && CallbackFits(w.ops[i]) && Ready(w.ops[i], s)
    ensures var op' := Own(w.ops[i], w.sent, w.taken, s);
            && (Untrusted(w.ops[i]) ==> Untrusted(op'))
            && (Untrusted(op') && !Untrusted(w.ops[i]) ==> Shared(w, i, s).broken)
            && (Shared(w, i, s).broken && !w.broken ==> Untrusted(op'))
    ensures w.broken ==> Shared(w, i, s).broken
  {
  }

  // Commands of different operations have different numbers.

  ghost predicate Apart(w: World) {
    && (forall i, x :: 0 <= i < |w.ops| && x in w.ops[i].asked ==> x < w.sent)
    && (forall i, j, x :: 0 <= i < |w.ops| && 0 <= j < |w.ops| && x in w.ops[i].asked && x in w.ops[j].asked ==> i == j)
  }

  /** What a step leaves alone. */
  lemma Frame(w: World, i: nat, s: Step)
    requires i < |w.ops| && Enabled(w, i, s)
    ensures var w' := Next(w, i, s);
            && |w'.ops| == |w.ops| && w'.ops == w.ops[i := w'.ops[i]]
            && (w.broken ==> w'.broken)
            && w.sent <= w'.sent
            && w'.ops[i].asked == (if s.Send? then w.ops[i].asked + [w.sent] else w.ops[i].asked)
            && (s.Send? ==> w'.sent == w.sent + 1)
  {}

  lemma ApartStep(w: World, i: nat, s: Step)
    requires Apart(w) && i < |w.ops| && Enabled(w, i, s)
    ensures Apart(Next(w, i, s))
  {
    Frame(w, i, s);
  }

  // Runs.

  datatype Act = Act(op: nat, step: Step)

  ghost predicate Run(worlds: seq<World>, acts: seq<Act>) {
    && |worlds| == |acts| + 1 && Init(worlds[0])
    && forall k :: 0 <= k < |acts| ==>
         && acts[k].op < |worlds[k].ops| && Enabled(worlds[k], acts[k].op, acts[k].step)
         && worlds[k + 1] == Next(worlds[k], acts[k].op, acts[k].step)
  }

  lemma {:induction false} RunInv(worlds: seq<World>, acts: seq<Act>, k: nat)
    requires Run(worlds, acts) && k < |worlds|
    ensures Inv(worlds[k]) && Apart(worlds[k])
  {
    if k == 0 {
      InitInv(worlds[0]);
    } else {
      RunInv(worlds, acts, k - 1);
      StepInv(worlds[k - 1], acts[k - 1].op, acts[k - 1].step);
      ApartStep(worlds[k - 1], acts[k - 1].op, acts[k - 1].step);
    }
  }

  /**
   In every interleaving an operation only takes replies to commands it sent itself, a successful one
   took them all, and no other operation sent those commands.
   */
  lemma RepliesStayHome(worlds: seq<World>, acts: seq<Act>, k: nat, i: nat)
    requires Run(worlds, acts) && k < |worlds| && i < |worlds[k].ops|
    ensures var op := worlds[k].ops[i];
            && op.got <= op.asked
            && (op.place == Done(Success) ==> op.got == op.asked)
            && forall j, x :: 0 <= j < |worlds[k].ops| && j != i && x in op.got ==> x !in worlds[k].ops[j].asked
  {
    RunInv(worlds, acts, k);
    var op := worlds[k].ops[i];
    assert OpInv(op);
    assert forall x :: x in op.got ==> x in op.asked;
  }

  /** Between operations an unbroken session has taken exactly one reply per command. */
  lemma IdleInStep(worlds: seq<World>, acts: seq<Act>, k: nat)
    requires Run(worlds, acts) && k < |worlds| && worlds[k].holder == NOBODY && !worlds[k].broken
    ensures worlds[k].taken == worlds[k].sent && !worlds[k].torn
  {
    RunInv(worlds, acts, k);
  }

  /**
   While `fn` runs, the connection deadline is the operation's own bound (none for a slow one) or, once its
   callback has fired, the interrupt of its own ended context, and every callback still able to move it is its own.
   */
  lemma DeadlineIsOwn(worlds: seq<World>, acts: seq<Act>, k: nat, i: nat)
    requires Run(worlds, acts) && k < |worlds| && i < |worlds[k].ops| && worlds[k].ops[i].place.Running?
    ensures var w := worlds[k];
            && w.deadline == (if w.ops[i].callback.Wrote? || w.ops[i].callback.Fired? then Interrupt(i)
                              else if w.ops[i].bounded then Bound(i) else NoDeadline)
            && (w.deadline.Interrupt? ==> w.ops[i].cancelled)
            && forall j :: 0 <= j < |w.ops| && j != i ==>
                 !w.ops[j].callback.Armed? && !w.ops[j].callback.Firing? && !w.ops[j].callback.Wrote?
  {
    RunInv(worlds, acts, k);
    var w := worlds[k];
    assert w.holder == i;
    forall j | 0 <= j < |w.ops| && j != i
      ensures !w.ops[j].callback.Armed? && !w.ops[j].callback.Firing? && !w.ops[j].callback.Wrote?
    {
      assert OpInv(w.ops[j]);
    }
  }

  lemma {:induction false} BrokenStays(worlds: seq<World>, acts: seq<Act>, k: nat, m: nat)
    requires Run(worlds, acts) && k <= m < |worlds| && worlds[k].broken
    ensures worlds[m].broken && worlds[m].sent == worlds[k].sent && worlds[m].taken == worlds[k].taken
  {
    if m > k {
      BrokenStays(worlds, acts, k, m - 1);
      RunInv(worlds, acts, m - 1);
      BrokenStep(worlds[m - 1], acts[m - 1].op, acts[m - 1].step);
    }
  }

  /** Once the latch is closed it stays closed and nobody reads or writes again. */
  lemma BrokenIsQuiet(worlds: seq<World>, acts: seq<Act>, k: nat, m: nat)
    requires Run(worlds, acts) && k <= m < |worlds| && worlds[k].broken
    ensures worlds[m].broken && worlds[m].sent == worlds[k].sent && worlds[m].taken == worlds[k].taken
    ensures m < |acts| ==> !TouchesWire(acts[m].step)
  {
    BrokenStays(worlds, acts, k, m);
    if m < |acts| {
      RunInv(worlds, acts, m);
      BrokenStep(worlds[m], acts[m].op, acts[m].step);
    }
  }

  lemma BrokenStep(w: World, i: nat, s: Step)
    requires Inv(w) && w.broken && i < |w.ops| && Enabled(w, i, s)
    ensures !TouchesWire(s)
    ensures var w' := Next(w, i, s); w'.broken && w'.sent == w.sent && w'.taken == w.taken
  {
    assert TouchesWire(s) ==> w.holder == i;
  }

  /**
   Every wire failure, and every failure of an interrupted operation, closes the latch before the mutex is free,
   and nothing else does.
   */
  lemma FailureLatches(worlds: seq<World>, acts: seq<Act>, k: nat)
    requires Run(worlds, acts) && k < |worlds|
    ensures worlds[k].broken <==> exists i :: 0 <= i < |worlds[k].ops| && Untrusted(worlds[k].ops[i])
  {
    RunInv(worlds, acts, k);
  }

  // What an operation reports.

  predicate HasVerdict(p: Place) {
    p.Returned? || p.Waiting? || p.Settled? || p.Leaving? || p.Done?
  }

  /** The step that brings about a verdict. */
  predicate Earns(s: Step, v: Verdict) {
    match v
    case Success => s.ReturnOk?
    case ServerError => s.ReceiveError?
    case WireFailure => s.SendFails? || s.ReceiveFails?
    case LocalFailure => s.ReturnLocal? || s.FailDeadline?
    case ContextEnded => s.RejectEnded?
    case Refused => s.Refuse?
  }

  /** Act `m` gave operation `i` its verdict, and rightly so: refused by a broken session, or ended beforehand. */
  ghost predicate EarnedAt(worlds: seq<World>, acts: seq<Act>, m: nat, i: nat, v: Verdict) {
    && m < |acts| && m < |worlds| && i < |worlds[m].ops| && acts[m].op == i && Earns(acts[m].step, v)
    && (v.Refused? ==> worlds[m].broken) && (v.ContextEnded? ==> worlds[m].ops[i].cancelled && !worlds[m].broken)
  }

  /** A step keeps the verdict there is or brings about one of its own. */
  lemma VerdictMoves(op: Op, sent: nat, taken: nat, s: Step)
    requires Ready(op, s)
    ensures var op' := Own(op, sent, taken, s);
            HasVerdict(op'.place) ==>
              if HasVerdict(op.place) then op'.place.verdict == op.place.verdict else Earns(s, op'.place.verdict)
  {
  }

  lemma VerdictStep(w: World, i: nat, s: Step)
    requires i < |w.ops| && Enabled(w, i, s)
    ensures var op, op' := w.ops[i], Next(w, i, s).ops[i];
            HasVerdict(op'.place) ==>
              || (HasVerdict(op.place) && op'.place.verdict == op.place.verdict)
              || (&& Earns(s, op'.place.verdict) && (op'.place.verdict.Refused? ==> w.broken)
                  && (op'.place.verdict.ContextEnded? ==> op.cancelled && !w.broken))
  {
    VerdictMoves(w.ops[i], w.sent, w.taken, s);
  }

  /** Whatever an operation reports is what its own steps came to. */
  lemma {:induction false} VerdictIsEarned(worlds: seq<World>, acts: seq<Act>, k: nat, i: nat)
    requires Run(worlds, acts) && k < |worlds| && i < |worlds[k].ops| && HasVerdict(worlds[k].ops[i].place)
    ensures exists m :: 0 <= m < k && EarnedAt(worlds, acts, m, i, worlds[k].ops[i].place.verdict)
  {
    if k > 0 {
      var act := acts[k - 1];
      VerdictStep(worlds[k - 1], act.op, act.step);
      Frame(worlds[k - 1], act.op, act.step);
      var before := worlds[k - 1].ops[i].place;
      if HasVerdict(before) && before.verdict == worlds[k].ops[i].place.verdict {
        VerdictIsEarned(worlds, acts, k - 1, i);
      } else {
        assert EarnedAt(worlds, acts, k - 1, i, worlds[k].ops[i].place.verdict);
      }
    }
  }

  // Contexts that end.

  /** Refused or rejected, or about to be: nothing has been sent. */
  predicate Silent(op: Op) {
    && op.cancelled && op.asked == []
    && match op.place
       case Queued => true
       case Checking => true
       case Leaving(v) => v.Refused? || v.ContextEnded?
       case Done(v) => v.Refused? || v.ContextEnded?
       case _ => false
  }

  lemma SilentOwn(op: Op, sent: nat, taken: nat, s: Step)
    requires Ready(op, s) && Silent(op) && CallbackFits(op)
    ensures Silent(Own(op, sent, taken, s))
  {
  }

  lemma SilentStep(w: World, a: nat, s: Step, i: nat)
    requires Inv(w) && a < |w.ops| && i < |w.ops| && Enabled(w, a, s) && Silent(w.ops[i])
    ensures |Next(w, a, s).ops| == |w.ops| && Silent(Next(w, a, s).ops[i])
  {
    assert OpInv(w.ops[i]);
    if a == i {
      SilentOwn(w.ops[i], w.sent, w.taken, s);
    }
  }

  lemma SilentFirst(w: World, i: nat)
    requires Inv(w) && i < |w.ops| && (w.ops[i].place.Queued? || w.ops[i].place.Checking?) && w.ops[i].cancelled
    ensures Silent(w.ops[i])
  {
    assert OpInv(w.ops[i]);
  }

  /** An operation whose context ends before it has been let in never sends anything. */
  lemma {:induction false} EndedSendsNothing(worlds: seq<World>, acts: seq<Act>, m: nat, k: nat, i: nat)
    requires Run(worlds, acts) && m <= k < |worlds| && i < |worlds[m].ops|
    requires (worlds[m].ops[i].place.Queued? || worlds[m].ops[i].place.Checking?) && worlds[m].ops[i].cancelled
    ensures i < |worlds[k].ops| && Silent(worlds[k].ops[i])
  {
    if m == k {
      RunInv(worlds, acts, m);
      SilentFirst(worlds[m], i);
    } else {
      EndedSendsNothing(worlds, acts, m, k - 1, i);
      RunInv(worlds, acts, k - 1);
      SilentStep(worlds[k - 1], acts[k - 1].op, acts[k - 1].step, i);
    }
  }

  /** How far a callback that was started has come. */
  function Progress(c: Callback): nat {
    match c
    case Firing => 1
    case Wrote => 2
    case Fired => 3
    case _ => 0
  }

  lemma ProgressStep(op: Op, sent: nat, taken: nat, s: Step)
    requires Ready(op, s) && CallbackFits(op)
    ensures Progress(Own(op, sent, taken, s).callback) >= Progress(op.callback)
  {
  }

  lemma CallbackStep(w: World, a: nat, s: Step, i: nat)
    requires Inv(w) && a < |w.ops| && i < |w.ops| && Enabled(w, a, s)
    ensures |Next(w, a, s).ops| == |w.ops| && Progress(Next(w, a, s).ops[i].callback) >= Progress(w.ops[i].callback)
  {
    assert OpInv(w.ops[i]);
    if a == i {
      ProgressStep(w.ops[i], w.sent, w.taken, s);
    }
  }

  /** A callback that was started is never taken back. */
  lemma {:induction false} CallbackAdvances(worlds: seq<World>, acts: seq<Act>, m: nat, k: nat, i: nat)
    requires Run(worlds, acts) && m <= k < |worlds| && i < |worlds[m].ops|
    ensures i < |worlds[k].ops| && Progress(worlds[k].ops[i].callback) >= Progress(worlds[m].ops[i].callback)
  {
    if m < k {
      CallbackAdvances(worlds, acts, m, k - 1, i);
      RunInv(worlds, acts, k - 1);
      CallbackStep(worlds[k - 1], acts[k - 1].op, acts[k - 1].step, i);
    }
  }

  /** Once its callback was started, an operation is not past its latch before the callback is over. */
  lemma StartedIsAwaited(worlds: seq<World>, acts: seq<Act>, m: nat, k: nat, i: nat)
    requires Run(worlds, acts) && m <= k < |worlds| && i < |worlds[m].ops|
    requires worlds[m].ops[i].callback.Firing?
    ensures i < |worlds[k].ops|
    ensures var op := worlds[k].ops[i]; op.place.Settled? || op.place.Leaving? || op.place.Done? ==> op.callback.Fired?
  {
    CallbackAdvances(worlds, acts, m, k, i);
    RunInv(worlds, acts, k);
    assert OpInv(worlds[k].ops[i]);
  }

  // The deadline between operations.

  /** Nobody has set a deadline and not cleared it. */
  ghost predicate Cleared(w: World) {
    && HolderInRange(w)
    && (w.holder == NOBODY || w.ops[w.holder].place.Checking? || w.ops[w.holder].place.Leaving? ==>
          w.deadline.NoDeadline?)
  }

  lemma ClearedStep(w: World, i: nat, s: Step)
    requires Inv(w) && Cleared(w) && i < |w.ops| && Enabled(w, i, s) && s != ClearDeadline(false)
    ensures Cleared(Next(w, i, s))
  {
    ActorIsHolder(w, i, s);
    HolderStep(w, i, s);
    assert OpInv(w.ops[i]);
  }

  /** While clearing it works, no deadline is left behind for the next operation, whatever interrupts there were. */
  lemma {:induction false} NoDeadlineBetween(worlds: seq<World>, acts: seq<Act>, k: nat)
    requires Run(worlds, acts) && k < |worlds| && worlds[0].deadline.NoDeadline?
    requires forall m :: 0 <= m < k ==> acts[m].step != ClearDeadline(false)
    ensures Cleared(worlds[k])
  {
    if k > 0 {
      NoDeadlineBetween(worlds, acts, k - 1);
      RunInv(worlds, acts, k - 1);
      ClearedStep(worlds[k - 1], acts[k - 1].op, acts[k - 1].step);
    }
  }
}
