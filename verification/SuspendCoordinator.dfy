/**
 The suspend coordinator (backend/qemu/internal/launch/suspend.go) and the handler that services it
 (backend/qemu/internal/vmm/manager.go): the mutex-protected updates, and every interleaving of
 requesters and servicers.
 */
module SuspendCoordinator {
  import opened Wrappers

  /** What a save attempt reports: `ErrSavedSuspendExit`, or the error that stopped it. */
  datatype Outcome = SavedExit | Failed(reason: string)

  /** A waiter channel, named after the thread that made it. */
  type Waiter = nat

  /** The fields under the coordinator's mutex. */
  datatype Coord = Coord(
    waiters: seq<Waiter>, requested: bool, inFlight: bool, completed: bool, result: Option<Outcome>)

  /** What `request` still has to do after it released the mutex. */
  datatype Entry = Answer(result: Option<Outcome>) | Notify | Nothing

  const IDLE := Coord([], false, false, false, None)

  function Entered(c: Coord, done: Option<Waiter>): (Coord, Entry) {
    if c.completed then
      (c, Answer(c.result))
    else
      var waiters := if done.Some? then c.waiters + [done.value] else c.waiters;
      if !c.requested && !c.inFlight then
        (c.(waiters := waiters, requested := true), Notify)
      else
        (c.(waiters := waiters), Nothing)
  }

  function Begun(c: Coord): Coord {
    c.(requested := false, inFlight := true)
  }

  function Completed(c: Coord, err: Outcome): Coord {
    Coord([], c.requested, false, true, Some(err))
  }

  class SuspendCoordinator {
    var waiters: seq<Waiter>
    var requested: bool
    var inFlight: bool
    var completed: bool
    var result: Option<Outcome>

    ghost function View(): Coord reads this {
      Coord(waiters, requested, inFlight, completed, result)
    }

    constructor ()
      ensures View() == IDLE
    {
      waiters, requested, inFlight, completed, result := [], false, false, false, None;
    }

    /** The critical section of `request`. */
    method Enter(done: Option<Waiter>) returns (entry: Entry)
      modifies this
      ensures (View(), entry) == Entered(old(View()), done)
      // A registered waiter always leaves a request pending or a save in flight behind it.
      ensures entry.Answer? || requested || inFlight
      // A suspend that is over is answered with its result, and nothing changes.
      ensures old(completed) ==> entry == Answer(old(result)) && unchanged(this)
      ensures !old(completed) ==>
                && waiters == old(waiters) + (if done.Some? then [done.value] else [])
                && inFlight == old(inFlight) && !completed && result == old(result)
                && entry == (if old(requested) || old(inFlight) then Nothing else Notify)
                && requested == (old(requested) || !old(inFlight))
    {
      if completed {
        return Answer(result);
      }
      if done.Some? {
        waiters := waiters + [done.value];
      }
      entry := Nothing;
      if !requested && !inFlight {
        requested := true;
        entry := Notify;
      }
    }

    method Begin()
      modifies this
      ensures View() == Begun(old(View()))
      ensures !requested && inFlight && unchanged(this`waiters) && unchanged(this`completed) && unchanged(this`result)
    {
      requested := false;
      inFlight := true;
    }

    /** The critical section of `Complete`; the caller sends `err` to every channel returned. */
    method Complete(err: Outcome) returns (released: seq<Waiter>)
      modifies this
      ensures View() == Completed(old(View()), err) && released == old(waiters)
      ensures waiters == [] && !inFlight && completed && result == Some(err) && unchanged(this`requested)
    {
      inFlight := false;
      completed := true;
      result := Some(err);
      released := waiters;
      waiters := [];
    }
  }

  // Threads.

  /**
   A `Request`, a `RequestAndWait`, a service of the notify channel (`HandleQueuedSuspend`,
   `serveSuspendRequests` or one wait of a foreground session), or a `SuspendSession`. A service of the channel
   may leave without serving: it found nothing queued, its context ended, or the machine exited.
   */
  datatype Role = Requester | RequesterWaiting | QueueServicer | SessionServicer

  datatype Pc =
    | Start
    | Sending                                        // registered, will send the notify token
    | SelfAnswering(early: Outcome)                  // found the suspend completed, will answer itself
    | AboutToBegin
    | AtOnce                                         // begun, at the once guard of saveAndExit
    | Saving                                         // inside the once
    | AtComplete(err: Outcome)
    | Delivering(outcome: Outcome, rest: seq<Waiter>)
    | Done
    | Gone                                           // left without serving

  /** `Running` remembers which thread entered the guarded body. */
  datatype Once = Unused | Running(holder: nat) | Finished(err: Outcome)

  /**
   `inbox[i]` is everything ever sent on the channel of thread `i`; `sent` counts the tokens ever sent,
   `saves` the save attempts ever started; `committer` is the last thread that undertook to notify and
   `releaser` the first that completed.
   */
  datatype State = State(
    roles: seq<Role>, pcs: seq<Pc>, coord: Coord, token: bool, once: Once,
    inbox: seq<seq<Outcome>>, sent: nat, saves: nat, committer: nat, releaser: nat)
  {
    ghost predicate Shaped() {
      |pcs| == |roles| == |inbox|
    }
  }

  function Initial(roles: seq<Role>): State {
    State(roles, seq(|roles|, i => Start), IDLE, false, Unused, seq(|roles|, i => []), 0, 0, 0, 0)
  }

  function Goto(s: State, i: nat, pc: Pc): State
    requires i < |s.pcs|
  {
    s.(pcs := s.pcs[i := pc])
  }

  function Post(s: State, w: Waiter, err: Outcome): State
    requires w < |s.inbox|
  {
    s.(inbox := s.inbox[w := s.inbox[w] + [err]])
  }

  /** Where a thread goes once its part of `request` is over. */
  function AfterRequest(role: Role): Pc {
    if role.SessionServicer? then AboutToBegin else Done
  }

  function EnterStep(s: State, i: nat): State
    requires i < |s.pcs| == |s.roles|
  {
    var (coord, entry) := Entered(s.coord, if s.roles[i].RequesterWaiting? then Some(i) else None);
    var pc := match entry
      case Notify => Sending
      case Nothing => AfterRequest(s.roles[i])
      case Answer(r) =>
        if s.roles[i].RequesterWaiting? && r.Some? then SelfAnswering(r.value) else AfterRequest(s.roles[i]);
    Goto(s.(coord := coord, committer := if entry.Notify? then i else s.committer), i, pc)
  }

  predicate Enabled(s: State, i: nat) {
    && i < |s.pcs| == |s.roles|
    && match s.pcs[i]
       case Start => s.roles[i].QueueServicer? ==> s.token
       case AtOnce => !s.once.Running?
       case Delivering(_, rest) => rest != [] ==> rest[0] < |s.inbox|
       case SelfAnswering(_) => |s.inbox| == |s.pcs|
       case Done => false
       case Gone => false
       case _ => true
  }

  /** A queue servicer that has not taken a token may leave, token or not. */
  predicate MayLeave(s: State, i: nat) {
    i < |s.pcs| == |s.roles| && s.pcs[i].Start? && s.roles[i].QueueServicer?
  }

  function TakeStep(s: State, i: nat): State
    requires i < |s.pcs|
  {
    Goto(s.(token := false), i, AboutToBegin)
  }

  /** Non-blocking send on a channel with one slot. */
  function SendStep(s: State, i: nat): State
    requires i < |s.pcs| == |s.roles|
  {
    Goto(if s.token then s else s.(token := true, sent := s.sent + 1), i, AfterRequest(s.roles[i]))
  }

  function SelfAnswerStep(s: State, i: nat): State
    requires i < |s.pcs| == |s.inbox| && s.pcs[i].SelfAnswering?
  {
    Goto(Post(s, i, s.pcs[i].early), i, Done)
  }

  function BeginStep(s: State, i: nat): State
    requires i < |s.pcs|
  {
    Goto(s.(coord := Begun(s.coord)), i, AtOnce)
  }

  function OnceStep(s: State, i: nat): State
    requires i < |s.pcs|
  {
    if s.once.Finished? then Goto(s, i, AtComplete(s.once.err))
    else Goto(s.(once := Running(i), saves := s.saves + 1), i, Saving)
  }

  function SaveStep(s: State, i: nat, err: Outcome): State
    requires i < |s.pcs|
  {
    Goto(s.(once := Finished(err)), i, AtComplete(err))
  }

  function CompleteStep(s: State, i: nat): State
    requires i < |s.pcs| && s.pcs[i].AtComplete?
  {
    var first := if s.coord.completed then s.releaser else i;
    Goto(s.(coord := Completed(s.coord, s.pcs[i].err), releaser := first), i,
         Delivering(s.pcs[i].err, s.coord.waiters))
  }

  function DeliverStep(s: State, i: nat): State
    requires i < |s.pcs| && s.pcs[i].Delivering? && (s.pcs[i].rest != [] ==> s.pcs[i].rest[0] < |s.inbox|)
  {
    var Delivering(e, rest) := s.pcs[i];
    if rest == [] then Goto(s, i, Done) else Goto(Post(s, rest[0], e), i, Delivering(e, rest[1..]))
  }

  /** The next step of thread `i`; `err` is what a save it is running comes to. */
  function Step(s: State, i: nat, err: Outcome): State
    requires Enabled(s, i)
  {
    match s.pcs[i]
    case Start => if s.roles[i].QueueServicer? then TakeStep(s, i) else EnterStep(s, i)
    case Sending => SendStep(s, i)
    case SelfAnswering(_) => SelfAnswerStep(s, i)
    case AboutToBegin => BeginStep(s, i)
    case AtOnce => OnceStep(s, i)
    case Saving => SaveStep(s, i, err)
    case AtComplete(_) => CompleteStep(s, i)
    case Delivering(_, _) => DeliverStep(s, i)
  }

  /** A thread takes its next step, in which a save it is running comes to `err`, or leaves. */
  datatype Move = Proceed(err: Outcome) | Leave

  predicate Possible(s: State, i: nat, m: Move) {
    if m.Leave? then MayLeave(s, i) else Enabled(s, i)
  }

  function Made(s: State, i: nat, m: Move): State
    requires Possible(s, i, m)
  {
    if m.Leave? then Goto(s, i, Gone) else Step(s, i, m.err)
  }

  /** A schedule says which thread makes which move; those that are not possible are skipped. */
  type Schedule = seq<(nat, Move)>

  function Run(s: State, schedule: Schedule): State
    decreases |schedule|
  {
    if schedule == [] then s
    else
      var before := Run(s, schedule[..|schedule| - 1]);
      var (i, m) := schedule[|schedule| - 1];
      if Possible(before, i, m) then Made(before, i, m) else before
  }

  // The invariant, in seven parts.

  /** Flags and token: one thread at most ever commits to notifying. */
  ghost predicate TokenInv(s: State) {
    && s.Shaped()
    && s.sent <= 1 && (s.token ==> s.sent == 1)
    && (s.sent == 1 ==> Engaged(s.coord))
    && (forall i :: 0 <= i < |s.pcs| && s.pcs[i].Sending? ==> i == s.committer && s.sent == 0 && Engaged(s.coord))
  }

  /** From the first request on. */
  predicate Engaged(c: Coord) {
    c.requested || c.inFlight || c.completed
  }

  predicate HasOutcome(pc: Pc) {
    pc.SelfAnswering? || pc.AtComplete? || pc.Delivering?
  }

  function OutcomeOf(pc: Pc): Outcome
    requires HasOutcome(pc)
  {
    match pc
    case SelfAnswering(e) => e
    case AtComplete(e) => e
    case Delivering(e, _) => e
  }

  /** The once guard: one save attempt, whose outcome is the only one anybody carries. */
  ghost predicate OnceInv(s: State) {
    && s.Shaped()
    && s.saves == (if s.once.Unused? then 0 else 1)
    && (s.once.Running? ==> s.once.holder < |s.pcs| && s.pcs[s.once.holder].Saving?)
    && (s.coord.completed ==> s.once.Finished? && s.coord.result == Some(s.once.err) && s.coord.waiters == [])
    && (!s.coord.completed ==> s.coord.result == None)
    && (forall i :: 0 <= i < |s.pcs| ==> OnceOk(s.pcs[i], i, s.once, s.coord.completed))
  }

  ghost predicate OnceOk(pc: Pc, i: nat, once: Once, completed: bool) {
    && (pc.Saving? ==> once == Running(i))
    && (HasOutcome(pc) ==> once == Finished(OutcomeOf(pc)))
    && (pc.Delivering? ==> completed)
  }

  ghost predicate Distinct(ws: seq<Waiter>) {
    forall a, b :: 0 <= a < b < |ws| ==> ws[a] != ws[b]
  }

  /** The channels that are owed a result, by the coordinator or by the thread that released them. */
  function Debt(s: State): seq<Waiter> {
    if !s.coord.completed then s.coord.waiters
    else if s.releaser < |s.pcs| && s.pcs[s.releaser].Delivering? then s.pcs[s.releaser].rest
    else []
  }

  /** Registered and unanswered means owed; answered means once, with the one outcome. */
  ghost predicate WaiterOk(s: State, w: nat)
    requires s.Shaped() && w < |s.pcs|
  {
    if s.roles[w].RequesterWaiting? && (s.pcs[w].Done? || s.pcs[w].Sending?) then
      if w in Debt(s) then s.inbox[w] == [] else s.once.Finished? && s.inbox[w] == [s.once.err]
    else
      && s.inbox[w] == [] && w !in Debt(s)
      && (s.roles[w].RequesterWaiting? ==> s.pcs[w].Start? || s.pcs[w].SelfAnswering?)
      && (s.pcs[w].SelfAnswering? ==> s.roles[w].RequesterWaiting?)
  }

  ghost predicate DebtInv(s: State) {
    && s.Shaped()
    && Distinct(Debt(s)) && (forall w :: w in Debt(s) ==> w < |s.pcs|)
    && (forall w :: 0 <= w < |s.pcs| ==> WaiterOk(s, w))
    && (forall i :: 0 <= i < |s.pcs| && s.pcs[i].Delivering? && i != s.releaser ==> s.pcs[i].rest == [])
  }

  /** Thread `i` is committed to sending the token or to beginning. */
  predicate Fetching(s: State, i: nat) {
    i < |s.pcs| && (s.pcs[i].Sending? || s.pcs[i].AboutToBegin?)
  }

  /** Thread `i` has begun and will complete. */
  predicate Servicing(s: State, i: nat) {
    i < |s.pcs| && (s.pcs[i].AtOnce? || s.pcs[i].Saving? || s.pcs[i].AtComplete?)
  }

  /** Before completion a request is on its way to a servicer; a save in flight has one. */
  ghost predicate ProgressInv(s: State) {
    && (s.coord.waiters != [] ==> s.coord.requested || s.coord.inFlight)
    && FetchInv(s) && ServiceInv(s)
  }

  ghost predicate FetchInv(s: State) {
    !s.coord.completed && s.coord.requested ==> s.token || exists i :: Fetching(s, i)
  }

  ghost predicate ServiceInv(s: State) {
    s.coord.inFlight ==> exists i :: Servicing(s, i)
  }

  predicate Servicer(role: Role) {
    role.QueueServicer? || role.SessionServicer?
  }

  /** Only servicers service, and one that is done has completed the suspend. */
  ghost predicate RoleOk(role: Role, pc: Pc, completed: bool) {
    && (pc.Sending? ==> !role.QueueServicer?)
    && (pc.SelfAnswering? ==> role.RequesterWaiting?)
    && (Servicer(role) && pc.Done? ==> completed)
    && (!Servicer(role) ==> pc.Start? || pc.Sending? || pc.SelfAnswering? || pc.Done?)
    && (pc.Gone? ==> role.QueueServicer?)
  }

  ghost predicate RoleInv(s: State) {
    s.Shaped() && forall i :: 0 <= i < |s.pcs| ==> RoleOk(s.roles[i], s.pcs[i], s.coord.completed)
  }

  /** A servicer that has started and not left: it never will. */
  predicate Attending(s: State, k: nat) {
    k < |s.pcs| == |s.roles| && Servicer(s.roles[k]) && !s.pcs[k].Start? && !s.pcs[k].Gone?
  }

  /** A save takes a servicer who stayed. */
  ghost predicate AttendedInv(s: State) {
    s.once.Unused? || exists k :: Attending(s, k)
  }

  /** Somebody other than a service of the channel, which only waits for a request, has made one. */
  ghost predicate Asked(s: State) {
    exists k :: 0 <= k < |s.pcs| == |s.roles| && !s.roles[k].QueueServicer? && !s.pcs[k].Start?
  }

  /** Until somebody asks for it nothing happens. */
  ghost predicate AskedInv(s: State) {
    || Asked(s)
    || (&& !s.token && s.once.Unused? && s.coord == IDLE
        && forall i :: 0 <= i < |s.pcs| ==> s.pcs[i].Start? || s.pcs[i].Gone?)
  }

  ghost predicate Inv(s: State) {
    && TokenInv(s) && OnceInv(s) && DebtInv(s) && ProgressInv(s) && RoleInv(s) && AttendedInv(s)
    && AskedInv(s)
  }

  // Each part is kept by every step.

  lemma TokenKept(s: State, i: nat, err: Outcome)
    requires TokenInv(s) && Enabled(s, i)
    ensures TokenInv(Step(s, i, err))
  {
  }

  lemma OnceQuiet(s: State, i: nat, s': State)
    requires OnceInv(s) && i < |s.pcs| && s'.Shaped() && !s.pcs[i].Saving?
    requires |s'.pcs| == |s.pcs| && s'.pcs == s.pcs[i := s'.pcs[i]]
    requires s'.once == s.once && s'.saves == s.saves && s'.coord.completed == s.coord.completed
    requires s'.coord.result == s.coord.result && (s.coord.completed ==> s'.coord.waiters == [])
    requires OnceOk(s'.pcs[i], i, s.once, s.coord.completed)
    ensures OnceInv(s')
  {
  }

  lemma OnceSave(s: State, i: nat, err: Outcome)
    requires OnceInv(s) && i < |s.pcs| && s.pcs[i].Saving?
    ensures OnceInv(SaveStep(s, i, err))
  {
    var s' := SaveStep(s, i, err);
    forall k | 0 <= k < |s.pcs|
      ensures OnceOk(s'.pcs[k], k, s'.once, s'.coord.completed)
    {
      assert OnceOk(s.pcs[k], k, s.once, s.coord.completed) && OnceOk(s.pcs[i], i, s.once, s.coord.completed);
    }
  }

  lemma OnceAtOnce(s: State, i: nat)
    requires OnceInv(s) && i < |s.pcs| && s.pcs[i].AtOnce? && !s.once.Running?
    ensures OnceInv(OnceStep(s, i))
  {
  }

  lemma OnceComplete(s: State, i: nat)
    requires OnceInv(s) && i < |s.pcs| && s.pcs[i].AtComplete?
    ensures OnceInv(CompleteStep(s, i))
  {
    assert OnceOk(s.pcs[i], i, s.once, s.coord.completed);
  }

  lemma OnceKept(s: State, i: nat, err: Outcome)
    requires OnceInv(s) && Enabled(s, i)
    ensures OnceInv(Step(s, i, err))
  {
    assert OnceOk(s.pcs[i], i, s.once, s.coord.completed);
    match s.pcs[i]
    case AtOnce => OnceAtOnce(s, i);
    case Saving => OnceSave(s, i, err);
    case AtComplete(_) => OnceComplete(s, i);
    case Done =>
    case Gone =>
    case _ => OnceQuiet(s, i, Step(s, i, err));
  }

  lemma FetchKept(s: State, i: nat, err: Outcome)
    requires FetchInv(s) && Enabled(s, i)
    ensures FetchInv(Step(s, i, err))
  {
    var s' := Step(s, i, err);
    assert forall k :: k != i && Fetching(s, k) ==> Fetching(s', k);
    assert Fetching(s, i) ==> Fetching(s', i) || s'.token || !s'.coord.requested;
    assert s.token && !s'.token ==> Fetching(s', i);
    assert s'.coord.requested && !s.coord.requested ==> Fetching(s', i);
  }

  lemma ServiceKept(s: State, i: nat, err: Outcome)
    requires ServiceInv(s) && Enabled(s, i)
    ensures ServiceInv(Step(s, i, err))
  {
    var s' := Step(s, i, err);
    assert forall k :: k != i && Servicing(s, k) ==> Servicing(s', k);
    assert s'.coord.inFlight && Servicing(s, i) ==> Servicing(s', i);
    assert s'.coord.inFlight && !s.coord.inFlight ==> Servicing(s', i);
  }

  /** Steps that send nothing to a waiter and register none. */
  lemma DebtQuiet(s: State, i: nat, pc: Pc, s': State)
    requires DebtInv(s) && i < |s.pcs| && s'.Shaped()
    requires s'.pcs == s.pcs[i := pc] && s'.roles == s.roles && s'.inbox == s.inbox && Debt(s') == Debt(s)
    requires s'.releaser == s.releaser && (s.once.Finished? ==> s'.once == s.once)
    requires WaiterOk(s', i) && (pc.Delivering? ==> i == s'.releaser || pc.rest == [])
    ensures DebtInv(s')
  {
    forall w | 0 <= w < |s.pcs|
      ensures WaiterOk(s', w)
    {
      assert WaiterOk(s, w);
    }
  }

  lemma DebtEnter(s: State, i: nat)
    requires OnceInv(s) && DebtInv(s) && i < |s.pcs| && s.pcs[i].Start? && !s.roles[i].QueueServicer?
    ensures DebtInv(EnterStep(s, i))
  {
    var s' := EnterStep(s, i);
    assert WaiterOk(s, i);
    assert Debt(s') == if s.coord.completed || !s.roles[i].RequesterWaiting? then Debt(s) else Debt(s) + [i];
    forall w | 0 <= w < |s.pcs|
      ensures WaiterOk(s', w)
    {
      assert WaiterOk(s, w);
    }
  }

  lemma DebtDeliver(s: State, i: nat)
    requires OnceInv(s) && DebtInv(s) && i < |s.pcs| && s.pcs[i].Delivering?
    requires s.pcs[i].rest != [] ==> s.pcs[i].rest[0] < |s.inbox|
    ensures DebtInv(DeliverStep(s, i))
  {
    var s' := DeliverStep(s, i);
    assert WaiterOk(s, i);
    if s.pcs[i].rest != [] {
      assert i == s.releaser && Debt(s) == s.pcs[i].rest && Debt(s') == Debt(s)[1..];
      assert OnceOk(s.pcs[i], i, s.once, s.coord.completed);
      assert forall w :: w in Debt(s) <==> w == Debt(s)[0] || w in Debt(s');
      forall w | 0 <= w < |s.pcs|
        ensures WaiterOk(s', w)
      {
        assert WaiterOk(s, w);
      }
    } else {
      DebtQuiet(s, i, Done, s');
    }
  }

  lemma DebtComplete(s: State, i: nat)
    requires OnceInv(s) && DebtInv(s) && i < |s.pcs| && s.pcs[i].AtComplete?
    ensures DebtInv(CompleteStep(s, i))
  {
    var s' := CompleteStep(s, i);
    assert WaiterOk(s, i);
    assert Debt(s') == Debt(s);
    forall w | 0 <= w < |s.pcs|
      ensures WaiterOk(s', w)
    {
      assert WaiterOk(s, w);
    }
  }

  lemma DebtSelf(s: State, i: nat)
    requires OnceInv(s) && DebtInv(s) && i < |s.pcs| && s.pcs[i].SelfAnswering?
    ensures DebtInv(SelfAnswerStep(s, i))
  {
    var s' := SelfAnswerStep(s, i);
    assert WaiterOk(s, i);
    forall w | 0 <= w < |s.pcs|
      ensures WaiterOk(s', w)
    {
      assert WaiterOk(s, w);
    }
  }

  lemma DebtKept(s: State, i: nat, err: Outcome)
    requires OnceInv(s) && DebtInv(s) && Enabled(s, i)
    ensures DebtInv(Step(s, i, err))
  {
    var s' := Step(s, i, err);
    assert WaiterOk(s, i);
    match s.pcs[i]
    case Start =>
      if s.roles[i].QueueServicer? {
        DebtQuiet(s, i, AboutToBegin, s');
      } else {
        DebtEnter(s, i);
      }
    case SelfAnswering(_) => DebtSelf(s, i);
    case AtComplete(_) => DebtComplete(s, i);
    case Delivering(_, _) => DebtDeliver(s, i);
    case Sending => DebtQuiet(s, i, s'.pcs[i], s');
    case AboutToBegin => DebtQuiet(s, i, s'.pcs[i], s');
    case AtOnce => DebtQuiet(s, i, s'.pcs[i], s');
    case Saving => DebtQuiet(s, i, s'.pcs[i], s');
    case Done =>
    case Gone =>
  }

  lemma RoleKept(s: State, i: nat, err: Outcome)
    requires OnceInv(s) && RoleInv(s) && Enabled(s, i)
    ensures RoleInv(Step(s, i, err))
  {
    var s' := Step(s, i, err);
    assert RoleOk(s.roles[i], s.pcs[i], s.coord.completed) && OnceOk(s.pcs[i], i, s.once, s.coord.completed);
    assert s'.roles == s.roles && s'.pcs == s.pcs[i := s'.pcs[i]] && (s.coord.completed ==> s'.coord.completed);
    assert RoleOk(s.roles[i], s'.pcs[i], s'.coord.completed);
  }

  /** No step takes a thread back to its start or away. */
  lemma StepStays(s: State, i: nat, err: Outcome)
    requires Enabled(s, i)
    ensures var s' := Step(s, i, err);
            && s'.roles == s.roles && s'.pcs == s.pcs[i := s'.pcs[i]] && !s'.pcs[i].Start? && !s'.pcs[i].Gone?
            && (s'.once == s.once || s.pcs[i].AtOnce? || s.pcs[i].Saving?)
  {
  }

  lemma AttendedKept(s: State, i: nat, err: Outcome)
    requires RoleInv(s) && AttendedInv(s) && Enabled(s, i)
    ensures AttendedInv(Step(s, i, err))
  {
    var s' := Step(s, i, err);
    StepStays(s, i, err);
    assert RoleOk(s.roles[i], s.pcs[i], s.coord.completed);
    assert forall k :: Attending(s, k) ==> Attending(s', k);
    assert s.pcs[i].AtOnce? || s.pcs[i].Saving? ==> Attending(s', i);
  }

  lemma AskedKept(s: State, i: nat, err: Outcome)
    requires AskedInv(s) && Enabled(s, i)
    ensures AskedInv(Step(s, i, err))
  {
    var s' := Step(s, i, err);
    StepStays(s, i, err);
    if Asked(s) {
      var k :| 0 <= k < |s.pcs| && !s.roles[k].QueueServicer? && !s.pcs[k].Start?;
      assert !s'.pcs[k].Start?;
    } else {
      assert !s'.pcs[i].Start? && !s.roles[i].QueueServicer?;
    }
  }

  lemma InvStep(s: State, i: nat, err: Outcome)
    requires Inv(s) && Enabled(s, i)
    ensures Inv(Step(s, i, err))
  {
    TokenKept(s, i, err);
    OnceKept(s, i, err);
    DebtKept(s, i, err);
    FetchKept(s, i, err);
    ServiceKept(s, i, err);
    RoleKept(s, i, err);
    AttendedKept(s, i, err);
    AskedKept(s, i, err);
  }

  /** Leaving changes nothing but the place of the thread that leaves. */
  lemma InvLeave(s: State, i: nat)
    requires Inv(s) && MayLeave(s, i)
    ensures Inv(Goto(s, i, Gone))
  {
    var s' := Goto(s, i, Gone);
    assert OnceOk(s.pcs[i], i, s.once, s.coord.completed) && WaiterOk(s, i);
    OnceQuiet(s, i, s');
    DebtQuiet(s, i, Gone, s');
    assert forall k :: Fetching(s, k) ==> Fetching(s', k);
    assert forall k :: Servicing(s, k) ==> Servicing(s', k);
    assert forall k :: Attending(s, k) ==> Attending(s', k);
    assert Asked(s) ==> Asked(s');
  }

  lemma {:induction false} InvRun(roles: seq<Role>, schedule: Schedule)
    ensures Inv(Run(Initial(roles), schedule)) && Run(Initial(roles), schedule).roles == roles
    decreases |schedule|
  {
    if schedule != [] {
      InvRun(roles, schedule[..|schedule| - 1]);
      var before := Run(Initial(roles), schedule[..|schedule| - 1]);
      var (i, m) := schedule[|schedule| - 1];
      if MayLeave(before, i) && m.Leave? {
        InvLeave(before, i);
      } else if Enabled(before, i) && m.Proceed? {
        InvStep(before, i, m.err);
        StepStays(before, i, m.err);
      }
    }
  }

  // What the invariant says of every run.

  /**
   Over every interleaving: one save attempt and one notify token at most; a waiter channel never gets a
   second result (so its one slot never blocks the sender), and all results are that attempt's outcome.
   */
  lemma AtMostOnce(roles: seq<Role>, schedule: Schedule)
    ensures var s := Run(Initial(roles), schedule);
            && s.saves <= 1 && s.sent <= 1
            && (forall w :: 0 <= w < |s.inbox| ==> |s.inbox[w]| <= 1)
            && (forall v, w :: 0 <= v < |s.inbox| && 0 <= w < |s.inbox| && s.inbox[v] != [] && s.inbox[w] != [] ==>
                                 s.inbox[v] == s.inbox[w])
  {
    InvRun(roles, schedule);
    var s := Run(Initial(roles), schedule);
    forall w | 0 <= w < |s.inbox|
      ensures s.inbox[w] == [] || (s.once.Finished? && s.inbox[w] == [s.once.err])
    {
      assert WaiterOk(s, w);
    }
  }

  /** Move `k` of the schedule is made, by a thread that is inside the once guard. */
  ghost predicate EndsSave(roles: seq<Role>, schedule: Schedule, k: nat) {
    && k < |schedule|
    && var s := Run(Initial(roles), schedule[..k]);
       var (i, m) := schedule[k];
       Possible(s, i, m) && s.pcs[i].Saving?
  }

  /** Move `k`, and no other, ends a save, and that save comes to `o`. */
  ghost predicate OneSave(roles: seq<Role>, schedule: Schedule, k: nat, o: Outcome) {
    && EndsSave(roles, schedule, k) && schedule[k].1 == Proceed(o)
    && forall j :: EndsSave(roles, schedule, j) ==> j == k
  }

  /** The guard remembers what the one save of a run came to, and nothing before there was one. */
  ghost predicate GuardTells(roles: seq<Role>, schedule: Schedule) {
    var once := Run(Initial(roles), schedule).once;
    if once.Finished? then exists k :: OneSave(roles, schedule, k, once.err)
    else forall j :: !EndsSave(roles, schedule, j)
  }

  /** Only the end of a save settles the guard. */
  lemma OnlySaveSettles(s: State, i: nat, m: Move)
    requires OnceInv(s) && Possible(s, i, m)
    ensures var s' := Made(s, i, m);
            if s.pcs[i].Saving? then m.Proceed? && !s.once.Finished? && s'.once == Finished(m.err)
            else (if s.once.Finished? then s'.once == s.once else !s'.once.Finished?)
  {
    assert OnceOk(s.pcs[i], i, s.once, s.coord.completed);
  }

  lemma EarlierSaves(roles: seq<Role>, schedule: Schedule)
    requires schedule != []
    ensures var n := |schedule| - 1;
            forall k :: 0 <= k < n ==> (EndsSave(roles, schedule, k) <==> EndsSave(roles, schedule[..n], k))
  {
    forall k | 0 <= k < |schedule| - 1
      ensures EndsSave(roles, schedule, k) <==> EndsSave(roles, schedule[..|schedule| - 1], k)
    {
      assert schedule[..|schedule| - 1][..k] == schedule[..k];
    }
  }

  /** A move that ends no save: the guard tells what it told. */
  lemma GuardQuiet(roles: seq<Role>, schedule: Schedule)
    requires schedule != [] && GuardTells(roles, schedule[..|schedule| - 1])
    requires !EndsSave(roles, schedule, |schedule| - 1)
    ensures GuardTells(roles, schedule)
  {
    var n := |schedule| - 1;
    var earlier := schedule[..n];
    var (i, m) := schedule[n];
    var before := Run(Initial(roles), earlier);
    EarlierSaves(roles, schedule);
    InvRun(roles, earlier);
    if Possible(before, i, m) {
      OnlySaveSettles(before, i, m);
    }
    if before.once.Finished? {
      var k :| OneSave(roles, earlier, k, before.once.err);
      assert OneSave(roles, schedule, k, before.once.err);
    }
  }

  /** One that ends a save is the first, and settles the guard. */
  lemma GuardSettled(roles: seq<Role>, schedule: Schedule)
    requires schedule != [] && GuardTells(roles, schedule[..|schedule| - 1])
    requires EndsSave(roles, schedule, |schedule| - 1)
    ensures GuardTells(roles, schedule)
  {
    var n := |schedule| - 1;
    var (i, m) := schedule[n];
    EarlierSaves(roles, schedule);
    InvRun(roles, schedule[..n]);
    OnlySaveSettles(Run(Initial(roles), schedule[..n]), i, m);
    assert OneSave(roles, schedule, n, m.err);
  }

  lemma {:induction false} GuardRemembers(roles: seq<Role>, schedule: Schedule)
    ensures GuardTells(roles, schedule)
    decreases |schedule|
  {
    if schedule != [] {
      GuardRemembers(roles, schedule[..|schedule| - 1]);
      if EndsSave(roles, schedule, |schedule| - 1) {
        GuardSettled(roles, schedule);
      } else {
        GuardQuiet(roles, schedule);
      }
    }
  }

  /** Somebody has `o`: a waiter that was sent it, a thread that carries it, or the coordinator. */
  ghost predicate Reported(s: State, o: Outcome) {
    || (exists w :: 0 <= w < |s.inbox| && o in s.inbox[w])
    || (exists t :: 0 <= t < |s.pcs| && HasOutcome(s.pcs[t]) && OutcomeOf(s.pcs[t]) == o)
    || s.coord.result == Some(o)
  }

  /**
   Whatever anybody is told is what the save came to: some move of the schedule was made by a thread inside the
   once guard, it ended the save with that very outcome, and no other move of the run ended a save.
   */
  lemma ResultIsTheSaves(roles: seq<Role>, schedule: Schedule, o: Outcome)
    requires Reported(Run(Initial(roles), schedule), o)
    ensures exists k :: OneSave(roles, schedule, k, o)
  {
    InvRun(roles, schedule);
    GuardRemembers(roles, schedule);
    var s := Run(Initial(roles), schedule);
    assert s.once == Finished(o) by {
      if w :| 0 <= w < |s.inbox| && o in s.inbox[w] {
        assert WaiterOk(s, w);
      } else if t :| 0 <= t < |s.pcs| && HasOutcome(s.pcs[t]) && OutcomeOf(s.pcs[t]) == o {
        assert OnceOk(s.pcs[t], t, s.once, s.coord.completed);
      }
    }
  }

  /** Nobody is saved unasked: a save takes a request, or a session that suspends itself. */
  lemma SaveIsAsked(roles: seq<Role>, schedule: Schedule)
    requires Run(Initial(roles), schedule).saves > 0 && |Run(Initial(roles), schedule).pcs| == |roles|
    ensures exists k :: 0 <= k < |roles| && !roles[k].QueueServicer? && !Run(Initial(roles), schedule).pcs[k].Start?
  {
    InvRun(roles, schedule);
  }

  /** The thread that will carry a result to a registered waiter who has none yet, or the token that will summon one. */
  ghost predicate OnItsWay(s: State) {
    || s.token
    || (exists i :: Fetching(s, i))
    || (exists i :: Servicing(s, i))
    || (s.releaser < |s.pcs| && s.pcs[s.releaser].Delivering?)
  }

  lemma UnansweredIsOnItsWay(roles: seq<Role>, schedule: Schedule, w: nat)
    requires var s := Run(Initial(roles), schedule);
             && w < |roles| && roles[w].RequesterWaiting? && |s.pcs| == |s.inbox| == |roles|
             && (s.pcs[w].Done? || s.pcs[w].Sending?) && s.inbox[w] == []
    ensures OnItsWay(Run(Initial(roles), schedule))
  {
    InvRun(roles, schedule);
    var s := Run(Initial(roles), schedule);
    assert WaiterOk(s, w);
    assert w in Debt(s);
  }

  // Every run comes to an end, and then everybody is answered.

  function Rank(pc: Pc): nat {
    match pc
    case Start => 9
    case Sending => 7
    case SelfAnswering(_) => 1
    case AboutToBegin => 6
    case AtOnce => 5
    case Saving => 4
    case AtComplete(_) => 3
    case Delivering(_, rest) => 1 + |rest|
    case Done => 0
    case Gone => 0
  }

  function RankSum(pcs: seq<Pc>, n: nat): nat
    requires n <= |pcs|
  {
    if n == 0 then 0 else RankSum(pcs, n - 1) + Rank(pcs[n - 1])
  }

  lemma {:induction false} RankSumUpdate(pcs: seq<Pc>, i: nat, pc: Pc, n: nat)
    requires i < |pcs| && n <= |pcs|
    ensures RankSum(pcs[i := pc], n) == RankSum(pcs, n) + if i < n then Rank(pc) - Rank(pcs[i]) else 0
  {
    if n > 0 {
      RankSumUpdate(pcs, i, pc, n - 1);
    }
  }

  function Work(s: State): nat {
    RankSum(s.pcs, |s.pcs|) + |s.coord.waiters|
  }

  /** The thread that moves has less before it, counting the waiters it registers or takes over. */
  predicate Lighter(s: State, i: nat, s': State) {
    && i < |s.pcs| && |s'.pcs| == |s.pcs| && s'.pcs == s.pcs[i := s'.pcs[i]]
    && Rank(s'.pcs[i]) + |s'.coord.waiters| < Rank(s.pcs[i]) + |s.coord.waiters|
  }

  lemma EnterLighter(s: State, i: nat)
    requires i < |s.pcs| == |s.roles| && s.pcs[i].Start?
    ensures Lighter(s, i, EnterStep(s, i))
  {
  }

  lemma DeliverLighter(s: State, i: nat)
    requires i < |s.pcs| && s.pcs[i].Delivering? && (s.pcs[i].rest != [] ==> s.pcs[i].rest[0] < |s.inbox|)
    ensures Lighter(s, i, DeliverStep(s, i))
  {
  }

  lemma CompleteLighter(s: State, i: nat)
    requires i < |s.pcs| && s.pcs[i].AtComplete?
    ensures Lighter(s, i, CompleteStep(s, i))
  {
  }

  lemma StepLighter(s: State, i: nat, err: Outcome)
    requires Enabled(s, i)
    ensures Lighter(s, i, Step(s, i, err))
  {
    match s.pcs[i]
    case Start =>
      if !s.roles[i].QueueServicer? {
        EnterLighter(s, i);
      }
    case Delivering(_, _) => DeliverLighter(s, i);
    case AtComplete(_) => CompleteLighter(s, i);
    case _ =>
  }

  /** Every move leaves less work. */
  lemma MoveWorks(s: State, i: nat, m: Move)
    requires Possible(s, i, m)
    ensures Work(Made(s, i, m)) < Work(s)
  {
    if m.Proceed? {
      StepLighter(s, i, m.err);
    }
    LighterWorks(s, i, Made(s, i, m));
  }

  lemma LighterWorks(s: State, i: nat, s': State)
    requires Lighter(s, i, s')
    ensures Work(s') < Work(s)
  {
    RankSumUpdate(s.pcs, i, s'.pcs[i], |s.pcs|);
  }

  lemma {:induction false} InitialWork(roles: seq<Role>, n: nat)
    requires n <= |roles|
    ensures RankSum(Initial(roles).pcs, n) == 9 * n
  {
    if n > 0 {
      InitialWork(roles, n - 1);
    }
  }

  /** How many moves of a schedule were made. */
  function Moves(s: State, schedule: Schedule): nat
    decreases |schedule|
  {
    if schedule == [] then 0
    else
      var earlier := schedule[..|schedule| - 1];
      var (i, m) := schedule[|schedule| - 1];
      Moves(s, earlier) + if Possible(Run(s, earlier), i, m) then 1 else 0
  }

  /** No run makes more than nine moves per thread. */
  lemma {:induction false} RunEnds(roles: seq<Role>, schedule: Schedule)
    ensures Moves(Initial(roles), schedule) + Work(Run(Initial(roles), schedule)) <= 9 * |roles|
    decreases |schedule|
  {
    if schedule == [] {
      InitialWork(roles, |roles|);
    } else {
      var earlier := schedule[..|schedule| - 1];
      var (i, m) := schedule[|schedule| - 1];
      RunEnds(roles, earlier);
      if Possible(Run(Initial(roles), earlier), i, m) {
        MoveWorks(Run(Initial(roles), earlier), i, m);
      }
    }
  }

  ghost predicate EveryoneAnswered(s: State) {
    && s.Shaped()
    && forall w :: 0 <= w < |s.roles| && s.roles[w].RequesterWaiting? ==>
                     s.once.Finished? && s.inbox[w] == [s.once.err]
  }

  /** No thread can take a step; a queue servicer that waits for a token may still be there, or leave. */
  ghost predicate Stuck(s: State) {
    forall i :: 0 <= i < |s.pcs| ==> !Enabled(s, i)
  }

  ghost predicate HasWaiter(roles: seq<Role>) {
    exists w :: 0 <= w < |roles| && roles[w].RequesterWaiting?
  }

  /** A servicer that has not left: a session that suspends itself never does. */
  predicate Stays(s: State, k: nat) {
    k < |s.pcs| == |s.roles| && Servicer(s.roles[k]) && !s.pcs[k].Gone?
  }

  /** Only a servicer waiting for a token, or for another's save, is ever held up. */
  lemma Movable(s: State, i: nat)
    requires Inv(s) && i < |s.pcs|
    ensures || s.pcs[i].Done? || s.pcs[i].Gone? || (s.pcs[i].Start? && s.roles[i].QueueServicer? && !s.token)
            || Enabled(s, i) || (s.once.Running? && s.once.holder < |s.pcs| && Enabled(s, s.once.holder))
  {
    if s.pcs[i].Delivering? && s.pcs[i].rest != [] {
      assert i == s.releaser && s.pcs[i].rest[0] in Debt(s);
    }
  }

  /** Where the threads of a run are that cannot take another step. */
  lemma StuckPlaces(s: State, i: nat)
    requires Inv(s) && Stuck(s) && i < |s.pcs|
    ensures s.pcs[i].Done? || s.pcs[i].Gone? || (s.pcs[i].Start? && s.roles[i].QueueServicer? && !s.token)
  {
    Movable(s, i);
  }

  /** With a servicer who stayed nothing is owed any more: it has completed the suspend, or nobody asked for one. */
  lemma StuckOwesNothing(s: State, k: nat)
    requires Inv(s) && Stuck(s) && Stays(s, k)
    ensures Debt(s) == []
  {
    forall i | 0 <= i < |s.pcs|
      ensures s.pcs[i].Done? || s.pcs[i].Gone? || (s.pcs[i].Start? && s.roles[i].QueueServicer? && !s.token)
    {
      StuckPlaces(s, i);
    }
    assert RoleOk(s.roles[k], s.pcs[k], s.coord.completed);
    if !s.coord.completed {
      assert !s.token;
      assert forall i :: !Fetching(s, i) && !Servicing(s, i);
    }
  }

  /** A save that was ever begun takes a servicer who has not left. */
  lemma SaveNeedsServicer(roles: seq<Role>, schedule: Schedule)
    requires !Run(Initial(roles), schedule).once.Unused?
    ensures exists k :: Stays(Run(Initial(roles), schedule), k)
  {
    InvRun(roles, schedule);
    var s := Run(Initial(roles), schedule);
    var k :| Attending(s, k);
    assert Stays(s, k);
  }

  /**
   A run in which no thread can take another step has answered every waiter exactly once, all with the same
   outcome, if and only if some servicer has not left. With nobody to wait there is nothing to answer.
   */
  lemma AllAnsweredIff(roles: seq<Role>, schedule: Schedule)
    requires Stuck(Run(Initial(roles), schedule))
    ensures var s := Run(Initial(roles), schedule);
            && s.roles == roles
            && (EveryoneAnswered(s) <==> !HasWaiter(roles) || exists k :: Stays(s, k))
  {
    InvRun(roles, schedule);
    var s := Run(Initial(roles), schedule);
    if k :| Stays(s, k) {
      StuckOwesNothing(s, k);
      forall w | 0 <= w < |roles| && roles[w].RequesterWaiting?
        ensures s.once.Finished? && s.inbox[w] == [s.once.err]
      {
        assert WaiterOk(s, w);
        assert RoleOk(roles[w], s.pcs[w], s.coord.completed);
        StuckPlaces(s, w);
      }
    } else if !s.once.Unused? {
      SaveNeedsServicer(roles, schedule);
    }
  }

  /** What a caller can see beforehand: a session that suspends itself answers everybody. */
  lemma SessionAnswers(roles: seq<Role>, schedule: Schedule, k: nat)
    requires Stuck(Run(Initial(roles), schedule)) && k < |roles| && roles[k].SessionServicer?
    ensures EveryoneAnswered(Run(Initial(roles), schedule))
  {
    InvRun(roles, schedule);
    var s := Run(Initial(roles), schedule);
    assert RoleOk(s.roles[k], s.pcs[k], s.coord.completed);
    assert Stays(s, k);
    AllAnsweredIff(roles, schedule);
  }

  /**
   The only servicer leaves, then a waiter registers and sends its token: no thread can move, the token stays
   where it is, and nobody ever answers.
   */
  lemma LeavingServicerLosesWaiter(err: Outcome)
    ensures var roles := [RequesterWaiting, QueueServicer];
            var schedule := [(1, Leave), (0, Proceed(err)), (0, Proceed(err))];
            var s := Run(Initial(roles), schedule);
            Stuck(s) && s.token && s.pcs == [Done, Gone] && s.inbox == [[], []] && !EveryoneAnswered(s)
  {
    var roles, leave, proceed := [RequesterWaiting, QueueServicer], (1, Leave), (0, Proceed(err));
    var initial := Initial(roles);
    var one: Schedule, two: Schedule, three: Schedule := [leave], [leave, proceed], [leave, proceed, proceed];
    assert one[..0] == [] && two[..1] == one && three[..2] == two;
    var left, registered := Goto(initial, 1, Gone), EnterStep(Goto(initial, 1, Gone), 0);
    assert Run(initial, one) == left;
    assert Run(initial, two) == registered && registered.pcs == [Sending, Gone];
    assert Run(initial, three) == SendStep(registered, 0);
  }
}
