/**
 The QMP and QGA clients over one session (backend/qemu/internal/qmpwire/session.go,
 backend/qemu/internal/qmpclient/qmp.go, backend/qemu/internal/qga/qga.go), one operation at a time.

 The peer follows sections 2.3 to 2.5 of the QEMU Machine Protocol Specification: one reply per command,
 in order, with events anywhere. Everything it will ever send is an arbitrary finite script; reading
 past what it has been asked for, a timeout, an interrupt or a torn frame all end in a failed read.
 */
module WireClient {
  import opened Wrappers

  datatype Message =
    | Greeting
    | Leftover(sync: bool)  // meant for an earlier connection; `sync` if it answers that one's guest sync
    | Event(name: string, device: Option<string>)
    | Return(tag: nat)
    | Error(tag: nat, class_: string, desc: string)
    | Merged(tag: nat)  // a reply run together with a leftover cut off behind its sentinel
  {
    /** Answers a command; `tag` is the number of that command on this connection. */
    predicate IsReply() { Return? || Error? || Merged? }
  }

  datatype Failure =
    | Wire            // position in the stream unknown
    | Server(tag: nat)  // a complete error reply
    | Local           // nothing wrong with the stream
    | Ended           // the caller's context was over before anything was sent
    | Broken          // refused because of an earlier failure

  const DEVICE_DELETED := "DEVICE_DELETED"

  /** Replies among the first `k` messages. */
  ghost function Replies(script: seq<Message>, k: nat): nat
    requires k <= |script|
  {
    if k == 0 then 0 else Replies(script, k - 1) + if script[k - 1].IsReply() then 1 else 0
  }

  /** One reply per command, in order; leftovers come first of all, and a greeting is the first message. */
  ghost predicate InOrder(script: seq<Message>) {
    forall k :: 0 <= k < |script| ==>
      && (script[k].IsReply() ==> script[k].tag == Replies(script, k))
      && (script[k].Greeting? ==> k == 0)
      && (script[k].Leftover? || script[k].Merged? ==> forall j :: 0 <= j < k ==> script[j].Leftover?)
  }

  /** A leftover that another connection's sync asked for, and that this one's cannot tell from its own answer. */
  ghost predicate Misleading(script: seq<Message>) {
    Leftover(true) in script
  }

  /** The answer to this connection's sync is lost in a leftover cut off before it. */
  ghost predicate Swallowed(script: seq<Message>) {
    Merged(0) in script
  }

  /** What a client takes for success: a return, or, unless it is strict, an error that describes nothing. */
  predicate Accepted(m: Message, strict: bool) {
    m.Return? || (m.Error? && !strict && m.desc == "")
  }

  predicate Rejected(m: Message, strict: bool) {
    m.Error? && (strict || m.desc != "")
  }

  /** The peer answers command `tag`, and the client takes that for success or for failure. */
  ghost predicate AnsweredWell(script: seq<Message>, tag: nat, strict: bool) {
    exists m :: m in script && m.IsReply() && m.tag == tag && Accepted(m, strict)
  }

  ghost predicate AnsweredBadly(script: seq<Message>, tag: nat, strict: bool) {
    exists m :: m in script && m.IsReply() && m.tag == tag && Rejected(m, strict)
  }

  /** `faults` counts the failures that are not the peer's silence: of the connection, by a timeout or an interrupt. */
  class Conn {
    const script: seq<Message>
    var pos: nat
    var sent: nat
    var io: nat
    ghost var torn: bool
    ghost var faults: nat

    ghost predicate Valid() reads this {
      pos <= |script| && InOrder(script)
    }

    /** Every reply asked for has been read, and nothing else is pending. */
    ghost predicate Aligned() reads this {
      Valid() && !torn && Replies(script, pos) == sent && Started()
    }

    /** One reply is outstanding. */
    ghost predicate Awaiting() reads this {
      Valid() && !torn && Replies(script, pos) + 1 == sent && Started()
    }

    /** Past the greeting and everything left over. */
    ghost predicate Started() reads this {
      pos < |script| ==> !script[pos].Greeting? && !script[pos].Leftover? && !script[pos].Merged?
    }

    constructor (script: seq<Message>)
      requires InOrder(script)
      ensures Valid() && this.script == script && pos == 0 && sent == 0 && io == 0 && !torn
    {
      this.script, pos, sent, io, torn, faults := script, 0, 0, 0, false, 0;
    }

    /** Does something outside make the next step fail? */
    method Chance() returns (fails: bool)
      modifies this`faults
      ensures faults >= old(faults) && (fails <==> faults > old(faults))
    {
      fails := *;
      if fails {
        faults := faults + 1;
      }
    }

    /** A failed write may still have delivered the command. */
    method Send() returns (ok: bool)
      requires Valid()
      modifies this
      ensures Valid() && io == old(io) + 1 && pos == old(pos)
      ensures ok ==> sent == old(sent) + 1 && torn == old(torn)
      ensures !ok ==> torn && old(sent) <= sent
      ensures faults >= old(faults) && (!ok <==> faults > old(faults))
    {
      var delivered: bool := *;
      var fails := Chance();
      ok := !fails;
      io := io + 1;
      if ok || delivered {
        sent := sent + 1;
      }
      if !ok {
        torn := true;
      }
    }

    /** The reply to command `tag` cannot arrive before the command was sent. */
    method Receive() returns (r: Result<Message, Failure>)
      requires Valid()
      modifies this
      ensures Valid() && io == old(io) + 1 && sent == old(sent) && old(pos) <= pos
      ensures r.Ok? ==> && old(pos) < |script| && r.value == script[old(pos)] && pos == old(pos) + 1
                        && torn == old(torn) && (r.value.IsReply() ==> r.value.tag < sent)
      ensures r.Err? ==> r.error == Wire && torn
      ensures faults >= old(faults)
      ensures r.Err? && faults == old(faults) ==>
                old(pos) == |script| || (script[old(pos)].IsReply() && script[old(pos)].tag >= sent)
    {
      io := io + 1;
      var fails := Chance();
      if fails || pos == |script| || (script[pos].IsReply() && script[pos].tag >= sent) {
        var somewhere: nat :| pos <= somewhere <= |script|;
        pos, torn := somewhere, true;
        return Err(Wire);
      }
      r := Ok(script[pos]);
      pos := pos + 1;
    }

    /** `readResponse` (QMP): only an error with a description fails. `run` (QGA): any error does. */
    method ReadResponse(strict: bool) returns (r: Result<Message, Failure>)
      requires Valid()
      modifies this
      ensures Valid() && sent == old(sent) && old(pos) <= pos && faults >= old(faults)
      ensures r.Ok? || r.error.Server? ==> torn == old(torn)
      ensures r.Err? ==> r.error.Server? || (r.error == Wire && torn)
      // What is returned is the first message that is no event: as success when it is no error to this client ...
      ensures r.Ok? ==> && old(pos) < pos && r.value == script[pos - 1] && Events(old(pos), pos - 1)
                        && !r.value.Event? && !Rejected(r.value, strict)
      // ... and as a failure when it is one.
      ensures r.Err? && r.error.Server? ==> && old(pos) < pos && Events(old(pos), pos - 1)
                                            && Rejected(script[pos - 1], strict) && script[pos - 1].tag == r.error.tag
      // The reply read is the one outstanding.
      ensures old(Awaiting()) && r.Ok? ==> Aligned() && Accepted(r.value, strict) && r.value.tag == sent - 1
      ensures old(Awaiting()) && r.Err? && r.error.Server? ==> Aligned() && r.error.tag == sent - 1
      // Left to itself it reads a reply if there is one.
      ensures old(Awaiting()) && r == Err(Wire) && faults == old(faults) ==> Events(old(pos), |script|)
    {
      while true
        invariant Valid() && sent == old(sent) && old(pos) <= pos && torn == old(torn) && faults >= old(faults)
        invariant old(Awaiting()) ==> Awaiting()
        invariant Events(old(pos), pos)
        decreases |script| - pos
      {
        var envelope :- Receive();
        if envelope.Merged? {
          torn := true;
          return Err(Wire);
        }
        if envelope.Event? {
          continue;
        }
        if envelope.Error? && (strict || envelope.desc != "") {
          return Err(Server(envelope.tag));
        }
        return Ok(envelope);
      }
    }

    /** `Run`: one command and its answer, which the peer alone decides, short of a fault. */
    method Run(strict: bool) returns (r: Result<Message, Failure>)
      requires Aligned()
      modifies this
      ensures Valid() && old(sent) <= sent && old(pos) <= pos && faults >= old(faults)
      ensures r.Err? ==> r.error == Wire || r.error == Server(old(sent))
      ensures r != Err(Wire) ==> Aligned() && sent == old(sent) + 1
      ensures r.Ok? ==> r.value.IsReply() && r.value.tag == old(sent) && AnsweredWell(script, old(sent), strict)
      ensures r.Ok? ==> old(pos) < pos && script[pos - 1] == r.value
      ensures r.Err? && r.error.Server? ==> AnsweredBadly(script, old(sent), strict)
      ensures r == Err(Wire) && faults == old(faults) ==> Unanswered(script, old(sent))
    {
      var ok := Send();
      if !ok {
        return Err(Wire);
      }
      r := ReadResponse(strict);
      if r == Err(Wire) {
        if faults == old(faults) {
          SilenceUnanswered(script, old(pos), old(sent));
        }
      } else {
        assert script[pos - 1] in script;
      }
    }

    /** Nothing but events from `a` up to `b`. */
    ghost predicate Events(a: nat, b: nat) {
      forall k :: a <= k < b && k < |script| ==> script[k].Event?
    }

    /** No reason to end the wait for `id`: no error with a description, nothing malformed, not this device. */
    predicate Passes(m: Message, id: string) {
      && !m.Merged? && !(m.Error? && m.desc != "")
      && !(m.Event? && m.name == DEVICE_DELETED && (m.device.None? || m.device.value == id))
    }

    /** Everything from `a` up to message `k` passes; then there is no more, or what ends the wait without the event. */
    ghost predicate EndsWait(a: nat, k: nat, id: string, sent: nat) {
      && a <= k <= |script| && (forall j :: a <= j < k ==> Passes(script[j], id))
      && (k < |script| ==> || (!Passes(script[k], id) && script[k] != Event("DEVICE_DELETED", Some(id)))
                           || (script[k].IsReply() && script[k].tag >= sent))
    }

    method WaitDeviceDeleted(id: string) returns (r: Result<(), Failure>)
      requires Valid()
      modifies this
      ensures Valid() && sent == old(sent) && old(pos) <= pos && faults >= old(faults)
      ensures r.Ok? || r.error.Server? ==> torn == old(torn)
      ensures r.Err? ==> r.error.Server? || r.error == Wire
      // Success means the event for this very device was received, and nothing before it ended the wait.
      ensures r.Ok? ==> && old(pos) < pos && script[pos - 1] == Event("DEVICE_DELETED", Some(id))
                        && forall k :: old(pos) <= k < pos - 1 ==> Passes(script[k], id)
      ensures r.Err? && r.error.Server? ==>
                && old(pos) < pos && script[pos - 1].Error?
                && script[pos - 1].desc != "" && script[pos - 1].tag == r.error.tag
      // Left to itself it waits for the event if there is one: up to the first message that ends the wait.
      ensures r == Err(Wire) && faults == old(faults) && old(Aligned()) ==>
                exists k :: EndsWait(old(pos), k, id, sent)
      // With no reply outstanding none can be swallowed.
      ensures old(Aligned()) && r.Ok? ==> Aligned()
      ensures old(Aligned()) && r.Err? ==> r.error == Wire
    {
      while true
        invariant Valid() && sent == old(sent) && old(pos) <= pos && torn == old(torn) && faults >= old(faults)
        invariant old(Aligned()) ==> Aligned()
        invariant forall k :: old(pos) <= k < pos ==> Passes(script[k], id)
        decreases |script| - pos
      {
        assert pos == |script| || (script[pos].IsReply() && script[pos].tag >= sent) ==>
                 EndsWait(old(pos), pos, id, sent);
        var received := Receive();
        if received.Err? {
          return Err(received.error);
        }
        assert !Passes(script[pos - 1], id) && script[pos - 1] != Event("DEVICE_DELETED", Some(id)) ==>
                 EndsWait(old(pos), pos - 1, id, sent);
        var envelope := received.value;
        if envelope.Merged? {
          torn := true;
          return Err(Wire);
        }
        if envelope.Error? && envelope.desc != "" {
          return Err(Server(envelope.tag));
        }
        if !envelope.Event? || envelope.name != DEVICE_DELETED {
          continue;
        }
        if envelope.device.None? {
          return Err(Wire);
        }
        if envelope.device.value == id {
          return Ok(());
        }
      }
    }
  }

  /** What one session operation does, in order, until the first failure. */
  datatype Action =
    | Command(strict: bool)
    | AwaitDeleted(id: string)
    | FailLocally

  type Operation = seq<Action>

  /** Commands among the first `k` actions. */
  function Commands(op: Operation, k: nat): nat
    requires k <= |op|
  {
    if k == 0 then 0 else Commands(op, k - 1) + if op[k - 1].Command? then 1 else 0
  }

  lemma {:induction false} CommandsGrow(op: Operation, k: nat)
    requires k <= |op|
    ensures forall j :: 0 <= j <= k ==> Commands(op, j) <= Commands(op, k)
  {
    if k > 0 {
      CommandsGrow(op, k - 1);
    }
  }

  /** `tags` numbers consecutive commands from `base` on. */
  ghost predicate Consecutive(tags: seq<nat>, base: nat) {
    forall i :: 0 <= i < |tags| ==> tags[i] == base + i
  }

  /** The deletion of `id` was announced among the messages from `from` up to `till`. */
  ghost predicate Announced(script: seq<Message>, from: nat, till: nat, id: string) {
    exists m :: from <= m < till <= |script| && script[m] == Event(DEVICE_DELETED, Some(id))
  }

  ghost predicate AllAnnounced(script: seq<Message>, op: Operation, n: nat, from: nat, till: nat)
    requires n <= |op|
  {
    forall k :: 0 <= k < n && op[k].AwaitDeleted? ==> Announced(script, from, till, op[k].id)
  }

  /** Every command among the first `n` actions was answered, and by no error to its client. */
  ghost predicate AllAccepted(script: seq<Message>, op: Operation, n: nat, base: nat)
    requires n <= |op|
  {
    forall i :: 0 <= i < n && op[i].Command? ==> AnsweredWell(script, base + Commands(op, i), op[i].strict)
  }

  /** The first `n` actions are done, between the messages `from` and `till`, and took the replies `tags`. */
  ghost predicate DoneSoFar(script: seq<Message>, op: Operation, n: nat, base: nat, from: nat, till: nat,
                            tags: seq<nat>)
    requires n <= |op|
  {
    && |tags| == Commands(op, n) && Consecutive(tags, base)
    && AllAccepted(script, op, n, base) && AllAnnounced(script, op, n, from, till)
  }

  lemma DoneMore(script: seq<Message>, op: Operation, n: nat, base: nat, from: nat, till: nat,
                 tags: seq<nat>, later: nat, own: seq<nat>)
    requires n < |op| && till <= later <= |script| && DoneSoFar(script, op, n, base, from, till, tags)
    requires own == if op[n].Command? then [base + |tags|] else []
    requires op[n].Command? ==> AnsweredWell(script, base + |tags|, op[n].strict)
    requires op[n].AwaitDeleted? ==> Announced(script, from, later, op[n].id)
    ensures DoneSoFar(script, op, n + 1, base, from, later, tags + own)
  {
  }

  /** Command `tag` is one of the operation's own, and was answered by an error to its client. */
  ghost predicate OneRefused(script: seq<Message>, op: Operation, base: nat, tag: nat) {
    exists i :: 0 <= i < |op| && op[i].Command? && tag == base + Commands(op, i)
                && AnsweredBadly(script, tag, op[i].strict)
  }

  /** The answer to command `tag` is followed by the deletion of `id`, with nothing between that would end the wait. */
  ghost predicate DeletionFollows(script: seq<Message>, tag: nat, id: string) {
    exists m: nat, k: nat :: DeletionAt(script, tag, id, m, k)
  }

  ghost predicate DeletionAt(script: seq<Message>, tag: nat, id: string, m: nat, k: nat) {
    && m < k < |script| && script[m].IsReply() && script[m].tag == tag && script[k] == Event("DEVICE_DELETED", Some(id))
    && forall j :: m < j < k ==>
         && !script[j].IsReply() && !script[j].Merged?
         && (script[j].Event? && script[j].name == "DEVICE_DELETED" ==>
               script[j].device.Some? && script[j].device.value != id)
  }

  /** A wait right after the answer to its command that this deletion does not follow. */
  ghost predicate OneUnannounced(script: seq<Message>, op: Operation, base: nat) {
    exists i :: 0 < i < |op| && op[i].AwaitDeleted? && op[i - 1].Command?
                && !DeletionFollows(script, base + Commands(op, i - 1), op[i].id)
  }

  /** Waits come right after commands. */
  ghost predicate WaitsFollow(op: Operation) {
    forall i :: 0 <= i < |op| && op[i].AwaitDeleted? ==> 0 < i && op[i - 1].Command?
  }

  /** One of the operation's own commands is never answered. */
  ghost predicate OneUnanswered(script: seq<Message>, op: Operation, base: nat) {
    exists i :: 0 <= i < |op| && op[i].Command? && Unanswered(script, base + Commands(op, i))
  }

  /** The peer keeps something back that the operation waits for. */
  ghost predicate Forsaken(script: seq<Message>, op: Operation, base: nat) {
    OneUnanswered(script, op, base) || OneUnannounced(script, op, base) || !WaitsFollow(op)
  }

  /**
   Why an operation fails: by the server's word on one of its commands, by its own choice, or because the peer
   keeps something back; the latter two unless something outside had a hand in it (`quiet` false).
   */
  ghost predicate StopsBy(script: seq<Message>, op: Operation, base: nat, f: Failure, quiet: bool) {
    && (f.Server? ==> OneRefused(script, op, base, f.tag))
    && (f.Local? && quiet ==> FailLocally in op)
    && (f.Wire? && quiet ==> Forsaken(script, op, base))
  }

  /** It is action `i` that failed. */
  lemma StopMeans(script: seq<Message>, op: Operation, i: nat, base: nat, f: Failure, quiet: bool)
    requires i < |op| && (f.Local? ==> op[i].FailLocally?) && (f.Wire? ==> !op[i].FailLocally?)
    requires f.Server? ==> && op[i].Command? && f.tag == base + Commands(op, i)
                           && AnsweredBadly(script, f.tag, op[i].strict)
    requires f.Wire? && quiet && op[i].Command? ==> Unanswered(script, base + Commands(op, i))
    requires f.Wire? && quiet && op[i].AwaitDeleted? && 0 < i && op[i - 1].Command? ==>
               !DeletionFollows(script, base + Commands(op, i - 1), op[i].id)
    ensures StopsBy(script, op, base, f, quiet)
  {
  }

  ghost predicate Unanswered(script: seq<Message>, tag: nat) {
    forall m :: m in script && m.IsReply() ==> m.tag != tag
  }

  lemma {:induction false} RepliesGrow(script: seq<Message>, j: nat, k: nat)
    requires j <= k <= |script|
    ensures Replies(script, j) <= Replies(script, k)
  {
    if j < k {
      RepliesGrow(script, j, k - 1);
    }
  }

  /** No command is answered twice. */
  lemma OneAnswer(script: seq<Message>, j: nat, k: nat)
    requires InOrder(script) && j < |script| && k < |script| && script[j].IsReply() && script[k].IsReply()
    requires script[j].tag == script[k].tag
    ensures j == k
  {
    if j < k {
      RepliesGrow(script, j + 1, k);
    } else if k < j {
      RepliesGrow(script, k + 1, j);
    }
  }

  /** So an answer is taken for success or for failure, never both, and only when there is one. */
  lemma AnswersExclude(script: seq<Message>, tag: nat, strict: bool)
    requires InOrder(script)
    ensures !(AnsweredWell(script, tag, strict) && AnsweredBadly(script, tag, strict))
    ensures AnsweredWell(script, tag, strict) || AnsweredBadly(script, tag, strict) ==> !Unanswered(script, tag)
  {
    if AnsweredWell(script, tag, strict) && AnsweredBadly(script, tag, strict) {
      var m :| m in script && m.IsReply() && m.tag == tag && Accepted(m, strict);
      var e :| e in script && e.IsReply() && e.tag == tag && Rejected(e, strict);
      var j :| 0 <= j < |script| && script[j] == m;
      var k :| 0 <= k < |script| && script[k] == e;
      OneAnswer(script, j, k);
    }
  }

  /** What the clients take for success and for failure, message by message. */
  lemma AnswersMean(script: seq<Message>, tag: nat)
    ensures AnsweredWell(script, tag, true) <==> Return(tag) in script
    ensures AnsweredWell(script, tag, false) <==> Return(tag) in script || exists c :: Error(tag, c, "") in script
    ensures AnsweredBadly(script, tag, true) <==> exists c, d :: Error(tag, c, d) in script
    ensures AnsweredBadly(script, tag, false) <==> exists c, d :: Error(tag, c, d) in script && d != ""
  {
  }

  /** Past the last reply to be read, only events: the command outstanding is never answered. */
  lemma SilenceUnanswered(script: seq<Message>, pos: nat, tag: nat)
    requires InOrder(script) && pos <= |script| && Replies(script, pos) == tag
    requires forall k :: pos <= k < |script| ==> script[k].Event?
    ensures Unanswered(script, tag)
  {
    forall m | m in script && m.IsReply() ensures m.tag != tag {
      var k :| 0 <= k < |script| && script[k] == m;
      RepliesGrow(script, k + 1, pos);
    }
  }

  /** The outcome of an operation that is one command, in the peer's own terms. */
  lemma OneCommand(script: seq<Message>, strict: bool, base: nat)
    requires InOrder(script)
    ensures AllAccepted(script, [Command(strict)], 1, base) <==> AnsweredWell(script, base, strict)
    ensures AnsweredWell(script, base, strict) ==>
              && !OneUnanswered(script, [Command(strict)], base)
              && forall tag :: !OneRefused(script, [Command(strict)], base, tag)
  {
    var op := [Command(strict)];
    assert Commands(op, 0) == 0 && op[0].Command?;
    AnswersExclude(script, base, strict);
  }

  /** The outcome of an operation that is one command and a wait. */
  lemma CommandAndWait(script: seq<Message>, id: string, base: nat)
    requires InOrder(script)
    ensures var op := [Command(false), AwaitDeleted(id)];
            AnsweredWell(script, base, false) && DeletionFollows(script, base, id) ==>
              !Forsaken(script, op, base) && forall tag :: !OneRefused(script, op, base, tag)
  {
    var op := [Command(false), AwaitDeleted(id)];
    assert Commands(op, 0) == 0 && op[0].Command? && op[1].AwaitDeleted?;
    AnswersExclude(script, base, false);
  }

  /** A wait that ends so had no such deletion coming. */
  lemma WaitNotFollowed(conn: Conn, pos: nat, k: nat, id: string)
    requires conn.Valid() && 0 < pos <= |conn.script| && conn.script[pos - 1].IsReply()
    requires conn.EndsWait(pos, k, id, conn.sent)
    ensures !DeletionFollows(conn.script, conn.script[pos - 1].tag, id)
  {
    var script := conn.script;
    if DeletionFollows(script, script[pos - 1].tag, id) {
      var m: nat, e: nat :| DeletionAt(script, script[pos - 1].tag, id, m, e);
      OneAnswer(script, pos - 1, m);
      assert false;
    }
  }

  class Session {
    const conn: Conn
    var broken: bool

    ghost predicate Valid() reads this, conn {
      conn.Valid() && (!broken ==> conn.Aligned())
    }

    /** A session over a stream that is known to be in step: the result of a handshake or a resynchronisation. */
    constructor (conn: Conn)
      requires conn.Aligned()
      ensures Valid() && this.conn == conn && !broken
    {
      this.conn, broken := conn, false;
    }

    /** The last message read answered the last command sent. */
    ghost predicate JustAnswered() reads conn {
      && 0 < conn.pos <= |conn.script| && conn.script[conn.pos - 1].IsReply()
      && conn.script[conn.pos - 1].tag + 1 == conn.sent
    }

    /** One action. */
    method Act(a: Action) returns (tags: seq<nat>, failure: Option<Failure>)
      requires conn.Aligned()
      modifies conn
      ensures conn.Valid() && old(conn.sent) <= conn.sent && old(conn.pos) <= conn.pos
      ensures conn.faults >= old(conn.faults)
      ensures failure != Some(Wire) ==> conn.Aligned()
      ensures tags == if failure.None? && a.Command? then [old(conn.sent)] else []
      ensures failure.None? ==> conn.sent == old(conn.sent) + |tags|
      ensures failure.None? && a.Command? ==> AnsweredWell(conn.script, old(conn.sent), a.strict)
      ensures failure.None? && a.AwaitDeleted? ==> Announced(conn.script, old(conn.pos), conn.pos, a.id)
      ensures a.FailLocally? ==> failure == Some(Local) && unchanged(conn)
      ensures failure.Some? && !a.FailLocally? ==>
                || failure == Some(Wire)
                || (&& a.Command? && failure == Some(Server(old(conn.sent))) && conn.sent == old(conn.sent) + 1
                    && AnsweredBadly(conn.script, old(conn.sent), a.strict))
      ensures failure == Some(Wire) && a.Command? && conn.faults == old(conn.faults) ==>
                Unanswered(conn.script, old(conn.sent))
      ensures failure.None? && a.Command? ==> JustAnswered()
      ensures failure == Some(Wire) && a.AwaitDeleted? && conn.faults == old(conn.faults) && old(JustAnswered()) ==>
                old(conn.sent) > 0 && !DeletionFollows(conn.script, old(conn.sent) - 1, a.id)
    {
      tags, failure := [], None;
      match a
      case Command(strict) =>
        var r := conn.Run(strict);
        if r.Err? {
          return tags, Some(r.error);
        }
        tags := [r.value.tag];
      case AwaitDeleted(id) =>
        var r := conn.WaitDeviceDeleted(id);
        if r.Err? {
          if conn.faults == old(conn.faults) && old(JustAnswered()) {
            ghost var k :| conn.EndsWait(old(conn.pos), k, id, conn.sent);
            WaitNotFollowed(conn, old(conn.pos), k, id);
          }
          return tags, Some(r.error);
        }
      case FailLocally =>
        return tags, Some(Local);
    }

    /** The `fn` of one operation. `tags` are the commands whose replies it took as its own. */
    method Perform(op: Operation) returns (tags: seq<nat>, failure: Option<Failure>)
      requires conn.Aligned()
      modifies conn
      ensures conn.Valid() && old(conn.sent) + |tags| <= conn.sent && old(conn.pos) <= conn.pos
      ensures failure.Some? ==> failure.value.Wire? || failure.value.Server? || failure.value.Local?
      // Short of a wire failure, everything asked for was read.
      ensures failure != Some(Wire) ==> conn.Aligned()
      ensures failure.None? ==> |tags| == Commands(op, |op|)
      ensures |tags| <= Commands(op, |op|)
      ensures op != [] && op[0].FailLocally? ==> failure == Some(Local) && unchanged(conn)
      ensures failure.None? || failure == Some(Local) ==> conn.sent == old(conn.sent) + |tags|
      ensures Consecutive(tags, old(conn.sent))
      ensures failure.Some? && failure.value.Server? ==> old(conn.sent) <= failure.value.tag < conn.sent
      ensures failure.None? ==> AllAnnounced(conn.script, op, |op|, old(conn.pos), conn.pos)
      // Success and failure are what the peer answered to this operation's own commands.
      ensures failure.None? ==> AllAccepted(conn.script, op, |op|, old(conn.sent))
      ensures conn.faults >= old(conn.faults)
      ensures failure.Some? ==>
                StopsBy(conn.script, op, old(conn.sent), failure.value, conn.faults == old(conn.faults))
    {
      tags := [];
      CommandsGrow(op, |op|);
      for i := 0 to |op|
        invariant conn.Aligned() && old(conn.pos) <= conn.pos && old(conn.sent) + |tags| == conn.sent
        invariant if i == 0 then unchanged(conn) else !op[0].FailLocally?
        invariant DoneSoFar(conn.script, op, i, old(conn.sent), old(conn.pos), conn.pos, tags)
        invariant conn.faults >= old(conn.faults)
        invariant i > 0 && op[i - 1].Command? ==> JustAnswered()
      {
        ghost var before := conn.pos;
        var own, ended := Act(op[i]);
        if ended.Some? {
          StopMeans(conn.script, op, i, old(conn.sent), ended.value, conn.faults == old(conn.faults));
          return tags, ended;
        }
        DoneMore(conn.script, op, i, old(conn.sent), old(conn.pos), before, tags, conn.pos, own);
        tags := tags + own;
      }
      failure := None;
    }

    /**
     `Session.do`. `ended` is the caller's context at entry; a context that can never end
     (`cancellable` false) has no interrupt, any other may be interrupted at any moment.
     */
    method Do(op: Operation, ended: bool, cancellable: bool)
        returns (tags: seq<nat>, failure: Option<Failure>, interrupted: bool)
      requires Valid()
      modifies this, conn
      ensures Valid() && old(conn.sent) + |tags| <= conn.sent && old(conn.pos) <= conn.pos
      // A broken session stays broken and leaves the connection alone.
      ensures old(broken) ==> broken && unchanged(conn)
      ensures failure == Some(Broken) <==> old(broken)
      // An ended context is no reason to distrust the stream.
      ensures !old(broken) && ended ==> !broken && failure == Some(Ended) && unchanged(conn)
      // Success returns the replies to this operation's own commands, all of them, in order.
      ensures failure.None? ==> !broken && |tags| == Commands(op, |op|)
      ensures op != [] && op[0].FailLocally? ==> failure.Some? && unchanged(conn`sent) && unchanged(conn`pos)
      ensures |tags| <= Commands(op, |op|) && Consecutive(tags, old(conn.sent))
      ensures failure.None? || failure == Some(Local) ==> conn.sent == old(conn.sent) + |tags|
      ensures failure.Some? && failure.value.Server? ==> old(conn.sent) <= failure.value.tag < conn.sent
      ensures failure.None? ==> AllAnnounced(conn.script, op, |op|, old(conn.pos), conn.pos)
      // Success and failure are what the peer answered to this operation's own commands.
      ensures failure.None? ==> AllAccepted(conn.script, op, |op|, old(conn.sent))
      // Left to itself an operation fails only by its own choice, or for want of an answer or of an announcement.
      ensures conn.faults >= old(conn.faults)
      ensures failure.Some? ==>
                StopsBy(conn.script, op, old(conn.sent), failure.value, conn.faults == old(conn.faults))
      ensures failure == Some(Ended) ==> ended
      // The latch closes on exactly the failures that may leave a reply behind.
      ensures interrupted ==> cancellable && !ended && !old(broken)
      ensures broken <==> old(broken) || failure == Some(Wire) || (failure.Some? && interrupted)
    {
      tags, interrupted := [], false;
      if broken {
        return tags, Some(Broken), false;
      }
      if ended {
        return tags, Some(Ended), false;
      }
      var deadlineFails := conn.Chance();
      if deadlineFails {
        return tags, Some(Local), false;
      }
      tags, failure := Perform(op);
      if cancellable {
        interrupted := *;
      }
      if failure.Some? && (interrupted || failure.value.Wire?) {
        broken := true;
      }
    }

    /** An operation that is one command: the peer's answer to this very command decides, short of a fault. */
    method Round(strict: bool, ended: bool, cancellable: bool) returns (reply: seq<nat>, failure: Option<Failure>)
      requires Valid()
      modifies this, conn
      ensures Valid()
      ensures failure.None? ==> reply == [old(conn.sent)] && conn.sent == old(conn.sent) + 1
      ensures failure.None? ==> !old(broken) && !ended && AnsweredWell(conn.script, old(conn.sent), strict)
      ensures failure.Some? && failure.value.Server? ==>
                failure.value.tag == old(conn.sent) && AnsweredBadly(conn.script, old(conn.sent), strict)
      ensures && !old(broken) && !ended && conn.faults == old(conn.faults)
              && AnsweredWell(conn.script, old(conn.sent), strict)
              ==> failure.None?
    {
      var op := [Command(strict)];
      assert Commands(op, 0) == 0 && Commands(op, 1) == 1;
      var interrupted;
      ghost var base := conn.sent;
      reply, failure, interrupted := Do(op, ended, cancellable);
      OneCommand(conn.script, strict, base);
    }

    /** `RunRaw`: text that is no JSON is never sent; otherwise success is the reply to this command. */
    method RunRaw(valid: bool, ended: bool, cancellable: bool) returns (reply: seq<nat>, failure: Option<Failure>)
      requires Valid()
      modifies this, conn
      ensures Valid()
      ensures !valid ==> failure.Some? && conn.sent == old(conn.sent)
      ensures failure.None? ==> reply == [old(conn.sent)] && conn.sent == old(conn.sent) + 1
      // The peer's answer to this very command decides, short of a fault.
      ensures failure.None? ==> valid && !old(broken) && !ended && AnsweredWell(conn.script, old(conn.sent), false)
      ensures failure.Some? && failure.value.Server? ==>
                failure.value.tag == old(conn.sent) && AnsweredBadly(conn.script, old(conn.sent), false)
      ensures && valid && !old(broken) && !ended && conn.faults == old(conn.faults)
              && AnsweredWell(conn.script, old(conn.sent), false)
              ==> failure.None?
    {
      if valid {
        reply, failure := Round(false, ended, cancellable);
      } else {
        var interrupted;
        reply, failure, interrupted := Do([FailLocally], ended, cancellable);
      }
    }

    /** `DeviceDelAndWait`: success is the reply to this command and the announcement that this very device is gone. */
    method DeviceDelAndWait(id: string, ended: bool, cancellable: bool)
        returns (reply: seq<nat>, failure: Option<Failure>)
      requires Valid()
      modifies this, conn
      ensures Valid()
      ensures failure.None? ==> reply == [old(conn.sent)] && conn.sent == old(conn.sent) + 1
      ensures failure.None? ==> Announced(conn.script, old(conn.pos), conn.pos, id)
      ensures failure.None? ==> !old(broken) && !ended && AnsweredWell(conn.script, old(conn.sent), false)
      ensures failure.Some? && failure.value.Server? ==>
                failure.value.tag == old(conn.sent) && AnsweredBadly(conn.script, old(conn.sent), false)
      // Short of a fault it succeeds when the answer is no error that says something and the deletion follows.
      ensures && !old(broken) && !ended && conn.faults == old(conn.faults)
              && AnsweredWell(conn.script, old(conn.sent), false) && DeletionFollows(conn.script, old(conn.sent), id)
              ==> failure.None?
    {
      var op := [Command(false), AwaitDeleted(id)];
      assert Commands(op, 0) == 0 && Commands(op, 1) == 1 && Commands(op, 2) == 1 && op[1].AwaitDeleted?;
      var interrupted;
      ghost var base := conn.sent;
      reply, failure, interrupted := Do(op, ended, cancellable);
      assert failure.None? ==> AnsweredWell(conn.script, base, op[0].strict);
      CommandAndWait(conn.script, id, base);
    }

    /** `run` of the guest agent: any error reply is a failure, success is the reply to this command. */
    method GuestCommand(ended: bool, cancellable: bool) returns (reply: seq<nat>, failure: Option<Failure>)
      requires Valid()
      modifies this, conn
      ensures Valid()
      ensures failure.None? ==> reply == [old(conn.sent)] && conn.sent == old(conn.sent) + 1
      ensures failure.None? ==> !old(broken) && !ended && Return(old(conn.sent)) in conn.script
      ensures failure.Some? && failure.value.Server? ==>
                failure.value.tag == old(conn.sent) && AnsweredBadly(conn.script, old(conn.sent), true)
      ensures !old(broken) && !ended && conn.faults == old(conn.faults) && Return(old(conn.sent)) in conn.script ==>
                failure.None?
    {
      reply, failure := Round(true, ended, cancellable);
    }
  }

  /**
   `socketMonitor.Connect` through a fresh session: the greeting, then the capabilities command. What
   it hands out is in step with the peer.
   */
  method Connect(conn: Conn) returns (session: Option<Session>)
    requires conn.Valid() && conn.pos == 0 && conn.sent == 0 && !conn.torn
    requires conn.script != [] ==> conn.script[0].Greeting?
    modifies conn
    ensures conn.Valid()
    ensures session.Some? ==> fresh(session.value) && session.value.conn == conn
                              && session.value.Valid() && !session.value.broken && conn.sent == 1
    // The answer to the capabilities command, the first one sent, decides, short of a fault.
    ensures session.Some? ==> AnsweredWell(conn.script, 0, false)
    ensures conn.faults == old(conn.faults) && AnsweredWell(conn.script, 0, false) ==> session.Some?
  {
    session := None;
    var banner := conn.Receive();
    if banner.Err? {
      return;
    }
    assert Replies(conn.script, 1) == Replies(conn.script, 0) == 0;
    var r := conn.Run(false);
    AnswersExclude(conn.script, 0, false);
    if r.Err? {
      return;
    }
    var s := new Session(conn);
    session := Some(s);
  }

  /** What answers a sync does not come after a reply to a later command. */
  lemma NoSyncAnswer(script: seq<Message>, pos: nat)
    requires InOrder(script) && pos <= |script|
    requires Leftover(true) !in script[..pos] && Return(0) !in script[..pos]
    requires pos == |script| || (script[pos].IsReply() && script[pos].tag >= 1)
    ensures Leftover(true) !in script && Return(0) !in script
  {
    forall k | 0 <= k < |script| ensures script[k] != Leftover(true) && script[k] != Return(0) {
      if k < pos {
        assert script[k] in script[..pos];
      } else {
        RepliesGrow(script, pos, k);
      }
    }
  }

  /**
   `synchronize` of the guest agent: the sync command, then lines until one that answers a sync. The base case
   of a guest session: where it succeeds, the stream is in step exactly when no leftover answers an earlier
   connection's sync; and it cannot succeed when the answer is lost in a leftover cut off before it.
   */
  method Synchronise(conn: Conn) returns (ok: bool)
    requires conn.Valid() && conn.pos == 0 && conn.sent == 0 && !conn.torn
    requires conn.script != [] ==> !conn.script[0].Greeting?
    modifies conn
    ensures conn.Valid()
    ensures ok ==> conn.sent == 1 && (conn.Aligned() <==> !Misleading(conn.script))
    ensures Swallowed(conn.script) && !Misleading(conn.script) ==> !ok
    // It succeeds exactly when it is sent something that answers a sync, short of a fault.
    ensures ok ==> Return(0) in conn.script || Leftover(true) in conn.script
    ensures conn.faults == old(conn.faults) && (Return(0) in conn.script || Leftover(true) in conn.script) ==> ok
    ensures conn.faults >= old(conn.faults)
  {
    ok := conn.Send();
    if !ok {
      return;
    }
    while true
      invariant conn.Valid() && !conn.torn && conn.sent == 1 && Leftover(true) !in conn.script[..conn.pos]
      invariant Return(0) !in conn.script[..conn.pos] && conn.faults >= old(conn.faults)
      invariant forall k :: 0 <= k < conn.pos && conn.script[k].IsReply() ==> Replies(conn.script, conn.pos) > 0
      invariant (forall j :: 0 <= j < conn.pos ==> conn.script[j].Leftover?) ==> Replies(conn.script, conn.pos) == 0
      decreases |conn.script| - conn.pos
    {
      ghost var here := conn.pos;
      var r := conn.Receive();
      if r.Err? {
        if conn.faults == old(conn.faults) {
          NoSyncAnswer(conn.script, here);
        }
        return false;
      }
      if r.value == Leftover(true) || (r.value.Return? && r.value.tag == 0) {
        return true;
      }
    }
  }

  datatype Call = Call(op: Operation, ended: bool, cancellable: bool)

  /** `base` commands had been sent when the call began. */
  datatype Outcome = Outcome(base: nat, tags: seq<nat>, failure: Option<Failure>, interrupted: bool)

  /** No two calls took the same reply, and every successful one took exactly its own. */
  ghost predicate OwnReplies(calls: seq<Call>, outcomes: seq<Outcome>) {
    && |outcomes| == |calls|
    && (forall i :: 0 <= i < |calls| ==> Consecutive(outcomes[i].tags, outcomes[i].base))
    && (forall i :: 0 <= i < |calls| && outcomes[i].failure.None? ==>
          |outcomes[i].tags| == Commands(calls[i].op, |calls[i].op|))
    && (forall i, j :: 0 <= i < j < |calls| ==> outcomes[i].base + |outcomes[i].tags| <= outcomes[j].base)
  }

  /** A failure at the wire, or of a call that was interrupted. */
  predicate Poisons(o: Outcome) {
    o.failure == Some(Wire) || (o.failure.Some? && o.interrupted)
  }

  ghost predicate Poisoned(broken: bool, outcomes: seq<Outcome>, n: nat) {
    broken || exists j :: 0 <= j < n && j < |outcomes| && Poisons(outcomes[j])
  }

  /** A call is refused if and only if the session was broken to begin with or an earlier call has poisoned it. */
  ghost predicate Latched(broken: bool, outcomes: seq<Outcome>) {
    forall i :: 0 <= i < |outcomes| ==> (outcomes[i].failure == Some(Broken) <==> Poisoned(broken, outcomes, i))
  }

  /** A call succeeded when each of its commands was accepted, and a server failure names one that was not. */
  ghost predicate OwnAnswers(script: seq<Message>, calls: seq<Call>, outcomes: seq<Outcome>) {
    && |outcomes| == |calls|
    && forall i :: 0 <= i < |calls| ==> OwnAnswer(script, calls[i], outcomes[i])
  }

  ghost predicate OwnAnswer(script: seq<Message>, call: Call, o: Outcome) {
    && (o.failure.None? ==> AllAccepted(script, call.op, |call.op|, o.base))
    && (o.failure.Some? ==> StopsBy(script, call.op, o.base, o.failure.value, false))
  }

  lemma OwnRepliesMore(calls: seq<Call>, outcomes: seq<Outcome>, call: Call, o: Outcome)
    requires OwnReplies(calls, outcomes) && Consecutive(o.tags, o.base)
    requires o.failure.None? ==> |o.tags| == Commands(call.op, |call.op|)
    requires forall k :: 0 <= k < |outcomes| ==> outcomes[k].base + |outcomes[k].tags| <= o.base
    ensures OwnReplies(calls + [call], outcomes + [o])
  {
  }

  lemma LatchedMore(broken: bool, outcomes: seq<Outcome>, o: Outcome)
    requires Latched(broken, outcomes) && (o.failure == Some(Broken) <==> Poisoned(broken, outcomes, |outcomes|))
    ensures Latched(broken, outcomes + [o])
    ensures Poisoned(broken, outcomes + [o], |outcomes| + 1) <==> Poisoned(broken, outcomes, |outcomes|) || Poisons(o)
  {
    var all := outcomes + [o];
    forall i | 0 <= i <= |outcomes|
      ensures Poisoned(broken, all, i) <==> Poisoned(broken, outcomes, i)
    {
      assert forall j :: 0 <= j < i ==> all[j] == outcomes[j];
    }
    assert all[|outcomes|] == o;
  }

  /** Left to itself a call fails only by its own choice, or for want of an answer or of an announcement. */
  ghost predicate Unforced(script: seq<Message>, call: Call, o: Outcome) {
    && (o.failure == Some(Ended) ==> call.ended)
    && (o.failure.Some? ==> StopsBy(script, call.op, o.base, o.failure.value, true))
  }

  /** Any run of operations on one session, with any failures and interrupts. */
  method Serve(session: Session, calls: seq<Call>) returns (outcomes: seq<Outcome>)
    requires session.Valid()
    modifies session, session.conn
    ensures session.Valid() && OwnReplies(calls, outcomes) && Latched(old(session.broken), outcomes)
    ensures OwnAnswers(session.conn.script, calls, outcomes)
    ensures session.conn.faults == old(session.conn.faults) ==>
              forall i :: 0 <= i < |calls| ==> Unforced(session.conn.script, calls[i], outcomes[i])
  {
    outcomes := [];
    for i := 0 to |calls|
      invariant session.Valid() && |outcomes| == i
      invariant OwnReplies(calls[..i], outcomes) && Latched(old(session.broken), outcomes)
      invariant session.broken <==> Poisoned(old(session.broken), outcomes, i)
      invariant session.conn.faults >= old(session.conn.faults)
      invariant session.conn.faults == old(session.conn.faults) ==>
                  forall k :: 0 <= k < i ==> Unforced(session.conn.script, calls[k], outcomes[k])
      invariant forall k :: 0 <= k < i ==> OwnAnswer(session.conn.script, calls[k], outcomes[k])
      invariant forall k :: 0 <= k < i ==> outcomes[k].base + |outcomes[k].tags| <= session.conn.sent
    {
      var base := session.conn.sent;
      var tags, failure, interrupted := session.Do(calls[i].op, calls[i].ended, calls[i].cancellable);
      var outcome := Outcome(base, tags, failure, interrupted);
      OwnRepliesMore(calls[..i], outcomes, calls[i], outcome);
      LatchedMore(old(session.broken), outcomes, outcome);
      outcomes := outcomes + [outcome];
      assert calls[..i + 1] == calls[..i] + [calls[i]];
    }
    assert calls[..|calls|] == calls;
  }
}
