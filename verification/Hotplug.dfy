/**
 Hotplug as a transaction over helper process, QEMU backend, QEMU device, guest mount and port registry
 (backend/qemu/internal/hotplug). A step that reports failure had no effect. It fails because QEMU or the
 guest refuses it, or because the environment makes it fail; `faults` counts the latter, cancellations
 included. Commands run to undo earlier steps may fail too: `undoFailures` counts those, because the
 source ignores them.
 */
module Hotplug {
  import opened Wrappers
  import opened HotplugPlan

  type Process = nat

  datatype Failure = AlreadyAttached | NotAttached | HostFailed | NoPorts | QmpFailed | GuestFailed | StopFailed

  /** `helpers` tells which socket each running helper serves. */
  datatype HostState = HostState(qemu: Qemu, helpers: map<Process, string>, mounts: set<(string, string)>)

  /** QEMU, the helper processes and the guest, behind interfaces that can fail. */
  class Host {
    var state: HostState
    var nextProcess: Process
    var undoFailures: nat
    ghost var faults: nat

    ghost predicate Valid() reads this {
      state.qemu.Valid() && forall p :: p in state.helpers ==> p < nextProcess
    }

    constructor (qemu: Qemu)
      requires qemu.Valid()
      ensures Valid() && state == HostState(qemu, map[], {}) && undoFailures == 0 && faults == 0
    {
      state, nextProcess, undoFailures, faults := HostState(qemu, map[], {}), 0, 0, 0;
    }

    /** Does the environment make the next step fail? */
    method Chance() returns (fails: bool)
      modifies this`faults
      ensures faults >= old(faults) && (fails <==> faults > old(faults))
    {
      fails := *;
      if fails {
        faults := faults + 1;
      }
    }

    /** `RunRaw` of one monitor command. */
    method Run(c: Command) returns (ok: bool)
      requires Valid()
      modifies this`state, this`faults
      ensures Valid() && faults >= old(faults)
      ensures ok ==> Accepts(old(state.qemu), c) && state == old(state).(qemu := Apply(old(state.qemu), c))
      ensures !ok ==> state == old(state)
      ensures faults == old(faults) ==> ok == Accepts(old(state.qemu), c)
      ensures ok ==> faults == old(faults)
    {
      var fails := Chance();
      ok := Accepts(state.qemu, c) && !fails;
      if ok {
        state := state.(qemu := Apply(state.qemu, c));
      }
    }

    /** `DeviceDelAndWait`. */
    method DeviceDel(d: string) returns (ok: bool)
      requires Valid()
      modifies this`state, this`faults
      ensures Valid() && faults >= old(faults)
      ensures ok ==> d in old(state.qemu.devices) && state == old(state).(qemu := DeviceDeleted(old(state.qemu), d))
      ensures !ok ==> state == old(state)
      ensures faults == old(faults) ==> ok == (d in old(state.qemu.devices))
    {
      var fails := Chance();
      ok := d in state.qemu.devices && !fails;
      if ok {
        state := state.(qemu := DeviceDeleted(state.qemu, d));
      }
    }

    method Start(socketPath: string) returns (p: Option<Process>)
      requires Valid()
      modifies this`state, this`nextProcess, this`faults
      ensures Valid() && faults >= old(faults) && (p.None? <==> faults > old(faults))
      ensures p.Some? ==> p.value == old(nextProcess) && p.value !in old(state.helpers)
                          && state == old(state).(helpers := old(state.helpers)[p.value := socketPath])
      ensures p.None? ==> state == old(state)
      ensures old(nextProcess) <= nextProcess && (p.Some? ==> p.value < nextProcess)
    {
      var fails := Chance();
      if fails {
        return None;
      }
      p := Some(nextProcess);
      state := state.(helpers := state.helpers[nextProcess := socketPath]);
      nextProcess := nextProcess + 1;
    }

    method Stop(p: Process) returns (ok: bool)
      requires Valid()
      modifies this`state, this`faults
      ensures Valid() && faults >= old(faults) && (!ok <==> faults > old(faults))
      ensures ok ==> state == old(state).(helpers := old(state.helpers) - {p})
      ensures !ok ==> state == old(state)
    {
      var fails := Chance();
      ok := !fails;
      if ok {
        state := state.(helpers := state.helpers - {p});
      }
    }

    method Mount(id: string, target: string) returns (ok: bool)
      requires Valid()
      modifies this`state, this`faults
      ensures Valid() && faults >= old(faults) && (!ok <==> faults > old(faults))
      ensures state == if ok then old(state).(mounts := old(state.mounts) + {(id, target)}) else old(state)
    {
      var fails := Chance();
      ok := !fails;
      if ok {
        state := state.(mounts := state.mounts + {(id, target)});
      }
    }

    /** The guest refuses to unmount what is not mounted. */
    method Unmount(id: string, target: string) returns (ok: bool)
      requires Valid()
      modifies this`state, this`faults
      ensures Valid() && faults >= old(faults) && (ok ==> (id, target) in old(state.mounts))
      ensures state == if ok then old(state).(mounts := old(state.mounts) - {(id, target)}) else old(state)
      ensures faults == old(faults) ==> ok == ((id, target) in old(state.mounts))
    {
      var fails := Chance();
      ok := (id, target) in state.mounts && !fails;
      if ok {
        state := state.(mounts := state.mounts - {(id, target)});
      }
    }

    // The QMP adapter.

    /** The rollback closure of `AttachDevice`: releases what succeeded, on a detached context. */
    method Rollback(plan: Plan, succeeded: nat)
      requires Valid() && succeeded <= |plan.release| <= 1
      requires succeeded == 1 ==> Accepts(state.qemu, plan.release[0])
      modifies this`state, this`undoFailures, this`faults
      ensures Valid() && undoFailures >= old(undoFailures) && faults >= old(faults)
      ensures undoFailures == old(undoFailures) ==>
                state == if succeeded == 0 then old(state)
                         else old(state).(qemu := Apply(old(state.qemu), plan.release[0]))
      ensures undoFailures > old(undoFailures) ==> succeeded == 1 && state == old(state)
    {
      for i := 0 to succeeded
        invariant Valid() && undoFailures >= old(undoFailures) && faults >= old(faults)
        invariant i == 0 ==> state == old(state) && undoFailures == old(undoFailures)
        invariant i == 1 && undoFailures == old(undoFailures) ==>
                    state == old(state).(qemu := Apply(old(state.qemu), plan.release[0]))
        invariant i == 1 && undoFailures > old(undoFailures) ==> state == old(state)
      {
        var ok := Run(plan.release[i]);
        if !ok {
          undoFailures := undoFailures + 1;
        }
      }
    }

    method AttachDevice(d: Device, bus: string) returns (ok: bool)
      requires Valid()
      modifies this`state, this`undoFailures, this`faults
      ensures Valid() && undoFailures >= old(undoFailures) && faults >= old(faults)
      ensures ok ==> && undoFailures == old(undoFailures) && Pluggable(old(state.qemu), d, bus)
                     && state == old(state).(qemu := Plugged(old(state.qemu), d, bus))
      // Left to itself, QEMU takes exactly the pluggable devices.
      ensures faults == old(faults) ==> ok == Pluggable(old(state.qemu), d, bus)
      // A failed attach leaves QEMU as it was exactly when its releases went through.
      ensures !ok ==> (state == old(state) <==> undoFailures == old(undoFailures))
      ensures !ok ==> state.helpers == old(state.helpers) && state.mounts == old(state.mounts)
                      && state.qemu.devices == old(state.qemu.devices)
                      && BackendsKept(old(state.qemu), state.qemu)
    {
      var cancelled := Chance();
      if cancelled {
        return false;
      }
      var plan := PlanFor(d, bus);
      PlanAcceptedIff(state.qemu, d, bus);
      var succeeded := 0;
      while succeeded < |plan.backend|
        invariant 0 <= succeeded <= |plan.backend| && Valid() && undoFailures == old(undoFailures)
        invariant faults == old(faults)
        invariant succeeded == 0 ==> state == old(state)
        invariant succeeded == 1 ==> Accepts(old(state.qemu), plan.backend[0])
                                     && state == old(state).(qemu := Apply(old(state.qemu), plan.backend[0]))
      {
        cancelled := Chance();
        if cancelled {
          Rollback(plan, succeeded);
          return false;
        }
        var ran := Run(plan.backend[succeeded]);
        if !ran {
          Rollback(plan, succeeded);
          return false;
        }
        succeeded := succeeded + 1;
      }
      if succeeded == 1 {
        ReleaseUndoesBackend(old(state.qemu), d, bus);
      }
      cancelled := Chance();
      if cancelled {
        Rollback(plan, succeeded);
        return false;
      }
      ok := Run(plan.deviceAdd);
      if !ok {
        Rollback(plan, succeeded);
        return false;
      }
    }

    /** Fails either before QEMU dropped the device or after, with the backend still there. */
    method DetachDevice(d: Device) returns (ok: bool)
      requires Valid()
      modifies this`state, this`faults
      ensures Valid() && faults >= old(faults)
      ensures ok ==> QemuDeviceId(d.id) in old(state.qemu.devices)
      ensures ok && !d.kind.UnknownKind? ==>
                var gone := DeviceDeleted(old(state.qemu), QemuDeviceId(d.id));
                Accepts(gone, PlanFor(d, "").release[0])
                && state == old(state).(qemu := Apply(gone, PlanFor(d, "").release[0]))
      ensures ok && d.kind.UnknownKind? ==>
                state == old(state).(qemu := DeviceDeleted(old(state.qemu), QemuDeviceId(d.id)))
      ensures !ok ==> || state == old(state)
                      || (QemuDeviceId(d.id) in old(state.qemu.devices)
                          && state == old(state).(qemu := DeviceDeleted(old(state.qemu), QemuDeviceId(d.id))))
      // Left to itself, QEMU lets go of exactly the devices it has and whose backend nobody else uses.
      ensures faults == old(faults) ==> ok == Unpluggable(old(state.qemu), d)
    {
      var cancelled := Chance();
      if cancelled {
        return false;
      }
      ok := DeviceDel(QemuDeviceId(d.id));
      if !ok {
        return false;
      }
      var release := PlanFor(d, "").release;
      if |release| > 0 {
        assert |release| == 1;
        ok := Run(release[0]);
      }
    }
  }

  /** QEMU accepts every command of a detach, in order. */
  predicate Unpluggable(q: Qemu, d: Device) {
    && QemuDeviceId(d.id) in q.devices
    && (!d.kind.UnknownKind? ==> Accepts(DeviceDeleted(q, QemuDeviceId(d.id)), PlanFor(d, "").release[0]))
  }

  // The registry.

  /** `serial` is the identity of the attachment record. */
  datatype Attachment = Attachment(serial: nat, device: Device, port: nat, helper: Option<Process>)

  /** The goroutine that watches one attachment's helper; `cleared` once it is past its critical section. */
  datatype Observer = Observer(id: string, helper: Process, cleared: bool)

  ghost predicate PortsFit(attachments: map<string, Attachment>, count: int) {
    && (forall id :: id in attachments ==> attachments[id].port < count)
    && (forall a, b :: a in attachments && b in attachments && attachments[a].port == attachments[b].port ==> a == b)
  }

  function Occupied(attachments: map<string, Attachment>): set<int> {
    set id | id in attachments :: attachments[id].port
  }

  /** The record of `id`: a recorded helper is in the process set and still watched. */
  ghost predicate Tracked(id: string, a: Attachment,
                          processes: set<Process>, observers: map<nat, Observer>, next: nat) {
    && a.device.id == id && a.serial < next
    && (a.helper.Some? ==> && a.helper.value in processes && a.serial in observers
                           && observers[a.serial] == Observer(id, a.helper.value, false))
    && (a.serial in observers ==> observers[a.serial].id == id)
  }

  /** Serials are used once, and no process is watched twice. */
  ghost predicate Unique(attachments: map<string, Attachment>, observers: map<nat, Observer>, next: nat) {
    && (forall a, b :: a in attachments && b in attachments && attachments[a].serial == attachments[b].serial ==>
                         a == b)
    && (forall s :: s in observers ==> s < next)
    && (forall s, t :: s in observers && t in observers && observers[s].helper == observers[t].helper ==> s == t)
  }

  class Runtime {
    var attachments: map<string, Attachment>
    var processes: set<Process>
    var observers: map<nat, Observer>  // by the serial of the attachment watched
    var nextSerial: nat

    ghost predicate Recorded(id: string)
      requires id in attachments
      reads this
    {
      Tracked(id, attachments[id], processes, observers, nextSerial)
    }

    ghost predicate Valid() reads this {
      (forall id :: id in attachments ==> Recorded(id)) && Unique(attachments, observers, nextSerial)
    }

    constructor ()
      ensures Valid() && attachments == map[] && processes == {} && observers == map[]
    {
      attachments, processes, observers, nextSerial := map[], {}, map[], 0;
    }

    /** The preferred port if it is free, else the lowest free one, else none. */
    method AllocatePort(preferred: int, count: int) returns (port: int)
      ensures port == -1 || (0 <= port < count && port !in Occupied(attachments))
      ensures port == -1 ==> forall p :: 0 <= p < count ==> p in Occupied(attachments)
      ensures 0 <= preferred < count && preferred !in Occupied(attachments) ==> port == preferred
      ensures port == preferred || forall p :: 0 <= p < port ==> p in Occupied(attachments)
    {
      var occupied := Occupied(attachments);
      if 0 <= preferred < count && preferred !in occupied {
        return preferred;
      }
      port := 0;
      while port < count
        invariant 0 <= port && forall p :: 0 <= p < port ==> p in occupied
      {
        if port !in occupied {
          return;
        }
        port := port + 1;
      }
      port := -1;
    }

    method Register(device: Device, port: nat, helper: Option<Process>)
      requires Valid() && device.id !in attachments
      requires helper.Some? ==> forall s :: s in observers ==> observers[s].helper != helper.value
      modifies this
      ensures Valid() && nextSerial == old(nextSerial) + 1
      ensures attachments == old(attachments)[device.id := Attachment(old(nextSerial), device, port, helper)]
      ensures helper.None? ==> processes == old(processes) && observers == old(observers)
      ensures helper.Some? ==>
                && processes == old(processes) + {helper.value}
                && observers == old(observers)[old(nextSerial) := Observer(device.id, helper.value, false)]
    {
      var attached := Attachment(nextSerial, device, port, helper);
      attachments := attachments[device.id := attached];
      if helper.Some? {
        processes := processes + {helper.value};
        observers := observers[nextSerial := Observer(device.id, helper.value, false)];
      }
      nextSerial := nextSerial + 1;
      forall id | id in attachments
        ensures Recorded(id)
      {
        if id != device.id {
          assert old(Recorded(id));
        }
      }
      UniqueMore(old(attachments), old(observers), attached, observers);
    }

    method Remove(id: string)
      requires Valid() && id in attachments
      modifies this`attachments, this`processes
      ensures Valid() && attachments == old(attachments) - {id}
      ensures processes == old(processes) -
                (if old(attachments[id]).helper.Some? then {old(attachments[id]).helper.value} else {})
    {
      var attached := attachments[id];
      attachments := attachments - {id};
      if attached.helper.Some? {
        processes := processes - {attached.helper.value};
      }
      assert forall k :: k in old(attachments) ==> old(Recorded(k));
    }

    /** The observer's critical section, however long after the exit it runs. */
    method ObserverClears(serial: nat)
      requires Valid() && serial in observers && !observers[serial].cleared
      modifies this`attachments, this`observers
      ensures Valid() && observers == old(observers)[serial := old(observers[serial]).(cleared := true)]
      // A newer record under the same name, or any other, keeps its helper.
      ensures attachments.Keys == old(attachments).Keys
      ensures forall id :: id in attachments ==>
                var a := old(attachments[id]);
                attachments[id] == if a.serial == serial then a.(helper := None) else a
    {
      var o := observers[serial];
      if o.id in attachments && attachments[o.id].serial == serial && attachments[o.id].helper == Some(o.helper) {
        attachments := attachments[o.id := attachments[o.id].(helper := None)];
      }
      observers := observers[serial := o.(cleared := true)];
      forall id | id in attachments
        ensures Recorded(id)
        ensures var a := old(attachments[id]);
                attachments[id] == if a.serial == serial then a.(helper := None) else a
      {
        assert old(Recorded(id));
      }
    }

    /** Its last act, outside the mutex. */
    method ObserverRemoves(serial: nat)
      requires Valid() && serial in observers && observers[serial].cleared
      modifies this`processes, this`observers
      ensures Valid() && observers == old(observers) - {serial}
      ensures processes == old(processes) - {old(observers[serial]).helper}
    {
      processes := processes - {observers[serial].helper};
      observers := observers - {serial};
      assert forall k :: k in attachments ==> old(Recorded(k));
    }
  }

  /** A new record with the next serial, and perhaps its watcher. */
  lemma UniqueMore(attachments: map<string, Attachment>, observers: map<nat, Observer>, a: Attachment,
                   after: map<nat, Observer>)
    requires Unique(attachments, observers, a.serial)
    requires forall id :: id in attachments ==> attachments[id].serial < a.serial
    requires || after == observers
             || (&& a.helper.Some? && (forall s :: s in observers ==> observers[s].helper != a.helper.value)
                 && after == observers[a.serial := Observer(a.device.id, a.helper.value, false)])
    ensures Unique(attachments[a.device.id := a], after, a.serial + 1)
  {
  }
}
