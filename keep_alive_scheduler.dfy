/** The tether keep-alive scheduler (keep_alive_scheduler.cc): while a host
    phone is the active tether host, a keep-alive tickle is sent to it at once
    and then every four minutes; each tickle is a fresh KeepAliveOperation,
    dropped again when it reports that it has finished. */
module KeepAlive {
  import opened Common

  /** kKeepAliveIntervalMinutes. */
  const KeepAliveIntervalMinutes: nat := 4

  /** ActiveHost::ActiveHostStatus. */
  datatype ActiveHostStatus = Disconnected | Connecting | Connected

  /** A cryptauth::RemoteDevice, by its public key. */
  datatype RemoteDevice = RemoteDevice(publicKey: string)

  /** A KeepAliveOperation: which one it is (in order of creation) and the
      device it talks to. The scheduler observes every operation it creates. */
  datatype KeepAliveOperation = KeepAliveOperation(serial: nat, device: RemoteDevice)

  /** The repeating timer: stopped, or running with its period. */
  datatype Timer = Stopped | Running(intervalMinutes: nat)

  class KeepAliveScheduler {
    var activeHostDevice: Option<RemoteDevice>
    var keepAliveOperation: Option<KeepAliveOperation>
    var timer: Timer
    /** The operations created and initialized so far, oldest first. */
    var started: seq<KeepAliveOperation>

    /** A running timer always has a device to tickle, and a pending
        operation is the latest one created. */
    predicate Valid()
      reads this
    {
      (timer.Running? ==> activeHostDevice.Some?)
      && (keepAliveOperation.Some? ==> |started| > 0 && keepAliveOperation.value == started[|started| - 1])
      && (forall i :: 0 <= i < |started| ==> started[i].serial == i)
    }

    constructor()
      ensures Valid()
      ensures activeHostDevice.None? && keepAliveOperation.None? && timer == Stopped && started == []
    {
      activeHostDevice, keepAliveOperation, timer, started := None, None, Stopped, [];
    }

    /** OnActiveHostChanged: a disconnect forgets the host and stops the
        timer; a connection stores the new host, starts the timer and tickles
        at once; any other status is ignored. */
    method OnActiveHostChanged(status: ActiveHostStatus, device: Option<RemoteDevice>)
      requires Valid()
      requires status == Connected ==> device.Some?
      modifies this
      ensures Valid()
      ensures status == Disconnected ==>
                activeHostDevice.None? && keepAliveOperation.None? && timer == Stopped && started == old(started)
      ensures status == Connected ==>
                activeHostDevice == device && timer == Running(KeepAliveIntervalMinutes)
                && started == old(started) + [KeepAliveOperation(|old(started)|, device.value)]
                && keepAliveOperation == Some(KeepAliveOperation(|old(started)|, device.value))
      ensures status == Connecting ==>
                activeHostDevice == old(activeHostDevice) && keepAliveOperation == old(keepAliveOperation)
                && timer == old(timer) && started == old(started)
    {
      if status == Disconnected {
        keepAliveOperation := None;
        activeHostDevice := None;
        timer := Stopped;
        return;
      }
      if status == Connected {
        activeHostDevice := device;
        timer := Running(KeepAliveIntervalMinutes);
        SendKeepAliveTickle();
      }
    }

    /** OnOperationFinished: the current operation is dropped. */
    method OnOperationFinished()
      requires Valid() && keepAliveOperation.Some?
      modifies this`keepAliveOperation
      ensures Valid() && keepAliveOperation.None?
    {
      keepAliveOperation := None;
    }

    /** SendKeepAliveTickle: a new operation for the stored device replaces
        the current one. */
    method SendKeepAliveTickle()
      requires Valid() && activeHostDevice.Some?
      modifies this`keepAliveOperation, this`started
      ensures Valid()
      ensures started == old(started) + [KeepAliveOperation(|old(started)|, activeHostDevice.value)]
      ensures keepAliveOperation == Some(KeepAliveOperation(|old(started)|, activeHostDevice.value))
    {
      var operation := KeepAliveOperation(|started|, activeHostDevice.value);
      keepAliveOperation := Some(operation);
      started := started + [operation];
    }

    /** The timer firing: since a running timer implies a stored device, the
        tickle it triggers always has a host to talk to. */
    method OnTimerFired()
      requires Valid() && timer.Running?
      modifies this`keepAliveOperation, this`started
      ensures Valid()
      ensures |started| == |old(started)| + 1 && started[|started| - 1].device == activeHostDevice.value
    {
      SendKeepAliveTickle();
    }
  }
}
