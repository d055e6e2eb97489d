/** The users of leases: the Popen proxy, and the commands and transfers that start one SSH
    child under one lease.  Each gives its lease back once, and never before its child is gone,
    which is what `SshChannels` assumes of them. */
module SshTransport {
  import opened SchedulerModel
  import opened SchedulerInvariant
  import opened TransportScheduler
  import opened SshChannels

  /** A child process.  It may exit at any time; what the methods return is what the
      operating system answers.  `known`: its return code has been recorded. */
  class Process {
    var exited: bool
    var known: bool

    predicate Sound()
      reads this
    {
      known ==> exited
    }

    constructor ()
      ensures Sound() && !known
    {
      exited := *;
      known := false;
    }

    method Poll() returns (ended: bool)
      requires Sound()
      modifies this
      ensures Sound() && (old(exited) ==> exited)
      ensures ended == exited == known
    {
      if * { exited := true; }
      known := exited;
      ended := exited;
    }

    /** Wait for the end; `false` when the wait itself gave up or was interrupted. */
    method Wait() returns (ended: bool)
      requires Sound()
      modifies this
      ensures Sound() && (old(known) ==> known) && (old(exited) ==> exited)
      ensures ended ==> known
    {
      ended := *;
      if ended { exited, known := true, true; }
    }

    method Reap()
      modifies this
      ensures exited && known
    {
      exited, known := true, true;
    }
  }

  function View(proc: Process?): Child
    reads proc
  {
    if proc == null then Unborn else if proc.exited then Exited else Running
  }

  class Lease {
    const scheduler: Scheduler
    const id: nat
    var released: bool

    ghost predicate Valid()
      reads this, scheduler
    {
      && scheduler.Valid() && Conserving(scheduler.Abs())
      && id < |scheduler.requests|
      && scheduler.requests[id].status == if released then Released else Active
    }

    /** A granted request comes back to its caller as a lease. */
    constructor (scheduler: Scheduler, id: nat)
      requires scheduler.Valid() && Conserving(scheduler.Abs())
      requires id < |scheduler.requests| && scheduler.requests[id].status == Active
      ensures Valid() && !released && this.scheduler == scheduler && this.id == id
    {
      this.scheduler := scheduler;
      this.id := id;
      released := false;
    }

    method Release() returns (first: bool)
      requires Valid()
      modifies this, scheduler
      ensures Valid() && released
      ensures first == !old(released)
      ensures scheduler.Abs() ==
        if first then Step(old(scheduler.Abs()), SchedulerModel.Release(id)) else old(scheduler.Abs())
    {
      if released {
        return false;
      }
      released := true;
      StepKeepsChannels(scheduler.Abs(), SchedulerModel.Release(id));
      scheduler.ReleaseChannel(id);
      first := true;
    }
  }

  /** TERM, bounded wait, then KILL and reap. */
  method TerminateReap(proc: Process)
    requires proc.Sound()
    modifies proc
    ensures proc.exited && proc.known
  {
    var ended := proc.Poll();
    if !ended {
      ended := proc.Wait();
      if ended { return; }
    }
    proc.Reap();
  }

  class ScheduledPopen {
    const proc: Process
    const lease: Lease

    ghost predicate Valid()
      reads this, proc, lease, lease.scheduler
    {
      lease.Valid() && proc.Sound() && (lease.released ==> proc.exited)
    }

    constructor (proc: Process, lease: Lease)
      requires lease.Valid() && !lease.released && proc.Sound()
      ensures Valid() && this.proc == proc && this.lease == lease
    {
      this.proc := proc;
      this.lease := lease;
    }

    method Poll() returns (ended: bool)
      requires Valid()
      modifies proc, lease, lease.scheduler
      ensures Valid() && ended == proc.exited
      ensures lease.released == (old(lease.released) || proc.exited)
      ensures Releases(SshChannels.Poll, View(proc)) == proc.exited
      ensures lease.scheduler.Abs() ==
        if old(lease.released) == lease.released then old(lease.scheduler.Abs())
        else Step(old(lease.scheduler.Abs()), SchedulerModel.Release(lease.id))
    {
      ended := proc.Poll();
      if ended {
        var _ := lease.Release();
      }
    }

    /** wait and communicate. */
    method Wait() returns (ended: bool)
      requires Valid()
      modifies proc, lease, lease.scheduler
      ensures Valid() && Returns(SshChannels.Wait(!ended), View(proc))
      ensures ended ==> proc.exited && lease.released
      ensures !ended ==> lease.released == old(lease.released)
      ensures Releases(SshChannels.Wait(!ended), View(proc)) == ended
      ensures lease.scheduler.Abs() ==
        if old(lease.released) == lease.released then old(lease.scheduler.Abs())
        else Step(old(lease.scheduler.Abs()), SchedulerModel.Release(lease.id))
    {
      ended := proc.Wait();
      if ended {
        var _ := lease.Release();
      }
    }

    /** kill, terminate and send_signal: asking for the end is not the end. */
    method SendSignal()
      requires Valid()
      modifies proc, lease, lease.scheduler
      ensures Valid()
      ensures lease.released == (old(lease.released) || proc.exited)
      ensures Releases(Signal, View(proc)) == proc.exited
      ensures lease.scheduler.Abs() ==
        if old(lease.released) == lease.released then old(lease.scheduler.Abs())
        else Step(old(lease.scheduler.Abs()), SchedulerModel.Release(lease.id))
    {
      var ended := proc.Poll();
      if ended {
        var _ := lease.Release();
      }
    }

    /** __exit__: the child's own exit handler waits, unless it is interrupted; a recorded return
        code releases the lease either way. */
    method LeaveContext() returns (interrupted: bool)
      requires Valid()
      modifies proc, lease, lease.scheduler
      ensures Valid() && (old(proc.known) ==> proc.known)
      ensures Returns(SshChannels.LeaveContext(interrupted, proc.known), View(proc))
      ensures lease.released == (old(lease.released) || proc.known)
      ensures Releases(SshChannels.LeaveContext(interrupted, proc.known), View(proc)) == proc.known
      ensures lease.scheduler.Abs() ==
        if old(lease.released) == lease.released then old(lease.scheduler.Abs())
        else Step(old(lease.scheduler.Abs()), SchedulerModel.Release(lease.id))
    {
      var ended := proc.Wait();
      interrupted := !ended;
      if proc.known {
        var _ := lease.Release();
      }
    }
  }

  /** exec: subprocess.run comes back, or raises, only after its child is gone. */
  method Exec(lease: Lease?) returns (proc: Process?, raised: bool)
    requires lease != null ==> lease.Valid() && !lease.released
    modifies lease, if lease == null then {} else {lease.scheduler}
    ensures Returns(RunEnds, View(proc))
    ensures lease != null ==>
      && lease.Valid() && lease.released
      && lease.scheduler.Abs() == Step(old(lease.scheduler.Abs()), SchedulerModel.Release(lease.id))
  {
    proc, raised := null, true;
    if * {
      proc := new Process();
      var finished := proc.Wait();
      if !finished { proc.Reap(); }
      raised := !finished;
    }
    if lease != null {
      var _ := lease.Release();
    }
  }

  /** open_cmd: the lease travels with the child, or is given back when there is none.  Without a
      scheduler there is no lease, and the caller gets the bare process. */
  method OpenCmd(lease: Lease?) returns (child: ScheduledPopen?, bare: Process?, raised: bool)
    requires lease != null ==> lease.Valid() && !lease.released
    modifies lease, if lease == null then {} else {lease.scheduler}
    ensures raised ==> child == null && bare == null && (lease != null ==> lease.Valid() && lease.released)
    ensures lease != null ==>
      lease.scheduler.Abs() == if raised then Step(old(lease.scheduler.Abs()), SchedulerModel.Release(lease.id))
                               else old(lease.scheduler.Abs())
    ensures !raised && lease == null ==> child == null && bare != null && fresh(bare)
    ensures !raised && lease != null ==>
      && bare == null && child != null && fresh(child) && fresh(child.proc)
      && child.Valid() && child.lease == lease && !lease.released
  {
    child, bare, raised := null, null, true;
    if * {
      raised := false;
      var proc := new Process();
      if lease == null {
        bare := proc;
      } else {
        child := new ScheduledPopen(proc, lease);
      }
    } else if lease != null {
      var _ := lease.Release();
    }
  }

  /** download and upload: whatever raises, and wherever, the child is reaped before the lease
      is given back. */
  method Transfer(lease: Lease?) returns (proc: Process?, raised: bool)
    requires lease != null ==> lease.Valid() && !lease.released
    modifies lease, if lease == null then {} else {lease.scheduler}
    ensures Returns(TransferEnds, View(proc))
    ensures proc != null ==> fresh(proc)
    ensures lease != null ==>
      && lease.Valid() && lease.released
      && lease.scheduler.Abs() == Step(old(lease.scheduler.Abs()), SchedulerModel.Release(lease.id))
  {
    proc, raised := null, false;
    if * {
      raised := true;                    // Popen failed
    } else {
      proc := new Process();
      if * {
        raised := true;                  // the stderr reader did not start
      } else {
        var finished := proc.Wait();     // copy the data, then wait
        if !finished {
          TerminateReap(proc);
          raised := true;
        } else {
          raised := *;                   // stderr.finish() raised, or the exit code is not 0
        }
      }
    }
    if raised && proc != null {
      var ended := proc.Poll();
      if !ended { TerminateReap(proc); }
    }
    if lease != null {
      var _ := lease.Release();
    }
  }
}
