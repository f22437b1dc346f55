/** One live Bridge per worker, by an operating-system lock (instance_lock.py). */
module InstanceLock {
  import opened Common

  /** What asking for the lock and closing a handle do to the record of who holds it. */
  function AfterTry(holder: Option<nat>, handle: nat): Option<nat> {
    if holder.None? then Some(handle) else holder
  }

  function AfterClose(holder: Option<nat>, handle: nat): Option<nat> {
    if holder == Some(handle) then None else holder
  }

  /** The kernel's record of one lock file: which open handle holds it. The kernel
      clears it when that handle closes, the holder's crash included. */
  class LockFile {
    var holder: Option<nat>

    constructor ()
      ensures holder == None
    {
      holder := None;
    }

    method TryTake(fd: nat) returns (taken: bool)
      modifies this
      ensures taken <==> old(holder) == None
      ensures holder == AfterTry(old(holder), fd)
    {
      taken := holder == None;
      if taken {
        holder := Some(fd);
      }
    }

    method CloseHandle(fd: nat)
      modifies this
      ensures holder == AfterClose(old(holder), fd)
    {
      if holder == Some(fd) {
        holder := None;
      }
    }
  }

  datatype LockError = InstanceAlreadyRunning

  class InstanceLock {
    const file: LockFile
    var fd: Option<nat>

    ghost predicate Valid()
      reads this, file
    {
      fd.Some? ==> file.holder == fd
    }

    constructor (f: LockFile)
      ensures file == f && fd == None && Valid()
    {
      file, fd := f, None;
    }

    /** handle is the fresh handle the operating system returned for the lock file. */
    method Acquire(handle: nat) returns (r: Result<(), LockError>)
      requires Valid() && file.holder != Some(handle)
      modifies this, file
      ensures Valid()
      ensures r.Success? <==> old(fd) == None && old(file.holder) == None
      ensures r.Success? ==> fd == Some(handle) && file.holder == Some(handle)
      ensures r.Failure? ==> fd == old(fd) && file.holder == old(file.holder)
      ensures file.holder == AfterTry(old(file.holder), handle)
    {
      if fd != None {
        return Failure(InstanceAlreadyRunning);
      }
      var taken := file.TryTake(handle);
      if !taken {
        file.CloseHandle(handle);
        return Failure(InstanceAlreadyRunning);
      }
      fd := Some(handle);
      r := Success(());
    }

    /** Never takes the lock from another holder. */
    method Release()
      requires Valid()
      modifies this, file
      ensures Valid() && fd == None
      ensures file.holder == if old(fd).Some? then AfterClose(old(file.holder), old(fd).value) else old(file.holder)
      ensures old(fd).Some? ==> file.holder == None
    {
      var held := fd;
      fd := None;
      if held == None {
        return;
      }
      file.CloseHandle(held.value);
    }
  }
}
