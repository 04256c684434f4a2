/**
 * The storage agent: mounting and unmounting a Storage's pool on a
 * hypervisor connection, and the hooks the dispatcher calls when a storage
 * task ends. real_mount and real_umount are shared with the node agent.
 */
module StorageAgent {
  import opened Outcomes
  import opened Cluster
  import opened Libvirt

  /**
   * Which hypervisor calls of real_mount fail. Steps whose failure is only
   * logged and that change nothing in the model (mkdir, destroy of a stopped
   * pool, build) are not inputs.
   */
  datatype MountFaults = MountFaults(
    autostartOfRunningFails: bool,  // setAutostart(False) on a pool found running
    undefineFails: bool,            // undefine() of a pool found stopped
    defineFails: bool,              // storagePoolDefineXML
    autostartFails: bool,           // setAutostart(False) after the define (not caught)
    createFails: bool)              // create(0), which starts the pool

  /** Which calls of real_umount fail: destroy, the first undefine, and the fallback undefine. */
  datatype UmountFaults = UmountFaults(destroyFails: bool, undefineFails: bool, retryFails: bool)

  /** The idempotent fast path: the pool is already running and autostart can be switched off. */
  predicate FastPath(pools: map<string, Pool>, name: string, f: MountFaults)
  {
    PoolRunning(pools, name) && !f.autostartOfRunningFails
  }

  /** The pools after the lookup/clean-up block and the define of real_mount, off the fast path. */
  function Redefined(pools: map<string, Pool>, name: string, f: MountFaults): map<string, Pool>
  {
    var cleared :=
      if PoolFound(pools, name) && !pools[name].running && !f.undefineFails then Undefine(pools, name)
      else pools;
    if f.defineFails then cleared else Define(cleared, name)
  }

  /**
   * What real_mount does, for a Storage in state `s0` whose pool map is `p0`:
   * the outcome `r`, the Storage's state `s1` and the pool map `p1` afterwards.
   */
  ghost predicate MountPost(s0: StorageState, s1: StorageState, p0: map<string, Pool>, p1: map<string, Pool>,
                            name: string, f: MountFaults, r: Outcome)
  {
    if s0 == StorageState.Disabled then
      r == TaskError("storage_disabled") && s1 == StorageState.Disabled && p1 == p0
    else if FastPath(p0, name, f) then
      r == Done && s1 == StorageState.Ok && p1 == SetAutostart(p0, name, false)
    else
      var p := Redefined(p0, name, f);
      if !PoolFound(p, name) then
        r == Raised("storagePoolLookupByName") && s1 == StorageState.Locked && p1 == p
      else if f.autostartFails then
        r == Raised("setAutostart") && s1 == StorageState.Locked && p1 == p
      else if f.createFails then
        r == TaskFatal("storage_create_failed") && s1 == StorageState.Locked && p1 == SetAutostart(p, name, false)
      else
        r == Done && s1 == StorageState.Ok && p1 == Start(SetAutostart(p, name, false), name)
  }

  /** What real_umount does, in the same terms as MountPost. */
  ghost predicate UmountPost(s0: StorageState, s1: StorageState, p0: map<string, Pool>, p1: map<string, Pool>,
                             name: string, f: UmountFaults, r: Outcome)
  {
    if !PoolFound(p0, name) then
      r == Done && s1 == StorageState.Locked && p1 == p0
    else
      var stopped := if f.destroyFails then p0 else Destroy(p0, name);
      if (!f.destroyFails && !f.undefineFails) || !f.retryFails then
        r == Done && s1 == s0 && p1 == Undefine(stopped, name)
      else
        r == TaskError("storage_undefine") && s1 == StorageState.Locked && p1 == stopped
  }

  /** task_error: a Storage that is not disabled becomes locked. */
  method OnTaskError(storage: Storage)
    modifies storage`state
    ensures storage.state == if old(storage.state) == StorageState.Disabled then StorageState.Disabled else StorageState.Locked
  {
    if storage.state != StorageState.Disabled {
      storage.state := StorageState.Locked;
    }
  }

  /** task_finished: the Storage is only persisted. */
  method OnTaskFinished(storage: Storage)
    modifies storage
    ensures unchanged(storage)
  {
  }

  /** task_failed: the Storage is only persisted. */
  method OnTaskFailed(storage: Storage)
    modifies storage
    ensures unchanged(storage)
  {
  }

  /** real_mount (also the whole of the storage agent's mount and the node agent's mount). */
  method RealMount(storage: Storage, conn: Host, f: MountFaults) returns (r: Outcome)
    modifies storage`state, conn`pools
    ensures MountPost(old(storage.state), storage.state, old(conn.pools), conn.pools, storage.name, f, r)
  {
    if storage.state == StorageState.Disabled {
      return TaskError("storage_disabled");
    }
    storage.state := StorageState.Locked;
    // The netfs staging directory is created best-effort; a failure is only logged.
    var name := storage.name;
    if PoolFound(conn.pools, name) {
      if conn.pools[name].running {
        if !f.autostartOfRunningFails {
          conn.pools := SetAutostart(conn.pools, name, false);
          storage.state := StorageState.Ok;
          return Done;
        }
        // the exception is caught and logged; go on to redefine
      } else {
        // destroy() of a stopped pool changes nothing, and its failure is ignored
        if !f.undefineFails {
          conn.pools := Undefine(conn.pools, name);
        }
      }
    }
    if !f.defineFails {
      conn.pools := Define(conn.pools, name);
    }
    if !PoolFound(conn.pools, name) {
      return Raised("storagePoolLookupByName");
    }
    if f.autostartFails {
      return Raised("setAutostart");
    }
    conn.pools := SetAutostart(conn.pools, name, false);
    // build(0) is best-effort; a failure is only logged
    if f.createFails {
      storage.state := StorageState.Locked;
      return TaskFatal("storage_create_failed");
    }
    conn.pools := Start(conn.pools, name);
    storage.state := StorageState.Ok;
    return Done;
  }

  /** umount: runs real_mount, and when that returns, forces the Storage to locked. */
  method Umount(storage: Storage, conn: Host, f: MountFaults) returns (r: Outcome)
    modifies storage`state, conn`pools
    ensures MountPost(old(storage.state), if r.Done? then StorageState.Ok else storage.state,
                      old(conn.pools), conn.pools, storage.name, f, r)
    ensures r.Done? ==> storage.state == StorageState.Locked
  {
    r := RealMount(storage, conn, f);
    if r.Done? {
      storage.state := StorageState.Locked;
    }
  }

  /** real_umount. */
  method RealUmount(storage: Storage, conn: Host, f: UmountFaults) returns (r: Outcome)
    modifies storage`state, conn`pools
    ensures UmountPost(old(storage.state), storage.state, old(conn.pools), conn.pools, storage.name, f, r)
  {
    var name := storage.name;
    if !PoolFound(conn.pools, name) {
      storage.state := StorageState.Locked;
      return Done;
    }
    var undefined := false;
    if !f.destroyFails {
      conn.pools := Destroy(conn.pools, name);
      if !f.undefineFails {
        conn.pools := Undefine(conn.pools, name);
        undefined := true;
      }
    }
    if !undefined {
      // fallback: undefine alone
      if f.retryFails {
        storage.state := StorageState.Locked;
        return TaskError("storage_undefine");
      }
      conn.pools := Undefine(conn.pools, name);
    }
    return Done;
  }

  /** A successful mount leaves the Storage ok and its pool running with autostart off. */
  lemma MountDoneMeansRunning(s0: StorageState, s1: StorageState, p0: map<string, Pool>, p1: map<string, Pool>,
                              name: string, f: MountFaults)
    requires MountPost(s0, s1, p0, p1, name, f, Done)
    ensures s1 == StorageState.Ok && PoolRunning(p1, name) && !p1[name].autostart
  {
  }

  /**
   * Only create(0) escalates to a task error of its own: a fatal outcome
   * means the start failed, and the only recoverable one is a disabled
   * Storage. Failures of undefine and define are never reported as such.
   */
  lemma MountEscalation(s0: StorageState, s1: StorageState, p0: map<string, Pool>, p1: map<string, Pool>,
                        name: string, f: MountFaults, r: Outcome)
    requires MountPost(s0, s1, p0, p1, name, f, r)
    ensures r.TaskFatal? ==> r == TaskFatal("storage_create_failed") && f.createFails && s1 == StorageState.Locked
    ensures r.TaskError? <==> s0 == StorageState.Disabled
    ensures s0 != StorageState.Disabled && !r.Done? ==> s1 == StorageState.Locked
  {
  }

  /**
   * Mounting is idempotent: once a mount has succeeded, a second mount with
   * no change in between takes the fast path, ends ok and changes no pool.
   */
  lemma MountIdempotent(s0: StorageState, s1: StorageState, s2: StorageState,
                        p0: map<string, Pool>, p1: map<string, Pool>, p2: map<string, Pool>,
                        name: string, f: MountFaults, g: MountFaults, r: Outcome)
    requires MountPost(s0, s1, p0, p1, name, f, Done)
    requires MountPost(s1, s2, p1, p2, name, g, r)
    requires !g.autostartOfRunningFails
    ensures r == Done && s2 == StorageState.Ok && p2 == p1
  {
    MountDoneMeansRunning(s0, s1, p0, p1, name, f);
    assert p1[name].(autostart := false) == p1[name];
  }

  /** real_umount ends with the pool undefined exactly when it returns normally from a found pool. */
  lemma UmountUndefines(s0: StorageState, s1: StorageState, p0: map<string, Pool>, p1: map<string, Pool>,
                        name: string, f: UmountFaults, r: Outcome)
    requires UmountPost(s0, s1, p0, p1, name, f, r)
    ensures !PoolFound(p1, name) <==> r.Done?
    ensures r.Done? || r == TaskError("storage_undefine")
    ensures r == TaskError("storage_undefine") ==> s1 == StorageState.Locked && f.retryFails
    ensures s1 == s0 || s1 == StorageState.Locked
  {
  }
}
