/**
 * The node agent: the host-local copy of an Image for a VM (load, save,
 * delete, resize), the Node's own "images" pool, mounting and unmounting a
 * Storage on the Node, reconciling VM states with the hypervisor's domains,
 * and suspending and waking the Node. `conn` is the Node's hypervisor
 * connection and `offline` stands for check_online raising.
 */
module NodeAgent {
  import opened Outcomes
  import opened Cluster
  import opened Libvirt
  import opened Descriptor
  import opened Arp
  import opened StorageAgent

  /** The Node's own pool, holding one volume per VM, named after the VM's id. */
  const ImagesPool: string := "images"

  /** What the node agent's get_storage concludes for the pool `name`: both failures are fatal. */
  function NodeStorageVerdict(pools: map<string, Pool>, name: string): (r: Outcome)
    ensures r.Done? <==> PoolRunning(pools, name)
    ensures r == TaskFatal("node_storage_not_found") <==> !PoolFound(pools, name)
    ensures r == TaskFatal("node_storage_not_running") <==> PoolFound(pools, name) && !pools[name].running
  {
    if !PoolFound(pools, name) then TaskFatal("node_storage_not_found")
    else if !pools[name].running then TaskFatal("node_storage_not_running")
    else Done
  }

  /** The volume of a pool the model looks up; `pool` holds it. */
  function VolumeOf(pools: map<string, Pool>, pool: string, vol: string): Volume
    requires HasVolume(pools, pool, vol)
  {
    pools[pool].volumes[vol]
  }

  /**
   * load_image: the Image's volume is cloned into the "images" pool under the
   * VM's id, with the descriptor rewritten for the copy. A failed clone marks
   * the VM failed.
   */
  method LoadImage(image: Image, vm: VM, conn: Host, offline: bool, cloneFails: bool) returns (r: Outcome)
    modifies vm`state, conn`pools
    ensures offline ==> r == Raised("check_online")
    ensures !offline && image.state != ImageState.Ok ==> r == TaskNotReady("image_wrong_state")
    ensures !offline && image.state == ImageState.Ok ==>
      var src := NodeStorageVerdict(old(conn.pools), image.storage.name);
      var dst := NodeStorageVerdict(old(conn.pools), ImagesPool);
      var found := HasVolume(old(conn.pools), image.storage.name, image.libvirtName);
      && (!src.Done? ==> r == src)
      && (src.Done? && !dst.Done? ==> r == dst)
      && (src.Done? && dst.Done? && !found ==> r == TaskError("node_load_image_not_found"))
      && (src.Done? && dst.Done? && found && cloneFails ==>
            r == TaskFatal("node_load_image_failed") && vm.state == VmState.Failed)
      && (src.Done? && dst.Done? && found && !cloneFails ==>
            var base := VolumeOf(old(conn.pools), image.storage.name, image.libvirtName);
            && r == Done
            && conn.pools == PutVolume(old(conn.pools), ImagesPool, vm.id,
                                       Volume(base.capacity, Rewrite(base.xml, image.libvirtName, vm.id))))
    ensures r != TaskFatal("node_load_image_failed") ==> vm.state == old(vm.state)
    ensures !r.Done? ==> conn.pools == old(conn.pools)
  {
    if offline {
      return Raised("check_online");
    }
    if image.state != ImageState.Ok {
      return TaskNotReady("image_wrong_state");
    }
    r := NodeStorageVerdict(conn.pools, image.storage.name);
    if !r.Done? {
      return;
    }
    r := NodeStorageVerdict(conn.pools, ImagesPool);
    if !r.Done? {
      return;
    }
    if !HasVolume(conn.pools, image.storage.name, image.libvirtName) {
      return TaskError("node_load_image_not_found");
    }
    var base := conn.pools[image.storage.name].volumes[image.libvirtName];
    var xml := Rewrite(base.xml, image.libvirtName, vm.id);
    if cloneFails {
      vm.state := VmState.Failed;
      return TaskFatal("node_load_image_failed");
    }
    conn.pools := PutVolume(conn.pools, ImagesPool, vm.id, Volume(base.capacity, xml));
    return Done;
  }

  /**
   * delete (on the node): the VM's host-local volume is removed; a missing
   * volume, or a failed delete, is only logged.
   */
  method Delete(task: Task, vm: VM, conn: Host, offline: bool, deleteFails: bool) returns (r: Outcome)
    modifies conn`pools
    ensures offline ==> r == Raised("check_online")
    ensures !offline && !Settled(vm.state) && !task.ignoreErrors ==> r == TaskNotReady("vm_not_stopped")
    ensures !offline && (Settled(vm.state) || task.ignoreErrors) ==>
      && (!PoolRunning(old(conn.pools), ImagesPool) ==> r == TaskError("node_storage_get"))
      && (PoolRunning(old(conn.pools), ImagesPool) ==> r == Done)
    ensures conn.pools ==
      if r.Done? && HasVolume(old(conn.pools), ImagesPool, vm.id) && !deleteFails
      then DropVolume(old(conn.pools), ImagesPool, vm.id) else old(conn.pools)
  {
    if offline {
      return Raised("check_online");
    }
    if !Settled(vm.state) && !task.ignoreErrors {
      return TaskNotReady("vm_not_stopped");
    }
    if !NodeStorageVerdict(conn.pools, ImagesPool).Done? {
      return TaskError("node_storage_get");
    }
    if HasVolume(conn.pools, ImagesPool, vm.id) && !deleteFails {
      conn.pools := DropVolume(conn.pools, ImagesPool, vm.id);
    }
    return Done;
  }

  /**
   * save_image: the VM's host-local volume is cloned back into the Image's
   * Storage under the Image's descriptor. The VM is saving while that runs;
   * on success it is stopped again and the Image is ok with the size of the
   * VM's volume. A failure leaves the VM saving.
   */
  method SaveImage(vm: VM, image: Image, conn: Host, offline: bool, cloneFails: bool) returns (r: Outcome)
    modifies vm`state, image`size, image`state, conn`pools
    ensures offline ==> r == Raised("check_online") && vm.state == old(vm.state)
    ensures !offline && old(vm.state) != VmState.Stopped ==>
      r == TaskNotReady("vm_not_stopped") && vm.state == old(vm.state)
    ensures !offline && old(vm.state) == VmState.Stopped ==>
      var dst := NodeStorageVerdict(old(conn.pools), image.storage.name);
      var src := NodeStorageVerdict(old(conn.pools), ImagesPool);
      var found := HasVolume(old(conn.pools), ImagesPool, vm.id);
      && (!dst.Done? ==> r == dst)
      && (dst.Done? && !src.Done? ==> r == src)
      && (dst.Done? && src.Done? && !found ==> r == TaskError("node_save_vm_image_not_found"))
      && (dst.Done? && src.Done? && found && cloneFails ==> r == TaskError("node_image_save"))
      && (dst.Done? && src.Done? && found && !cloneFails ==>
            var base := VolumeOf(old(conn.pools), ImagesPool, vm.id);
            && r == Done
            && conn.pools == PutVolume(old(conn.pools), image.storage.name, image.libvirtName,
                                       Volume(base.capacity, image.xml))
            && image.size == base.capacity && image.state == ImageState.Ok)
      && (r.Done? ==> vm.state == VmState.Stopped)
      && (!r.Done? ==> vm.state == VmState.Saving)
    ensures !r.Done? ==> conn.pools == old(conn.pools) && image.size == old(image.size) && image.state == old(image.state)
  {
    if offline {
      return Raised("check_online");
    }
    if vm.state != VmState.Stopped {
      return TaskNotReady("vm_not_stopped");
    }
    vm.state := VmState.Saving;
    r := NodeStorageVerdict(conn.pools, image.storage.name);
    if !r.Done? {
      return;
    }
    r := NodeStorageVerdict(conn.pools, ImagesPool);
    if !r.Done? {
      return;
    }
    if !HasVolume(conn.pools, ImagesPool, vm.id) {
      return TaskError("node_save_vm_image_not_found");
    }
    var base := conn.pools[ImagesPool].volumes[vm.id];
    if cloneFails {
      return TaskError("node_image_save");
    }
    conn.pools := PutVolume(conn.pools, image.storage.name, image.libvirtName, Volume(base.capacity, image.xml));
    vm.state := VmState.Stopped;
    image.size := base.capacity;
    image.state := ImageState.Ok;
    return Done;
  }

  /** The largest size resize_image accepts: the template's disk quota, from MiB to bytes. */
  function Quota(vm: VM): nat
  {
    vm.templateHdd * 1024 * 1024
  }

  /**
   * resize_image: the VM's host-local volume gets capacity `size`. The
   * lookups and the resize itself are not guarded: their failures raise.
   */
  method ResizeImage(vm: VM, conn: Host, size: int, offline: bool, resizeFails: bool) returns (r: Outcome)
    modifies conn`pools
    ensures offline ==> r == Raised("check_online")
    ensures !offline && vm.state != VmState.Stopped ==> r == TaskError("vm_not_stopped")
    ensures !offline && vm.state == VmState.Stopped && size > Quota(vm) ==> r == TaskError("vm_resize_over_template")
    ensures !offline && vm.state == VmState.Stopped && size <= Quota(vm) ==>
      && (!PoolFound(old(conn.pools), ImagesPool) ==> r == Raised("storagePoolLookupByName"))
      && (PoolFound(old(conn.pools), ImagesPool) && !HasVolume(old(conn.pools), ImagesPool, vm.id) ==>
            r == Raised("storageVolLookupByName"))
      && (HasVolume(old(conn.pools), ImagesPool, vm.id) && (size < 0 || resizeFails) ==> r == Raised("resize"))
      && (HasVolume(old(conn.pools), ImagesPool, vm.id) && 0 <= size && !resizeFails ==>
            r == Done
            && conn.pools == PutVolume(old(conn.pools), ImagesPool, vm.id,
                                       VolumeOf(old(conn.pools), ImagesPool, vm.id).(capacity := size)))
    ensures r.Done? ==>
      0 <= size <= Quota(vm) && HasVolume(conn.pools, ImagesPool, vm.id)
      && conn.pools[ImagesPool].volumes[vm.id].capacity == size
    ensures !r.Done? ==> conn.pools == old(conn.pools)
  {
    if offline {
      return Raised("check_online");
    }
    if vm.state != VmState.Stopped {
      return TaskError("vm_not_stopped");
    }
    if size > Quota(vm) {
      return TaskError("vm_resize_over_template");
    }
    if !PoolFound(conn.pools, ImagesPool) {
      return Raised("storagePoolLookupByName");
    }
    if !HasVolume(conn.pools, ImagesPool, vm.id) {
      return Raised("storageVolLookupByName");
    }
    if size < 0 || resizeFails {
      return Raised("resize");
    }
    var v := conn.pools[ImagesPool].volumes[vm.id];
    conn.pools := PutVolume(conn.pools, ImagesPool, vm.id, v.(capacity := size));
    return Done;
  }

  /** mount (on the node): real_mount of the storage agent on the Node's connection. */
  method Mount(storage: Storage, conn: Host, f: MountFaults) returns (r: Outcome)
    modifies storage`state, conn`pools
    ensures MountPost(old(storage.state), storage.state, old(conn.pools), conn.pools, storage.name, f, r)
  {
    r := RealMount(storage, conn, f);
  }

  /** umount (on the node): the Node goes offline first, then real_umount runs. */
  method Umount(node: Node, storage: Storage, conn: Host, f: UmountFaults) returns (r: Outcome)
    modifies node`state, storage`state, conn`pools
    ensures node.state == NodeState.Offline
    ensures UmountPost(old(storage.state), storage.state, old(conn.pools), conn.pools, storage.name, f, r)
  {
    node.state := NodeState.Offline;
    r := RealUmount(storage, conn, f);
  }

  /** Which hypervisor calls of create_images_pool fail. */
  datatype PoolFaults = PoolFaults(
    rebuildFails: bool,  // build(0) of the existing, stopped pool
    restartFails: bool,  // create(0) of the existing, stopped pool
    defineFails: bool,   // storagePoolDefineXML (not caught)
    buildFails: bool,    // build(0) of the newly defined pool
    startFails: bool)    // create(0) of the newly defined pool

  /** The existing pool is stopped and the build-and-start of the first branch goes through. */
  predicate Restarts(pools: map<string, Pool>, f: PoolFaults)
  {
    PoolFound(pools, ImagesPool) && !pools[ImagesPool].running && !f.rebuildFails && !f.restartFails
  }

  /**
   * create_images_pool: a running pool is left alone; a stopped one is built
   * and started; when that fails, or there is no pool, the pool is defined
   * from the Node's template, built and started.
   */
  method CreateImagesPool(conn: Host, f: PoolFaults) returns (r: Outcome)
    modifies conn`pools
    ensures PoolRunning(old(conn.pools), ImagesPool) ==> r == Done && conn.pools == old(conn.pools)
    ensures Restarts(old(conn.pools), f) ==> r == Done && conn.pools == Start(old(conn.pools), ImagesPool)
    ensures !PoolRunning(old(conn.pools), ImagesPool) && !Restarts(old(conn.pools), f) ==>
      && (f.defineFails ==> r == Raised("storagePoolDefineXML") && conn.pools == old(conn.pools))
      && (!f.defineFails && f.buildFails ==>
            r == TaskFatal("node_images_pool_build_failed") && conn.pools == Define(old(conn.pools), ImagesPool))
      && (!f.defineFails && !f.buildFails && f.startFails ==>
            r == TaskFatal("node_images_pool_failed") && conn.pools == Define(old(conn.pools), ImagesPool))
      && (!f.defineFails && !f.buildFails && !f.startFails ==>
            r == Done && conn.pools == Start(Define(old(conn.pools), ImagesPool), ImagesPool))
    ensures r.Done? ==> PoolRunning(conn.pools, ImagesPool)
    ensures conn.pools == PoolsAfterCreate(old(conn.pools), f)
  {
    if PoolFound(conn.pools, ImagesPool) {
      if conn.pools[ImagesPool].running {
        return Done;
      }
      if !f.rebuildFails && !f.restartFails {
        conn.pools := Start(conn.pools, ImagesPool);
        return Done;
      }
    }
    // the lookup failed, or building or starting the existing pool did
    if f.defineFails {
      return Raised("storagePoolDefineXML");
    }
    conn.pools := Define(conn.pools, ImagesPool);
    if f.buildFails {
      return TaskFatal("node_images_pool_build_failed");
    }
    if f.startFails {
      return TaskFatal("node_images_pool_failed");
    }
    conn.pools := Start(conn.pools, ImagesPool);
    return Done;
  }

  /** The pools after create_images_pool, from the pools `p0` it starts with. */
  function PoolsAfterCreate(p0: map<string, Pool>, f: PoolFaults): (p: map<string, Pool>)
    ensures p - {ImagesPool} == p0 - {ImagesPool}
  {
    if PoolRunning(p0, ImagesPool) then p0
    else if Restarts(p0, f) then Start(p0, ImagesPool)
    else if f.defineFails then p0
    else if f.buildFails || f.startFails then Define(p0, ImagesPool)
    else Start(Define(p0, ImagesPool), ImagesPool)
  }

  /**
   * An images pool the hypervisor already knows keeps its volumes whatever
   * create_images_pool does: left running, restarted, or defined again from
   * the template (also when that build or start then fails).
   */
  lemma ImagesPoolKeepsVolumes(p0: map<string, Pool>, f: PoolFaults)
    requires ImagesPool in p0
    ensures var p := PoolsAfterCreate(p0, f);
      ImagesPool in p && p[ImagesPool].volumes == p0[ImagesPool].volumes
  {
    var d := Define(p0, ImagesPool);
    assert d[ImagesPool].volumes == p0[ImagesPool].volumes;
  }

  /**
   * load_image then save_image: once load_image has cloned the Image's
   * volume into the images pool, save_image finds the VM's volume there
   * under the same name, and the Image gets back the base volume's capacity.
   */
  lemma LoadThenSave(p0: map<string, Pool>, pool: string, vol: string, vmId: string)
    requires HasVolume(p0, pool, vol) && PoolRunning(p0, ImagesPool)
    ensures var base := VolumeOf(p0, pool, vol);
      var p1 := PutVolume(p0, ImagesPool, vmId, Volume(base.capacity, Rewrite(base.xml, vol, vmId)));
      && NodeStorageVerdict(p1, ImagesPool).Done?
      && NodeStorageVerdict(p1, pool) == NodeStorageVerdict(p0, pool)
      && HasVolume(p1, ImagesPool, vmId)
      && VolumeOf(p1, ImagesPool, vmId).capacity == base.capacity
  {
    var base := VolumeOf(p0, pool, vol);
    var p1 := PutVolume(p0, ImagesPool, vmId, Volume(base.capacity, Rewrite(base.xml, vol, vmId)));
    if pool != ImagesPool {
      assert p1[pool] == p0[pool];
    }
  }

  // ---------------------------------------------------------------------
  // check: reconciling recorded VM states with the hypervisor's domains
  // ---------------------------------------------------------------------

  /** check looks only at VMs recorded as running or starting. */
  predicate Watched(state: VmState)
  {
    state == VmState.Running || state == VmState.Starting
  }

  function Names(vms: seq<VM>): (r: seq<string>)
    ensures |r| == |vms| && forall k {:trigger r[k]} :: 0 <= k < |vms| ==> r[k] == vms[k].libvirtName
  {
    seq(|vms|, k requires 0 <= k < |vms| => vms[k].libvirtName)
  }

  /** Which of the recorded states check looks at. */
  function WatchedOf(states: seq<VmState>): (r: seq<bool>)
    ensures |r| == |states| && forall k {:trigger r[k]} :: 0 <= k < |states| ==> r[k] == Watched(states[k])
  {
    seq(|states|, k requires 0 <= k < |states| => Watched(states[k]))
  }

  /**
   * The running flag of the domain bound to `libvirt_vm` when iteration `k`
   * of the loop starts: the last domain found among the watched VMs before
   * `k`, or None while the variable is still unbound.
   */
  function Stale(names: seq<string>, watched: seq<bool>, domains: map<string, bool>, k: nat): Option<bool>
    requires |watched| == |names| && k <= |names|
  {
    if k == 0 then None
    else if watched[k - 1] && names[k - 1] in domains then Some(domains[names[k - 1]])
    else Stale(names, watched, domains, k - 1)
  }

  /**
   * What `libvirt_vm.state()` reports in iteration `k` (for a watched VM):
   * its own domain when the lookup succeeds, otherwise the stale one.
   */
  function Observed(names: seq<string>, watched: seq<bool>, domains: map<string, bool>, k: nat): Option<bool>
    requires |watched| == |names| && k < |names|
  {
    if names[k] in domains then Some(domains[names[k]]) else Stale(names, watched, domains, k)
  }

  /**
   * The state a VM is left in by its iteration: unwatched VMs keep theirs;
   * a watched one is running when the reported domain runs, and stopped
   * otherwise (also when nothing is bound and the loop then raises).
   */
  function AfterCheck(watched: bool, observed: Option<bool>, state: VmState): VmState
  {
    if !watched then state
    else if observed == Some(true) then VmState.Running
    else VmState.Stopped
  }

  /** The iteration at which check raises UnboundLocalError, or |names| when the loop completes. */
  function Reach(names: seq<string>, watched: seq<bool>, domains: map<string, bool>, k: nat): (n: nat)
    requires |watched| == |names| && k <= |names|
    ensures k <= n <= |names|
    ensures forall j :: k <= j < n && watched[j] ==> Observed(names, watched, domains, j).Some?
    ensures n < |names| ==> watched[n] && Observed(names, watched, domains, n).None?
    decreases |names| - k
  {
    if k == |names| then k
    else if watched[k] && Observed(names, watched, domains, k).None? then k
    else Reach(names, watched, domains, k + 1)
  }

  lemma {:induction false} ReachIs(names: seq<string>, watched: seq<bool>, domains: map<string, bool>, k: nat, n: nat)
    requires |watched| == |names| && k <= n <= |names|
    requires forall j :: k <= j < n && watched[j] ==> Observed(names, watched, domains, j).Some?
    requires n < |names| ==> watched[n] && Observed(names, watched, domains, n).None?
    ensures Reach(names, watched, domains, k) == n
    decreases n - k
  {
    if k < n {
      ReachIs(names, watched, domains, k + 1, n);
    }
  }

  /** Iteration `i`, reached, either raises (and is where check stops) or lets the loop go on. */
  lemma ReachStep(names: seq<string>, watched: seq<bool>, domains: map<string, bool>, i: nat)
    requires |watched| == |names| && i < |names| && i <= Reach(names, watched, domains, 0)
    ensures watched[i] && Observed(names, watched, domains, i).None? ==> Reach(names, watched, domains, 0) == i
    ensures !(watched[i] && Observed(names, watched, domains, i).None?) ==> i < Reach(names, watched, domains, 0)
  {
  }

  /**
   * One iteration of check's loop, for the VM `vms[i]`, with `last` the
   * running flag of the domain `libvirt_vm` is bound to (None: unbound). A
   * watched VM whose lookup fails is set stopped; then the stale binding
   * decides. Returns the binding after the iteration; no other VM changes.
   */
  method CheckOne(vms: seq<VM>, i: nat, domains: map<string, bool>, last: Option<bool>) returns (next: Option<bool>)
    requires i < |vms| && forall k :: 0 <= k < |vms| && k != i ==> vms[k] != vms[i]
    modifies vms[i]
    ensures var vm := vms[i]; var found := vm.libvirtName in domains;
      && next == (if Watched(old(vm.state)) && found then Some(domains[vm.libvirtName]) else last)
      && vm.state == AfterCheck(Watched(old(vm.state)), if found then Some(domains[vm.libvirtName]) else last, old(vm.state))
    ensures States(vms) == old(States(vms))[i := vms[i].state]
  {
    var vm := vms[i];
    next := last;
    if Watched(vm.state) {
      if vm.libvirtName in domains {
        next := Some(domains[vm.libvirtName]);
      } else {
        vm.state := VmState.Stopped;
      }
      if next.Some? {
        vm.state := if next.value then VmState.Running else VmState.Stopped;
      }
      // with nothing bound, libvirt_vm.state() raises UnboundLocalError
    }
    forall k | 0 <= k < |vms|
      ensures States(vms)[k] == old(States(vms))[i := vm.state][k]
    {
      if k != i {
        assert vms[k] != vm;
      }
    }
  }

  function States(vms: seq<VM>): (r: seq<VmState>)
    reads vms
    ensures |r| == |vms| && forall k {:trigger r[k]} :: 0 <= k < |vms| ==> r[k] == vms[k].state
  {
    seq(|vms|, k requires 0 <= k < |vms| reads vms => vms[k].state)
  }

  /** The recorded states `before` after the first `i` iterations of check's loop. */
  function Checked(names: seq<string>, watched: seq<bool>, domains: map<string, bool>, before: seq<VmState>, i: nat): (r: seq<VmState>)
    requires |watched| == |names| == |before| && i <= |names|
    ensures |r| == |before|
  {
    if i == 0 then before
    else Checked(names, watched, domains, before, i - 1)[i - 1 := AfterCheck(watched[i - 1], Observed(names, watched, domains, i - 1), before[i - 1])]
  }

  /** The first `i` VMs hold what their iteration left; the rest keep their recorded state. */
  lemma {:induction false} CheckedAt(names: seq<string>, watched: seq<bool>, domains: map<string, bool>, before: seq<VmState>, i: nat, k: nat)
    requires |watched| == |names| == |before| && i <= |names| && k < |names|
    ensures Checked(names, watched, domains, before, i)[k] ==
      if k < i then AfterCheck(watched[k], Observed(names, watched, domains, k), before[k]) else before[k]
  {
    if i > 0 {
      CheckedAt(names, watched, domains, before, i - 1, k);
    }
  }

  /** Read back on the VMs: what `Checked` says, VM by VM. */
  lemma CheckedAll(vms: seq<VM>, names: seq<string>, watched: seq<bool>, domains: map<string, bool>, before: seq<VmState>, m: nat)
    requires |watched| == |names| == |before| == |vms| && m <= |vms|
    requires States(vms) == Checked(names, watched, domains, before, m)
    ensures forall k :: 0 <= k < m ==> vms[k].state == AfterCheck(watched[k], Observed(names, watched, domains, k), before[k])
    ensures forall k :: m <= k < |vms| ==> vms[k].state == before[k]
  {
    forall k | 0 <= k < |vms|
      ensures vms[k].state == if k < m then AfterCheck(watched[k], Observed(names, watched, domains, k), before[k]) else before[k]
    {
      CheckedAt(names, watched, domains, before, m, k);
    }
  }

  /**
   * Iteration `i` of check's loop, in the terms of `Checked`: the states
   * after it are those after i + 1 iterations, and it raises exactly where
   * `Reach` says the loop stops.
   */
  method CheckStep(vms: seq<VM>, i: nat, domains: map<string, bool>, last: Option<bool>,
                   ghost names: seq<string>, ghost watched: seq<bool>, ghost before: seq<VmState>)
    returns (next: Option<bool>, raised: bool)
    requires i < |vms| && forall k :: 0 <= k < |vms| && k != i ==> vms[k] != vms[i]
    requires names == Names(vms) && |before| == |vms| && watched == WatchedOf(before)
    requires last == Stale(names, watched, domains, i) && i <= Reach(names, watched, domains, 0)
    requires States(vms) == Checked(names, watched, domains, before, i)
    modifies vms[i]
    ensures States(vms) == Checked(names, watched, domains, before, i + 1)
    ensures raised <==> Reach(names, watched, domains, 0) == i
    ensures !raised ==> next == Stale(names, watched, domains, i + 1)
  {
    CheckedAt(names, watched, domains, before, i, i);
    var watchedNow := Watched(vms[i].state);
    ReachStep(names, watched, domains, i);
    next := CheckOne(vms, i, domains, last);
    assert vms[i].state == AfterCheck(watched[i], Observed(names, watched, domains, i), before[i]);
    assert States(vms) == Checked(names, watched, domains, before, i + 1);
    raised := watchedNow && next.None?;
  }

  /**
   * The loop of check over `vms` (each once): for each VM recorded running
   * or starting, its state is set from its domain in `domains` (name ->
   * running). Returns whether the loop completes rather than raising.
   */
  method CheckVms(vms: seq<VM>, domains: map<string, bool>) returns (completed: bool)
    requires forall j, k :: 0 <= j < k < |vms| ==> vms[j] != vms[k]
    modifies vms
    ensures var names, watched := Names(vms), WatchedOf(old(States(vms)));
      var n := Reach(names, watched, domains, 0);
      && (completed <==> n == |vms|)
      && States(vms) == Checked(names, watched, domains, old(States(vms)), if completed then n else n + 1)
  {
    ghost var names := Names(vms);
    ghost var before := States(vms);
    ghost var watched := WatchedOf(before);
    var last: Option<bool> := None;
    var i := 0;
    while i < |vms|
      invariant 0 <= i <= |vms|
      invariant last == Stale(names, watched, domains, i)
      invariant i <= Reach(names, watched, domains, 0)
      invariant States(vms) == Checked(names, watched, domains, before, i)
    {
      var raised;
      last, raised := CheckStep(vms, i, domains, last, names, watched, before);
      if raised {
        return false;
      }
      i := i + 1;
    }
    assert Reach(names, watched, domains, 0) == |vms|;
    return true;
  }

  /**
   * check: the loop over the Node's VMs, with the domains of `conn`; the
   * Node becomes ok when the loop completes, and UnboundLocalError
   * propagates otherwise.
   */
  method Check(node: Node, vms: seq<VM>, conn: Host) returns (r: Outcome)
    requires forall j, k :: 0 <= j < k < |vms| ==> vms[j] != vms[k]
    modifies node`state, vms
    ensures var names, watched := Names(vms), WatchedOf(old(States(vms)));
      var n := Reach(names, watched, conn.domains, 0);
      && r == (if n == |vms| then Done else Raised("UnboundLocalError"))
      && node.state == (if n == |vms| then NodeState.Ok else old(node.state))
      && (forall k :: 0 <= k < |vms| && k <= n ==>
            vms[k].state == AfterCheck(watched[k], Observed(names, watched, conn.domains, k), old(vms[k].state)))
      && (forall k :: n < k < |vms| ==> vms[k].state == old(vms[k].state))
  {
    ghost var names, before := Names(vms), States(vms);
    ghost var watched := WatchedOf(before);
    ghost var n := Reach(names, watched, conn.domains, 0);
    var completed := CheckVms(vms, conn.domains);
    CheckedAll(vms, names, watched, conn.domains, before, if completed then n else n + 1);
    if !completed {
      return Raised("UnboundLocalError");
    }
    node.state := NodeState.Ok;
    return Done;
  }

  /** The stale binding holds a domain exactly when an earlier watched VM's domain was found. */
  lemma {:induction false} StaleBound(names: seq<string>, watched: seq<bool>, domains: map<string, bool>, k: nat)
    requires |watched| == |names| && k <= |names|
    ensures Stale(names, watched, domains, k).Some? <==> exists j :: 0 <= j < k && watched[j] && names[j] in domains
  {
    if k > 0 {
      StaleBound(names, watched, domains, k - 1);
    }
  }

  /**
   * check completes exactly when every watched VM whose domain is missing
   * comes after a watched VM whose domain was found.
   */
  lemma CheckCompletes(names: seq<string>, watched: seq<bool>, domains: map<string, bool>)
    requires |watched| == |names|
    ensures Reach(names, watched, domains, 0) == |names| <==>
      forall k :: 0 <= k < |names| && watched[k] && names[k] !in domains ==>
        exists j :: 0 <= j < k && watched[j] && names[j] in domains
  {
    forall k | 0 <= k < |names|
      ensures Stale(names, watched, domains, k).Some? <==> exists j :: 0 <= j < k && watched[j] && names[j] in domains
    {
      StaleBound(names, watched, domains, k);
    }
  }

  /**
   * The evidently intended reconciliation: a watched VM is running exactly
   * when its own domain exists and runs, stopped otherwise; the loop always
   * completes.
   */
  function CheckIntended(watched: bool, name: string, domains: map<string, bool>, state: VmState): (s: VmState)
    ensures !watched ==> s == state
    ensures watched ==> (s == VmState.Running <==> name in domains && domains[name])
    ensures watched ==> (s == VmState.Running || s == VmState.Stopped)
  {
    if !watched then state
    else if name in domains && domains[name] then VmState.Running
    else VmState.Stopped
  }

  /** Where every watched VM's domain is found, check as written completes and agrees with the intended one. */
  lemma CheckAgreesWhenFound(names: seq<string>, watched: seq<bool>, domains: map<string, bool>, states: seq<VmState>)
    requires |watched| == |names| == |states|
    requires forall k :: 0 <= k < |names| && watched[k] ==> names[k] in domains
    ensures Reach(names, watched, domains, 0) == |names|
    ensures forall k :: 0 <= k < |names| ==>
      AfterCheck(watched[k], Observed(names, watched, domains, k), states[k]) == CheckIntended(watched[k], names[k], domains, states[k])
  {
    ReachIs(names, watched, domains, 0, |names|);
  }

  /**
   * The stale binding at work: VM "b" has no domain, but follows VM "a",
   * whose domain runs; check as written records "b" as running, where the
   * intended outcome is stopped.
   */
  lemma StaleDomainCounterexample()
    ensures var names, watched, domains := ["a", "b"], [true, true], map["a" := true];
      && Reach(names, watched, domains, 0) == 2
      && AfterCheck(true, Observed(names, watched, domains, 1), VmState.Running) == VmState.Running
      && CheckIntended(true, "b", domains, VmState.Running) == VmState.Stopped
  {
    var names, watched, domains := ["a", "b"], [true, true], map["a" := true];
    assert "b" !in domains;
    assert Stale(names, watched, domains, 1) == Some(true);
    ReachIs(names, watched, domains, 0, 2);
  }

  /** A first watched VM without a domain makes check raise before the Node is set ok. */
  lemma UnboundCounterexample()
    ensures Reach(["a"], [true], map[], 0) == 0
  {
    assert Observed(["a"], [true], map[], 0) == None;
  }

  // ---------------------------------------------------------------------
  // suspend and wake_up
  // ---------------------------------------------------------------------

  const InUse: string := "Node is in use. Aborting suspend"

  /**
   * suspend: `vms` are the VMs of the Node and `lines` the lines of the ARP
   * table. With a VM that is not closed the task is only commented. Otherwise
   * the Node is suspended and its MAC is taken from the ARP table; an
   * IndexError in the scan leaves the MAC unsaved.
   */
  method Suspend(task: Task, node: Node, vms: seq<VM>, lines: seq<string>) returns (r: Outcome)
    modifies task`comment, node`state, node`mac
    ensures SomeOpen(vms) ==>
      r == Aborted(InUse) && task.comment == InUse && node.state == old(node.state) && node.mac == old(node.mac)
    ensures !SomeOpen(vms) ==>
      && task.comment == old(task.comment) && node.state == NodeState.Suspend
      && match ArpScan(lines, node.address, old(node.mac))
         case Scanned(mac) => r == Done && node.mac == mac
         case IndexError => r == Raised("IndexError") && node.mac == old(node.mac)
  {
    if SomeOpen(vms) {
      task.comment := InUse;
      return Aborted(InUse);
    }
    node.state := NodeState.Suspend;
    var mac := node.mac;
    var i := 0;
    while i < |lines|
      invariant 0 <= i <= |lines|
      invariant ArpScan(lines[i..], node.address, mac) == ArpScan(lines, node.address, old(node.mac))
      invariant node.mac == old(node.mac)
    {
      assert lines[i..][0] == lines[i] && lines[i..][1..] == lines[i + 1..];
      var fields := Fields(lines[i]);
      if |fields| == 0 {
        return Raised("IndexError");
      }
      if fields[0] == node.address {
        if |fields| < 4 {
          return Raised("IndexError");
        }
        mac := Some(fields[3]);
      }
      i := i + 1;
    }
    assert lines[i..] == [];
    node.mac := mac;
    return Done;
  }

  /**
   * wake_up: without a MAC the task fails; with one, the wake-on-LAN packet
   * is sent and, if the Node is suspended, the Node is started (`started`).
   */
  method WakeUp(node: Node) returns (r: Outcome, started: bool)
    ensures node.mac.None? <==> r == TaskError("Cannot find node's MAC")
    ensures r.Done? <==> node.mac.Some?
    ensures started <==> node.mac.Some? && node.state == NodeState.Suspend
  {
    if node.mac.None? {
      return TaskError("Cannot find node's MAC"), false;
    }
    return Done, node.state == NodeState.Suspend;
  }
}
