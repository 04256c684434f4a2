/**
 * The image agent: creating an Image's volume on its Storage, filling it from
 * a URL or from a cached data chunk, deleting it, and attaching it to or
 * detaching it from a VM. Each task handler checks its preconditions, then
 * updates the Image (and the Storage, the Device table, the hypervisor) in
 * place, and ends with an outcome.
 */
module ImageAgent {
  import opened Outcomes
  import opened Cluster
  import opened Libvirt
  import opened UploadPlan
  import opened DiskSlots

  /** The actions whose failure marks the Image failed. */
  const LockOnFail: set<string> := {"create", "upload_url", "upload_data", "delete", "duplicate"}

  /** The formats whose backing file is cleared after an upload. */
  const RebasedFormats: set<string> := {"qcow2", "qed"}

  /** task_failed: an Image whose create, upload or delete failed becomes failed; others are left as they are. */
  method OnTaskFailed(task: Task, image: Image)
    modifies image`state
    ensures image.state == if task.action in LockOnFail then ImageState.Failed else old(image.state)
  {
    if task.action in LockOnFail {
      image.state := ImageState.Failed;
    }
  }

  /**
   * What get_storage concludes for a Storage in state `state` whose pool is
   * looked up in `pools`: Done when the pool can be used.
   */
  function StorageVerdict(state: StorageState, pools: map<string, Pool>, name: string): (r: Outcome)
    ensures r.Done? <==> state == StorageState.Ok && PoolRunning(pools, name)
    ensures r == TaskError("storage_unavailable") <==> state != StorageState.Ok
    ensures r == TaskFatal("libvirt_storage_not_found") <==> state == StorageState.Ok && !PoolFound(pools, name)
    ensures r == TaskError("libvrit_storage_not_running") <==> state == StorageState.Ok && PoolFound(pools, name) && !pools[name].running
  {
    if state != StorageState.Ok then TaskError("storage_unavailable")
    else if !PoolFound(pools, name) then TaskFatal("libvirt_storage_not_found")
    else if !pools[name].running then TaskError("libvrit_storage_not_running")
    else Done
  }

  /** get_storage locks the Storage exactly when it was ok but its pool cannot be used. */
  predicate LocksStorage(state: StorageState, pools: map<string, Pool>, name: string)
  {
    state == StorageState.Ok && !PoolRunning(pools, name)
  }

  /**
   * Only a missing pool is fatal; a Storage that is not ok, or whose pool is
   * stopped, gives a recoverable error; and the Storage is locked exactly when
   * the verdict comes from the hypervisor.
   */
  lemma StorageVerdictClasses(state: StorageState, pools: map<string, Pool>, name: string)
    ensures var r := StorageVerdict(state, pools, name);
      && (r.Done? || r.TaskError? || r.TaskFatal?)
      && (r.TaskFatal? <==> state == StorageState.Ok && !PoolFound(pools, name))
      && (LocksStorage(state, pools, name) <==> !r.Done? && r != TaskError("storage_unavailable"))
  {
  }

  /** get_storage */
  method GetStorage(image: Image, conn: Host) returns (r: Outcome)
    modifies image.storage`state
    ensures r == StorageVerdict(old(image.storage.state), conn.pools, image.storage.name)
    ensures image.storage.state ==
      if LocksStorage(old(image.storage.state), conn.pools, image.storage.name) then StorageState.Locked
      else old(image.storage.state)
  {
    var name := image.storage.name;
    if image.storage.state != StorageState.Ok {
      return TaskError("storage_unavailable");
    }
    if !PoolFound(conn.pools, name) {
      image.storage.state := StorageState.Locked;
      return TaskFatal("libvirt_storage_not_found");
    }
    if !conn.pools[name].running {
      image.storage.state := StorageState.Locked;
      return TaskError("libvrit_storage_not_running");
    }
    // refresh(0) rescans the pool; it changes nothing in the model
    return Done;
  }

  /**
   * create: a volume of capacity `capacity` (what the hypervisor reports for
   * the Image's descriptor) is created in the Storage's pool under the
   * Image's libvirt name; the Image becomes ok with that size.
   */
  method Create(image: Image, conn: Host, capacity: nat, createFails: bool) returns (r: Outcome)
    modifies image`size, image`state, image.storage`state, conn`pools
    ensures var v := StorageVerdict(old(image.storage.state), old(conn.pools), image.storage.name);
      && image.storage.state == (if LocksStorage(old(image.storage.state), old(conn.pools), image.storage.name)
                                 then StorageState.Locked else old(image.storage.state))
      && (!v.Done? ==> r == v)
      && (v.Done? && createFails ==> r == TaskError("cannot_create_image"))
      && (r.Done? <==> v.Done? && !createFails)
    ensures !r.Done? ==> image.size == old(image.size) && image.state == old(image.state) && conn.pools == old(conn.pools)
    ensures r.Done? ==>
      && image.state == ImageState.Ok && image.size == capacity
      && conn.pools == PutVolume(old(conn.pools), image.storage.name, image.libvirtName, Volume(capacity, image.xml))
      && HasVolume(conn.pools, image.storage.name, image.libvirtName)
  {
    r := GetStorage(image, conn);
    if !r.Done? {
      return;
    }
    if createFails {
      return TaskError("cannot_create_image");
    }
    conn.pools := PutVolume(conn.pools, image.storage.name, image.libvirtName, Volume(capacity, image.xml));
    image.size := conn.pools[image.storage.name].volumes[image.libvirtName].capacity;
    image.state := ImageState.Ok;
    return Done;
  }

  /**
   * The end of upload_url and upload_data: for a qcow2 or qed Image a failed
   * rebase (`rebaseCode` != 0) marks it failed, and the task still returns
   * normally; otherwise the Image becomes ok with the size of its volume.
   */
  method FinishUpload(image: Image, volume: Volume, rebaseCode: int)
    modifies image`size, image`state
    ensures image.format in RebasedFormats && rebaseCode != 0 ==>
      image.state == ImageState.Failed && image.size == old(image.size)
    ensures !(image.format in RebasedFormats && rebaseCode != 0) ==>
      image.state == ImageState.Ok && image.size == volume.capacity
  {
    if image.format in RebasedFormats && rebaseCode != 0 {
      image.state := ImageState.Failed;
      return;
    }
    image.size := volume.capacity;
    image.state := ImageState.Ok;
  }

  /**
   * The transfer loop of upload_url: while fewer than `size` bytes are sent,
   * read a chunk, stop on an empty read, and upload the chunk at the byte
   * count; after each chunk the Image's progress is bytes / size.
   */
  method StreamFromUrl(image: Image, conn: Host, pool: string, vol: string, size: int, remote: seq<nat>)
    modifies conn`uploads, image`progress
    ensures var plan := Plan(size, remote);
      && conn.uploads == old(conn.uploads) + Log(pool, vol, plan)
      && image.progress == (if plan == [] then old(image.progress) else Some(Progress(Total(plan), size)))
  {
    var bytes: nat := 0;
    var i: nat := 0;
    ghost var done: seq<Chunk> := [];
    while bytes < size
      invariant i <= |remote|
      invariant done + PlanFrom(size, remote, i, bytes) == Plan(size, remote)
      invariant bytes == Total(done)
      invariant conn.uploads == old(conn.uploads) + Log(pool, vol, done)
      invariant image.progress == if done == [] then old(image.progress) else Some(Progress(bytes, size))
      decreases |remote| - i
    {
      var length := ReadAt(remote, i);
      if length == 0 {
        break;
      }
      conn.uploads := conn.uploads + [Upload(pool, vol, bytes, length)];
      TotalAppend(done, Chunk(bytes, length));
      assert Log(pool, vol, done + [Chunk(bytes, length)]) == Log(pool, vol, done) + [Upload(pool, vol, bytes, length)];
      assert PlanFrom(size, remote, i, bytes) == [Chunk(bytes, length)] + PlanFrom(size, remote, i + 1, bytes + length);
      done := done + [Chunk(bytes, length)];
      bytes := bytes + length;
      i := i + 1;
      image.progress := Some(Progress(bytes, size));
    }
    assert PlanFrom(size, remote, i, bytes) == [];
    assert done == Plan(size, remote);
  }

  /**
   * upload_url: the remote source is given by the lengths its reads return
   * (`remote`), or fails to open (`urlFails`); `size` is the task's size
   * property and `rebaseCode` what qemu-img rebase returns.
   */
  method UploadUrl(image: Image, conn: Host, size: int, remote: seq<nat>, urlFails: bool, rebaseCode: int)
    returns (r: Outcome)
    modifies image`state, image`size, image`progress, image.storage`state, conn`uploads
    ensures old(image.attachedTo) != null ==>
      r == TaskError("image_attached") && image.state == old(image.state) && image.storage.state == old(image.storage.state)
    ensures old(image.attachedTo) == null ==>
      var v := StorageVerdict(old(image.storage.state), conn.pools, image.storage.name);
      var pool, vol := image.storage.name, image.libvirtName;
      && image.storage.state == (if LocksStorage(old(image.storage.state), conn.pools, pool)
                                 then StorageState.Locked else old(image.storage.state))
      && (!v.Done? ==> r == v && image.state == ImageState.Downloading)
      && (v.Done? && !HasVolume(conn.pools, pool, vol) ==>
            r == TaskFatal("libvirt_image_not_found") && image.state == ImageState.Downloading)
      && (v.Done? && HasVolume(conn.pools, pool, vol) && urlFails ==>
            r == TaskError("url_not_found") && image.state == ImageState.Downloading)
      && (v.Done? && HasVolume(conn.pools, pool, vol) && !urlFails ==>
            var plan := Plan(size, remote);
            && r == Done
            && conn.uploads == old(conn.uploads) + Log(pool, vol, plan)
            && image.progress == (if plan == [] then old(image.progress) else Some(Progress(Total(plan), size)))
            && (if image.format in RebasedFormats && rebaseCode != 0
                then image.state == ImageState.Failed && image.size == old(image.size)
                else image.state == ImageState.Ok && image.size == conn.pools[pool].volumes[vol].capacity))
    ensures !r.Done? ==>
      conn.uploads == old(conn.uploads) && image.progress == old(image.progress) && image.size == old(image.size)
  {
    if image.attachedTo != null {
      return TaskError("image_attached");
    }
    image.state := ImageState.Downloading;
    r := GetStorage(image, conn);
    if !r.Done? {
      return;
    }
    var pool, vol := image.storage.name, image.libvirtName;
    if !HasVolume(conn.pools, pool, vol) {
      return TaskFatal("libvirt_image_not_found");
    }
    if urlFails {
      return TaskError("url_not_found");
    }
    StreamFromUrl(image, conn, pool, vol, size, remote);
    FinishUpload(image, conn.pools[pool].volumes[vol], rebaseCode);
    return Done;
  }

  /**
   * upload_data: the chunk `chunkId` of the data cache is written at its
   * recorded offset, with exactly its length, and then dropped from the
   * cache. A chunk that is not in the cache raises.
   */
  method UploadData(image: Image, conn: Host, cache: ChunkCache, chunkId: string, rebaseCode: int)
    returns (r: Outcome)
    modifies image`state, image`size, image.storage`state, conn`uploads, cache`chunks
    ensures old(image.attachedTo) != null ==>
      r == TaskError("image_attached") && image.state == old(image.state) && image.storage.state == old(image.storage.state)
    ensures old(image.attachedTo) == null ==>
      var v := StorageVerdict(old(image.storage.state), conn.pools, image.storage.name);
      var pool, vol := image.storage.name, image.libvirtName;
      && image.storage.state == (if LocksStorage(old(image.storage.state), conn.pools, pool)
                                 then StorageState.Locked else old(image.storage.state))
      && (!v.Done? ==> r == v && image.state == ImageState.Downloading)
      && (v.Done? && !HasVolume(conn.pools, pool, vol) ==>
            r == TaskFatal("libvirt_image_not_found") && image.state == ImageState.Downloading)
      && (v.Done? && HasVolume(conn.pools, pool, vol) && chunkId !in old(cache.chunks) ==>
            r == Raised("DataChunk") && image.state == ImageState.Downloading)
      && (v.Done? && HasVolume(conn.pools, pool, vol) && chunkId in old(cache.chunks) ==>
            var chunk := old(cache.chunks)[chunkId];
            && r == Done
            && conn.uploads == old(conn.uploads) + [Upload(pool, vol, chunk.offset, |chunk.payload|)]
            && cache.chunks == old(cache.chunks) - {chunkId}
            && (if image.format in RebasedFormats && rebaseCode != 0
                then image.state == ImageState.Failed && image.size == old(image.size)
                else image.state == ImageState.Ok && image.size == conn.pools[pool].volumes[vol].capacity))
    ensures !r.Done? ==>
      conn.uploads == old(conn.uploads) && cache.chunks == old(cache.chunks) && image.size == old(image.size)
  {
    if image.attachedTo != null {
      return TaskError("image_attached");
    }
    image.state := ImageState.Downloading;
    r := GetStorage(image, conn);
    if !r.Done? {
      return;
    }
    var pool, vol := image.storage.name, image.libvirtName;
    if !HasVolume(conn.pools, pool, vol) {
      return TaskFatal("libvirt_image_not_found");
    }
    if chunkId !in cache.chunks {
      return Raised("DataChunk");
    }
    var chunk := cache.chunks[chunkId];
    conn.uploads := conn.uploads + [Upload(pool, vol, chunk.offset, |chunk.payload|)];
    cache.chunks := cache.chunks - {chunkId};
    FinishUpload(image, conn.pools[pool].volumes[vol], rebaseCode);
    return Done;
  }

  /**
   * delete: `users` are the VMs of the Image's vm_set. Past the guards the
   * volume is deleted when it can be (a missing volume or a failed delete is
   * only logged) and the Image always ends deleted.
   */
  method Delete(task: Task, image: Image, users: seq<VM>, conn: Host, deleteFails: bool) returns (r: Outcome)
    modifies task`ignoreErrors, image`state, image.storage`state, conn`pools
    ensures AttachedToLiveVm(image) && !old(task.ignoreErrors) ==>
      r == TaskError("image_attached") && task.ignoreErrors == old(task.ignoreErrors)
      && image.state == old(image.state) && image.storage.state == old(image.storage.state)
    ensures !(AttachedToLiveVm(image) && !old(task.ignoreErrors)) && SomeOpen(users) ==>
      r == TaskError("image_attached") && task.ignoreErrors
      && image.state == old(image.state) && image.storage.state == old(image.storage.state)
    ensures !(AttachedToLiveVm(image) && !old(task.ignoreErrors)) && !SomeOpen(users) ==>
      var v := StorageVerdict(old(image.storage.state), old(conn.pools), image.storage.name);
      var pool, vol := image.storage.name, image.libvirtName;
      && task.ignoreErrors == old(task.ignoreErrors)
      && image.storage.state == (if LocksStorage(old(image.storage.state), old(conn.pools), pool)
                                 then StorageState.Locked else old(image.storage.state))
      && (!v.Done? ==> r == v && image.state == old(image.state) && conn.pools == old(conn.pools))
      && (v.Done? ==>
            && r == Done && image.state == ImageState.Deleted
            && conn.pools == (if HasVolume(old(conn.pools), pool, vol) && !deleteFails
                              then DropVolume(old(conn.pools), pool, vol) else old(conn.pools)))
    ensures r.Done? ==> image.state == ImageState.Deleted
  {
    if AttachedToLiveVm(image) && !task.ignoreErrors {
      return TaskError("image_attached");
    }
    var i := 0;
    while i < |users|
      invariant 0 <= i <= |users|
      invariant forall k :: 0 <= k < i ==> users[k].state == VmState.Closed
    {
      if users[i].state != VmState.Closed {
        task.ignoreErrors := true;
        return TaskError("image_attached");
      }
      i := i + 1;
    }
    r := GetStorage(image, conn);
    if !r.Done? {
      return;
    }
    var pool, vol := image.storage.name, image.libvirtName;
    if HasVolume(conn.pools, pool, vol) && !deleteFails {
      conn.pools := DropVolume(conn.pools, pool, vol);
    }
    image.state := ImageState.Deleted;
    return Done;
  }

  /** The disk slots held by `images`, in order: [i.disk_dev for i in vm.image_set.all()]. */
  function Slots(images: seq<Image>): (r: seq<int>)
    reads images
    ensures |r| == |images| && forall k :: 0 <= k < |r| ==> r[k] == images[k].diskDev
  {
    seq(|images|, k requires 0 <= k < |images| reads images => images[k].diskDev)
  }

  /**
   * attach: `attached` are the Images already attached to the VM (its
   * image_set), `requested` the task's optional device property, `offline`
   * whether check_online raises, and `conn` the Node's connection. The pool
   * lookup and refresh(0) come before any guard and are not caught.
   */
  method Attach(task: Task, vm: VM, image: Image, attached: seq<Image>, devices: DeviceTable, conn: Host,
                requested: Option<int>, offline: bool, redefineFails: bool) returns (r: Outcome)
    modifies image`diskDev, image`attachedTo, devices`rows
    ensures offline ==> r == Raised("check_online")
    ensures !offline && !PoolFound(conn.pools, image.storage.name) ==> r == Raised("storagePoolLookupByName")
    ensures !offline && PoolFound(conn.pools, image.storage.name) && !conn.pools[image.storage.name].running ==>
      r == Raised("refresh")
    ensures !offline && PoolRunning(conn.pools, image.storage.name) ==>
      && (old(AttachedToLiveVm(image)) ==> r == TaskError("image_attached"))
      && (!old(AttachedToLiveVm(image)) && vm.state != VmState.Stopped ==> r == TaskError("vm_not_stopped"))
      && (!old(AttachedToLiveVm(image)) && vm.state == VmState.Stopped && image.state != ImageState.Ok ==>
            r == TaskError("image_state"))
    ensures r.TaskError? || r in {Raised("check_online"), Raised("storagePoolLookupByName"), Raised("refresh")} ==>
      image.diskDev == old(image.diskDev) && image.attachedTo == old(image.attachedTo) && devices.rows == old(devices.rows)
    ensures !offline && PoolRunning(conn.pools, image.storage.name) && !old(AttachedToLiveVm(image))
            && vm.state == VmState.Stopped && image.state == ImageState.Ok ==>
      var slots := old(Slots(attached));
      var name := DeviceName(image.diskDev);
      && image.attachedTo == vm
      && image.diskDev !in slots
      && (RequestHonoured(slots, requested) ==> image.diskDev == requested.value)
      && (!RequestHonoured(slots, requested) ==> LeastFreeSlot(slots, image.diskDev))
      && (name.None? ==> r == Raised("chr") && devices.rows == old(devices.rows))
      && (name.Some? ==>
            && devices.rows == old(devices.rows) + [Device(image.id, vm.id, name.value)]
            && r == (if redefineFails then Raised("libvirt_redefine") else Done))
  {
    if offline {
      return Raised("check_online");
    }
    if !PoolFound(conn.pools, image.storage.name) {
      return Raised("storagePoolLookupByName");
    }
    if !conn.pools[image.storage.name].running {
      // libvirt refuses refresh(0) on a pool that is not active
      return Raised("refresh");
    }
    if AttachedToLiveVm(image) {
      return TaskError("image_attached");
    }
    if vm.state != VmState.Stopped {
      return TaskError("vm_not_stopped");
    }
    if image.state != ImageState.Ok {
      return TaskError("image_state");
    }
    var slots := Slots(attached);
    var d := ChooseDiskDev(slots, requested);
    image.diskDev := d;
    image.attachedTo := vm;
    var name := DeviceName(d);
    if name.None? {
      return Raised("chr");
    }
    devices.rows := devices.rows + [Device(image.id, vm.id, name.value)];
    if redefineFails {
      return Raised("libvirt_redefine");
    }
    return Done;
  }

  /** The Device rows that do not belong to the Image `id`, in their order. */
  function WithoutObject(rows: seq<Device>, id: string): (r: seq<Device>)
    ensures |r| <= |rows|
  {
    if rows == [] then []
    else (if rows[0].objectId == id then [] else [rows[0]]) + WithoutObject(rows[1..], id)
  }

  /** Exactly the rows of other Images are kept. */
  lemma {:induction false} WithoutObjectMembers(rows: seq<Device>, id: string)
    ensures forall d :: d in WithoutObject(rows, id) <==> d in rows && d.objectId != id
  {
    if rows != [] {
      WithoutObjectMembers(rows[1..], id);
      assert rows == [rows[0]] + rows[1..];
    }
  }

  /** Removing the rows of an Image twice removes nothing more. */
  lemma {:induction false} WithoutObjectIdempotent(rows: seq<Device>, id: string)
    ensures WithoutObject(WithoutObject(rows, id), id) == WithoutObject(rows, id)
  {
    if rows != [] {
      var tail := WithoutObject(rows[1..], id);
      WithoutObjectIdempotent(rows[1..], id);
      if rows[0].objectId != id {
        assert WithoutObject(rows, id) == [rows[0]] + tail;
        assert ([rows[0]] + tail)[1..] == tail;
      } else {
        assert WithoutObject(rows, id) == tail;
      }
    }
  }

  /** The loop of detach over Device.objects.filter(object_id=image.id): it deletes those rows one by one. */
  method DeleteRows(rows: seq<Device>, id: string) returns (kept: seq<Device>)
    ensures kept == WithoutObject(rows, id)
  {
    kept := [];
    var i := 0;
    while i < |rows|
      invariant 0 <= i <= |rows|
      invariant kept + WithoutObject(rows[i..], id) == WithoutObject(rows, id)
    {
      var row := rows[i];
      assert WithoutObject(rows[i..], id) == (if row.objectId == id then [] else [row]) + WithoutObject(rows[i + 1..], id) by {
        assert rows[i..][0] == row;
        assert rows[i..][1..] == rows[i + 1..];
      }
      if row.objectId != id {
        assert kept + [row] + WithoutObject(rows[i + 1..], id) == kept + ([row] + WithoutObject(rows[i + 1..], id));
        kept := kept + [row];
      }
      i := i + 1;
    }
    assert rows[i..] == [];
  }

  /**
   * detach: unless the VM is stopped, closing or closed (or errors are
   * ignored), the Image stays attached; otherwise it is detached, every
   * Device row of the Image is deleted, and a failing redefine is swallowed.
   * The disk slot is left as it is.
   */
  method Detach(task: Task, vm: VM, image: Image, devices: DeviceTable, offline: bool) returns (r: Outcome)
    modifies image`attachedTo, devices`rows
    ensures offline ==> r == Raised("check_online")
    ensures !offline && !Settled(vm.state) && !task.ignoreErrors ==> r == TaskError("vm_not_stopped")
    ensures !r.Done? ==> image.attachedTo == old(image.attachedTo) && devices.rows == old(devices.rows)
    ensures r.Done? <==> !offline && (Settled(vm.state) || task.ignoreErrors)
    ensures r.Done? ==> image.attachedTo == null && devices.rows == WithoutObject(old(devices.rows), image.id)
  {
    if offline {
      return Raised("check_online");
    }
    if !Settled(vm.state) && !task.ignoreErrors {
      return TaskError("vm_not_stopped");
    }
    image.attachedTo := null;
    devices.rows := DeleteRows(devices.rows, image.id);
    // vm.libvirt_redefine() failures are swallowed
    return Done;
  }
}
