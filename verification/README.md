# corecluster-storage-libvirt agents in Dafny

This project models the three libvirt agents of the cloudOver
corecluster-storage-libvirt plugin. They are the task handlers the
CoreCluster dispatcher calls for Storage, Image and Node tasks:

- the **storage agent** mounts a Storage's pool on a hypervisor and unmounts
  it (`real_mount` and `real_umount`, which the node agent shares), and
  reacts when a storage task ends;
- the **image agent** creates an Image's volume, fills it from a URL or from
  a cached data chunk, deletes it, and attaches it to or detaches it from a VM
  (disk slot choice and the `sd?` device name);
- the **node agent** clones an Image into a Node's local `images` pool for a
  VM, copies it back, deletes and resizes that copy, creates the `images` pool,
  reconciles VM states with the hypervisor's domains (`check`), and suspends
  and wakes the Node (the ARP scan for the MAC).

Each handler is an imperative method over the entities it changes in place:
`Storage`, `Image`, `VM`, `Node`, `Task`, the `Device` table, the data-chunk
cache, and the hypervisor `Host` (pools with their volumes, domains, and the
log of streamed uploads). Each handler ends with an `Outcome`:

- `Done`: it returned normally;
- `TaskError`, `TaskFatal`, `TaskNotReady`: the exceptions of the same names, with their code;
- `Aborted`: suspend only comments the task;
- `Raised(call)`: an exception the handler does not catch, with the call that raised it.

The hypervisor calls whose failure changes what a handler does are given as
boolean fault inputs: creating, cloning, resizing and deleting volumes, the
pool define/build/create/undefine/destroy/setAutostart calls, opening the URL
and `libvirt_redefine`. `check_online` is the boolean `offline`, and the exit
code of `qemu-img rebase` is the integer `rebaseCode`. A failure the source
catches ends as the `TaskError` or `TaskFatal` it raises in its place; an
uncaught one ends as `Raised`. Pool and volume lookups fail exactly when the
name is absent from the modelled pools, and `refresh(0)` in attach raises
exactly when the pool is not running.

The pure parts are functions, with lemmas proving what the handlers rely on:

- the first-fit disk slot;
- the chunk plan of the upload loop: offsets, bounds, termination and progress;
- the descriptor rewrite of `load_image`: `str.replace` and the two `re.sub` deletions;
- `str.split()` and the ARP scan;
- the reconciliation loop of `check`.

Modules:

- `Outcomes` (`Option`, `Outcome`);
- `Cluster` (the entities);
- `Libvirt` (the hypervisor);
- `StorageAgent`, `DiskSlots`, `UploadPlan`, `Descriptor`, `Arp`;
- `ImageAgent`, `NodeAgent`.

In these places the model follows the code rather than the intended behaviour:

- `real_umount` falls back to a bare `undefine()` when *either* `destroy()` or
  the first `undefine()` raises (storage_libvirt.py:164-169), not only when
  `destroy()` fails.
- The recoverable code for a stopped pool in the image agent's `get_storage` is
  spelt `libvrit_storage_not_running` (image_libvirt.py:69), and the model
  keeps that spelling.
- `check` does not always set a watched VM that has no domain to stopped; see
  Findings.

## Model

| member | source | states |
|---|---|---|
| Libvirt.Define | corecluster-storage-libvirt/agents/storage_libvirt.py:111-114 | after storagePoolDefineXML the pool can be looked up; no other pool changes |
| Libvirt.Undefine | corecluster-storage-libvirt/agents/storage_libvirt.py:103 | after undefine the pool can no longer be looked up; no other pool changes |
| Libvirt.Destroy | corecluster-storage-libvirt/agents/storage_libvirt.py:98-101 | after destroy the pool is not running; no other pool changes |
| Libvirt.Start | corecluster-storage-libvirt/agents/storage_libvirt.py:126-127 | after create(0) the pool runs with the same volumes; no other pool changes |
| Libvirt.SetAutostart | corecluster-storage-libvirt/agents/storage_libvirt.py:117 | the autostart flag takes the given value, and whether the pool is found or running does not change |
| Libvirt.PutVolume | corecluster-storage-libvirt/agents/image_libvirt.py:82-83 | the pool holds the new volume under its name, all other volumes and pools unchanged |
| Libvirt.DropVolume | corecluster-storage-libvirt/agents/image_libvirt.py:238-240 | the volume is gone from its pool, all else unchanged |
| StorageAgent.OnTaskError | corecluster-storage-libvirt/agents/storage_libvirt.py:44-49 | a Storage that is not disabled becomes locked; a disabled one stays disabled |
| StorageAgent.OnTaskFinished | corecluster-storage-libvirt/agents/storage_libvirt.py:52-55 | the Storage is left unchanged |
| StorageAgent.OnTaskFailed | corecluster-storage-libvirt/agents/storage_libvirt.py:58-61 | the Storage is left unchanged |
| StorageAgent.RealMount | corecluster-storage-libvirt/agents/storage_libvirt.py:71-138 | a disabled Storage is refused; a running pool takes the fast path with autostart off; otherwise a stopped pool is undefined (best effort), the pool is defined, autostart is switched off, and it is started; a failed start is fatal and leaves the Storage locked (MountPost) |
| StorageAgent.Umount | corecluster-storage-libvirt/agents/storage_libvirt.py:141-147 | runs real_mount, and when that returns the Storage is locked |
| StorageAgent.RealUmount | corecluster-storage-libvirt/agents/storage_libvirt.py:151-174 | a missing pool locks the Storage and returns; otherwise destroy and undefine run, with an undefine fallback; when the fallback fails the Storage is locked and the error is storage_undefine (UmountPost) |
| StorageAgent.MountDoneMeansRunning | corecluster-storage-libvirt/agents/storage_libvirt.py:90-138 | a mount that returns leaves the Storage ok and its pool running with autostart off |
| StorageAgent.MountEscalation | corecluster-storage-libvirt/agents/storage_libvirt.py:77-138 | the only fatal outcome is storage_create_failed, after a failed create, with the Storage locked; the recoverable error occurs exactly for a disabled Storage; any failure of a Storage that was not disabled leaves it locked |
| StorageAgent.MountIdempotent | corecluster-storage-libvirt/agents/storage_libvirt.py:90-96 | a second mount after a successful one takes the fast path: it returns, the Storage is ok, and no pool changes |
| StorageAgent.UmountUndefines | corecluster-storage-libvirt/agents/storage_libvirt.py:155-174 | the pool ends undefined exactly when real_umount returns; the only error is storage_undefine, which needs the fallback to fail and locks the Storage; the state otherwise stays or becomes locked |
| DiskSlots.SlotRange | corecluster-storage-libvirt/agents/image_libvirt.py:275-277 | the set of slots 1 .. n-1 and its size |
| DiskSlots.OccupiedPrefixBound | corecluster-storage-libvirt/agents/image_libvirt.py:271-277 | when slots 1 .. n-1 are all occupied, at least n-1 Images are attached |
| DiskSlots.LeastFreeSlotBound | corecluster-storage-libvirt/agents/image_libvirt.py:275-277 | the first-fit slot is at most one more than the number of attached Images |
| DiskSlots.LeastFreeSlotUnique | corecluster-storage-libvirt/agents/image_libvirt.py:275-277 | the least free slot is unique |
| DiskSlots.ChooseDiskDev | corecluster-storage-libvirt/agents/image_libvirt.py:271-277 | the chosen slot is never occupied; a free requested slot is taken as is; otherwise the slot is the least free one from 1 up |
| DiskSlots.DeviceName | corecluster-storage-libvirt/agents/image_libvirt.py:284 | 'sd' + chr(ord('a') + slot) exists exactly when the code point is in 0 .. 255 (Python 2 chr), and is "sd" followed by that character |
| DiskSlots.DeviceNameInjective | corecluster-storage-libvirt/agents/image_libvirt.py:284 | distinct slots get distinct device names |
| DiskSlots.FirstFitExamples | corecluster-storage-libvirt/agents/image_libvirt.py:271-284 | a VM without disks gets slot 1 (sdb); next to slots {1, 3} the choice is slot 2 (sdc) |
| UploadPlan.PlanChunksAreReads | corecluster-storage-libvirt/agents/image_libvirt.py:126-134 | chunk k is exactly the (i+k)-th read, which was non-empty |
| UploadPlan.PlanChunkBounds | corecluster-storage-libvirt/agents/image_libvirt.py:127-131 | with reads of at most 250 KiB, each uploaded chunk holds 1 byte to 250 KiB |
| UploadPlan.PlanConsecutive | corecluster-storage-libvirt/agents/image_libvirt.py:125-134 | the first chunk starts at the initial byte count and each next one where the previous ended |
| UploadPlan.PlanOffsets | corecluster-storage-libvirt/agents/image_libvirt.py:131-134 | every chunk is uploaded at the number of bytes sent before it |
| UploadPlan.PlanBelowSize | corecluster-storage-libvirt/agents/image_libvirt.py:126 | no chunk starts at or past the size |
| UploadPlan.PlanStops | corecluster-storage-libvirt/agents/image_libvirt.py:126-129 | the loop ends only when the size is reached or a read comes back empty |
| UploadPlan.PlanReachesSize | corecluster-storage-libvirt/agents/image_libvirt.py:126-134 | without an empty read, and with enough bytes at the source, at least size bytes are sent |
| UploadPlan.PlanEndsIncrease | corecluster-storage-libvirt/agents/image_libvirt.py:134-138 | the progress after each chunk is strictly greater than after every earlier one |
| UploadPlan.PlanLastEnd | corecluster-storage-libvirt/agents/image_libvirt.py:131-138 | the progress after the last chunk is the total of bytes sent |
| UploadPlan.PlanProgressIncreases | corecluster-storage-libvirt/agents/image_libvirt.py:134-138 | the progress after each chunk strictly increases and ends at the total sent |
| Descriptor.ReplaceNoOccurrence | corecluster-storage-libvirt/agents/node_libvirt.py:74-75 | str.replace leaves a text with no occurrence unchanged |
| Descriptor.ReplaceFirst | corecluster-storage-libvirt/agents/node_libvirt.py:74-75 | str.replace substitutes the first occurrence and goes on scanning after it |
| Descriptor.ReplaceAtStart | corecluster-storage-libvirt/agents/node_libvirt.py:74-75 | an occurrence at the start is replaced and the scan goes on after it |
| Descriptor.ReplaceStep | corecluster-storage-libvirt/agents/node_libvirt.py:74-75 | a character that starts no occurrence is copied and the scan moves one character on |
| Descriptor.RunLen | corecluster-storage-libvirt/agents/node_libvirt.py:76-77 | the greedy [0-9\.]+ run: all digits or dots, and maximal |
| Descriptor.MatchLen | corecluster-storage-libvirt/agents/node_libvirt.py:76-77 | a match is longer than the opening and closing tags together |
| Descriptor.MatchSound | corecluster-storage-libvirt/agents/node_libvirt.py:76-77 | the match found is an element <tag>[0-9\.]+</tag> |
| Descriptor.ElementPrefixLength | corecluster-storage-libvirt/agents/node_libvirt.py:76-77 | an element at the start of the text is the match found, with its full length |
| Descriptor.MatchLenSpec | corecluster-storage-libvirt/agents/node_libvirt.py:76-77 | a prefix of the text is an element <tag>[0-9\.]+</tag> exactly when it is the match found |
| Descriptor.StripKeepsOrder | corecluster-storage-libvirt/agents/node_libvirt.py:76-77 | re.sub only deletes: the result is a subsequence of the text |
| Descriptor.FirstMatchSpec | corecluster-storage-libvirt/agents/node_libvirt.py:76-77 | re.sub finds no match before the first match position, and finds one there |
| Descriptor.StripPrefix | corecluster-storage-libvirt/agents/node_libvirt.py:76-77 | text before the first match passes through unchanged |
| Descriptor.StripElement | corecluster-storage-libvirt/agents/node_libvirt.py:76-77 | an element at the scan position is deleted whole |
| Descriptor.StripFirstElement | corecluster-storage-libvirt/agents/node_libvirt.py:76-77 | with no earlier match, a + element + b becomes a followed by the deletion in b |
| Descriptor.StripNothing | corecluster-storage-libvirt/agents/node_libvirt.py:76-77 | a text with no element is unchanged |
| Descriptor.NameElement | corecluster-storage-libvirt/agents/node_libvirt.py:74-75 | the `<name>` element str.replace searches for, with the name read back between its tags |
| Descriptor.NameElementInjective | corecluster-storage-libvirt/agents/node_libvirt.py:74-75 | different names give different elements, so only the Image's own name element is renamed |
| Descriptor.RewriteKeepsOrder | corecluster-storage-libvirt/agents/node_libvirt.py:73-77 | the rewritten descriptor keeps the renamed descriptor's characters in order |
| Arp.WordLen | corecluster-storage-libvirt/agents/node_libvirt.py:269 | the maximal run of non-whitespace at the start |
| Arp.Fields | corecluster-storage-libvirt/agents/node_libvirt.py:269 | str.split() fields are non-empty and hold no whitespace |
| Arp.FieldsKeepText | corecluster-storage-libvirt/agents/node_libvirt.py:269 | the fields joined are the line without its whitespace |
| Arp.FieldsAtSpace | corecluster-storage-libvirt/agents/node_libvirt.py:269 | splitting a + whitespace + b gives the fields of a, then those of b |
| Arp.ArpScanFails | corecluster-storage-libvirt/agents/node_libvirt.py:268-271 | the scan raises IndexError exactly when some line has no field, or matches the address with fewer than four fields |
| Arp.ArpNoMatch | corecluster-storage-libvirt/agents/node_libvirt.py:268-271 | without a matching line the MAC is unchanged |
| Arp.ArpLastMatch | corecluster-storage-libvirt/agents/node_libvirt.py:268-271 | the last matching line's fourth field is the MAC |
| ImageAgent.OnTaskFailed | corecluster-storage-libvirt/agents/image_libvirt.py:46-52 | an Image whose create, upload, delete or duplicate task failed becomes failed; otherwise it is unchanged |
| ImageAgent.StorageVerdict | corecluster-storage-libvirt/agents/image_libvirt.py:55-72 | the Storage is usable exactly when it is ok and its pool runs; each failure code occurs exactly under its own condition |
| ImageAgent.StorageVerdictClasses | corecluster-storage-libvirt/agents/image_libvirt.py:55-72 | only a missing pool is fatal, and the Storage is locked exactly when the hypervisor refuses it |
| ImageAgent.GetStorage | corecluster-storage-libvirt/agents/image_libvirt.py:55-72 | returns the verdict and locks the Storage exactly when the verdict comes from the hypervisor |
| ImageAgent.Create | corecluster-storage-libvirt/agents/image_libvirt.py:75-93 | on success the volume exists in the Storage's pool and the Image is ok with its capacity; a failed create is cannot_create_image and changes nothing |
| ImageAgent.FinishUpload | corecluster-storage-libvirt/agents/image_libvirt.py:142-162 | a qcow2 or qed Image whose rebase fails is failed; otherwise it is ok with the volume's size |
| ImageAgent.StreamFromUrl | corecluster-storage-libvirt/agents/image_libvirt.py:125-138 | the hypervisor receives exactly the uploads of the chunk plan, in order, and the progress is total sent / size |
| ImageAgent.UploadUrl | corecluster-storage-libvirt/agents/image_libvirt.py:96-163 | an attached Image is refused; otherwise the Image is downloading, the storage verdict, the volume lookup and the URL open are checked in order, then the plan is uploaded and the upload finished; the size changes only after a successful rebase |
| ImageAgent.UploadData | corecluster-storage-libvirt/agents/image_libvirt.py:166-222 | an attached Image is refused; past the storage verdict and the volume lookup, the cached chunk is uploaded at its offset with its length and dropped from the cache; a missing chunk raises; the size changes only after a successful rebase |
| ImageAgent.Delete | corecluster-storage-libvirt/agents/image_libvirt.py:225-248 | an Image attached to a live VM is refused unless errors are ignored; a VM of vm_set that is not closed is refused and sets ignore_errors; otherwise get_storage locks the Storage exactly on a hypervisor refusal, and on success the volume is dropped when present and the Image ends deleted |
| ImageAgent.Attach | corecluster-storage-libvirt/agents/image_libvirt.py:251-288 | check_online, the pool lookup and refresh(0) (which raises on a stopped pool) come first; then the guards in the source's order; past them the Image takes the chosen slot and the VM, and one Device row is appended; an out-of-range name raises after the Image is saved |
| ImageAgent.WithoutObject | corecluster-storage-libvirt/agents/image_libvirt.py:305-306 | removing rows never adds any |
| ImageAgent.WithoutObjectMembers | corecluster-storage-libvirt/agents/image_libvirt.py:305-306 | exactly the rows of other Images remain |
| ImageAgent.WithoutObjectIdempotent | corecluster-storage-libvirt/agents/image_libvirt.py:305-306 | removing an Image's rows twice is removing them once |
| ImageAgent.DeleteRows | corecluster-storage-libvirt/agents/image_libvirt.py:305-306 | the loop leaves exactly the rows of other Images, in order |
| ImageAgent.Detach | corecluster-storage-libvirt/agents/image_libvirt.py:291-313 | it succeeds exactly when the Node is online and the VM is settled or errors are ignored; then the Image is detached and its Device rows are gone; otherwise nothing changes |
| NodeAgent.NodeStorageVerdict | corecluster-storage-libvirt/agents/node_libvirt.py:39-49 | the pool is usable exactly when it runs; both failures are fatal, each under its own condition |
| NodeAgent.LoadImage | corecluster-storage-libvirt/agents/node_libvirt.py:52-87 | past the guards and lookups, the images pool gains a volume named after the VM with the base capacity and the rewritten descriptor; a failed clone marks the VM failed and is fatal |
| NodeAgent.Delete | corecluster-storage-libvirt/agents/node_libvirt.py:90-114 | a VM that is not settled is refused unless errors are ignored; otherwise the VM's local volume is dropped when present and the pools are otherwise unchanged |
| NodeAgent.SaveImage | corecluster-storage-libvirt/agents/node_libvirt.py:117-155 | a VM that is not stopped is refused; otherwise it is saving, and on success its volume is cloned into the Image's pool, the VM is stopped again, and the Image is ok with the volume's size |
| NodeAgent.ResizeImage | corecluster-storage-libvirt/agents/node_libvirt.py:158-174 | refused unless stopped and within the template quota; otherwise the local volume takes the new capacity |
| NodeAgent.Mount | corecluster-storage-libvirt/agents/node_libvirt.py:177-181 | real_mount on the Node's connection (MountPost) |
| NodeAgent.Umount | corecluster-storage-libvirt/agents/node_libvirt.py:184-190 | the Node goes offline and real_umount runs (UmountPost) |
| NodeAgent.CreateImagesPool | corecluster-storage-libvirt/agents/node_libvirt.py:193-221 | a running pool is left alone; a stopped one is restarted; otherwise the pool is defined, built and started, with fatal build and start failures; on success the pool runs; the pools are those of PoolsAfterCreate, so other pools never change |
| NodeAgent.ImagesPoolKeepsVolumes | corecluster-storage-libvirt/agents/node_libvirt.py:193-221 | an images pool the hypervisor already knows keeps its volumes on every path of create_images_pool: left running, restarted, or defined again |
| NodeAgent.LoadThenSave | corecluster-storage-libvirt/agents/node_libvirt.py:52-87 | after load_image clones the Image into the images pool, save_image (node_libvirt.py:117-155) finds the VM's volume under the same name and gives the Image back the base capacity |
| NodeAgent.Reach | corecluster-storage-libvirt/agents/node_libvirt.py:228-236 | the iteration where the loop raises UnboundLocalError: every watched VM before it sees a bound domain, and it does not |
| NodeAgent.ReachStep | corecluster-storage-libvirt/agents/node_libvirt.py:228-241 | a reached iteration either raises, and check stops there, or lets the loop go on |
| NodeAgent.CheckOne | corecluster-storage-libvirt/agents/node_libvirt.py:229-241 | one iteration: the VM's state follows its own domain when found, otherwise the stale binding, and no other VM changes |
| NodeAgent.CheckStep | corecluster-storage-libvirt/agents/node_libvirt.py:229-241 | one iteration takes the states from i to i + 1 iterations and raises exactly at the iteration where the loop stops |
| NodeAgent.CheckedAt | corecluster-storage-libvirt/agents/node_libvirt.py:228-241 | after i iterations, each earlier VM holds what its iteration left and each later VM keeps its recorded state |
| NodeAgent.CheckedAll | corecluster-storage-libvirt/agents/node_libvirt.py:228-241 | the same, read back VM by VM on the objects |
| NodeAgent.CheckVms | corecluster-storage-libvirt/agents/node_libvirt.py:228-241 | the loop completes exactly when no iteration raises; the states are those after the iterations it ran, including the one that raised |
| NodeAgent.Check | corecluster-storage-libvirt/agents/node_libvirt.py:224-245 | each watched VM up to the raise follows the domain the loop observes; unwatched VMs and those after the raise keep their state; the Node is ok exactly when the loop completes |
| NodeAgent.StaleBound | corecluster-storage-libvirt/agents/node_libvirt.py:229-236 | the binding holds a domain exactly when an earlier watched VM's domain was found |
| NodeAgent.CheckCompletes | corecluster-storage-libvirt/agents/node_libvirt.py:228-236 | check completes exactly when every watched VM without a domain comes after a watched VM with one |
| NodeAgent.CheckIntended | corecluster-storage-libvirt/agents/node_libvirt.py:228-241 | a watched VM is running exactly when its own domain runs, and stopped otherwise |
| NodeAgent.CheckAgreesWhenFound | corecluster-storage-libvirt/agents/node_libvirt.py:228-241 | when every watched VM's domain is found, check completes and agrees with the intended reconciliation |
| NodeAgent.StaleDomainCounterexample | corecluster-storage-libvirt/agents/node_libvirt.py:229-236 | VM b without a domain, after VM a whose domain runs, is recorded running where stopped is intended |
| NodeAgent.UnboundCounterexample | corecluster-storage-libvirt/agents/node_libvirt.py:229-236 | a first watched VM without a domain makes check raise |
| NodeAgent.Suspend | corecluster-storage-libvirt/agents/node_libvirt.py:248-277 | with a VM that is not closed, only the comment is set; otherwise the Node is suspended and its MAC is the ARP scan's result, or is left as it was when the scan raises IndexError |
| NodeAgent.WakeUp | corecluster-storage-libvirt/agents/node_libvirt.py:280-288 | the task fails exactly without a MAC; the Node is started exactly when it has a MAC and is suspended |

## Left out

- The hypervisor is a map of pools with volumes and domains. Pool XML
  templates, `refresh`, `build`, streams and the volume XML that libvirt
  generates are not modelled. A volume's size is a value the method is given
  (`capacity`) or the cloned volume's capacity.
- Streamed uploads are recorded as (offset, length) in a log. They do not
  change a volume's capacity; the bytes themselves are not modelled.
- `urllib` is not modelled. The remote source is the lengths its reads return,
  and the model does not enforce that each read is at most 250 KiB; PlanChunkBounds
  takes that as its hypothesis.
- The progress property is a float in the source. The model keeps it as the
  pair (bytes sent, size).
- Base64 decoding and the DataChunk cache's storage are not modelled. The cache
  is a map from chunk id to (offset, payload).
- Some hypervisor calls are assumed to succeed: `refresh(0)` on a running
  pool, the upload stream's `upload`/`send`/`finish`, `info()`, `XMLDesc`,
  `libvirt_conn` and `suspendForDuration`. The model gives them no failure input.
- `Device.create` renders a template, which is not modelled. The model appends
  a row holding the Image id, the VM id and the device name.
- `ping`, `wakeonlan`, `time.sleep`, `suspendForDuration`, the configured
  durations and the internals of `Node.start` are not modelled. WakeUp reports
  `started` instead.
- The ARP table is the list of its lines; reading `/proc/net/arp` is not modelled.
- Logging and `save()` are not modelled. Every change is seen at once.
- The suspend scan sets the MAC property one line at a time, and the Node is
  saved only after the loop. On IndexError, Suspend keeps the MAC the Node had
  before the scan.
- The BaseAgent dispatch loop, the task queue and concurrency between workers
  are not modelled.
- The CoreCluster models and setup.py are not part of this model.
- `str(vm.id)` is the VM's id string.
- NodeAgent.LoadImage: the cloned volume takes the base volume's capacity and
  the rewritten descriptor; libvirt's parsing of that descriptor is not modelled.

## Findings

| source | as written | input that shows it | evidently intended | confidence | as-written member | corrected member |
|---|---|---|---|---|---|---|
| corecluster-storage-libvirt/agents/node_libvirt.py:229-241 | when `lookupByName` raises, the VM is set stopped, but the loop goes on to read `libvirt_vm`. That name is still bound to the previous VM's domain, or is unbound | watched VMs "a" (domain running) and "b" (no domain): "b" ends running; a first watched VM with no domain raises UnboundLocalError and the Node is never set ok | a watched VM whose domain is missing is stopped, and the loop goes on | not executed; high | NodeAgent.StaleDomainCounterexample | NodeAgent.CheckIntended |
