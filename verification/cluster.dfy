/**
 * The entities of the cluster's object store that the agents read and update
 * in place: Storage, Image, VM, Node, the Task being executed, the Device
 * records that bind an Image to a VM slot, and the cache of uploaded data
 * chunks. Identifiers and names never change while a task runs, so they are
 * `const`; every field an agent assigns is a `var`.
 */
module Cluster {
  import opened Outcomes

  datatype StorageState = Disabled | Locked | Ok
  datatype ImageState = Creating | Downloading | Saving | Ok | Failed | Deleted
  // `Failed` is not among the documented VM states, but load_image assigns it.
  datatype VmState = Stopped | Starting | Running | Saving | Closing | Closed | Failed
  datatype NodeState = Offline | Ok | Locked | Suspend

  newtype byte = b: int | 0 <= b < 256

  /** The `progress` property of an Image: the fraction `sent / total`, kept as two integers. */
  datatype Progress = Progress(sent: nat, total: nat)

  /** A shared storage pool, known to the hypervisor under `name`. */
  class Storage {
    const name: string
    const transport: string
    var state: StorageState

    constructor (name: string, transport: string, state: StorageState)
      ensures this.name == name && this.transport == transport && this.state == state
    {
      this.name, this.transport, this.state := name, transport, state;
    }
  }

  /** A hypervisor host; `mac` is the optional `mac` property harvested by suspend. */
  class Node {
    const address: string
    var state: NodeState
    var mac: Option<string>

    constructor (address: string, state: NodeState, mac: Option<string>)
      ensures this.address == address && this.state == state && this.mac == mac
    {
      this.address, this.state, this.mac := address, state, mac;
    }
  }

  /**
   * A virtual machine. `id` is the decimal text of the database id, which
   * also names the VM's host-local volume; `templateHdd` is the disk quota of
   * its template in MiB.
   */
  class VM {
    const id: string
    const libvirtName: string
    const node: Node
    const templateHdd: nat
    var state: VmState

    constructor (id: string, libvirtName: string, node: Node, templateHdd: nat, state: VmState)
      ensures this.id == id && this.libvirtName == libvirtName && this.node == node
      ensures this.templateHdd == templateHdd && this.state == state
    {
      this.id, this.libvirtName, this.node, this.templateHdd, this.state := id, libvirtName, node, templateHdd, state;
    }
  }

  /**
   * A virtual disk. `xml` is the volume descriptor the Image renders from its
   * template (Image.libvirt_xml); `diskDev` is the attachment slot, meaningful
   * while `attachedTo` is set.
   */
  class Image {
    const id: string
    const libvirtName: string
    const format: string
    const xml: string
    const storage: Storage
    var size: nat
    var state: ImageState
    var diskDev: int
    var attachedTo: VM?
    var progress: Option<Progress>

    constructor (id: string, libvirtName: string, format: string, xml: string, storage: Storage, size: nat)
      ensures this.id == id && this.libvirtName == libvirtName && this.format == format
      ensures this.xml == xml && this.storage == storage && this.size == size
      ensures state == Creating && attachedTo == null && progress == None
    {
      this.id, this.libvirtName, this.format, this.xml, this.storage := id, libvirtName, format, xml, storage;
      this.size, this.state, this.diskDev, this.attachedTo, this.progress := size, Creating, 0, null, None;
    }
  }

  /** The task being executed: its action name and the two fields an agent may write. */
  class Task {
    const action: string
    var ignoreErrors: bool
    var comment: string

    constructor (action: string, ignoreErrors: bool)
      ensures this.action == action && this.ignoreErrors == ignoreErrors && comment == ""
    {
      this.action, this.ignoreErrors, this.comment := action, ignoreErrors, "";
    }
  }

  /** A Device record: the Image `objectId` appears in VM `vmId` as disk `name`. */
  datatype Device = Device(objectId: string, vmId: string, name: string)

  /** The Device rows of the object store. */
  class DeviceTable {
    var rows: seq<Device>

    constructor ()
      ensures rows == []
    {
      rows := [];
    }
  }

  /** A cached upload chunk: where it goes and its payload, already base64-decoded. */
  datatype DataChunk = DataChunk(offset: nat, payload: seq<byte>)

  /** The data-chunk cache, keyed by the opaque chunk id carried in the task. */
  class ChunkCache {
    var chunks: map<string, DataChunk>

    constructor ()
      ensures chunks == map[]
    {
      chunks := map[];
    }
  }

  /** The Image is attached to a VM that is not `closed`. */
  predicate AttachedToLiveVm(image: Image)
    reads image, image.attachedTo
  {
    image.attachedTo != null && image.attachedTo.state != VmState.Closed
  }

  /** The VM is stopped, closing or closed: its disks may be detached or deleted. */
  predicate Settled(state: VmState)
  {
    state == VmState.Stopped || state == VmState.Closing || state == VmState.Closed
  }

  /** Some VM of `vms` is not closed. */
  predicate SomeOpen(vms: seq<VM>)
    reads vms
  {
    exists k :: 0 <= k < |vms| && vms[k].state != VmState.Closed
  }
}
