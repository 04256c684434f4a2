/**
 * The hypervisor as the agents see it through a connection: storage pools by
 * name, each with its volumes; domains by name with their running flag; and
 * the log of byte ranges streamed into volumes. Real libvirt calls, XML
 * parsing and data transfer are not modelled; each step the agents take is a
 * function from one pool map to the next.
 */
module Libvirt {

  /** A storage volume: its capacity in bytes and its XML descriptor. */
  datatype Volume = Volume(capacity: nat, xml: string)

  /**
   * A storage pool known to the hypervisor. An undefined pool keeps its
   * volumes (they live on the pool's target) but cannot be looked up.
   */
  datatype Pool = Pool(defined: bool, running: bool, autostart: bool, volumes: map<string, Volume>)

  /** One streamed upload: `length` bytes written at `offset` into a volume of a pool. */
  datatype Upload = Upload(pool: string, volume: string, offset: nat, length: nat)

  /** The hypervisor behind one connection. */
  class Host {
    var pools: map<string, Pool>
    var domains: map<string, bool>
    var uploads: seq<Upload>

    constructor (pools: map<string, Pool>, domains: map<string, bool>)
      ensures this.pools == pools && this.domains == domains && uploads == []
    {
      this.pools, this.domains, this.uploads := pools, domains, [];
    }
  }

  /** storagePoolLookupByName(name) succeeds. */
  predicate PoolFound(pools: map<string, Pool>, name: string)
  {
    name in pools && pools[name].defined
  }

  /** The pool is found and its info() reports VIR_STORAGE_POOL_RUNNING. */
  predicate PoolRunning(pools: map<string, Pool>, name: string)
  {
    PoolFound(pools, name) && pools[name].running
  }

  /** storageVolLookupByName(vol) on the pool succeeds. */
  predicate HasVolume(pools: map<string, Pool>, pool: string, vol: string)
  {
    PoolFound(pools, pool) && vol in pools[pool].volumes
  }

  /** storagePoolDefineXML: the pool becomes defined, keeping what it had if it was known. */
  function Define(pools: map<string, Pool>, name: string): (r: map<string, Pool>)
    ensures PoolFound(r, name) && r - {name} == pools - {name}
  {
    if name in pools then pools[name := pools[name].(defined := true)]
    else pools[name := Pool(true, false, false, map[])]
  }

  /** undefine(): the pool can no longer be looked up; its volumes stay on the target. */
  function Undefine(pools: map<string, Pool>, name: string): (r: map<string, Pool>)
    requires name in pools
    ensures !PoolFound(r, name) && r - {name} == pools - {name}
  {
    pools[name := pools[name].(defined := false)]
  }

  /** destroy(): the pool stops. */
  function Destroy(pools: map<string, Pool>, name: string): (r: map<string, Pool>)
    requires name in pools
    ensures !PoolRunning(r, name) && r - {name} == pools - {name}
  {
    pools[name := pools[name].(running := false)]
  }

  /** create(0) on a pool: the pool starts. */
  function Start(pools: map<string, Pool>, name: string): (r: map<string, Pool>)
    requires PoolFound(pools, name)
    ensures PoolRunning(r, name) && r - {name} == pools - {name}
    ensures r[name].volumes == pools[name].volumes
  {
    pools[name := pools[name].(running := true)]
  }

  /** setAutostart(on). */
  function SetAutostart(pools: map<string, Pool>, name: string, on: bool): (r: map<string, Pool>)
    requires name in pools
    ensures name in r && r[name].autostart == on && r - {name} == pools - {name}
    ensures PoolFound(r, name) == PoolFound(pools, name) && PoolRunning(r, name) == PoolRunning(pools, name)
  {
    pools[name := pools[name].(autostart := on)]
  }

  /** A volume is created (createXML, createXMLFrom) or resized under `vol` in `pool`. */
  function PutVolume(pools: map<string, Pool>, pool: string, vol: string, v: Volume): (r: map<string, Pool>)
    requires pool in pools
    ensures pool in r && r[pool].volumes == pools[pool].volumes[vol := v]
    ensures HasVolume(r, pool, vol) == PoolFound(pools, pool) && r - {pool} == pools - {pool}
  {
    pools[pool := pools[pool].(volumes := pools[pool].volumes[vol := v])]
  }

  /** delete(0) on a volume. */
  function DropVolume(pools: map<string, Pool>, pool: string, vol: string): (r: map<string, Pool>)
    requires pool in pools
    ensures pool in r && r[pool].volumes == pools[pool].volumes - {vol}
    ensures !HasVolume(r, pool, vol) && r - {pool} == pools - {pool}
  {
    pools[pool := pools[pool].(volumes := pools[pool].volumes - {vol})]
  }
}
