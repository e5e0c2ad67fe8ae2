/** Account addresses and their placement on shards. */
module Addresses {
  type Address = string

  /** The default shard of an address (utils/utils_partition.go), a parameter of every model here. */
  type Placement = Address -> nat

  ghost predicate Into(home: Placement, shardNum: nat) {
    forall a :: home(a) < shardNum
  }
}
