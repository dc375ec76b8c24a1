/**
 What an operation may log (src/fs/cache.h, src/fs/cache.c): its reservation, and what cache_sync takes of it.
 */
module LogSpace {

  const OP_MAX_NUM_BLOCKS := 10

  /** cache_sync of block b panics: b is new to the log header, and nothing of the reservation is left. */
  predicate RunsOut(rm: nat, dirty: set<nat>, b: nat) { b !in dirty && rm == 0 }

  /** What is left of the reservation rm after cache_sync of b. */
  function Remaining(rm: nat, dirty: set<nat>, b: nat): (r: nat)
    requires !RunsOut(rm, dirty, b)
  {
    if b in dirty then rm else rm - 1
  }
}
