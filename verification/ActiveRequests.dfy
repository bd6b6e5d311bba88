/** The broker's table of active requests, shared by exec and session deliveries. */
module ActiveRequests {
  import opened Common
  import opened Oracles

  class Requests {
    const world: World
    /** The nonce of each active request. */
    var active: map<string, string>

    constructor (world: World)
      ensures this.world == world && active == map[]
    {
      this.world := world;
      active := map[];
    }

    method Activate(correlation: Correlation) returns (ok: bool)
      modifies this, world`stopped
      ensures old(world.stopped) ==> world.stopped && !ok
      ensures ok <==> !world.stopped
      ensures active == if ok then old(active)[correlation.requestID := correlation.nonce] else old(active)
    {
      var stopped := world.CheckStopped();
      if stopped { return false; }
      active := active[correlation.requestID := correlation.nonce];
      return true;
    }

    /** Only the request that registered itself is removed, not one that took over its id. */
    method Deactivate(correlation: Correlation)
      modifies this
      ensures active ==
        if correlation.requestID in old(active) && old(active)[correlation.requestID] == correlation.nonce
        then old(active) - {correlation.requestID} else old(active)
    {
      if correlation.requestID in active && active[correlation.requestID] == correlation.nonce {
        active := active - {correlation.requestID};
      }
    }

    method Clear()
      modifies this
      ensures active == map[]
    {
      active := map[];
    }
  }
}
