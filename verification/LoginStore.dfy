/** The flow table as the transactions update it. */
module LoginStore {
  import opened Wrappers
  import opened LoginFlows

  class FlowTable {
    var flows: Flows

    constructor ()
      ensures flows == map[] && TableOk(flows)
    {
      flows := map[];
    }

    method CreateFlow(id: string, handle: string, state: string, binding: string, expiresAt: int, now: int,
                      maxPerHour: int)
      returns (r: CreateResult)
      requires Unique(flows)
      modifies this
      ensures Unique(flows)
      ensures (flows, r) == LoginFlows.CreateFlow(old(flows), id, handle, state, binding, expiresAt, now, maxPerHour)
    {
      var count := |Recent(flows, binding, now - HOUR)|;
      if count >= maxPerHour { return Limited; }
      if Clashes(flows, id, handle, state) { return Conflict; }
      flows := flows[id := Flow(handle, state, binding, now, expiresAt, None)];
      r := Created;
    }

    method ConsumeFlow(state: string, handle: string, binding: string, now: int) returns (r: Option<string>)
      requires Unique(flows)
      modifies this
      ensures Unique(flows)
      ensures (flows, r) == LoginFlows.ConsumeFlow(old(flows), state, handle, binding, now)
    {
      r := None;
      if id :| id in flows && Consumable(flows[id], state, handle, binding, now) {
        flows := flows[id := flows[id].(consumedAt := Some(now))];
        r := Some(id);
      }
    }

    /** Delete up to batchSize long expired flows; None is the refusal of a bad batch size. */
    method Cleanup(now: int, batchSize: int) returns (deleted: Option<nat>)
      requires Unique(flows)
      modifies this
      ensures Unique(flows)
      ensures deleted.None? <==> !(1 <= batchSize <= 1000)
      ensures deleted.None? ==> flows == old(flows)
      ensures deleted.Some? ==>
                exists chosen :: IsBatch(old(flows), now, batchSize, chosen)
                                 && flows == old(flows) - chosen && deleted.value == |chosen|
    {
      hide IsBatch, Expired;
      if !(1 <= batchSize <= 1000) { return None; }
      var expired, chosen := Expired(flows, now), {};
      while |chosen| < batchSize && chosen != expired
        invariant chosen <= expired && |chosen| <= batchSize
        decreases |expired - chosen|
      {
        var id :| id in expired - chosen;
        chosen := chosen + {id};
      }
      ExpiredBatch(flows, now, batchSize, chosen);
      flows := flows - chosen;
      deleted := Some(|chosen|);
    }
  }
}
