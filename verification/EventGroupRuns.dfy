/**
 * The code of event_groups.c follows the runs of EventGroupProtocol: no waiter is
 * stranded in it.
 */
module EventGroupRuns {
  import opened EventGroups
  import P = EventGroupProtocol

  method Perform(g: EventGroup, a: P.Action)
    requires P.Inv(g.Abs()) && P.Enabled(g.Abs(), a)
    modifies g
    ensures g.Abs() == P.Exec(old(g.Abs()), a)
  {
    match a
    case DoSetBits(bits) => var _ := g.SetBits(bits);
    case DoClearBits(bits) => var _ := g.ClearBits(bits);
    case DoWaitBits(t, r, block) => var _ := g.WaitBits(t, r, if block then 1 else 0);
    case DoSync(t, bits, mask, block) => var _ := g.Sync(t, bits, mask, if block then 1 else 0);
    case DoTimeOut(t) => g.TimeOut(t);
    case DoReturn(t) => var _ := g.Return(t);
    case DoSetPriority(t, priority) => g.SetPriority(t, priority);
    case DoDelete => g.Delete();
  }

  predicate Possible(s: P.State, actions: seq<P.Action>)
    decreases actions
  {
    actions == [] || (P.Enabled(s, actions[0]) && Possible(P.Exec(s, actions[0]), actions[1..]))
  }

  /** Any sequence of calls, time-outs and changes of priority takes the group to the state the protocol reaches. */
  method RunOn(g: EventGroup, actions: seq<P.Action>)
    requires P.Inv(g.Abs()) && Possible(g.Abs(), actions)
    modifies g
    ensures P.Inv(g.Abs()) && g.Abs() == P.Run(old(g.Abs()), actions)
    decreases |actions|
  {
    if actions != [] {
      P.StepKeepsInv(g.Abs(), actions[0]);
      Perform(g, actions[0]);
      RunOn(g, actions[1..]);
    }
  }
}
