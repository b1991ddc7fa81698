/** Readback and fences together, in every run of the protocol: readback.py, policy.py and coordinator.py. */
module Causality {
  import opened Prelude
  import F = Fences
  import P = Protocol
  import PF = ProtocolFences
  import R = Readback

  /** Of two fenced transitions, the second is confirmed only after an aggregate report, accepted in
      between, that is stamped later than the report of every member that confirmed the first, even
      if processes died and recovered in between. */
  lemma LaterThanEveryConfirmingMember(
      s0: P.Sys, ls: seq<P.Label>, i: nat, j: nat, first: F.Kind, second: F.Kind,
      r: R.CausalReadback, v: R.View, issued: Time)
    requires P.Initial(s0) && P.Run(s0, ls) && i < j
    requires PF.ConfirmsAt(s0, ls, i, first) && PF.ConfirmsAt(s0, ls, j, second)
    requires F.Fenced(first, second) && PF.WrittenBeforeRestart(ls, i, j)
    requires r.IsConfirmation(v, issued, ls[i].stamp)
    ensures exists k :: i < k < j && PF.LaterReportAt(s0, ls, k, ls[i].stamp) && LaterThanMembers(r, v, ls[k].stamp)
    ensures !r.expectedOn ==> forall e :: e in r.members ==> R.StateOf(v, e).on == Some(false)
  {
    r.ConfirmedStates(v, issued, ls[i].stamp);
    PF.ConfirmedActionsAreSeparated(s0, ls, i, j, first, second);
    var k :| i < k < j && PF.LaterReportAt(s0, ls, k, ls[i].stamp);
    LaterThanAll(r, v, issued, ls[i].stamp, ls[k].stamp);
  }

  lemma LaterThanAll(r: R.CausalReadback, v: R.View, issued: Time, confirmed: Time, aggregate: Time)
    requires r.IsConfirmation(v, issued, confirmed) && aggregate > confirmed
    ensures LaterThanMembers(r, v, aggregate)
  {
    forall e | e in r.members
      ensures R.StateOf(v, e).reportedAt.Some? && R.StateOf(v, e).reportedAt.value < aggregate
    {
      R.LaterThanEveryMember(r, v, issued, confirmed, aggregate, e);
    }
  }

  ghost predicate LaterThanMembers(r: R.CausalReadback, v: R.View, stamp: Time) {
    forall e :: e in r.members ==> R.StateOf(v, e).reportedAt.Some? && R.StateOf(v, e).reportedAt.value < stamp
  }
}
