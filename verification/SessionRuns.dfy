/**
  Two engines run against each other, on bytes, until the initiator is done
  (core/src/sync/negentropy/mod.rs).
 */
module SessionRuns {
  import opened Base
  import opened Items
  import opened Reconcile
  import opened Stores
  import opened Engines
  import opened Exactness
  import opened Sessions
  import opened LimitedSessions

  /**
    Alternates messages until the initiator stops. It always does, whatever the
    frame limits; a clean session ends with exactly both halves of the
    difference, and without limits each id comes once.
   */
  method RunSession(a: Negentropy, b: Negentropy) returns (have: seq<Id>, need: seq<Id>, ghost deliveries: nat)
    requires a.Valid() && b.Valid() && a != b && !a.isInitiator && !b.isInitiator
    requires Pair(a.Self().(initiator := true), b.Self())
    modifies a
    ensures a.Self() == old(a.Self()).(initiator := true) && b.Self() == old(b.Self())
    ensures Pair(a.Self(), b.Self()) && After(a.Self(), b.Self(), deliveries) == Done(have, need) && deliveries <= Rounds(a.Self(), b.Self())
    ensures Clean(a.Self(), b.Self()) ==>
              WholeDifference(a.Self().items, b.Self().items, have) && WholeDifference(b.Self().items, a.Self().items, need)
    ensures Unlimited(a.Self(), b.Self()) ==>
              && deliveries <= Budget(a.Self(), b.Self()) + 2
              && ExactDifference(a.Self().items, b.Self().items, have) && ExactDifference(b.Self().items, a.Self().items, need)
  {
    hide Deliver, ReconcileSpec, InitiateSpec, EncodeMessage, Ready, Budget, ExactDifference, Pair, CollisionFree, Rounds, Clean, WholeDifference;
    ghost var pa, pb := a.Self().(initiator := true), b.Self();
    PairReady(pa, pb);
    var opening := a.Initiate();
    var msg := opening.value;
    var toInitiator := false;
    have, need, deliveries := [], [], 0;
    SessionBounded(pa, pb, 0);
    while true
      invariant a.Valid() && b.Valid() && a.Self() == pa && b.Self() == pb
      invariant After(pa, pb, deliveries) == Flight(toInitiator, msg, have, need)
      invariant deliveries < Rounds(pa, pb)
      decreases Rounds(pa, pb) - deliveries
    {
      SessionBounded(pa, pb, deliveries);
      SessionBounded(pa, pb, deliveries + 1);
      DeliverIs(pa, pb, After(pa, pb, deliveries));
      var r;
      if toInitiator {
        r := a.Reconcile(msg);
      } else {
        r := b.Reconcile(msg);
      }
      deliveries := deliveries + 1;
      have, need := have + r.value.have, need + r.value.need;
      if r.value.reply.None? {
        if Clean(pa, pb) {
          CleanSessionExact(pa, pb, deliveries);
        }
        if Unlimited(pa, pb) {
          SessionProgress(pa, pb, deliveries);
        }
        return;
      }
      msg, toInitiator := r.value.reply.value, !toInitiator;
    }
  }

  lemma PairReady(a: Party, b: Party)
    requires Pair(a, b)
    ensures Ready(a) && Ready(b) && a.initiator && !b.initiator
  {
  }

  /** A delivery is one engine call. */
  lemma DeliverIs(a: Party, b: Party, w: Wire)
    requires Ready(a) && Ready(b) && w.Flight?
    ensures var r := ReconcileSpec(if w.toInitiator then a else b, w.msg);
            Deliver(a, b, w) ==
            if r.Err? then Failed
            else if r.value.reply.None? then Done(w.have + r.value.have, w.need + r.value.need)
            else Flight(!w.toInitiator, r.value.reply.value, w.have + r.value.have, w.need + r.value.need)
  {
    hide ReconcileSpec;
  }

  /** Over the same items, the sealed vector and the live index answer identically. */
  method Interchangeable(x: Negentropy, y: Negentropy, msg: seq<byte>) returns (rx: Result<Round, SyncError>, ry: Result<Round, SyncError>)
    requires x.Valid() && y.Valid() && x.Self() == y.Self()
    ensures rx == ry
  {
    rx := x.Reconcile(msg);
    ry := y.Reconcile(msg);
  }
}
