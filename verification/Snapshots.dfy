/** Snapshot stripes: the live snapshots cut the sequence numbers into intervals,
    and two versions of a key in one interval cannot be told apart by any read. */
module Snapshots {
  import opened Records

  /** Ascending, and below `kMaxSequenceNumber` (asserted by the search loop). */
  ghost predicate Ascending(snaps: seq<nat>) {
    && (forall i, j | 0 <= i < j < |snaps| :: snaps[i] <= snaps[j])
    && (forall i | 0 <= i < |snaps| :: snaps[i] < MAX_SEQ)
  }

  /** The earliest snapshot in which sequence number `q` is visible; MAX_SEQ is the tip. */
  function Stripe(snaps: seq<nat>, q: nat): nat {
    if snaps == [] then MAX_SEQ
    else if snaps[0] >= q then snaps[0]
    else Stripe(snaps[1..], q)
  }

  /** The snapshot just below the stripe of `q`, or 0 when there is none. */
  function Previous(snaps: seq<nat>, q: nat): nat {
    if snaps == [] || snaps[0] >= q then 0
    else if snaps[1..] == [] || snaps[1] >= q then snaps[0]
    else Previous(snaps[1..], q)
  }

  function Earliest(snaps: seq<nat>): nat {
    if snaps == [] then MAX_SEQ else snaps[0]
  }

  /** The points that a read can be made at: a live snapshot, or the tip. */
  predicate ReadPoint(snaps: seq<nat>, s: nat) {
    s in snaps || s == MAX_SEQ
  }

  /** A read point sees a sequence number exactly when it is not below its stripe. */
  lemma {:induction false} VisibleIffStripe(snaps: seq<nat>, q: nat, s: nat)
    requires Ascending(snaps) && q <= MAX_SEQ && ReadPoint(snaps, s)
    ensures q <= Stripe(snaps, q) <= MAX_SEQ
    ensures q <= s <==> Stripe(snaps, q) <= s
  {
    if snaps != [] && snaps[0] < q {
      if s in snaps[1..] || s == MAX_SEQ {
        VisibleIffStripe(snaps[1..], q, s);
      } else {
        assert s == snaps[0];
        VisibleIffStripe(snaps[1..], q, MAX_SEQ);
      }
    }
  }

  lemma {:induction false} StripeIsReadPoint(snaps: seq<nat>, q: nat)
    ensures ReadPoint(snaps, Stripe(snaps, q))
  {
    if snaps != [] && snaps[0] < q {
      StripeIsReadPoint(snaps[1..], q);
    }
  }

  /** Stripes follow the order of sequence numbers. */
  lemma {:induction false} StripeMonotone(snaps: seq<nat>, p: nat, q: nat)
    requires Ascending(snaps) && p <= q <= MAX_SEQ
    ensures Stripe(snaps, p) <= Stripe(snaps, q)
  {
    if snaps != [] {
      if snaps[0] < p {
        StripeMonotone(snaps[1..], p, q);
      } else if snaps[0] < q {
        StripeIsReadPoint(snaps[1..], q);
      }
    }
  }

  /** The test that the code makes on the next record, `previous == 0 || p > previous`,
      says exactly that `p` lies in the stripe of the newer `q`, unless a snapshot
      numbered 0 makes `p == 0` a stripe of its own and is taken for no snapshot. */
  lemma {:induction false} SameStripeIffAbovePrevious(snaps: seq<nat>, p: nat, q: nat)
    requires Ascending(snaps) && p <= q <= MAX_SEQ
    requires Stripe(snaps, p) != 0 || Previous(snaps, q) != 0
    ensures Stripe(snaps, p) == Stripe(snaps, q) <==> (Previous(snaps, q) == 0 || p > Previous(snaps, q))
    ensures Previous(snaps, q) in snaps + [0] && (Previous(snaps, q) > 0 ==> Previous(snaps, q) < q)
  {
    if Stripe(snaps, p) == 0 {
      VisibleIffStripe(snaps, p, MAX_SEQ);
      VisibleIffStripe(snaps, q, MAX_SEQ);
      PreviousInside(snaps, q);
    } else if snaps != [] && snaps[0] < q {
      if snaps[1..] != [] && snaps[1] < q {
        if snaps[0] < p {
          SameStripeIffAbovePrevious(snaps[1..], p, q);
        } else {
          // p's stripe is the first snapshot, q's stripe is at least the third.
          StripeIsReadPoint(snaps[1..], q);
          PreviousInside(snaps[1..], q);
          VisibleIffStripe(snaps[1..], q, MAX_SEQ);
        }
      } else {
        VisibleIffStripe(snaps[1..], q, MAX_SEQ);
      }
    }
  }

  lemma {:induction false} PreviousInside(snaps: seq<nat>, q: nat)
    requires Ascending(snaps)
    ensures snaps != [] && snaps[0] < q ==> snaps[0] <= Previous(snaps, q) < q && Previous(snaps, q) in snaps
    ensures forall w | w in snaps && w < q :: w <= Previous(snaps, q)
  {
    if snaps != [] && snaps[0] < q && snaps[1..] != [] && snaps[1] < q {
      PreviousInside(snaps[1..], q);
      assert forall w | w in snaps :: w == snaps[0] || w in snaps[1..];
    } else if snaps != [] && snaps[0] < q {
      assert forall w | w in snaps :: w == snaps[0] || w in snaps[1..];
    }
  }

  /** Everything at or below the earliest snapshot shares one stripe. */
  lemma FirstStripe(snaps: seq<nat>, q: nat)
    requires q <= Earliest(snaps)
    ensures Stripe(snaps, q) == Earliest(snaps) && Previous(snaps, q) == 0
  {
  }

  lemma {:induction false} AboveFirstStripe(snaps: seq<nat>, q: nat)
    requires Ascending(snaps) && Earliest(snaps) < q <= MAX_SEQ
    ensures Stripe(snaps, q) > Earliest(snaps)
  {
    VisibleIffStripe(snaps, q, MAX_SEQ);
  }
}
