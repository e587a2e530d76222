/** The demo trail under the product's own integrity check: each object's entries, written in
    the generator's order under random ids, chained one by one and read back in (timestamp,
    id) order. */
module DemoChain {
  import opened DemoLedger
  import C = AuditChain

  predicate AllDistinct(ids: seq<int>) { forall j, k | 0 <= j < k < |ids| :: ids[j] != ids[k] }

  function Stored(e: Entry, id: int, key: C.ObjectKey): C.Hashed { C.Hashed(id, key, e.at, e.action) }

  /** What is written about `s`, in the order written; `ids` are the entries' ids. */
  function TrailOf(audits: seq<Entry>, ids: seq<int>, s: Subject, key: C.ObjectKey): seq<C.Hashed>
    requires |ids| == |audits|
  {
    if audits == [] then []
    else
      var n := |audits| - 1;
      var before := TrailOf(audits[..n], ids[..n], s, key);
      if audits[n].subject == s then before + [Stored(audits[n], ids[n], key)] else before
  }

  /** Every entry of `s` before the `k`th that has the `k`th's time has a smaller id. */
  predicate SortsAfterTies(audits: seq<Entry>, ids: seq<int>, k: nat)
    requires k < |ids| == |audits|
  {
    forall j | 0 <= j < k && audits[j].subject == audits[k].subject && audits[j].at == audits[k].at :: ids[j] < ids[k]
  }

  /** Each automatic approval of `s` has a larger id than the entries it is dated as. */
  predicate ApprovalsSortLater(audits: seq<Entry>, ids: seq<int>, s: Subject)
    requires |ids| == |audits|
  {
    forall k | 0 <= k < |audits| && audits[k].subject == s && audits[k].action == "autopilot_approved" ::
      SortsAfterTies(audits, ids, k)
  }

  predicate BeforeNone(xs: seq<C.Hashed>, x: C.Hashed) { forall i | 0 <= i < |xs| :: !C.Before(x, xs[i]) }

  lemma OneMoreWritten(xs: seq<C.Hashed>, x: C.Hashed)
    ensures C.WrittenInOrder(xs + [x]) <==> C.WrittenInOrder(xs) && BeforeNone(xs, x)
  {
    var all := xs + [x];
    assert forall i | 0 <= i < |xs| :: all[i] == xs[i];
    if C.WrittenInOrder(all) {
      forall i | 0 <= i < |xs| ensures !C.Before(x, xs[i]) { assert !C.Before(all[|xs|], all[i]); }
    }
  }

  /** Among the first `n` entries, nothing of the `k`th's subject is read back after it. */
  predicate NoneReadAfter(audits: seq<Entry>, ids: seq<int>, k: nat, n: nat)
    requires n <= k < |ids| == |audits|
  {
    forall j | 0 <= j < n && audits[j].subject == audits[k].subject ::
      audits[j].at < audits[k].at || (audits[j].at == audits[k].at && ids[j] < ids[k])
  }

  lemma {:induction false} TrailBeforeNone(audits: seq<Entry>, ids: seq<int>, k: nat, n: nat, key: C.ObjectKey)
    requires n <= k < |ids| == |audits| && AllDistinct(ids)
    ensures BeforeNone(TrailOf(audits[..n], ids[..n], audits[k].subject, key), Stored(audits[k], ids[k], key)) <==>
      NoneReadAfter(audits, ids, k, n)
    decreases n
  {
    if n > 0 {
      var s, x := audits[k].subject, Stored(audits[k], ids[k], key);
      TrailBeforeNone(audits, ids, k, n - 1, key);
      assert audits[..n][..n - 1] == audits[..n - 1] && ids[..n][..n - 1] == ids[..n - 1];
      var before, all := TrailOf(audits[..n - 1], ids[..n - 1], s, key), TrailOf(audits[..n], ids[..n], s, key);
      assert ids[n - 1] != ids[k];
      if audits[n - 1].subject == s {
        var y := Stored(audits[n - 1], ids[n - 1], key);
        assert all == before + [y];
        BeforeOneMore(before, y, x);
      }
    }
  }

  lemma BeforeOneMore(xs: seq<C.Hashed>, y: C.Hashed, x: C.Hashed)
    ensures BeforeNone(xs + [y], x) <==> BeforeNone(xs, x) && !C.Before(x, y)
  {
    var all := xs + [y];
    assert all[|xs|] == y && forall i | 0 <= i < |xs| :: all[i] == xs[i];
  }

  lemma ChronologicalPrefix(audits: seq<Entry>, n: nat)
    requires Chronological(audits) && n <= |audits|
    ensures Chronological(audits[..n])
  {
  }

  /** In a chronological trail, only an automatic approval can be read back out of place. */
  lemma ReadBackInPlace(audits: seq<Entry>, ids: seq<int>, k: nat)
    requires k < |ids| == |audits| && Chronological(audits)
    ensures NoneReadAfter(audits, ids, k, k) <==>
      (audits[k].action == "autopilot_approved" ==> SortsAfterTies(audits, ids, k))
  {
    assert forall j | 0 <= j < k && audits[j].subject == audits[k].subject :: MayFollow(audits[j], audits[k]);
  }

  lemma LastApproval(audits: seq<Entry>, ids: seq<int>, s: Subject)
    requires |ids| == |audits| && audits != []
    ensures var n := |audits| - 1;
      ApprovalsSortLater(audits, ids, s) <==>
        ApprovalsSortLater(audits[..n], ids[..n], s) &&
        (audits[n].subject == s && audits[n].action == "autopilot_approved" ==> SortsAfterTies(audits, ids, n))
  {
    var n := |audits| - 1;
    forall k | 0 <= k < n ensures SortsAfterTies(audits[..n], ids[..n], k) <==> SortsAfterTies(audits, ids, k) {
    }
    assert forall k | 0 <= k < n :: audits[..n][k] == audits[k];
  }

  lemma {:induction false} WrittenInOrderExactlyWhen(audits: seq<Entry>, ids: seq<int>, s: Subject, key: C.ObjectKey)
    requires |ids| == |audits| && AllDistinct(ids) && Chronological(audits)
    ensures C.WrittenInOrder(TrailOf(audits, ids, s, key)) <==> ApprovalsSortLater(audits, ids, s)
    decreases |audits|
  {
    if audits != [] {
      var n := |audits| - 1;
      ChronologicalPrefix(audits, n);
      WrittenInOrderExactlyWhen(audits[..n], ids[..n], s, key);
      LastApproval(audits, ids, s);
      if audits[n].subject == s {
        OneMoreWritten(TrailOf(audits[..n], ids[..n], s, key), Stored(audits[n], ids[n], key));
        TrailBeforeNone(audits, ids, n, n, key);
        ReadBackInPlace(audits, ids, n);
      }
    }
  }

  /** The generated trail of any object passes the integrity check exactly when each automatic
      approval drew a larger id than the entries it is dated as, or two hashed texts of that
      very trail collide. */
  lemma DemoTrailVerifiesExactlyWhen(
      h: C.Hasher, audits: seq<Entry>, ids: seq<int>, s: Subject, key: C.ObjectKey) returns (a: string, b: string)
    requires C.Sound(h) && |ids| == |audits| && AllDistinct(ids) && Chronological(audits)
    ensures var log := C.AppendAll(h, TrailOf(audits, ids, s, key));
      C.CollisionBetween(h, log, log, a, b) || (C.Verifies(h, log) <==> ApprovalsSortLater(audits, ids, s))
  {
    a, b := C.TrailVerifiesExactlyWhen(h, TrailOf(audits, ids, s, key));
    WrittenInOrderExactlyWhen(audits, ids, s, key);
  }

  /** One invoice approved and then approved automatically under a smaller id: a trail in
      order, and a broken chain. */
  lemma ApprovalCanBreakItsTrail(h: C.Hasher, at: int, key: C.ObjectKey) returns (a: string, b: string)
    requires C.Sound(h)
    ensures
      var audits := [Entry(OfInvoice(0), "approved", at), Entry(OfInvoice(0), "autopilot_approved", at)];
      var log := C.AppendAll(h, TrailOf(audits, [2, 1], OfInvoice(0), key));
      && Chronological(audits)
      && (C.CollisionBetween(h, log, log, a, b) || !C.Verifies(h, log))
  {
    var audits := [Entry(OfInvoice(0), "approved", at), Entry(OfInvoice(0), "autopilot_approved", at)];
    a, b := DemoTrailVerifiesExactlyWhen(h, audits, [2, 1], OfInvoice(0), key);
    assert !SortsAfterTies(audits, [2, 1], 1);
  }
}
