/** What the two review publishers share: remarks carrying an idempotency marker, and requests that may be lost. */
module Publication {
  import opened Json

  type Marker = string
  type Oid = string

  /** A note or a review; `marker` is what `extractMarker` finds in its body. */
  datatype Remark = Remark(id: nat, marker: Option<Marker>)

  /** A request fails before it reached the forge, or takes effect with its response lost, or is answered. */
  datatype Delivery = LostBefore | LostAfter | Answered

  function Marked(remarks: seq<Remark>, marker: Marker): nat {
    if remarks == [] then 0
    else Marked(remarks[..|remarks| - 1], marker) + if remarks[|remarks| - 1].marker == Some(marker) then 1 else 0
  }

  lemma MarkedGrows(remarks: seq<Remark>, remark: Remark, marker: Marker)
    ensures Marked(remarks + [remark], marker) ==
            Marked(remarks, marker) + if remark.marker == Some(marker) then 1 else 0
  {
    assert (remarks + [remark])[..|remarks|] == remarks;
  }

  /** None marked means none anywhere. */
  lemma {:induction false} MarkedIsMembership(remarks: seq<Remark>, marker: Marker)
    ensures Marked(remarks, marker) == 0 <==> forall k :: 0 <= k < |remarks| ==> remarks[k].marker != Some(marker)
    decreases remarks
  {
    if remarks != [] { MarkedIsMembership(remarks[..|remarks| - 1], marker); }
  }

  lemma {:induction false} MarkedAppend(a: seq<Remark>, b: seq<Remark>, marker: Marker)
    ensures Marked(a + b, marker) == Marked(a, marker) + Marked(b, marker)
    decreases b
  {
    if b == [] {
      assert a + b == a;
    } else {
      assert (a + b)[..|a + b| - 1] == a + b[..|b| - 1];
      MarkedAppend(a, b[..|b| - 1], marker);
    }
  }

  // ----- writes and the head they were vouched by -----

  datatype Kind = TheRemark | TheApproval

  /** What the forge can say happened, in order; a write names the head its post reviewed. */
  datatype Act = Began | SawHead(oid: Oid) | Wrote(kind: Kind, head: Oid)

  /** The current attempt read the head, and it was this one. */
  predicate Saw(log: seq<Act>, oid: Oid) {
    log != [] && (log[|log| - 1] == SawHead(oid) || (!log[|log| - 1].Began? && Saw(log[..|log| - 1], oid)))
  }

  /** Every write follows, in its own attempt, a read of the head that was reviewed. */
  predicate Vouched(log: seq<Act>) {
    log != [] ==>
      var init, last := log[..|log| - 1], log[|log| - 1];
      Vouched(init) && (last.Wrote? ==> Saw(init, last.head))
  }

  lemma VouchedGrows(log: seq<Act>, act: Act)
    requires Vouched(log) && (act.Wrote? ==> Saw(log, act.head))
    ensures Vouched(log + [act])
    ensures forall oid :: Saw(log + [act], oid) <==> act == SawHead(oid) || (!act.Began? && Saw(log, oid))
  {
    assert (log + [act])[..|log|] == log;
  }

  lemma {:induction false} VouchedMeans(log: seq<Act>, k: nat)
    requires Vouched(log) && k < |log| && log[k].Wrote?
    ensures exists j :: 0 <= j < k && log[j] == SawHead(log[k].head) && forall m :: j < m < k ==> !log[m].Began?
    decreases |log|
  {
    if k == |log| - 1 {
      SawMeans(log[..k], log[k].head);
    } else {
      VouchedMeans(log[..|log| - 1], k);
    }
  }

  lemma {:induction false} SawMeans(log: seq<Act>, oid: Oid)
    requires Saw(log, oid)
    ensures exists j :: 0 <= j < |log| && log[j] == SawHead(oid) && forall m :: j < m < |log| ==> !log[m].Began?
    decreases |log|
  {
    if log[|log| - 1] != SawHead(oid) {
      SawMeans(log[..|log| - 1], oid);
      var init := log[..|log| - 1];
      var j :| 0 <= j < |init| && init[j] == SawHead(oid) && forall m :: j < m < |init| ==> !init[m].Began?;
      assert log[j] == SawHead(oid);
    }
  }
}
