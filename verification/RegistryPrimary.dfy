/**
 What the pass over the records flagged primary does, exactly: the first of them gathers the clusters of the others in
 record order, and passes over one only when two of this PC's slots would meet.
 */
module RegistryPrimary {
  import opened UnionFind
  import opened DeviceRegistry
  import opened RegistryProofs

  ghost predicate FirstPrimary(nodes: seq<Node>, h: nat) {
    h < |nodes| && nodes[h].primary && forall i :: 0 <= i < h ==> !nodes[i].primary
  }

  /** In `d` primary record `q` is with the first one. */
  predicate With(nodes: seq<Node>, d: seq<nat>, h: nat, q: nat)
    requires |d| == |nodes| && h < |nodes| && q < |nodes|
  {
    nodes[q].primary && d[q] == d[h]
  }

  /** Record `a` started in the cluster of a primary record, from `h` on and before `n`, that is with the first one in
      `d`. */
  ghost predicate Gathered(nodes: seq<Node>, c: seq<nat>, d: seq<nat>, h: nat, n: nat, a: nat)
    requires |c| == |d| == |nodes| && h < |nodes| && n <= |nodes| && a < |nodes|
  {
    exists q :: h <= q < n && With(nodes, d, h, q) && c[a] == c[q]
  }

  /** Two of this PC's slots lie in the cluster `p` started in and in those gathered before it. */
  ghost predicate Meets(nodes: seq<Node>, c: seq<nat>, d: seq<nat>, h: nat, p: nat)
    requires |c| == |d| == |nodes| && h < |nodes| && p < |nodes|
  {
    exists a, b :: 0 <= a < b < |nodes| && IsLocal(nodes[a]) && IsLocal(nodes[b]) &&
      (c[a] == c[p] || Gathered(nodes, c, d, h, p, a)) && (c[b] == c[p] || Gathered(nodes, c, d, h, p, b))
  }

  /** `p` was gathered exactly when it should be. */
  ghost predicate Decided(nodes: seq<Node>, c: seq<nat>, d: seq<nat>, h: nat, p: nat)
    requires |c| == |d| == |nodes| && h < |nodes| && p < |nodes|
  {
    d[p] == d[h] <==> Gathered(nodes, c, d, h, p, p) || !Meets(nodes, c, d, h, p)
  }

  /** Two records are together exactly when they started together or both were gathered. */
  ghost predicate Together(nodes: seq<Node>, c: seq<nat>, d: seq<nat>, h: nat, n: nat, a: nat, b: nat)
    requires |c| == |d| == |nodes| && h < |nodes| && n <= |nodes| && a < |nodes| && b < |nodes|
  {
    d[a] == d[b] <==> c[a] == c[b] || (Gathered(nodes, c, d, h, n, a) && Gathered(nodes, c, d, h, n, b))
  }

  /** The partition after the primary records before `n`. */
  function PassTo(nodes: seq<Node>, c: seq<nat>, h: nat, n: nat): (d: seq<nat>)
    requires |c| == |nodes| && h < n <= |nodes|
    ensures |d| == |nodes|
  {
    if n == h + 1 then c
    else if nodes[n - 1].primary then PrimaryStep(nodes, PassTo(nodes, c, h, n - 1), h, n - 1)
    else PassTo(nodes, c, h, n - 1)
  }

  lemma {:induction false} PrimariesFrom(nodes: seq<Node>, h: nat, n: nat)
    requires FirstPrimary(nodes, h) && n <= |nodes|
    ensures n <= h ==> Primaries(nodes, n) == []
    ensures n > h ==> Primaries(nodes, n) != [] && Primaries(nodes, n)[0] == h
  {
    if n > 0 { PrimariesFrom(nodes, h, n - 1); }
  }

  lemma FoldNext(nodes: seq<Node>, c: seq<nat>, h: nat, qs: seq<nat>, i: nat)
    requires |c| == |nodes| && h < |nodes| && i < |nodes| && forall k :: 0 <= k < |qs| ==> qs[k] < |nodes|
    ensures PrimaryFold(nodes, c, h, qs + [i]) == PrimaryStep(nodes, PrimaryFold(nodes, c, h, qs), h, i)
  {
    assert (qs + [i])[..|qs|] == qs;
  }

  /** The primary records after `h` and before `n`. */
  function Later(nodes: seq<Node>, h: nat, n: nat): (qs: seq<nat>)
    requires h < n <= |nodes|
    ensures forall k :: 0 <= k < |qs| ==> qs[k] < |nodes|
  {
    if n == h + 1 then [] else if nodes[n - 1].primary then Later(nodes, h, n - 1) + [n - 1] else Later(nodes, h, n - 1)
  }

  lemma {:induction false} LaterPrimaries(nodes: seq<Node>, h: nat, n: nat)
    requires FirstPrimary(nodes, h) && h < n <= |nodes|
    ensures Primaries(nodes, n) == [h] + Later(nodes, h, n)
  {
    if n == h + 1 { PrimariesFrom(nodes, h, h); } else { LaterPrimaries(nodes, h, n - 1); }
  }

  lemma {:induction false} PassIsFold(nodes: seq<Node>, c: seq<nat>, h: nat, n: nat)
    requires |c| == |nodes| && h < n <= |nodes|
    ensures PassTo(nodes, c, h, n) == PrimaryFold(nodes, c, h, Later(nodes, h, n))
  {
    if n > h + 1 {
      PassIsFold(nodes, c, h, n - 1);
      if nodes[n - 1].primary { FoldNext(nodes, c, h, Later(nodes, h, n - 1), n - 1); }
    }
  }

  lemma {:induction false} PassSettles(nodes: seq<Node>, c: seq<nat>, h: nat, n: nat, p: nat)
    requires |c| == |nodes| && FirstPrimary(nodes, h) && h < n <= |nodes| && h <= p < n && nodes[p].primary
    ensures Settled(nodes, PassTo(nodes, c, h, n), h, p)
  {
    if n > h + 1 {
      var e := PassTo(nodes, c, h, n - 1);
      if p < n - 1 { PassSettles(nodes, c, h, n - 1, p); }
      if nodes[n - 1].primary { SettledStep(nodes, e, h, n - 1, p); }
    }
  }

  /** What was decided about an earlier primary record is not changed by a later one. */
  lemma StepKeepsEarlier(nodes: seq<Node>, e: seq<nat>, h: nat, i: nat, q: nat)
    requires |e| == |nodes| && h < |nodes| && i < |nodes| && q < |nodes| && Settled(nodes, e, h, q)
    ensures var d := PrimaryStep(nodes, e, h, i); d[q] == d[h] <==> e[q] == e[h]
  {
  }

  lemma SameGathered(nodes: seq<Node>, c: seq<nat>, e: seq<nat>, d: seq<nat>, h: nat, n: nat, a: nat)
    requires |c| == |d| == |e| == |nodes| && h < |nodes| && n <= |nodes| && a < |nodes|
    requires forall q :: h <= q < n && nodes[q].primary ==> (d[q] == d[h] <==> e[q] == e[h])
    ensures Gathered(nodes, c, d, h, n, a) <==> Gathered(nodes, c, e, h, n, a)
  {
    if q :| h <= q < n && With(nodes, d, h, q) && c[a] == c[q] { assert With(nodes, e, h, q); }
    if q :| h <= q < n && With(nodes, e, h, q) && c[a] == c[q] { assert With(nodes, d, h, q); }
  }

  lemma SameDecision(nodes: seq<Node>, c: seq<nat>, e: seq<nat>, d: seq<nat>, h: nat, p: nat)
    requires |c| == |d| == |e| == |nodes| && h < |nodes| && p < |nodes|
    requires forall q :: h <= q < p && nodes[q].primary ==> (d[q] == d[h] <==> e[q] == e[h])
    requires d[p] == d[h] <==> e[p] == e[h]
    requires Decided(nodes, c, e, h, p)
    ensures Decided(nodes, c, d, h, p)
  {
    SameMeeting(nodes, c, e, d, h, p);
  }

  /** The invariant of the pass. */
  ghost predicate PassOk(nodes: seq<Node>, c: seq<nat>, d: seq<nat>, h: nat, n: nat)
    requires |c| == |d| == |nodes| && h < n <= |nodes|
  {
    && (forall p :: h < p < n && nodes[p].primary ==> Decided(nodes, c, d, h, p))
    && (forall a, b :: 0 <= a < |nodes| && 0 <= b < |nodes| ==> Together(nodes, c, d, h, n, a, b))
  }

  /** The class of the first primary record is what was gathered. */
  lemma HeadClass(nodes: seq<Node>, c: seq<nat>, e: seq<nat>, h: nat, n: nat, a: nat)
    requires |c| == |e| == |nodes| && FirstPrimary(nodes, h) && h < n <= |nodes| && a < |nodes|
    requires Together(nodes, c, e, h, n, a, h)
    ensures e[a] == e[h] <==> Gathered(nodes, c, e, h, n, a)
  {
    assert With(nodes, e, h, h);
    assert Gathered(nodes, c, e, h, n, h);
  }

  /** The class of a record that was not gathered is the one it started in. */
  lemma OtherClass(nodes: seq<Node>, c: seq<nat>, e: seq<nat>, h: nat, n: nat, i: nat, a: nat)
    requires |c| == |e| == |nodes| && h < n <= |nodes| && a < |nodes| && i < |nodes|
    requires Together(nodes, c, e, h, n, a, i) && !Gathered(nodes, c, e, h, n, i)
    ensures e[a] == e[i] <==> c[a] == c[i]
  {
  }

  lemma MeetsIff(nodes: seq<Node>, c: seq<nat>, e: seq<nat>, h: nat, i: nat)
    requires |c| == |e| == |nodes| && h < |nodes| && i < |nodes|
    requires forall a :: 0 <= a < |nodes| ==>
      (e[a] == e[h] || e[a] == e[i] <==> c[a] == c[i] || Gathered(nodes, c, e, h, i, a))
    ensures TwoSlots(nodes, e, h, i) <==> Meets(nodes, c, e, h, i)
  {
  }

  lemma StepClass(nodes: seq<Node>, c: seq<nat>, e: seq<nat>, h: nat, i: nat, a: nat)
    requires |c| == |e| == |nodes| && FirstPrimary(nodes, h) && h < i < |nodes| && a < |nodes|
    requires PassOk(nodes, c, e, h, i)
    ensures e[a] == e[h] <==> Gathered(nodes, c, e, h, i, a)
    ensures e[i] != e[h] ==> (e[a] == e[i] <==> c[a] == c[i])
  {
    assert Together(nodes, c, e, h, i, a, h) && Together(nodes, c, e, h, i, a, i) && Together(nodes, c, e, h, i, i, h);
    HeadClass(nodes, c, e, h, i, a);
    HeadClass(nodes, c, e, h, i, i);
    if e[i] != e[h] { OtherClass(nodes, c, e, h, i, i, a); }
  }

  /** Primary record `i` is decided on its turn. */
  lemma DecidesNow(nodes: seq<Node>, c: seq<nat>, e: seq<nat>, h: nat, i: nat)
    requires |c| == |e| == |nodes| && FirstPrimary(nodes, h) && h < i < |nodes| && nodes[i].primary
    requires PassOk(nodes, c, e, h, i)
    ensures var d := PrimaryStep(nodes, e, h, i);
      d[i] == d[h] <==> Gathered(nodes, c, e, h, i, i) || !Meets(nodes, c, e, h, i)
  {
    StepClass(nodes, c, e, h, i, i);
    if e[i] != e[h] {
      forall a | 0 <= a < |nodes|
        ensures e[a] == e[h] || e[a] == e[i] <==> c[a] == c[i] || Gathered(nodes, c, e, h, i, a)
      {
        StepClass(nodes, c, e, h, i, a);
      }
      MeetsIff(nodes, c, e, h, i);
      BlockedIff(nodes, e, h, i);
    }
  }

  /** One more primary record. */
  lemma StepTogether(nodes: seq<Node>, c: seq<nat>, e: seq<nat>, d: seq<nat>, h: nat, i: nat, a: nat, b: nat)
    requires |c| == |e| == |d| == |nodes| && FirstPrimary(nodes, h) && h < i < |nodes| && a < |nodes| && b < |nodes|
    requires PassOk(nodes, c, e, h, i) && nodes[i].primary && d == PrimaryStep(nodes, e, h, i)
    requires forall q :: h <= q < i && nodes[q].primary ==> (d[q] == d[h] <==> e[q] == e[h])
    ensures Together(nodes, c, d, h, i + 1, a, b)
  {
    SameGathered(nodes, c, e, d, h, i, a);
    SameGathered(nodes, c, e, d, h, i, b);
    StepClass(nodes, c, e, h, i, a);
    StepClass(nodes, c, e, h, i, b);
    StepClass(nodes, c, e, h, i, i);
    GatheredNext(nodes, c, d, h, i, a);
    GatheredNext(nodes, c, d, h, i, b);
    assert Together(nodes, c, e, h, i, a, b);
  }

  lemma GatheredNext(nodes: seq<Node>, c: seq<nat>, d: seq<nat>, h: nat, i: nat, a: nat)
    requires |c| == |d| == |nodes| && h <= i < |nodes| && a < |nodes|
    ensures Gathered(nodes, c, d, h, i + 1, a) <==>
      Gathered(nodes, c, d, h, i, a) || (With(nodes, d, h, i) && c[a] == c[i])
  {
  }

  lemma NotPrimaryNext(nodes: seq<Node>, c: seq<nat>, d: seq<nat>, h: nat, n: nat)
    requires |c| == |d| == |nodes| && h < n < |nodes| && !nodes[n].primary && PassOk(nodes, c, d, h, n)
    ensures PassOk(nodes, c, d, h, n + 1)
  {
    var m := n + 1;
    forall a: nat, b: nat {:trigger Together(nodes, c, d, h, m, a, b)} | a < |nodes| && b < |nodes|
      ensures Together(nodes, c, d, h, m, a, b)
    {
      assert Together(nodes, c, d, h, n, a, b);
      GatheredNext(nodes, c, d, h, n, a);
      GatheredNext(nodes, c, d, h, n, b);
    }
  }

  lemma PassStart(nodes: seq<Node>, c: seq<nat>, h: nat)
    requires |c| == |nodes| && FirstPrimary(nodes, h)
    ensures PassOk(nodes, c, c, h, h + 1)
  {
    var m := h + 1;
    forall a: nat, b: nat {:trigger Together(nodes, c, c, h, m, a, b)} | a < |nodes| && b < |nodes|
      ensures Together(nodes, c, c, h, m, a, b)
    {
      if q :| h <= q < h + 1 && With(nodes, c, h, q) && c[a] == c[q] { assert q == h; }
      if q :| h <= q < h + 1 && With(nodes, c, h, q) && c[b] == c[q] { assert q == h; }
    }
  }

  lemma PrimaryNext(nodes: seq<Node>, c: seq<nat>, e: seq<nat>, d: seq<nat>, h: nat, i: nat)
    requires |c| == |e| == |d| == |nodes| && FirstPrimary(nodes, h) && h < i < |nodes| && nodes[i].primary
    requires PassOk(nodes, c, e, h, i) && d == PrimaryStep(nodes, e, h, i)
    requires forall q :: h <= q < i && nodes[q].primary ==> Settled(nodes, e, h, q)
    ensures PassOk(nodes, c, d, h, i + 1)
  {
    forall q | h <= q < i && nodes[q].primary ensures d[q] == d[h] <==> e[q] == e[h] {
      StepKeepsEarlier(nodes, e, h, i, q);
    }
    forall p | h < p < i + 1 && nodes[p].primary ensures Decided(nodes, c, d, h, p) {
      if p < i {
        SameDecision(nodes, c, e, d, h, p);
      } else {
        DecidesNow(nodes, c, e, h, i);
        SameMeeting(nodes, c, e, d, h, i);
      }
    }
    var m := i + 1;
    forall a: nat, b: nat {:trigger Together(nodes, c, d, h, m, a, b)} | a < |nodes| && b < |nodes|
      ensures Together(nodes, c, d, h, m, a, b)
    {
      StepTogether(nodes, c, e, d, h, i, a, b);
    }
  }

  lemma SameMeeting(nodes: seq<Node>, c: seq<nat>, e: seq<nat>, d: seq<nat>, h: nat, p: nat)
    requires |c| == |d| == |e| == |nodes| && h < |nodes| && p < |nodes|
    requires forall q :: h <= q < p && nodes[q].primary ==> (d[q] == d[h] <==> e[q] == e[h])
    ensures Gathered(nodes, c, d, h, p, p) <==> Gathered(nodes, c, e, h, p, p)
    ensures Meets(nodes, c, d, h, p) <==> Meets(nodes, c, e, h, p)
  {
    forall a | 0 <= a < |nodes| ensures Gathered(nodes, c, d, h, p, a) <==> Gathered(nodes, c, e, h, p, a) {
      SameGathered(nodes, c, e, d, h, p, a);
    }
  }

  lemma {:induction false} PassOkTo(nodes: seq<Node>, c: seq<nat>, h: nat, n: nat)
    requires |c| == |nodes| && FirstPrimary(nodes, h) && h < n <= |nodes|
    ensures PassOk(nodes, c, PassTo(nodes, c, h, n), h, n)
  {
    if n == h + 1 {
      PassStart(nodes, c, h);
    } else {
      PassOkTo(nodes, c, h, n - 1);
      var e := PassTo(nodes, c, h, n - 1);
      if nodes[n - 1].primary {
        forall q | h <= q < n - 1 && nodes[q].primary ensures Settled(nodes, e, h, q) {
          PassSettles(nodes, c, h, n - 1, q);
        }
        PrimaryNext(nodes, c, e, PassTo(nodes, c, h, n), h, n - 1);
      } else {
        NotPrimaryNext(nodes, c, e, h, n - 1);
      }
    }
  }

  /** The pass exactly, for any records and any starting partition.  With no primary record it changes nothing.
      Otherwise a later primary record ends with the first one if and only if it starts in a cluster already gathered or
      no two of this PC's slots would meet; and two records end together if and only if they started together or both
      were gathered. */
  lemma PrimaryPassExact(nodes: seq<Node>, c: seq<nat>)
    requires |c| == |nodes|
    ensures (forall i :: 0 <= i < |nodes| ==> !nodes[i].primary) ==> PrimaryPass(nodes, c) == c
    ensures forall h: nat {:trigger FirstPrimary(nodes, h)} :: FirstPrimary(nodes, h) ==>
              PassOk(nodes, c, PrimaryPass(nodes, c), h, |nodes|)
  {
    var ps := Primaries(nodes, |nodes|);
    if ps != [] { assert nodes[ps[0]].primary; }
    forall h: nat | FirstPrimary(nodes, h) ensures PassOk(nodes, c, PrimaryPass(nodes, c), h, |nodes|) {
      LaterPrimaries(nodes, h, |nodes|);
      PassIsFold(nodes, c, h, |nodes|);
      assert ps[1..] == Later(nodes, h, |nodes|);
      PassOkTo(nodes, c, h, |nodes|);
    }
  }
}
