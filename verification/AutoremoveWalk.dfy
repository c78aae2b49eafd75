/**
  The walk of the automatic removal as a function: which marks it leaves, in the order it goes,
  with the filter that drops some of the providers on offer.
*/
module AutoremoveWalk {
  import opened Wrappers
  import opened DepGraph
  import opened DepBytes
  import opened DepSpec
  import opened AutoremoveSpec

  // ---------- The two memo tables ----------

  ghost predicate Tables(g: Graph, ps: seq<PkgState>, m: seq<bool>, e: seq<bool>) {
    ValidStates(g, ps) && |m| == |e| == |ps|
  }

  ghost predicate Grown(m: seq<bool>, m': seq<bool>) {
    |m| == |m'| && forall q :: 0 <= q < |m| && m[q] ==> m'[q]
  }

  function Unmarked(m: seq<bool>): nat {
    if m == [] then 0 else Unmarked(m[..|m| - 1]) + (if m[|m| - 1] then 0 else 1)
  }

  lemma {:induction false} UnmarkedGrown(m: seq<bool>, m': seq<bool>)
    requires Grown(m, m')
    ensures Unmarked(m') <= Unmarked(m)
    ensures (exists q :: 0 <= q < |m| && !m[q] && m'[q]) ==> Unmarked(m') < Unmarked(m)
  {
    if m != [] {
      var n := |m| - 1;
      UnmarkedGrown(m[..n], m'[..n]);
      if q :| 0 <= q < |m| && !m[q] && m'[q] {
        if q < n { assert !m[..n][q] && m'[..n][q]; }
      }
    }
  }

  /** Keep a subset of the providers found for a dependency. */
  type ProviderFilter = (nat, seq<nat>) -> seq<nat>

  ghost predicate Filters(keep: ProviderFilter) {
    forall d, l, v :: v in keep(d, l) ==> v in l
  }

  ghost predicate KeepsAll(keep: ProviderFilter) {
    forall d, l :: keep(d, l) == l
  }

  lemma KeptIsOwn(g: Graph, ps: seq<PkgState>, q: nat)
    requires ValidStates(g, ps) && q < |ps|
    ensures g.OwnVersion(q, Kept(g, ps, q))
  {
    assert g.ValidPackage(q) && g.OwnVersion(q, ps[q].installVer);
  }

  // ---------- Providers on offer ----------

  /** The versions found for a dependency, and whether one on offer does not satisfy it. */
  datatype Finding = Finding(versions: seq<nat>, unsatisfied: bool)

  ghost predicate OnOffer(g: Graph, ps: seq<PkgState>, v: nat)
    requires g.Valid() && |ps| == |g.pkgs|
  {
    v < |g.vers| && g.vers[v].parentPkg < |ps| && Kept(g, ps, g.vers[v].parentPkg) == Some(v)
  }

  ghost function RealPart(g: Graph, ps: seq<PkgState>, d: nat): (f: Finding)
    requires ValidStates(g, ps) && d < |g.deps|
    ensures forall v :: v in f.versions ==> OnOffer(g, ps, v)
  {
    assert g.ValidDependency(d);
    var t := g.deps[d].target;
    KeptIsOwn(g, ps, t);
    if !Real(g, ps, t) then Finding([], false)
    else if Kept(g, ps, t).value in g.deps[d].satVers then Finding([Kept(g, ps, t).value], false)
    else Finding([], true)
  }

  /** The target itself and the first n provides of its name. */
  ghost function Found(g: Graph, ps: seq<PkgState>, d: nat, n: nat): (f: Finding)
    requires ValidStates(g, ps) && d < |g.deps| && g.ValidDependency(d) && g.ValidPackage(g.deps[d].target)
    requires n <= |g.pkgs[g.deps[d].target].providesList|
    ensures forall v :: v in f.versions ==> OnOffer(g, ps, v)
  {
    if n == 0 then RealPart(g, ps, d) else
    var f := Found(g, ps, d, n - 1);
    var r := g.pkgs[g.deps[d].target].providesList[n - 1];
    assert g.ValidProvides(r) && g.ValidVersion(g.prvs[r].ownerVer);
    if !Present(g, ps, r) then f
    else if r !in g.deps[d].satPrvs then Finding(f.versions, true)
    else Finding(f.versions + [g.prvs[r].ownerVer], f.unsatisfied)
  }

  /** All of them. */
  ghost function FoundFor(g: Graph, ps: seq<PkgState>, d: nat): (f: Finding)
    requires ValidStates(g, ps) && d < |g.deps| && g.ValidDependency(d) && g.ValidPackage(g.deps[d].target)
    ensures forall v :: v in f.versions ==> OnOffer(g, ps, v)
  {
    Found(g, ps, d, |g.pkgs[g.deps[d].target].providesList|)
  }

  // ---------- The walk ----------

  datatype Walk = Walk(ok: bool, marked: seq<bool>, explored: seq<bool>)

  /** From package p, whose kept version is v; a walk that gets too deep is given up. */
  ghost function PkgWalk(g: Graph, keep: ProviderFilter, ps: seq<PkgState>, p: nat, v: Option<nat>, depth: nat,
                         m: seq<bool>, e: seq<bool>): (r: Walk)
    requires Tables(g, ps, m, e) && Filters(keep) && p < |ps| && v == Kept(g, ps, p)
    ensures Grown(m, r.marked) && Grown(e, r.explored)
    decreases Unmarked(m), 0, 0
  {
    if v.None? || m[p] then Walk(true, m, e)
    else if Boring(g, ps, p) then Walk(true, m, e[p := true])
    else if depth > MAX_DEPTH then Walk(false, m, e)
    else
      UnmarkedGrown(m, m[p := true]);
      KeptIsOwn(g, ps, p);
      assert g.ValidVersion(v.value);
      DepsWalk(g, keep, ps, g.vers[v.value].depends, 0, depth, m[p := true], e)
  }

  /** The dependencies of a version from number i on. */
  ghost function DepsWalk(g: Graph, keep: ProviderFilter, ps: seq<PkgState>, l: seq<nat>, i: nat, depth: nat,
                          m: seq<bool>, e: seq<bool>): (r: Walk)
    requires Tables(g, ps, m, e) && Filters(keep) && i <= |l| && forall k :: 0 <= k < |l| ==> l[k] < |g.deps|
    ensures Grown(m, r.marked) && Grown(e, r.explored)
    decreases Unmarked(m), 3, |l| - i
  {
    if i == |l| then Walk(true, m, e) else
    var r := DepWalk(g, keep, ps, l[i], depth, m, e);
    UnmarkedGrown(m, r.marked);
    if r.ok then DepsWalk(g, keep, ps, l, i + 1, depth, r.marked, r.explored) else r
  }

  /** Dependency d, unless its target name has been dealt with as a whole. */
  ghost function DepWalk(g: Graph, keep: ProviderFilter, ps: seq<PkgState>, d: nat, depth: nat,
                         m: seq<bool>, e: seq<bool>): (r: Walk)
    requires Tables(g, ps, m, e) && Filters(keep) && d < |g.deps|
    ensures Grown(m, r.marked) && Grown(e, r.explored)
    decreases Unmarked(m), 2, 0
  {
    assert g.ValidDependency(d) && g.ValidPackage(g.deps[d].target);
    var t := g.deps[d].target;
    if e[t] || !Followed(g, d) then Walk(true, m, e) else
    var f := FoundFor(g, ps, d);
    var m1 := if Real(g, ps, t) then m else m[t := true];
    var e1 := if f.unsatisfied then e else e[t := true];
    UnmarkedGrown(m, m1);
    ListWalk(g, keep, ps, keep(d, f.versions), 0, depth + 1, m1, e1)
  }

  /** The packages of the versions in l from number k on. */
  ghost function ListWalk(g: Graph, keep: ProviderFilter, ps: seq<PkgState>, l: seq<nat>, k: nat, depth: nat,
                          m: seq<bool>, e: seq<bool>): (r: Walk)
    requires Tables(g, ps, m, e) && Filters(keep) && k <= |l| && forall v :: v in l ==> OnOffer(g, ps, v)
    ensures Grown(m, r.marked) && Grown(e, r.explored)
    decreases Unmarked(m), 1, |l| - k
  {
    if k == |l| then Walk(true, m, e) else
    assert OnOffer(g, ps, l[k]);
    var r := PkgWalk(g, keep, ps, g.vers[l[k]].parentPkg, Some(l[k]), depth, m, e);
    UnmarkedGrown(m, r.marked);
    if r.ok then ListWalk(g, keep, ps, l, k + 1, depth, r.marked, r.explored) else r
  }

  /** From every root from package p on. */
  ghost function RootsWalk(g: Graph, keep: ProviderFilter, ps: seq<PkgState>, p: nat, m: seq<bool>, e: seq<bool>)
    : (r: Walk)
    requires Tables(g, ps, m, e) && Filters(keep) && p <= |ps|
    ensures Grown(m, r.marked)
    decreases |ps| - p
  {
    if p == |ps| then Walk(true, m, e) else
    var r := RootWalk(g, keep, ps, p, m, e);
    if r.ok then RootsWalk(g, keep, ps, p + 1, r.marked, r.explored) else r
  }

  ghost function RootWalk(g: Graph, keep: ProviderFilter, ps: seq<PkgState>, p: nat, m: seq<bool>, e: seq<bool>)
    : (r: Walk)
    requires Tables(g, ps, m, e) && Filters(keep) && p < |ps|
    ensures Grown(m, r.marked) && Grown(e, r.explored)
  {
    if m[p] || !Root(g, ps, p) then Walk(true, m, e) else PkgWalk(g, keep, ps, p, Kept(g, ps, p), 0, m, e)
  }

  /** A run from empty tables. */
  ghost function FreshWalk(g: Graph, keep: ProviderFilter, ps: seq<PkgState>): (r: Walk)
    requires ValidStates(g, ps) && Filters(keep)
    ensures |r.marked| == |ps|
  {
    RootsWalk(g, keep, ps, 0, seq(|ps|, i => false), seq(|ps|, i => false))
  }

  // ---------- One step at a time ----------

  lemma PkgWalkSteps(g: Graph, keep: ProviderFilter, ps: seq<PkgState>, p: nat, v: Option<nat>, depth: nat,
                     m: seq<bool>, e: seq<bool>)
    requires Tables(g, ps, m, e) && Filters(keep) && p < |ps| && v == Kept(g, ps, p)
    ensures v.None? || m[p] ==> PkgWalk(g, keep, ps, p, v, depth, m, e) == Walk(true, m, e)
    ensures v.Some? && !m[p] && !Boring(g, ps, p) ==>
      && v.value < |g.vers| && g.ValidVersion(v.value)
      && (forall k :: 0 <= k < |g.vers[v.value].depends| ==> g.vers[v.value].depends[k] < |g.deps|)
      && PkgWalk(g, keep, ps, p, v, depth, m, e) ==
         if depth > MAX_DEPTH then Walk(false, m, e)
         else DepsWalk(g, keep, ps, g.vers[v.value].depends, 0, depth, m[p := true], e)
  {
    KeptIsOwn(g, ps, p);
    assert v.Some? ==> g.ValidVersion(v.value);
  }

  lemma DepsWalkSteps(g: Graph, keep: ProviderFilter, ps: seq<PkgState>, l: seq<nat>, i: nat, depth: nat,
                      m: seq<bool>, e: seq<bool>)
    requires Tables(g, ps, m, e) && Filters(keep) && i <= |l| && forall k :: 0 <= k < |l| ==> l[k] < |g.deps|
    ensures i == |l| ==> DepsWalk(g, keep, ps, l, i, depth, m, e) == Walk(true, m, e)
    ensures i < |l| ==> var r := DepWalk(g, keep, ps, l[i], depth, m, e);
      && Tables(g, ps, r.marked, r.explored)
      && DepsWalk(g, keep, ps, l, i, depth, m, e) ==
         if r.ok then DepsWalk(g, keep, ps, l, i + 1, depth, r.marked, r.explored) else r
  {
  }

  lemma DepWalkSteps(g: Graph, keep: ProviderFilter, ps: seq<PkgState>, d: nat, depth: nat, m: seq<bool>, e: seq<bool>)
    requires Tables(g, ps, m, e) && Filters(keep) && d < |g.deps| && g.ValidDependency(d)
    requires g.ValidPackage(g.deps[d].target)
    ensures e[g.deps[d].target] || !Followed(g, d) ==> DepWalk(g, keep, ps, d, depth, m, e) == Walk(true, m, e)
    ensures forall v :: v in keep(d, FoundFor(g, ps, d).versions) ==> OnOffer(g, ps, v)
    ensures !e[g.deps[d].target] && Followed(g, d) ==>
      var f := FoundFor(g, ps, d);
      var m1 := if Real(g, ps, g.deps[d].target) then m else m[g.deps[d].target := true];
      var e1 := if f.unsatisfied then e else e[g.deps[d].target := true];
      DepWalk(g, keep, ps, d, depth, m, e) == ListWalk(g, keep, ps, keep(d, f.versions), 0, depth + 1, m1, e1)
  {
  }

  lemma ListWalkSteps(g: Graph, keep: ProviderFilter, ps: seq<PkgState>, l: seq<nat>, k: nat, depth: nat,
                      m: seq<bool>, e: seq<bool>)
    requires Tables(g, ps, m, e) && Filters(keep) && k <= |l| && forall v :: v in l ==> OnOffer(g, ps, v)
    ensures k == |l| ==> ListWalk(g, keep, ps, l, k, depth, m, e) == Walk(true, m, e)
    ensures k < |l| ==> OnOffer(g, ps, l[k])
    ensures k < |l| ==> var r := PkgWalk(g, keep, ps, g.vers[l[k]].parentPkg, Some(l[k]), depth, m, e);
      && Tables(g, ps, r.marked, r.explored)
      && ListWalk(g, keep, ps, l, k, depth, m, e) ==
         if r.ok then ListWalk(g, keep, ps, l, k + 1, depth, r.marked, r.explored) else r
  {
  }

  lemma RootsWalkSteps(g: Graph, keep: ProviderFilter, ps: seq<PkgState>, p: nat, m: seq<bool>, e: seq<bool>)
    requires Tables(g, ps, m, e) && Filters(keep) && p <= |ps|
    ensures p == |ps| ==> RootsWalk(g, keep, ps, p, m, e) == Walk(true, m, e)
    ensures p < |ps| ==> var r := RootWalk(g, keep, ps, p, m, e);
      && Tables(g, ps, r.marked, r.explored)
      && RootsWalk(g, keep, ps, p, m, e) ==
         if r.ok then RootsWalk(g, keep, ps, p + 1, r.marked, r.explored) else r
  {
  }

  // ---------- What the walk does not look at ----------

  lemma SameBasics(g: Graph, ps: seq<PkgState>, ps': seq<PkgState>)
    requires g.Valid() && |ps| == |g.pkgs| && SameForMarks(ps, ps')
    ensures |ps'| == |ps|
    ensures forall p :: 0 <= p < |ps| ==> (Boring(g, ps, p) <==> Boring(g, ps', p)) && Kept(g, ps, p) == Kept(g, ps', p)
    ensures forall p :: 0 <= p < |ps| ==> (Real(g, ps, p) <==> Real(g, ps', p)) && (Root(g, ps, p) <==> Root(g, ps', p))
  {
  }

  lemma {:induction false} SameFound(g: Graph, ps: seq<PkgState>, ps': seq<PkgState>, d: nat, n: nat)
    requires ValidStates(g, ps) && ValidStates(g, ps') && SameForMarks(ps, ps')
    requires d < |g.deps| && g.ValidDependency(d) && g.ValidPackage(g.deps[d].target)
    requires n <= |g.pkgs[g.deps[d].target].providesList|
    ensures Found(g, ps, d, n) == Found(g, ps', d, n)
  {
    SameBasics(g, ps, ps');
    if n > 0 { SameFound(g, ps, ps', d, n - 1); }
  }

  lemma {:induction false} SamePkgWalk(g: Graph, keep: ProviderFilter, ps: seq<PkgState>, ps': seq<PkgState>, p: nat,
                                       v: Option<nat>, depth: nat, m: seq<bool>, e: seq<bool>)
    requires Tables(g, ps, m, e) && Tables(g, ps', m, e) && Filters(keep) && SameForMarks(ps, ps')
    requires p < |ps| && v == Kept(g, ps, p) == Kept(g, ps', p)
    ensures PkgWalk(g, keep, ps, p, v, depth, m, e) == PkgWalk(g, keep, ps', p, v, depth, m, e)
    decreases Unmarked(m), 0, 0
  {
    SameBasics(g, ps, ps');
    if v.Some? && !m[p] && !Boring(g, ps, p) && depth <= MAX_DEPTH {
      UnmarkedGrown(m, m[p := true]);
      KeptIsOwn(g, ps, p);
      assert g.ValidVersion(v.value);
      SameDepsWalk(g, keep, ps, ps', g.vers[v.value].depends, 0, depth, m[p := true], e);
    }
  }

  lemma {:induction false} SameDepsWalk(g: Graph, keep: ProviderFilter, ps: seq<PkgState>, ps': seq<PkgState>,
                                        l: seq<nat>, i: nat, depth: nat, m: seq<bool>, e: seq<bool>)
    requires Tables(g, ps, m, e) && Tables(g, ps', m, e) && Filters(keep) && SameForMarks(ps, ps')
    requires i <= |l| && forall k :: 0 <= k < |l| ==> l[k] < |g.deps|
    ensures DepsWalk(g, keep, ps, l, i, depth, m, e) == DepsWalk(g, keep, ps', l, i, depth, m, e)
    decreases Unmarked(m), 3, |l| - i
  {
    if i < |l| {
      SameDepWalk(g, keep, ps, ps', l[i], depth, m, e);
      var r := DepWalk(g, keep, ps, l[i], depth, m, e);
      UnmarkedGrown(m, r.marked);
      if r.ok { SameDepsWalk(g, keep, ps, ps', l, i + 1, depth, r.marked, r.explored); }
    }
  }

  lemma {:induction false} SameDepWalk(g: Graph, keep: ProviderFilter, ps: seq<PkgState>, ps': seq<PkgState>, d: nat,
                                       depth: nat, m: seq<bool>, e: seq<bool>)
    requires Tables(g, ps, m, e) && Tables(g, ps', m, e) && Filters(keep) && SameForMarks(ps, ps') && d < |g.deps|
    ensures DepWalk(g, keep, ps, d, depth, m, e) == DepWalk(g, keep, ps', d, depth, m, e)
    decreases Unmarked(m), 2, 0
  {
    assert g.ValidDependency(d) && g.ValidPackage(g.deps[d].target);
    var t := g.deps[d].target;
    if !e[t] && Followed(g, d) {
      SameBasics(g, ps, ps');
      SameFound(g, ps, ps', d, |g.pkgs[t].providesList|);
      var f := FoundFor(g, ps, d);
      assert f == FoundFor(g, ps', d);
      var m1 := if Real(g, ps, t) then m else m[t := true];
      UnmarkedGrown(m, m1);
      SameListWalk(g, keep, ps, ps', keep(d, f.versions), 0, depth + 1, m1, if f.unsatisfied then e else e[t := true]);
    }
  }

  lemma {:induction false} SameListWalk(g: Graph, keep: ProviderFilter, ps: seq<PkgState>, ps': seq<PkgState>,
                                        l: seq<nat>, k: nat, depth: nat, m: seq<bool>, e: seq<bool>)
    requires Tables(g, ps, m, e) && Tables(g, ps', m, e) && Filters(keep) && SameForMarks(ps, ps')
    requires k <= |l| && forall v :: v in l ==> OnOffer(g, ps, v) && OnOffer(g, ps', v)
    ensures ListWalk(g, keep, ps, l, k, depth, m, e) == ListWalk(g, keep, ps', l, k, depth, m, e)
    decreases Unmarked(m), 1, |l| - k
  {
    if k < |l| {
      assert OnOffer(g, ps, l[k]) && OnOffer(g, ps', l[k]);
      var q := g.vers[l[k]].parentPkg;
      SamePkgWalk(g, keep, ps, ps', q, Some(l[k]), depth, m, e);
      var r := PkgWalk(g, keep, ps, q, Some(l[k]), depth, m, e);
      UnmarkedGrown(m, r.marked);
      if r.ok { SameListWalk(g, keep, ps, ps', l, k + 1, depth, r.marked, r.explored); }
    }
  }

  lemma {:induction false} SameRootsWalk(g: Graph, keep: ProviderFilter, ps: seq<PkgState>, ps': seq<PkgState>, p: nat,
                                         m: seq<bool>, e: seq<bool>)
    requires Tables(g, ps, m, e) && Tables(g, ps', m, e) && Filters(keep) && SameForMarks(ps, ps') && p <= |ps|
    ensures RootsWalk(g, keep, ps, p, m, e) == RootsWalk(g, keep, ps', p, m, e)
    decreases |ps| - p
  {
    if p < |ps| {
      SameBasics(g, ps, ps');
      if !m[p] && Root(g, ps, p) { SamePkgWalk(g, keep, ps, ps', p, Kept(g, ps, p), 0, m, e); }
      var r := RootWalk(g, keep, ps, p, m, e);
      assert r == RootWalk(g, keep, ps', p, m, e);
      if r.ok { SameRootsWalk(g, keep, ps, ps', p + 1, r.marked, r.explored); }
    }
  }

  /** Candidate, status, summary and all flags but Auto and Protected do not matter to the walk. */
  lemma SameFreshWalk(g: Graph, keep: ProviderFilter, ps: seq<PkgState>, ps': seq<PkgState>)
    requires ValidStates(g, ps) && ValidStates(g, ps') && Filters(keep) && SameForMarks(ps, ps')
    ensures FreshWalk(g, keep, ps) == FreshWalk(g, keep, ps')
  {
    var none := seq(|ps|, i => false);
    SameRootsWalk(g, keep, ps, ps', 0, none, none);
  }
}
