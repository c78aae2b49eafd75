/**
  Why a package is marked: somebody wants it, or a marked package asks for it. This holds whichever
  providers the walk drops; and who is wanted is always marked when the walk runs to its end.
*/
module AutoremoveReasons {
  import opened Wrappers
  import opened DepGraph
  import opened DepBytes
  import opened DepSpec
  import opened AutoremoveSpec
  import opened AutoremoveWalk

  // ---------- Nothing is marked without a reason ----------

  /** Dependency d of package p leads the walk to package q: it is one of the providers not dropped. */
  ghost predicate LeadsTo(g: Graph, keep: ProviderFilter, ps: seq<PkgState>, p: nat, d: nat, q: nat)
    requires g.Valid() && |ps| == |g.pkgs| && p < |ps|
  {
    && ValidStates(g, ps) && Needs(g, ps, p, d) && g.ValidDependency(d) && g.ValidPackage(g.deps[d].target)
    && exists v :: v in keep(d, FoundFor(g, ps, d).versions) && v < |g.vers| && g.vers[v].parentPkg == q
  }

  /** Package q is a root or answers to a marked package; a mere name is asked for by one. */
  ghost predicate Justified(g: Graph, keep: ProviderFilter, ps: seq<PkgState>, m: seq<bool>, q: nat)
    requires g.Valid() && |ps| == |g.pkgs| == |m| && q < |ps|
  {
    if Real(g, ps, q) then Root(g, ps, q) || exists p: nat, d: nat :: p < |m| && m[p] && LeadsTo(g, keep, ps, p, d, q)
    else exists p: nat, d: nat :: p < |m| && m[p] && Needs(g, ps, p, d) && g.deps[d].target == q
  }

  ghost predicate Grounded(g: Graph, keep: ProviderFilter, ps: seq<PkgState>, m: seq<bool>)
    requires g.Valid() && |ps| == |g.pkgs| == |m|
  {
    forall q :: 0 <= q < |m| && m[q] ==> Justified(g, keep, ps, m, q)
  }

  lemma StaysJustified(g: Graph, keep: ProviderFilter, ps: seq<PkgState>, m: seq<bool>, m': seq<bool>, q: nat)
    requires g.Valid() && |ps| == |g.pkgs| == |m| && Grown(m, m') && q < |m| && Justified(g, keep, ps, m, q)
    ensures Justified(g, keep, ps, m', q)
  {
    hide Real, Root, LeadsTo, Needs;
  }

  lemma OneMoreGrounded(g: Graph, keep: ProviderFilter, ps: seq<PkgState>, m: seq<bool>, q: nat)
    requires g.Valid() && |ps| == |g.pkgs| == |m| && q < |m| && Grounded(g, keep, ps, m) && Justified(g, keep, ps, m, q)
    ensures Grounded(g, keep, ps, m[q := true]) && Grown(m, m[q := true])
  {
    hide Justified;
    var m' := m[q := true];
    forall x | 0 <= x < |m'| && m'[x] ensures Justified(g, keep, ps, m', x) { StaysJustified(g, keep, ps, m, m', x); }
  }

  /** What is found for a dependency satisfies it. */
  lemma {:induction false} FoundSatisfies(g: Graph, ps: seq<PkgState>, d: nat, n: nat, v: nat)
    requires ValidStates(g, ps) && d < |g.deps| && g.ValidDependency(d) && g.ValidPackage(g.deps[d].target)
    requires n <= |g.pkgs[g.deps[d].target].providesList| && v in Found(g, ps, d, n).versions
    ensures OnOffer(g, ps, v) && Satisfies(g, ps, d, g.vers[v].parentPkg)
  {
    KeptIsOwn(g, ps, g.deps[d].target);
    if n > 0 {
      var r := g.pkgs[g.deps[d].target].providesList[n - 1];
      assert g.ValidProvides(r) && g.ValidVersion(g.prvs[r].ownerVer);
      if v in Found(g, ps, d, n - 1).versions {
        FoundSatisfies(g, ps, d, n - 1, v);
      } else {
        assert SatisfiesBy(g, ps, d, g.pkgs[g.deps[d].target].providesList[n - 1], g.vers[v].parentPkg);
      }
    }
  }

  lemma {:induction false} PkgWalkGrounded(g: Graph, keep: ProviderFilter, ps: seq<PkgState>, p: nat, v: Option<nat>,
                                           depth: nat, m: seq<bool>, e: seq<bool>)
    requires Tables(g, ps, m, e) && Filters(keep) && p < |ps| && v == Kept(g, ps, p) && Grounded(g, keep, ps, m)
    requires Real(g, ps, p) ==> Justified(g, keep, ps, m, p)
    ensures Grounded(g, keep, ps, PkgWalk(g, keep, ps, p, v, depth, m, e).marked)
    decreases Unmarked(m), 0, 0
  {
    PkgWalkSteps(g, keep, ps, p, v, depth, m, e);
    if v.Some? && !m[p] && !Boring(g, ps, p) && depth <= MAX_DEPTH {
      UnmarkedGrown(m, m[p := true]);
      OneMoreGrounded(g, keep, ps, m, p);
      assert g.ValidVersion(v.value);
      DepsWalkGrounded(g, keep, ps, p, g.vers[v.value].depends, 0, depth, m[p := true], e);
    }
  }

  lemma {:induction false} DepsWalkGrounded(g: Graph, keep: ProviderFilter, ps: seq<PkgState>, p: nat, l: seq<nat>,
                                            i: nat, depth: nat, m: seq<bool>, e: seq<bool>)
    requires Tables(g, ps, m, e) && Filters(keep) && Grounded(g, keep, ps, m) && p < |ps| && m[p] && Real(g, ps, p)
    requires i <= |l| && forall k :: 0 <= k < |l| ==> l[k] < |g.deps| && Kept(g, ps, p) == Some(g.deps[l[k]].parentVer)
    ensures Grounded(g, keep, ps, DepsWalk(g, keep, ps, l, i, depth, m, e).marked)
    decreases Unmarked(m), 3, |l| - i
  {
    if i < |l| {
      DepWalkGrounded(g, keep, ps, p, l[i], depth, m, e);
      var r := DepWalk(g, keep, ps, l[i], depth, m, e);
      UnmarkedGrown(m, r.marked);
      if r.ok { DepsWalkGrounded(g, keep, ps, p, l, i + 1, depth, r.marked, r.explored); }
    }
  }

  lemma {:induction false} DepWalkGrounded(g: Graph, keep: ProviderFilter, ps: seq<PkgState>, p: nat, d: nat,
                                           depth: nat, m: seq<bool>, e: seq<bool>)
    requires Tables(g, ps, m, e) && Filters(keep) && Grounded(g, keep, ps, m) && p < |ps| && m[p] && Real(g, ps, p)
    requires d < |g.deps| && Kept(g, ps, p) == Some(g.deps[d].parentVer)
    ensures Grounded(g, keep, ps, DepWalk(g, keep, ps, d, depth, m, e).marked)
    decreases Unmarked(m), 2, 0
  {
    assert g.ValidDependency(d) && g.ValidPackage(g.deps[d].target);
    var t := g.deps[d].target;
    if !e[t] && Followed(g, d) {
      assert Needs(g, ps, p, d);
      var f := FoundFor(g, ps, d);
      var m1 := if Real(g, ps, t) then m else m[t := true];
      UnmarkedGrown(m, m1);
      if !Real(g, ps, t) { OneMoreGrounded(g, keep, ps, m, t); }
      forall v | v in keep(d, f.versions) ensures OnOffer(g, ps, v) && Justified(g, keep, ps, m1, g.vers[v].parentPkg) {
        FoundSatisfies(g, ps, d, |g.pkgs[t].providesList|, v);
        SatisfiesIsReal(g, ps, d, g.vers[v].parentPkg);
        assert LeadsTo(g, keep, ps, p, d, g.vers[v].parentPkg);
      }
      assert AllJustified(g, keep, ps, m1, keep(d, f.versions));
      ListWalkGrounded(g, keep, ps, keep(d, f.versions), 0, depth + 1, m1, if f.unsatisfied then e else e[t := true]);
    }
  }

  /** Every version in the list is on offer, and its package has its reason. */
  ghost predicate AllJustified(g: Graph, keep: ProviderFilter, ps: seq<PkgState>, m: seq<bool>, l: seq<nat>)
    requires g.Valid() && |ps| == |g.pkgs| == |m|
  {
    forall v :: v in l ==> OnOffer(g, ps, v) && Justified(g, keep, ps, m, g.vers[v].parentPkg)
  }

  lemma AllStayJustified(g: Graph, keep: ProviderFilter, ps: seq<PkgState>, m: seq<bool>, m': seq<bool>, l: seq<nat>)
    requires g.Valid() && |ps| == |g.pkgs| == |m| && Grown(m, m') && AllJustified(g, keep, ps, m, l)
    ensures AllJustified(g, keep, ps, m', l)
  {
    hide Justified;
    forall v | v in l ensures OnOffer(g, ps, v) && Justified(g, keep, ps, m', g.vers[v].parentPkg) {
      StaysJustified(g, keep, ps, m, m', g.vers[v].parentPkg);
    }
  }

  lemma ListFacts(g: Graph, keep: ProviderFilter, ps: seq<PkgState>, l: seq<nat>, k: nat, m: seq<bool>, e: seq<bool>)
    requires Tables(g, ps, m, e) && AllJustified(g, keep, ps, m, l) && k <= |l|
    ensures g.Valid() && |ps| == |g.pkgs| == |m| == |e| && forall v :: v in l ==> OnOffer(g, ps, v)
    ensures k < |l| ==>
      && l[k] < |g.vers| && g.vers[l[k]].parentPkg < |ps| && Kept(g, ps, g.vers[l[k]].parentPkg) == Some(l[k])
      && Justified(g, keep, ps, m, g.vers[l[k]].parentPkg)
  {
    hide Justified;
    if k < |l| { assert OnOffer(g, ps, l[k]) && Justified(g, keep, ps, m, g.vers[l[k]].parentPkg); }
  }

  lemma {:induction false} ListWalkGrounded(g: Graph, keep: ProviderFilter, ps: seq<PkgState>, l: seq<nat>, k: nat,
                                            depth: nat, m: seq<bool>, e: seq<bool>)
    requires Tables(g, ps, m, e) && Filters(keep) && k <= |l|
    requires Grounded(g, keep, ps, m) && AllJustified(g, keep, ps, m, l)
    ensures forall v :: v in l ==> OnOffer(g, ps, v)
    ensures Grounded(g, keep, ps, ListWalk(g, keep, ps, l, k, depth, m, e).marked)
    decreases Unmarked(m), 1, |l| - k
  {
    hide *;
    ListFacts(g, keep, ps, l, k, m, e);
    ListWalkSteps(g, keep, ps, l, k, depth, m, e);
    if k < |l| {
      var q := g.vers[l[k]].parentPkg;
      PkgWalkGrounded(g, keep, ps, q, Some(l[k]), depth, m, e);
      var r := PkgWalk(g, keep, ps, q, Some(l[k]), depth, m, e);
      UnmarkedGrown(m, r.marked);
      if r.ok {
        AllStayJustified(g, keep, ps, m, r.marked, l);
        ListWalkGrounded(g, keep, ps, l, k + 1, depth, r.marked, r.explored);
      }
    }
  }

  lemma {:induction false} RootsWalkGrounded(g: Graph, keep: ProviderFilter, ps: seq<PkgState>, p: nat,
                                             m: seq<bool>, e: seq<bool>)
    requires Tables(g, ps, m, e) && Filters(keep) && p <= |ps| && Grounded(g, keep, ps, m)
    ensures Grounded(g, keep, ps, RootsWalk(g, keep, ps, p, m, e).marked)
    decreases |ps| - p
  {
    RootsWalkSteps(g, keep, ps, p, m, e);
    hide RootsWalk, RootWalk;
    if p < |ps| {
      RootWalkGrounded(g, keep, ps, p, m, e);
      var r := RootWalk(g, keep, ps, p, m, e);
      if r.ok { RootsWalkGrounded(g, keep, ps, p + 1, r.marked, r.explored); }
    }
  }

  lemma RootWalkGrounded(g: Graph, keep: ProviderFilter, ps: seq<PkgState>, p: nat, m: seq<bool>, e: seq<bool>)
    requires Tables(g, ps, m, e) && Filters(keep) && p < |ps| && Grounded(g, keep, ps, m)
    ensures Grounded(g, keep, ps, RootWalk(g, keep, ps, p, m, e).marked)
  {
    if !m[p] && Root(g, ps, p) {
      assert Real(g, ps, p) ==> Justified(g, keep, ps, m, p);
      hide Root, Justified, Grounded, Kept, Real, PkgWalk;
      PkgWalkGrounded(g, keep, ps, p, Kept(g, ps, p), 0, m, e);
    }
  }

  /** A walk that ran to its end has been at every root. */
  lemma {:induction false} RootsWalkMarks(g: Graph, keep: ProviderFilter, ps: seq<PkgState>, p: nat,
                                          m: seq<bool>, e: seq<bool>)
    requires Tables(g, ps, m, e) && Filters(keep) && p <= |ps|
    ensures var r := RootsWalk(g, keep, ps, p, m, e);
      r.ok ==> forall q :: p <= q < |ps| && Root(g, ps, q) && Real(g, ps, q) ==> r.marked[q]
    decreases |ps| - p
  {
    RootsWalkSteps(g, keep, ps, p, m, e);
    hide RootsWalk, Root, Real, PkgWalk, Kept;
    if p < |ps| {
      var r := RootWalk(g, keep, ps, p, m, e);
      if r.ok {
        RootsWalkMarks(g, keep, ps, p + 1, r.marked, r.explored);
        if Root(g, ps, p) && Real(g, ps, p) && !m[p] { PkgWalkMarks(g, keep, ps, p, m, e); }
      }
    }
  }

  lemma PkgWalkMarks(g: Graph, keep: ProviderFilter, ps: seq<PkgState>, p: nat, m: seq<bool>, e: seq<bool>)
    requires Tables(g, ps, m, e) && Filters(keep) && p < |ps| && Real(g, ps, p)
    ensures PkgWalk(g, keep, ps, p, Kept(g, ps, p), 0, m, e).marked[p]
  {
    PkgWalkSteps(g, keep, ps, p, Kept(g, ps, p), 0, m, e);
  }

  // ---------- What the marks of a walk mean ----------

  /** Whoever is wanted for its own sake is marked. */
  ghost predicate KeepsWanted(g: Graph, ps: seq<PkgState>, m: seq<bool>)
    requires |ps| == |g.pkgs| == |m|
  {
    forall p: nat, v: nat :: p < |ps| && ps[p].mode != ModeGarbage && WillHave(g, ps, p, v) && Wanted(g, ps, p) ==> m[p]
  }

  /** Dependency d counts, asks for version w of package q, and w is among the providers not dropped. */
  ghost predicate AsksThrough(g: Graph, keep: ProviderFilter, ps: seq<PkgState>, d: nat, q: nat, w: nat)
    requires ValidStates(g, ps) && d < |g.deps|
  {
    assert g.ValidDependency(d) && g.ValidPackage(g.deps[d].target);
    IsRespected(g, d) && AsksBy(g, d, q, w) && w in keep(d, FoundFor(g, ps, d).versions)
  }

  /** A marked package is wanted, or a marked one asks for it and the filter lets it pass. */
  ghost predicate HasReasons(g: Graph, keep: ProviderFilter, ps: seq<PkgState>, m: seq<bool>)
    requires ValidStates(g, ps) && |m| == |ps|
  {
    forall q: nat, w: nat :: q < |ps| && ps[q].mode != ModeGarbage && WillHave(g, ps, q, w) && m[q] ==>
      Wanted(g, ps, q) || IsAskedFor(g, keep, ps, m, q, w)
  }

  ghost predicate IsAskedFor(g: Graph, keep: ProviderFilter, ps: seq<PkgState>, m: seq<bool>, q: nat, w: nat)
    requires ValidStates(g, ps) && |m| == |ps|
  {
    exists p: nat, d: nat :: p < |ps| && m[p] && d < |g.deps| && WillHave(g, ps, p, g.deps[d].parentVer) &&
      AsksThrough(g, keep, ps, d, q, w)
  }

  /** Whatever a marked package asks for is marked. */
  ghost predicate KeepsAsked(g: Graph, ps: seq<PkgState>, m: seq<bool>)
    requires g.Valid() && |ps| == |g.pkgs| == |m|
  {
    forall p: nat, v: nat, q: nat, w: nat :: p < |ps| && q < |ps| && m[p] && WillHave(g, ps, p, v) ==>
      WillHave(g, ps, q, w) && Asks(g, v, q, w) ==> m[q]
  }

  /** With every provider followed, what should be marked is closed under asking. */
  lemma ExactKeepsAsked(g: Graph, ps: seq<PkgState>, m: seq<bool>)
    requires ValidStates(g, ps) && |m| == |ps| && forall q :: 0 <= q < |m| ==> (m[q] <==> ShouldMark(g, ps, q))
    ensures KeepsAsked(g, ps, m)
  {
    hide WillHave, Asks, Reachable, Targeted, Edge, Real, Kept;
    forall p: nat, v: nat, q: nat, w: nat | p < |ps| && q < |ps| && m[p] && WillHave(g, ps, p, v)
      && WillHave(g, ps, q, w) && Asks(g, v, q, w)
      ensures m[q]
    {
      RealInTerms(g, ps, p, v);
      RealInTerms(g, ps, q, w);
      EdgeInTerms(g, ps, p, v, q);
      EdgeReachable(g, ps, p, q);
    }
  }

  // ---------- What the sweep makes of them ----------

  /** Garbage is there or to be installed, not marked, and not installed with Required priority. */
  ghost predicate SweepsRest(g: Graph, ps: seq<PkgState>, m: seq<bool>, garbage: seq<bool>)
    requires |ps| == |g.pkgs| == |m| == |garbage|
  {
    forall q :: 0 <= q < |garbage| ==>
      var cur := g.pkgs[q].currentVer;
      var required := cur.Some? && cur.value < |g.vers| && g.vers[cur.value].required;
      garbage[q] == (!m[q] && (cur.Some? || ps[q].mode == ModeInstall) && !required)
  }

  lemma WalkKeepsWanted(g: Graph, keep: ProviderFilter, ps: seq<PkgState>)
    requires ValidStates(g, ps) && Filters(keep) && FreshWalk(g, keep, ps).ok
    ensures KeepsWanted(g, ps, FreshWalk(g, keep, ps).marked)
  {
    var none := seq(|ps|, i => false);
    RootsWalkMarks(g, keep, ps, 0, none, none);
    hide Wanted, WillHave, Root, Real, Kept;
    forall p: nat, v: nat | p < |ps| && ps[p].mode != ModeGarbage && WillHave(g, ps, p, v) && Wanted(g, ps, p)
      ensures FreshWalk(g, keep, ps).marked[p]
    {
      RealInTerms(g, ps, p, v);
      RootInTerms(g, ps, p, v);
    }
  }

  lemma WalkHasReasons(g: Graph, keep: ProviderFilter, ps: seq<PkgState>)
    requires ValidStates(g, ps) && Filters(keep)
    ensures HasReasons(g, keep, ps, FreshWalk(g, keep, ps).marked)
  {
    var none, m := seq(|ps|, i => false), FreshWalk(g, keep, ps).marked;
    RootsWalkGrounded(g, keep, ps, 0, none, none);
    hide Wanted, WillHave, Root, Real, Kept, LeadsTo, AsksThrough, FreshWalk;
    forall q: nat, w: nat | q < |ps| && ps[q].mode != ModeGarbage && WillHave(g, ps, q, w) && m[q]
      ensures Wanted(g, ps, q) || IsAskedFor(g, keep, ps, m, q, w)
    {
      RealInTerms(g, ps, q, w);
      RootInTerms(g, ps, q, w);
      if !Root(g, ps, q) {
        assert Justified(g, keep, ps, m, q);
        var p: nat, d: nat :| p < |m| && m[p] && LeadsTo(g, keep, ps, p, d, q);
        LeadsInTerms(g, keep, ps, p, d, q, w);
      }
    }
  }

  lemma LeadsInTerms(g: Graph, keep: ProviderFilter, ps: seq<PkgState>, p: nat, d: nat, q: nat, w: nat)
    requires ValidStates(g, ps) && Filters(keep) && p < |ps| && q < |ps| && LeadsTo(g, keep, ps, p, d, q)
    requires WillHave(g, ps, q, w)
    ensures d < |g.deps| && WillHave(g, ps, p, g.deps[d].parentVer) && AsksThrough(g, keep, ps, d, q, w)
  {
    var v :| v in keep(d, FoundFor(g, ps, d).versions) && v < |g.vers| && g.vers[v].parentPkg == q;
    FoundSatisfies(g, ps, d, |g.pkgs[g.deps[d].target].providesList|, v);
    RealInTerms(g, ps, p, g.deps[d].parentVer);
    RealInTerms(g, ps, q, w);
    SatisfiesInTerms(g, ps, d, q);
    OneVersion(g, ps, q, w);
    hide Satisfies, AsksBy, WillHave, Real, Kept;
  }

  lemma OneVersion(g: Graph, ps: seq<PkgState>, q: nat, w: nat)
    requires |ps| == |g.pkgs| && q < |ps| && WillHave(g, ps, q, w)
    ensures forall x :: WillHave(g, ps, q, x) ==> x == w
  {
  }
}
