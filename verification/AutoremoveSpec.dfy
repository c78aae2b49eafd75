/**
  Which packages the automatic removal has to keep: everything reachable from the
  root set along followed dependencies to the packages that satisfy them.
*/
module AutoremoveSpec {
  import opened Wrappers
  import opened DepGraph
  import opened DepBytes
  import opened DepSpec

  /** A package that is not there and stays away, or is there and goes away. */
  predicate Boring(g: Graph, ps: seq<PkgState>, p: nat)
    requires |ps| == |g.pkgs| && p < |ps|
  {
    if g.pkgs[p].currentVer.None? then ps[p].Keep() else ps[p].Delete()
  }

  /** The version of a package that will be there. */
  function Kept(g: Graph, ps: seq<PkgState>, p: nat): Option<nat>
    requires |ps| == |g.pkgs| && p < |ps|
  {
    if ps[p].Install() then ps[p].installVer else g.pkgs[p].currentVer
  }

  predicate Real(g: Graph, ps: seq<PkgState>, p: nat)
    requires |ps| == |g.pkgs| && p < |ps|
  {
    !Boring(g, ps, p) && Kept(g, ps, p).Some?
  }

  predicate Followed(g: Graph, d: nat)
    requires d < |g.deps|
  {
    match g.deps[d].kind
    case Depends => true
    case PreDepends => true
    case Recommends => g.config.followRecommends
    case Suggests => g.config.followSuggests
    case _ => false
  }

  /** The provides r is one of a version that will be there. */
  ghost predicate Present(g: Graph, ps: seq<PkgState>, r: nat)
    requires g.Valid() && |ps| == |g.pkgs| && r < |g.prvs|
  {
    Real(g, ps, g.OwnerPkg(r)) && Kept(g, ps, g.OwnerPkg(r)) == Some(g.prvs[r].ownerVer)
  }

  /** Package q, or a provides of it, answers to the name t. */
  ghost predicate Offers(g: Graph, ps: seq<PkgState>, t: nat, q: nat)
    requires g.Valid() && |ps| == |g.pkgs| && t < |ps|
  {
    assert g.ValidPackage(t);
    || (q == t && Real(g, ps, t))
    || exists k :: 0 <= k < |g.pkgs[t].providesList| && OffersBy(g, ps, g.pkgs[t].providesList[k], q)
  }

  ghost predicate OffersBy(g: Graph, ps: seq<PkgState>, r: nat, q: nat)
    requires g.Valid() && |ps| == |g.pkgs| && r < |g.prvs|
  {
    Present(g, ps, r) && q == g.OwnerPkg(r)
  }

  /** ... and satisfies dependency d. */
  ghost predicate Satisfies(g: Graph, ps: seq<PkgState>, d: nat, q: nat)
    requires g.Valid() && |ps| == |g.pkgs| && d < |g.deps|
  {
    assert g.ValidDependency(d) && g.ValidPackage(g.deps[d].target);
    var t := g.deps[d].target;
    || (q == t && Real(g, ps, t) && Kept(g, ps, t).value in g.deps[d].satVers)
    || exists k :: 0 <= k < |g.pkgs[t].providesList| && SatisfiesBy(g, ps, d, g.pkgs[t].providesList[k], q)
  }

  ghost predicate SatisfiesBy(g: Graph, ps: seq<PkgState>, d: nat, r: nat, q: nat)
    requires g.Valid() && |ps| == |g.pkgs| && d < |g.deps| && r < |g.prvs|
  {
    OffersBy(g, ps, r, q) && r in g.deps[d].satPrvs
  }

  /** d is a followed dependency of the version of p that will be there. */
  ghost predicate Needs(g: Graph, ps: seq<PkgState>, p: nat, d: nat)
    requires |ps| == |g.pkgs| && p < |ps|
  {
    && Real(g, ps, p) && d < |g.deps|
    && Kept(g, ps, p) == Some(g.deps[d].parentVer) && Followed(g, d)
  }

  ghost predicate Edge(g: Graph, ps: seq<PkgState>, p: nat, q: nat)
    requires g.Valid() && |ps| == |g.pkgs| && p < |ps|
  {
    exists d: nat :: Needs(g, ps, p, d) && Satisfies(g, ps, d, q)
  }

  predicate Root(g: Graph, ps: seq<PkgState>, p: nat)
    requires g.Valid() && |ps| == |g.pkgs| && p < |ps|
  {
    assert g.ValidPackage(p);
    var P := g.pkgs[p];
    && !Boring(g, ps, p)
    && (!ps[p].auto || P.essential || P.important
        || (P.currentVer.Some? && g.vers[P.currentVer.value].required)
        || P.inRootSet
        || !IsModeChangeOk(g, ps[p], ModeGarbage, p, 0, false))
  }

  ghost predicate Path(g: Graph, ps: seq<PkgState>, path: seq<nat>)
    requires g.Valid() && |ps| == |g.pkgs|
  {
    && path != []
    && (forall i :: 0 <= i < |path| ==> path[i] < |ps|)
    && Root(g, ps, path[0]) && Real(g, ps, path[0])
    && (forall i :: 0 < i < |path| ==> Edge(g, ps, path[i - 1], path[i]))
  }

  ghost predicate Reachable(g: Graph, ps: seq<PkgState>, q: nat)
    requires g.Valid() && |ps| == |g.pkgs|
  {
    exists path :: Path(g, ps, path) && path[|path| - 1] == q
  }

  /** Some reachable package has a followed dependency on the name t. */
  ghost predicate Targeted(g: Graph, ps: seq<PkgState>, t: nat)
    requires g.Valid() && |ps| == |g.pkgs|
  {
    exists p: nat, d: nat :: p < |ps| && Reachable(g, ps, p) && Needs(g, ps, p, d) && g.deps[d].target == t
  }

  /** Real packages are marked iff reachable; other names iff something reachable asks for them. */
  ghost predicate ShouldMark(g: Graph, ps: seq<PkgState>, q: nat)
    requires g.Valid() && |ps| == |g.pkgs| && q < |ps|
  {
    if Real(g, ps, q) then Reachable(g, ps, q) else Targeted(g, ps, q)
  }

  ghost predicate IsGarbage(g: Graph, ps: seq<PkgState>, q: nat)
    requires g.Valid() && |ps| == |g.pkgs| && q < |ps|
  {
    assert g.ValidPackage(q);
    var cur := g.pkgs[q].currentVer;
    && !(cur.Some? && g.vers[cur.value].required)
    && !ShouldMark(g, ps, q)
    && (cur.Some? || ps[q].Install())
  }

  // ---------- Facts ----------

  lemma RootReachable(g: Graph, ps: seq<PkgState>, p: nat)
    requires g.Valid() && |ps| == |g.pkgs| && p < |ps| && Root(g, ps, p) && Real(g, ps, p)
    ensures Reachable(g, ps, p)
  {
    assert Path(g, ps, [p]) && [p][|[p]| - 1] == p;
  }

  lemma EdgeReachable(g: Graph, ps: seq<PkgState>, p: nat, q: nat)
    requires g.Valid() && |ps| == |g.pkgs| && p < |ps| && q < |ps|
    requires Reachable(g, ps, p) && Edge(g, ps, p, q)
    ensures Reachable(g, ps, q)
  {
    var path :| Path(g, ps, path) && path[|path| - 1] == p;
    assert Path(g, ps, path + [q]) && (path + [q])[|path + [q]| - 1] == q;
  }

  lemma SatisfiesIsReal(g: Graph, ps: seq<PkgState>, d: nat, q: nat)
    requires g.Valid() && |ps| == |g.pkgs| && d < |g.deps| && Satisfies(g, ps, d, q)
    ensures q < |ps| && Real(g, ps, q)
    ensures g.ValidDependency(d) && Offers(g, ps, g.deps[d].target, q)
  {
    assert g.ValidDependency(d) && g.ValidPackage(g.deps[d].target);
  }

  /** A set closed under edges that holds every real root holds every reachable package. */
  lemma {:induction false} ClosedHoldsPath(g: Graph, ps: seq<PkgState>, m: seq<bool>, path: seq<nat>)
    requires g.Valid() && |ps| == |g.pkgs| == |m| && Path(g, ps, path)
    requires forall p :: 0 <= p < |ps| && Root(g, ps, p) && Real(g, ps, p) ==> m[p]
    requires forall p, q :: 0 <= p < |ps| && 0 <= q < |ps| && m[p] && Edge(g, ps, p, q) ==> m[q]
    ensures m[path[|path| - 1]]
  {
    var n := |path| - 1;
    if n > 0 {
      assert Path(g, ps, path[..n]);
      ClosedHoldsPath(g, ps, m, path[..n]);
      assert Edge(g, ps, path[n - 1], path[n]);
    }
  }

  // ---------- In terms of the package data ----------

  /** The version package p will have, unless it is one that is not there and stays away, or is removed. */
  predicate WillHave(g: Graph, ps: seq<PkgState>, p: nat, v: nat)
    requires |ps| == |g.pkgs| && p < |ps|
  {
    if ps[p].mode == ModeInstall then ps[p].installVer == Some(v)
    else g.pkgs[p].currentVer == Some(v) && ps[p].mode != ModeDelete
  }

  lemma RealInTerms(g: Graph, ps: seq<PkgState>, p: nat, v: nat)
    requires |ps| == |g.pkgs| && p < |ps|
    ensures Real(g, ps, p) && Kept(g, ps, p) == Some(v) <==> WillHave(g, ps, p, v)
  {
  }

  /** Somebody wants package p for its own sake: the user, the distribution, the configuration, or a hold. */
  predicate Wanted(g: Graph, ps: seq<PkgState>, p: nat)
    requires |ps| == |g.pkgs| && p < |ps|
  {
    var P, st := g.pkgs[p], ps[p];
    || !st.auto || P.essential || P.important || P.inRootSet
    || (P.currentVer.Some? && P.currentVer.value < |g.vers| && g.vers[P.currentVer.value].required)
    || st.protect || (P.hold && !g.config.ignoreHold)
  }

  lemma RootInTerms(g: Graph, ps: seq<PkgState>, p: nat, v: nat)
    requires ValidStates(g, ps) && p < |ps| && WillHave(g, ps, p, v) && ps[p].mode != ModeGarbage
    ensures Root(g, ps, p) <==> Wanted(g, ps, p)
  {
    RealInTerms(g, ps, p, v);
    assert g.ValidPackage(p) && g.OwnVersion(p, ps[p].installVer) && g.ValidVersion(v);
    assert v in g.pkgs[p].versions;
  }

  /** Version v asks for version w of package q, by name or by what it provides, and removal respects that. */
  ghost predicate Asks(g: Graph, v: nat, q: nat, w: nat)
    requires g.Valid()
  {
    exists d: nat :: d < |g.deps| && g.deps[d].parentVer == v && IsRespected(g, d) && AsksBy(g, d, q, w)
  }

  /** Dependencies always count, recommendations and suggestions if they are configured to. */
  predicate IsRespected(g: Graph, d: nat)
    requires d < |g.deps|
  {
    || g.deps[d].kind in {Depends, PreDepends}
    || (g.deps[d].kind == Recommends && g.config.followRecommends)
    || (g.deps[d].kind == Suggests && g.config.followSuggests)
  }

  ghost predicate AsksBy(g: Graph, d: nat, q: nat, w: nat)
    requires g.Valid() && d < |g.deps|
  {
    assert g.ValidDependency(d);
    || (q == g.deps[d].target && w in g.deps[d].satVers)
    || exists r :: r in g.deps[d].satPrvs && r in g.pkgs[g.deps[d].target].providesList && r < |g.prvs| &&
         g.prvs[r].ownerVer == w && w < |g.vers| && g.vers[w].parentPkg == q
  }

  lemma SatisfiesInTerms(g: Graph, ps: seq<PkgState>, d: nat, q: nat)
    requires ValidStates(g, ps) && d < |g.deps| && q < |ps|
    ensures Satisfies(g, ps, d, q) <==> exists w :: WillHave(g, ps, q, w) && AsksBy(g, d, q, w)
  {
    assert g.ValidDependency(d) && g.ValidPackage(g.deps[d].target);
    var t := g.deps[d].target;
    var l := g.pkgs[t].providesList;
    if Satisfies(g, ps, d, q) {
      SatisfiesIsReal(g, ps, d, q);
      var w := Kept(g, ps, q).value;
      RealInTerms(g, ps, q, w);
      if !(q == t && w in g.deps[d].satVers) {
        var k :| 0 <= k < |l| && SatisfiesBy(g, ps, d, l[k], q);
        assert l[k] in g.deps[d].satPrvs && g.prvs[l[k]].ownerVer == w && g.ValidProvides(l[k]);
      }
      assert AsksBy(g, d, q, w);
    }
    forall w: nat | WillHave(g, ps, q, w) && AsksBy(g, d, q, w) ensures Satisfies(g, ps, d, q) {
      RealInTerms(g, ps, q, w);
      if !(q == t && w in g.deps[d].satVers) {
        var r :| r in g.deps[d].satPrvs && r in l && r < |g.prvs| && g.prvs[r].ownerVer == w && w < |g.vers| &&
          g.vers[w].parentPkg == q;
        var k :| 0 <= k < |l| && l[k] == r;
        assert SatisfiesBy(g, ps, d, l[k], q);
      }
    }
  }

  lemma EdgeInTerms(g: Graph, ps: seq<PkgState>, p: nat, v: nat, q: nat)
    requires ValidStates(g, ps) && p < |ps| && q < |ps| && WillHave(g, ps, p, v)
    ensures Edge(g, ps, p, q) <==> exists w :: WillHave(g, ps, q, w) && Asks(g, v, q, w)
  {
    RealInTerms(g, ps, p, v);
    hide Satisfies, AsksBy, WillHave;
    if Edge(g, ps, p, q) {
      var d: nat :| Needs(g, ps, p, d) && Satisfies(g, ps, d, q);
      SatisfiesInTerms(g, ps, d, q);
      var w :| WillHave(g, ps, q, w) && AsksBy(g, d, q, w);
      assert Asks(g, v, q, w);
    }
    forall w | WillHave(g, ps, q, w) && Asks(g, v, q, w) ensures Edge(g, ps, p, q) {
      var d: nat :| d < |g.deps| && g.deps[d].parentVer == v && IsRespected(g, d) && AsksBy(g, d, q, w);
      SatisfiesInTerms(g, ps, d, q);
      assert Needs(g, ps, p, d);
    }
  }

  // ---------- What the marks do not look at ----------

  ghost predicate SameForMarks(ps: seq<PkgState>, ps': seq<PkgState>) {
    |ps| == |ps'| && forall q :: 0 <= q < |ps| ==> SameRecordForMarks(ps[q], ps'[q])
  }

  predicate SameRecordForMarks(st: PkgState, st': PkgState) {
    st.mode == st'.mode && st.installVer == st'.installVer && st.auto == st'.auto && st.protect == st'.protect
  }

  lemma SameAfter(ps: seq<PkgState>, p: nat, next: PkgState)
    requires p < |ps| && SameRecordForMarks(ps[p], next)
    ensures SameForMarks(ps, ps[p := next])
  {
  }

  lemma SameEdges(g: Graph, ps: seq<PkgState>, ps': seq<PkgState>, p: nat, q: nat)
    requires g.Valid() && |ps| == |g.pkgs| && SameForMarks(ps, ps') && p < |ps|
    ensures Edge(g, ps, p, q) ==> Edge(g, ps', p, q)
  {
    if Edge(g, ps, p, q) {
      var d: nat :| Needs(g, ps, p, d) && Satisfies(g, ps, d, q);
      SameSatisfies(g, ps, ps', d, q);
      assert Needs(g, ps', p, d);
    }
  }

  lemma SameSatisfies(g: Graph, ps: seq<PkgState>, ps': seq<PkgState>, d: nat, q: nat)
    requires g.Valid() && |ps| == |g.pkgs| && SameForMarks(ps, ps') && d < |g.deps| && Satisfies(g, ps, d, q)
    ensures Satisfies(g, ps', d, q)
  {
    assert g.ValidDependency(d) && g.ValidPackage(g.deps[d].target);
    var t := g.deps[d].target;
    if !(q == t && Real(g, ps, t) && Kept(g, ps, t).value in g.deps[d].satVers) {
      var k :| 0 <= k < |g.pkgs[t].providesList| && SatisfiesBy(g, ps, d, g.pkgs[t].providesList[k], q);
      assert SatisfiesBy(g, ps', d, g.pkgs[t].providesList[k], q);
    }
  }

  lemma SameReachable(g: Graph, ps: seq<PkgState>, ps': seq<PkgState>, q: nat)
    requires g.Valid() && |ps| == |g.pkgs| && SameForMarks(ps, ps')
    ensures Reachable(g, ps, q) ==> Reachable(g, ps', q)
    ensures Targeted(g, ps, q) ==> Targeted(g, ps', q)
  {
    forall x | Reachable(g, ps, x) ensures Reachable(g, ps', x) {
      var path :| Path(g, ps, path) && path[|path| - 1] == x;
      forall i | 0 < i < |path| ensures Edge(g, ps', path[i - 1], path[i]) {
        SameEdges(g, ps, ps', path[i - 1], path[i]);
      }
      assert Path(g, ps', path);
    }
    if Targeted(g, ps, q) {
      var p: nat, d: nat :| p < |ps| && Reachable(g, ps, p) && Needs(g, ps, p, d) && g.deps[d].target == q;
      assert Reachable(g, ps', p) && Needs(g, ps', p, d);
    }
  }

  /** Candidate, status, summary and all flags but Auto and Protected do not matter to the marks. */
  lemma SameShouldMark(g: Graph, ps: seq<PkgState>, ps': seq<PkgState>, q: nat)
    requires g.Valid() && |ps| == |g.pkgs| && SameForMarks(ps, ps') && q < |ps|
    ensures ShouldMark(g, ps, q) <==> ShouldMark(g, ps', q)
    ensures IsGarbage(g, ps, q) <==> IsGarbage(g, ps', q)
  {
    SameReachable(g, ps, ps', q);
    SameReachable(g, ps', ps, q);
  }
}
