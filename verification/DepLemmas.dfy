/**
  Facts about the specification functions: how or-group bits are gathered, which
  dependencies a change of one package can reach, and how the sums move.
*/
module DepLemmas {
  import opened Wrappers
  import opened DepGraph
  import opened DepBytes
  import opened DepSpec

  // ---------- Or-groups ----------

  lemma {:induction false} GroupBeforeSame(g: Graph, raw: seq<Bits>, raw': seq<Bits>, v: nat, i: nat)
    requires v < |g.vers| && g.ValidVersion(v) && i <= |g.vers[v].depends| && |raw| == |raw'| == |g.deps|
    requires forall j :: 0 <= j < i ==> raw[g.vers[v].depends[j]] == raw'[g.vers[v].depends[j]]
    ensures GroupBefore(g, raw, v, i) == GroupBefore(g, raw', v, i)
  {
    if i > 0 && g.deps[g.vers[v].depends[i - 1]].orNext {
      GroupBeforeSame(g, raw, raw', v, i - 1);
    }
  }

  lemma {:induction false} GroupBeforeAgrees(g: Graph, raw: seq<Bits>, raw': seq<Bits>, v: nat, i: nat)
    requires v < |g.vers| && g.ValidVersion(v) && i <= |g.vers[v].depends| && |raw| == |raw'| == |g.deps|
    requires forall j :: 0 <= j < i ==> raw[g.vers[v].depends[j]].Agrees(raw'[g.vers[v].depends[j]])
    ensures GroupBefore(g, raw, v, i).Agrees(GroupBefore(g, raw', v, i))
  {
    if i > 0 && g.deps[g.vers[v].depends[i - 1]].orNext {
      GroupBeforeAgrees(g, raw, raw', v, i - 1);
    }
  }

  /** A group bit is set iff some earlier member of the group has that bit. */
  lemma {:induction false} GroupBeforeBit(g: Graph, raw: seq<Bits>, v: nat, i: nat, check: VersionType)
    requires v < |g.vers| && g.ValidVersion(v) && i < |g.vers[v].depends| && |raw| == |g.deps|
    ensures GroupBefore(g, raw, v, i).At(check)
       <==> exists j :: GroupStart(g, v, i) <= j < i && raw[g.vers[v].depends[j]].At(check)
  {
    if i > 0 && g.deps[g.vers[v].depends[i - 1]].orNext {
      GroupBeforeBit(g, raw, v, i - 1, check);
      assert GroupStart(g, v, i) == GroupStart(g, v, i - 1);
      if raw[g.vers[v].depends[i - 1]].At(check) {
        assert GroupStart(g, v, i) <= i - 1 < i && raw[g.vers[v].depends[i - 1]].At(check);
      }
    }
  }

  /** Low bits that agree for Now and Install force bytes that agree for Now and Install. */
  lemma CanonByteAgrees(g: Graph, raw: seq<Bits>, raw': seq<Bits>, v: nat, i: nat)
    requires v < |g.vers| && g.ValidVersion(v) && i < |g.vers[v].depends| && |raw| == |raw'| == |g.deps|
    requires forall j :: 0 <= j <= i ==> raw[g.vers[v].depends[j]].Agrees(raw'[g.vers[v].depends[j]])
    ensures CanonByte(g, raw, v, i).Agrees(CanonByte(g, raw', v, i))
  {
    GroupBeforeAgrees(g, raw, raw', v, i);
  }

  // ---------- Frames ----------

  ghost predicate SameSelection(ps: seq<PkgState>, ps': seq<PkgState>) {
    |ps| == |ps'| && forall p :: 0 <= p < |ps| ==> ps[p].installVer == ps'[p].installVer
  }

  lemma SameSelectionSameRaw(g: Graph, ps: seq<PkgState>, ps': seq<PkgState>, d: nat)
    requires ValidStates(g, ps) && ValidStates(g, ps') && SameSelection(ps, ps') && d < |g.deps|
    ensures RawState(g, ps, d).Agrees(RawState(g, ps', d))
  {
    forall ty | ty in {NowVersion, InstallVersion}
      ensures DepHit(g, ps, d, ty) <==> DepHit(g, ps', d, ty)
    {
      assert g.ValidDependency(d) && g.ValidPackage(g.deps[d].target);
      var l := g.pkgs[g.deps[d].target].providesList;
      assert forall k :: 0 <= k < |l| ==> (PrvHit(g, ps, d, l[k], ty) <==> PrvHit(g, ps', d, l[k], ty));
    }
  }

  /** The bytes of one version decide everything the scan of that version sees. */
  lemma SameBytesSameScan(g: Graph, ds: seq<Byte>, ds': seq<Byte>, v: nat, check: VersionType)
    requires g.Valid() && v < |g.vers| && |ds| == |ds'| == |g.deps|
    requires forall d :: 0 <= d < |ds| && g.deps[d].parentVer == v ==> ds[d] == ds'[d]
    ensures MinFails(g, ds, v, check) == MinFails(g, ds', v, check)
    ensures PolicyFails(g, ds, v, check) == PolicyFails(g, ds', v, check)
  {
    assert g.ValidVersion(v);
    assert forall i :: MinGroupFails(g, ds, v, i, check) <==> MinGroupFails(g, ds', v, i, check);
    assert forall i :: PolicyGroupFails(g, ds, v, i, check) <==> PolicyGroupFails(g, ds', v, i, check);
  }

  lemma SameBytesSameCanon(g: Graph, ds: seq<Byte>, ds': seq<Byte>, v: nat)
    requires g.Valid() && v < |g.vers| && |ds| == |ds'| == |g.deps|
    requires forall d :: 0 <= d < |ds| && g.deps[d].parentVer == v ==> ds[d] == ds'[d]
    requires Canonical(g, ds, v)
    ensures Canonical(g, ds', v)
  {
    assert g.ValidVersion(v);
    forall i {:trigger g.vers[v].depends[i]} | 0 <= i < |g.vers[v].depends|
      ensures ds'[g.vers[v].depends[i]] == CanonByte(g, RawsStored(g, ds'), v, i)
    {
      GroupBeforeSame(g, RawsStored(g, ds), RawsStored(g, ds'), v, i);
    }
  }

  lemma SameBytesSameSummary(g: Graph, ps: seq<PkgState>, ps': seq<PkgState>, ds: seq<Byte>, ds': seq<Byte>, p: nat)
    requires ValidStates(g, ps) && ValidStates(g, ps') && |ds| == |ds'| == |g.deps| && p < |ps|
    requires ps[p].depState == ps'[p].depState && ps[p].installVer == ps'[p].installVer
    requires forall d :: 0 <= d < |ds| && g.ParentPkg(d) == p ==> ds[d] == ds'[d]
    requires SummaryOk(g, ps, ds, p)
    ensures SummaryOk(g, ps', ds', p)
  {
    assert g.ValidPackage(p);
    var cur, inst := g.pkgs[p].currentVer, ps[p].installVer;
    if cur.Some? { SameBytesSameScan(g, ds, ds', cur.value, NowVersion); }
    if inst.Some? { SameBytesSameScan(g, ds, ds', inst.value, InstallVersion); }
  }

  // ---------- Coverage ----------

  /** The packages whose reverse dependencies an update of package p walks. */
  ghost predicate Covered(g: Graph, p: nat, cand: Option<nat>, d: nat)
    requires g.Valid() && p < |g.pkgs| && g.OwnVersion(p, cand)
  {
    assert g.ValidPackage(p);
    || d in g.pkgs[p].revDepends
    || CoveredBy(g, g.pkgs[p].currentVer, d)
    || CoveredBy(g, cand, d)
  }

  ghost predicate CoveredBy(g: Graph, v: Option<nat>, d: nat)
    requires g.Valid() && (v.Some? ==> v.value < |g.vers|)
  {
    v.Some? && (assert g.ValidVersion(v.value);
    exists i :: 0 <= i < |g.vers[v.value].providesList| && ReachedByPrv(g, g.vers[v.value].providesList[i], d))
  }

  ghost predicate ReachedByPrv(g: Graph, r: nat, d: nat)
    requires g.Valid() && r < |g.prvs|
  {
    assert g.ValidProvides(r);
    d in g.pkgs[g.prvs[r].parentPkg].revDepends
  }

  /**
    When one package moves its choice among nothing, its current and its candidate
    version, every dependency outside the walked lists keeps its results.
  */
  lemma UpdateCoverage(g: Graph, ps: seq<PkgState>, ps': seq<PkgState>, p: nat, cand: Option<nat>, d: nat)
    requires ValidStates(g, ps) && ValidStates(g, ps') && p < |ps| && d < |g.deps| && g.OwnVersion(p, cand)
    requires forall q :: 0 <= q < |ps| && q != p ==> ps[q].installVer == ps'[q].installVer
    requires ps[p].installVer in {None, g.pkgs[p].currentVer, cand}
    requires ps'[p].installVer in {None, g.pkgs[p].currentVer, cand}
    requires !Covered(g, p, cand, d)
    ensures DepHit(g, ps, d, NowVersion) <==> DepHit(g, ps', d, NowVersion)
    ensures DepHit(g, ps, d, InstallVersion) <==> DepHit(g, ps', d, InstallVersion)
    ensures RawState(g, ps, d).Agrees(RawState(g, ps', d))
  {
    assert g.ValidDependency(d) && g.ValidPackage(g.deps[d].target) && g.ValidPackage(p);
    var t := g.deps[d].target;
    var l := g.pkgs[t].providesList;
    forall k, ty | 0 <= k < |l| && ty in {NowVersion, InstallVersion}
      ensures PrvHit(g, ps, d, l[k], ty) <==> PrvHit(g, ps', d, l[k], ty)
    {
      if g.OwnerPkg(l[k]) == p {
        UncoveredProvider(g, p, cand, d, k);
      }
    }
  }

  lemma UncoveredProvider(g: Graph, p: nat, cand: Option<nat>, d: nat, k: nat)
    requires g.Valid() && p < |g.pkgs| && d < |g.deps| && g.OwnVersion(p, cand)
    requires !Covered(g, p, cand, d)
    requires g.deps[d].target < |g.pkgs| && k < |g.pkgs[g.deps[d].target].providesList|
    requires g.pkgs[g.deps[d].target].providesList[k] < |g.prvs|
    requires g.OwnerPkg(g.pkgs[g.deps[d].target].providesList[k]) == p
    ensures Some(g.prvs[g.pkgs[g.deps[d].target].providesList[k]].ownerVer) !in {g.pkgs[p].currentVer, cand}
  {
    var r := g.pkgs[g.deps[d].target].providesList[k];
    assert g.ValidDependency(d) && g.ValidPackage(g.deps[d].target) && g.ValidPackage(p) && g.ValidProvides(r);
    var w := g.prvs[r].ownerVer;
    assert g.ValidVersion(w);
    var i :| 0 <= i < |g.vers[w].providesList| && g.vers[w].providesList[i] == r;
    assert ReachedByPrv(g, g.vers[w].providesList[i], d);
    assert CoveredBy(g, Some(w), d);
  }

  // ---------- Sums ----------

  lemma {:induction false} TotalUpdate(c: seq<Tally>, p: nat, x: Tally)
    requires p < |c|
    ensures Total(c[p := x]).Plus(c[p]) == Total(c).Plus(x)
  {
    var n := |c| - 1;
    if p < n {
      TotalUpdate(c[..n], p, x);
      assert c[p := x][..n] == c[..n][p := x];
    } else {
      assert c[p := x][..n] == c[..n];
    }
  }

  lemma {:induction false} TotalSizesUpdate(c: seq<Sizes>, p: nat, x: Sizes)
    requires p < |c|
    ensures TotalSizes(c[p := x]).Plus(c[p]) == TotalSizes(c).Plus(x)
    ensures c[p].download <= TotalSizes(c).download
  {
    var n := |c| - 1;
    if p < n {
      TotalSizesUpdate(c[..n], p, x);
      assert c[p := x][..n] == c[..n][p := x];
    } else {
      assert c[p := x][..n] == c[..n];
    }
  }

  lemma {:induction false} TotalAtLeast(c: seq<Tally>, p: nat)
    requires p < |c|
    ensures Total(c).AtLeast(c[p])
  {
    if p < |c| - 1 {
      TotalAtLeast(c[..|c| - 1], p);
    }
  }

  lemma StateContribSplit(g: Graph, p: nat, st: PkgState)
    requires p < |g.pkgs|
    ensures StateContrib(g, p, st) == BrokenContrib(g, p, st).Plus(ModeContrib(g, p, st))
  {
  }

  lemma TallySplit(t: Tally, a: Tally, b: Tally)
    requires t.AtLeast(a.Plus(b))
    ensures t.AtLeast(a)
  {
  }

  lemma TallyRest(t: Tally, a: Tally, b: Tally, rest: Tally)
    requires t.AtLeast(a.Plus(b)) && rest.Plus(a) == t
    ensures rest.AtLeast(b)
  {
  }

  lemma TallyJoin(t: Tally, a: Tally, b: Tally, t1: Tally, t2: Tally)
    ensures t1 == t.Plus(a) && t2 == t1.Plus(b) ==> t2 == t.Plus(a.Plus(b))
    ensures t1.Plus(a) == t && t2.Plus(b) == t1 ==> t2.Plus(a.Plus(b)) == t
  {
  }

  lemma LedgerTotal(c: seq<Tally>, p: nat, x: Tally, rest: Tally)
    requires p < |c| && rest.Plus(c[p]) == Total(c)
    ensures rest.Plus(x) == Total(c[p := x])
  {
    TotalUpdate(c, p, x);
  }

  lemma LedgerSizes(c: seq<Sizes>, p: nat, x: Sizes, rest: Sizes)
    requires p < |c| && rest.Plus(c[p]) == TotalSizes(c)
    ensures rest.Plus(x) == TotalSizes(c[p := x])
  {
    TotalSizesUpdate(c, p, x);
  }

  lemma ContribsUpdate(g: Graph, ps: seq<PkgState>, p: nat, st: PkgState)
    requires |ps| == |g.pkgs| && p < |ps|
    ensures StateContribs(g, ps[p := st]) == StateContribs(g, ps)[p := StateContrib(g, p, st)]
  {
  }

  lemma SizesUpdate(g: Graph, ps: seq<PkgState>, p: nat, st: PkgState)
    requires p < |ps| && ValidStates(g, ps) && ValidStates(g, ps[p := st]) && g.OwnVersion(p, st.installVer)
    ensures SizeContribs(g, ps[p := st]) == SizeContribs(g, ps)[p := SizeContrib(g, p, st)]
  {
  }

  /** Taking a package off the counters, changing it and adding it again keeps the sum. */
  lemma Ledger(g: Graph, ps: seq<PkgState>, p: nat, st: PkgState, rest: Tally)
    requires |ps| == |g.pkgs| && p < |ps|
    requires rest.Plus(StateContribs(g, ps)[p]) == Total(StateContribs(g, ps))
    ensures rest.Plus(StateContrib(g, p, st)) == Total(StateContribs(g, ps[p := st]))
  {
    ContribsUpdate(g, ps, p, st);
    LedgerTotal(StateContribs(g, ps), p, StateContrib(g, p, st), rest);
  }

  lemma SizeLedger(g: Graph, ps: seq<PkgState>, p: nat, st: PkgState, rest: Sizes)
    requires p < |ps| && ValidStates(g, ps) && ValidStates(g, ps[p := st]) && g.OwnVersion(p, st.installVer)
    requires rest.Plus(SizeContribs(g, ps)[p]) == TotalSizes(SizeContribs(g, ps))
    ensures rest.Plus(SizeContrib(g, p, st)) == TotalSizes(SizeContribs(g, ps[p := st]))
  {
    SizesUpdate(g, ps, p, st);
    LedgerSizes(SizeContribs(g, ps), p, SizeContrib(g, p, st), rest);
  }

  /** The two records differ at most in the summary bytes. */
  ghost predicate OnlySummaries(ps: seq<PkgState>, ps': seq<PkgState>) {
    |ps| == |ps'| && forall p :: 0 <= p < |ps| ==> ps'[p] == ps[p].(depState := ps'[p].depState)
  }

  lemma SummariesKeepSizes(g: Graph, ps: seq<PkgState>, ps': seq<PkgState>)
    requires ValidStates(g, ps) && OnlySummaries(ps, ps')
    ensures ValidStates(g, ps')
    ensures SizeContribs(g, ps) == SizeContribs(g, ps')
  {
    forall p | 0 <= p < |ps|
      ensures g.OwnVersion(p, ps'[p].candidateVer) && g.OwnVersion(p, ps'[p].installVer)
    {
      assert g.OwnVersion(p, ps[p].candidateVer) && g.OwnVersion(p, ps[p].installVer);
    }
  }
}
