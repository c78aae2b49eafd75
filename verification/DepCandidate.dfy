/**
  Giving a package another candidate. What the old candidate provides is not walked again,
  so a package about to be installed may leave dependencies on it behind with stale results.
*/
module DepCandidate {
  import opened Wrappers
  import opened DepGraph
  import opened DepBytes
  import opened DepSpec
  import opened DepLemmas
  import opened DepRepair
  import opened DepMarks

  function CandidateRecord(g: Graph, p: nat, st: PkgState, v: nat): PkgState
    requires g.Valid() && p < |g.pkgs| && g.OwnVersion(p, Some(v))
  {
    var inst := if st.candidateVer == st.installVer && st.Install() then Some(v) else st.installVer;
    st.(candidateVer := Some(v), installVer := inst, status := StatusOf(g, p, Some(v)))
  }

  /** What version `was` provides is all that satisfies d; the package named in d does not. */
  ghost predicate MetOnlyBy(g: Graph, ps: seq<PkgState>, d: nat, was: nat)
    requires ValidStates(g, ps) && d < |g.deps|
  {
    assert g.ValidDependency(d) && g.ValidPackage(g.deps[d].target);
    var l := g.pkgs[g.deps[d].target].providesList;
    && DepHit(g, ps, d, InstallVersion) && !TargetHit(g, ps, d, InstallVersion)
    && forall k :: 0 <= k < |l| && PrvHit(g, ps, d, l[k], InstallVersion) ==> g.prvs[l[k]].ownerVer == was
  }

  /**
    When v may become the candidate. A package that is about to be installed turns to the new
    candidate, which must not be its current version; and of what it provided before, only what the
    new candidate or the current version provides, too, may be all that satisfies a dependency.
  */
  ghost predicate CandidateFits(g: Graph, ps: seq<PkgState>, v: nat) {
    && ValidStates(g, ps) && v < |g.vers|
    && var p := ParentOf(g, v);
    (ps[p].candidateVer != Some(v) && ps[p].mode == ModeInstall ==>
      && ps[p].installVer.Some? && g.pkgs[p].currentVer != Some(v) && g.OwnVersion(p, Some(v))
      && forall d :: 0 <= d < |g.deps| && MetOnlyBy(g, ps, d, ps[p].installVer.value) ==> Covered(g, p, Some(v), d))
  }

  /** A check that always suffices: what the package selects provides nothing. */
  predicate PlainlyFits(g: Graph, st: PkgState, v: nat)
    requires v < |g.vers| && g.vers[v].parentPkg < |g.pkgs| && (st.installVer.Some? ==> st.installVer.value < |g.vers|)
  {
    st.mode == ModeInstall ==>
      st.installVer.Some? && g.vers[st.installVer.value].providesList == []
      && g.pkgs[g.vers[v].parentPkg].currentVer != Some(v)
  }

  lemma PlainlyFitting(g: Graph, ps: seq<PkgState>, v: nat)
    requires ValidStates(g, ps) && v < |g.vers| && ModeOk(g, ParentOf(g, v), ps[ParentOf(g, v)])
    ensures g.vers[v].parentPkg == ParentOf(g, v)
    ensures var inst := ps[ParentOf(g, v)].installVer; inst.Some? ==> inst.value < |g.vers|
    ensures PlainlyFits(g, ps[ParentOf(g, v)], v) ==> CandidateFits(g, ps, v)
  {
    var p := ParentOf(g, v);
    assert g.ValidVersion(v) && g.OwnVersion(p, ps[p].installVer);
    if PlainlyFits(g, ps[p], v) && ps[p].mode == ModeInstall {
      forall d | 0 <= d < |g.deps| ensures !MetOnlyBy(g, ps, d, ps[p].installVer.value) {
        assert g.ValidDependency(d) && g.ValidPackage(g.deps[d].target);
        forall r | 0 <= r < |g.prvs| ensures g.prvs[r].ownerVer != ps[p].installVer.value {
          assert g.ValidProvides(r);
        }
      }
    }
  }

  lemma CandidateFacts(g: Graph, ps: seq<PkgState>, p: nat, v: nat)
    requires ValidStates(g, ps) && p < |ps| && ModeOk(g, p, ps[p])
    requires v < |g.vers| && p == ParentOf(g, v)
    ensures g.OwnVersion(p, Some(v)) && OnlySummaries(ps, ps)
    ensures OwnChoice(g, p, CandidateRecord(g, p, ps[p], v))
    ensures ps[p].candidateVer == Some(v) ==> CandidateFits(g, ps, v)
    ensures ps[p].candidateVer != Some(v) ==>
      (ChoiceFits(g, ps, p, CandidateRecord(g, p, ps[p], v)) <==> CandidateFits(g, ps, v))
  {
    assert g.OwnVersion(p, ps[p].installVer) && g.ValidVersion(v);
    StatusOfFits(g, p, CandidateRecord(g, p, ps[p], v));
    hide Overlooked, Covered, MetOnlyBy, StatusFits, StatusOf;
    if ps[p].candidateVer != Some(v) {
      if ps[p].mode == ModeInstall {
        forall d | 0 <= d < |g.deps|
          ensures Overlooked(g, ps, p, CandidateRecord(g, p, ps[p], v), d)
             <==> MetOnlyBy(g, ps, d, ps[p].installVer.value) && !Covered(g, p, Some(v), d)
        {
          OverlookedMeans(g, ps, p, v, d);
        }
      } else {
        SelectsTheSame(g, ps, p, CandidateRecord(g, p, ps[p], v));
      }
    }
  }

  lemma SelectsTheSame(g: Graph, ps: seq<PkgState>, p: nat, next: PkgState)
    requires ValidStates(g, ps) && OwnChoice(g, p, next) && next.installVer == ps[p].installVer
    ensures forall d :: 0 <= d < |g.deps| ==> !Overlooked(g, ps, p, next, d)
  {
    hide DepHit, Covered;
    StillShaped(g, ps, p, next);
    forall d | 0 <= d < |g.deps| ensures !Overlooked(g, ps, p, next, d) {
      SameSelectionSameRaw(g, ps, ps[p := next], d);
    }
  }

  /** A package that turns from one version to another loses sight of what only the old one satisfied. */
  lemma OverlookedMeans(g: Graph, ps: seq<PkgState>, p: nat, v: nat, d: nat)
    requires ValidStates(g, ps) && p < |ps| && ModeOk(g, p, ps[p]) && ps[p].mode == ModeInstall
    requires g.OwnVersion(p, Some(v)) && d < |g.deps|
    ensures OwnChoice(g, p, CandidateRecord(g, p, ps[p], v))
    ensures Overlooked(g, ps, p, CandidateRecord(g, p, ps[p], v), d)
       <==> MetOnlyBy(g, ps, d, ps[p].installVer.value) && !Covered(g, p, Some(v), d)
  {
    var next := CandidateRecord(g, p, ps[p], v);
    var ps' := ps[p := next];
    StillShaped(g, ps, p, next);
    if !Covered(g, p, Some(v), d) {
      assert g.ValidDependency(d) && g.ValidPackage(g.deps[d].target) && g.ValidPackage(p);
      var l := g.pkgs[g.deps[d].target].providesList;
      assert TargetHit(g, ps, d, InstallVersion) == TargetHit(g, ps', d, InstallVersion);
      forall k | 0 <= k < |l|
        ensures PrvHit(g, ps', d, l[k], InstallVersion)
           <==> PrvHit(g, ps, d, l[k], InstallVersion) && g.prvs[l[k]].ownerVer != ps[p].installVer.value
      {
        OwnProviders(g, ps, p, v, d, k);
      }
    }
  }

  lemma OwnProviders(g: Graph, ps: seq<PkgState>, p: nat, v: nat, d: nat, k: nat)
    requires ValidStates(g, ps) && p < |ps| && ModeOk(g, p, ps[p]) && ps[p].mode == ModeInstall
    requires g.OwnVersion(p, Some(v)) && d < |g.deps| && !Covered(g, p, Some(v), d)
    requires OwnChoice(g, p, CandidateRecord(g, p, ps[p], v))
    requires ValidStates(g, ps[p := CandidateRecord(g, p, ps[p], v)])
    requires g.deps[d].target < |g.pkgs| && k < |g.pkgs[g.deps[d].target].providesList|
    requires g.pkgs[g.deps[d].target].providesList[k] < |g.prvs|
    ensures var r, ps' := g.pkgs[g.deps[d].target].providesList[k], ps[p := CandidateRecord(g, p, ps[p], v)];
      PrvHit(g, ps', d, r, InstallVersion) <==>
        PrvHit(g, ps, d, r, InstallVersion) && g.prvs[r].ownerVer != ps[p].installVer.value
  {
    var r := g.pkgs[g.deps[d].target].providesList[k];
    assert g.ValidProvides(r) && g.ValidVersion(g.prvs[r].ownerVer) && g.OwnVersion(p, ps[p].installVer);
    if g.OwnerPkg(r) == p {
      UncoveredProvider(g, p, Some(v), d, k);
    }
  }

  // ---------- A candidate that does not fit ----------

  /** Package 0 has versions 0 and 1; version 0 provides package 2, on which version 2 of package 1 depends. */
  const PROVIDER_CHANGES := Graph(
    [Package(0, None, [0, 1], [], [], NeedsNothing, true, false, false, false, false),
     Package(1, None, [2], [], [], NeedsNothing, true, false, false, false, false),
     Package(2, None, [], [0], [0], NeedsNothing, true, false, false, false, false)],
    [Version(0, [], [0], 0, 0, 0, 0, false, true, false, false, false),
     Version(0, [], [], 0, 0, 1, 1, false, true, false, false, false),
     Version(1, [0], [], 0, 0, 0, 0, false, true, false, false, false)],
    [Dependency(2, 0, 2, Depends, false, false, {}, {0}, [], [])],
    [Provides(0, 2)], Config(true, false, false, false, false, true, true), 0, false)

  lemma ProviderChangesValid(g: Graph)
    requires g == PROVIDER_CHANGES
    ensures g.Valid()
  {
    forall v: nat | v < 3 ensures g.ValidVersion(v) {
      if v == 0 { assert g.vers[v].providesList == [0] && g.pkgs[0].versions == [0, 1]; }
      if v == 1 { assert g.pkgs[0].versions[1] == 1; }
      if v == 2 { assert g.vers[v].depends == [0] && g.pkgs[1].versions == [2]; }
    }
    assert g.ValidDependency(0) by { assert g.vers[2].depends == [0] && g.pkgs[2].revDepends == [0]; }
    assert g.ValidProvides(0) by { assert g.vers[0].providesList == [0]; }
    forall p: nat | p < 3 ensures g.ValidPackage(p) {
      if p == 0 { assert g.pkgs[p].versions == [0, 1]; }
      if p == 1 { assert g.pkgs[p].versions == [2]; }
      if p == 2 { assert g.pkgs[p].revDepends == [0] && g.pkgs[p].providesList == [0]; }
    }
  }

  /** When package 0 is about to be installed in version 0, version 1 must not become its candidate. */
  lemma ProviderChangesMissed(g: Graph, ps: seq<PkgState>)
    requires g == PROVIDER_CHANGES && ValidStates(g, ps)
    requires ModeOk(g, 0, ps[0]) && ps[0].mode == ModeInstall && ps[0].candidateVer == Some(0)
    ensures !CandidateFits(g, ps, 1)
  {
    assert g.ValidDependency(0) && g.pkgs[2].providesList[0] == 0 && g.pkgs[0].revDepends == [];
    assert PrvHit(g, ps, 0, g.pkgs[2].providesList[0], InstallVersion);
    assert MetOnlyBy(g, ps, 0, 0);
    assert !Covered(g, 0, Some(1), 0);
  }
}
