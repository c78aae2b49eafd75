/**
  What the mark operations answer and leave behind, said of the package record and the package data
  alone: who refuses whom, and what a yes is worth.
*/
module DepVerdicts {
  import opened Wrappers
  import opened DepGraph
  import opened DepBytes
  import opened DepSpec
  import opened DepMarks

  // ---------- Keeping ----------

  /** The installed version, if any, can be fetched; for none it is what the null version says. */
  predicate CanFetchCurrent(g: Graph, p: nat)
    requires p < |g.pkgs|
  {
    var cur := g.pkgs[p].currentVer;
    if cur.Some? then cur.value < |g.vers| && g.vers[cur.value].downloadable else g.nullDownloadable
  }

  /** Keeping is refused beyond the depth limit, without versions, against protection, and for what is half unpacked. */
  lemma KeepExactly(g: Graph, ps: seq<PkgState>, p: nat, fromUser: bool, depth: nat)
    requires g.Valid() && |ps| == |g.pkgs| && p < |ps|
    ensures MayKeep(g, ps, p, fromUser, depth) <==>
      && depth <= 3000 && g.pkgs[p].versions != []
      && (fromUser || ps[p].mode == ModeKeep || !ps[p].protect)
      && (g.pkgs[p].okState == NeedsUnpack ==> CanFetchCurrent(g, p))
  {
    assert g.ValidPackage(p);
  }

  /** Whoever may be kept selects the installed version again; all that changes besides is mode and AutoKept flag. */
  lemma KeepDone(g: Graph, ps: seq<PkgState>, p: nat, soft: bool, fromUser: bool, depth: nat)
    requires g.Valid() && |ps| == |g.pkgs| && p < |ps| && ModeOk(g, p, ps[p])
    ensures var ps' := KeepEffect(g, ps, p, soft, fromUser, depth);
      && |ps'| == |ps| && (forall q :: 0 <= q < |ps| && q != p ==> ps'[q] == ps[q])
      && (MayKeep(g, ps, p, fromUser, depth) ==> ps'[p].mode == ModeKeep && ps'[p].installVer == g.pkgs[p].currentVer)
      && (!MayKeep(g, ps, p, fromUser, depth) || ps[p].mode == ModeKeep ==> ps' == ps)
      && (ps' != ps ==> ps'[p].autoKept == soft)
      && ps'[p].(mode := ps[p].mode, installVer := ps[p].installVer, autoKept := ps[p].autoKept) == ps[p]
  {
  }

  // ---------- Installing ----------

  /** The one case in which a protected package is looked at again: to protect its dependencies, too. */
  predicate ProtectedCurrent(g: Graph, p: nat, st: PkgState)
    requires p < |g.pkgs|
  {
    st.protect && st.mode == ModeKeep && st.candidateVer.Some? && st.candidateVer == g.pkgs[p].currentVer
  }

  /** Protection and holds stand against whoever is not the user. */
  predicate Withheld(g: Graph, p: nat, st: PkgState)
    requires p < |g.pkgs|
  {
    st.protect || (g.pkgs[p].hold && !g.config.ignoreHold)
  }

  /** Without the user's word nobody installs a protected or held package; nothing changes then. */
  lemma InstallRefused(g: Graph, ps: seq<PkgState>, p: nat, marked: bool, depth: nat)
    requires ValidStates(g, ps) && p < |ps| && ps[p].mode != ModeInstall
    requires Withheld(g, p, ps[p]) && !ProtectedCurrent(g, p, ps[p])
    ensures !InstallAnswer(g, ps, p, depth, false) && InstallEffect(g, ps, p, marked, depth, false) == ps
  {
  }

  /** An installed sibling q on another architecture is to have another version of the same name. */
  predicate Diverges(g: Graph, p: nat, v: nat, q: nat, w: Option<nat>)
    requires p < |g.pkgs| && q < |g.pkgs| && v < |g.vers|
  {
    && q != p && g.pkgs[q].group == g.pkgs[p].group && g.pkgs[q].currentVer.Some?
    && w.Some? && w.value < |g.vers| && g.vers[w.value].text != g.vers[v].text
    && g.vers[w.value].multiArchSame && g.vers[w.value].downloadable
  }

  /** Installing the candidate would tear Multi-Arch: same siblings apart. */
  ghost predicate TearsApart(g: Graph, ps: seq<PkgState>, p: nat)
    requires |ps| == |g.pkgs| && p < |ps|
  {
    && ps[p].candidateVer.Some? && ps[p].candidateVer.value < |g.vers|
    && ps[p].candidateVer != g.pkgs[p].currentVer && g.vers[ps[p].candidateVer.value].multiArchSame
    && exists q :: 0 <= q < |ps| && Diverges(g, p, ps[p].candidateVer.value, q, ps[q].candidateVer)
  }

  lemma SyncInTerms(g: Graph, ps: seq<PkgState>, p: nat, fromUser: bool)
    requires ValidStates(g, ps) && p < |ps| && ModeOk(g, p, ps[p]) && ps[p].candidateVer.Some?
    ensures InSync(g, ps, p, fromUser) <==> fromUser || ps[p].mode == ModeInstall || !TearsApart(g, ps, p)
  {
    assert g.OwnVersion(p, ps[p].candidateVer);
    var v := ps[p].candidateVer.value;
    forall q | 0 <= q < |ps| ensures OutOfSync(g, ps, p, v, q) <==> Diverges(g, p, v, q, ps[q].candidateVer) {
      assert g.OwnVersion(q, ps[q].candidateVer);
    }
    hide Diverges, OutOfSync;
  }

  /** There is nothing to do, or just to give up the removal: the package is neither broken nor protected. */
  predicate NothingToInstall(g: Graph, p: nat, st: PkgState)
    requires p < |g.pkgs|
  {
    && !st.protect && st.depState.instMin && st.depState.instPolicy
    && (st.candidateVer == g.pkgs[p].currentVer || st.mode == ModeInstall)
  }

  /** The answer of an installation, exactly. */
  lemma InstallExactly(g: Graph, ps: seq<PkgState>, p: nat, depth: nat, fromUser: bool)
    requires ValidStates(g, ps) && p < |ps| && ModeOk(g, p, ps[p])
    ensures InstallAnswer(g, ps, p, depth, fromUser) <==>
      && ps[p].candidateVer.Some?
      && (ProtectedCurrent(g, p, ps[p])
          || (depth <= 3000 && (fromUser || ps[p].mode == ModeInstall || !Withheld(g, p, ps[p]))))
      && (if NothingToInstall(g, p, ps[p]) then
            ps[p].installVer.Some? || (depth < 3000 && (g.pkgs[p].okState == NeedsUnpack ==> CanFetchCurrent(g, p)))
          else fromUser || ps[p].mode == ModeInstall || !TearsApart(g, ps, p))
  {
    assert g.OwnVersion(p, ps[p].candidateVer);
    if ps[p].candidateVer.Some? {
      assert g.ValidVersion(ps[p].candidateVer.value);
      SyncInTerms(g, ps, p, fromUser);
    }
    KeepExactly(g, ps, p, fromUser, depth + 1);
    hide InSync, TearsApart, MayKeep, CanFetchCurrent, g.Valid, ValidStates;
  }

  /** A yes means that the candidate is selected afterwards; no other package has changed. */
  lemma InstallDone(g: Graph, ps: seq<PkgState>, p: nat, marked: bool, depth: nat, fromUser: bool)
    requires ValidStates(g, ps) && p < |ps| && ModeOk(g, p, ps[p]) && InstallAnswer(g, ps, p, depth, fromUser)
    ensures var ps', cand := InstallEffect(g, ps, p, marked, depth, fromUser), ps[p].candidateVer;
      && |ps'| == |ps| && (forall q :: 0 <= q < |ps| && q != p ==> ps'[q] == ps[q])
      && cand.Some? && ps'[p].installVer == ps'[p].candidateVer == cand
      && ps'[p].mode == (if cand == g.pkgs[p].currentVer then ModeKeep else ModeInstall)
      && ps'[p] == ps[p].(installVer := cand, mode := ps'[p].mode, auto := ps'[p].auto, autoKept := ps'[p].autoKept)
      && (ps' == ps || !ps'[p].autoKept)
  {
    VerdictFacts(g, ps, p, depth, fromUser);
    InstallSplit(g, ps, p, marked, depth, fromUser);
    KeepDone(g, ps, p, false, fromUser, depth + 1);
    hide MayKeep, KeepEffect, InstallVerdict, InstallEffect, InstallAnswer, ModeOk, ValidStates, g.Valid;
  }

  /** What each verdict that ends in a yes is based on. */
  lemma VerdictFacts(g: Graph, ps: seq<PkgState>, p: nat, depth: nat, fromUser: bool)
    requires ValidStates(g, ps) && p < |ps| && ModeOk(g, p, ps[p])
    ensures var st, cur, verdict := ps[p], g.pkgs[p].currentVer, InstallVerdict(g, ps, p, depth, fromUser);
      && (verdict == Fine ==> st.candidateVer.Some? && st.installVer == st.candidateVer)
      && (verdict == Fine ==> st.mode == if st.candidateVer == cur then ModeKeep else ModeInstall)
      && (verdict == KeepIt ==> st.candidateVer.Some? && st.candidateVer == cur)
      && (verdict == Proceed ==> st.candidateVer.Some?)
      && (st.installVer == st.candidateVer && st.candidateVer.Some? ==>
            st.mode == if st.candidateVer == cur then ModeKeep else ModeInstall)
  {
    hide InSync, g.Valid, ValidStates;
  }

  /** A no leaves everything as it is; the package is flagged if it is for the sake of its siblings. */
  lemma InstallUndone(g: Graph, ps: seq<PkgState>, p: nat, marked: bool, depth: nat, fromUser: bool)
    requires ValidStates(g, ps) && p < |ps| && ModeOk(g, p, ps[p]) && !InstallAnswer(g, ps, p, depth, fromUser)
    ensures var ps' := InstallEffect(g, ps, p, marked, depth, fromUser);
      ps' == ps || (ps' == ps[p := ps[p].(autoKept := true)] && !fromUser && TearsApart(g, ps, p))
  {
    KeepDone(g, ps, p, false, fromUser, depth + 1);
    if ps[p].candidateVer.Some? { SyncInTerms(g, ps, p, fromUser); }
    hide MayKeep, InSync, KeepEffect, TearsApart, g.Valid;
  }

  /**
    Who is automatically installed afterwards. A new installation is manual if the user asked for it, unless
    all are to be marked as automatic; an installed package becomes manual if the user asked for it and
    the last mark-and-sweep, or the automatic installation of dependencies, says so.
  */
  lemma InstallAuto(g: Graph, ps: seq<PkgState>, p: nat, marked: bool, autoInst: bool, fromUser: bool)
    requires |ps| == |g.pkgs| && p < |ps| && ModeOk(g, p, ps[p])
    requires ps[p].candidateVer.Some? && ps[p].candidateVer != g.pkgs[p].currentVer
    requires !ps[p].protect || ps[p].installVer != ps[p].candidateVer
    ensures var manual, auto := fromUser && !g.config.markAuto,
                                StateChangeEffect(g, ps, p, marked, autoInst, fromUser)[p].auto;
      if g.pkgs[p].currentVer.None? then auto == !manual
      else auto == (ps[p].auto && !(manual && (autoInst || !marked)))
  {
  }

  // ---------- Removing ----------

  /** A request of the user to install the package, which nobody else may take back. */
  predicate ManualRequest(g: Graph, p: nat, st: PkgState)
    requires p < |g.pkgs|
  {
    g.pkgs[p].currentVer.None? && st.installVer.Some? && !st.auto
  }

  predicate Kernel(g: Graph, p: nat)
    requires p < |g.pkgs|
  {
    (g.pkgs[p].essential || g.pkgs[p].important) && !g.config.allowRemoveEssential
  }

  /** Nothing is selected and nothing has to be purged. */
  predicate GoneAlready(g: Graph, p: nat, st: PkgState, purge: bool)
    requires p < |g.pkgs|
  {
    st.installVer.None? && (g.pkgs[p].purged || !purge)
  }

  /** When a removal is answered with no. */
  lemma DeleteExactly(g: Graph, ps: seq<PkgState>, p: nat, purge: bool, depth: nat, fromUser: bool)
    requires g.Valid() && |ps| == |g.pkgs| && p < |ps| && ModeOk(g, p, ps[p])
    requires g.OwnVersion(p, ps[p].installVer)
    ensures (MayDelete(g, ps, p, purge, depth, fromUser) || DeletedAlready(g, ps, p, purge, depth, fromUser)) <==>
      && depth <= 3000 && g.pkgs[p].versions != []
      && (fromUser || ps[p].mode == ModeDelete || !(Withheld(g, p, ps[p]) || Kernel(g, p)))
      && (fromUser || GoneAlready(g, p, ps[p], purge) || !ManualRequest(g, p, ps[p]))
    ensures DeletedAlready(g, ps, p, purge, depth, fromUser) ==> GoneAlready(g, p, ps[p], purge)
    ensures MayDelete(g, ps, p, purge, depth, fromUser) ==> !GoneAlready(g, p, ps[p], purge)
  {
  }

  /** Protected, held and essential packages, and what the user asked for, are not removed behind the user's back. */
  lemma DeleteRefused(g: Graph, ps: seq<PkgState>, p: nat, purge: bool, depth: nat)
    requires ValidStates(g, ps) && p < |ps| && ModeOk(g, p, ps[p]) && ps[p].mode != ModeDelete
    requires Withheld(g, p, ps[p]) || Kernel(g, p) || (ManualRequest(g, p, ps[p]) && ps[p].installVer.Some?)
    ensures !MayDelete(g, ps, p, purge, depth, false) && !DeletedAlready(g, ps, p, purge, depth, false)
    ensures DeleteEffect(g, ps, p, purge, depth, false) == ps
  {
  }

  /** Entry i of version v's list is one the policy would install, and not made up for another architecture. */
  ghost predicate IsPartOf(g: Graph, v: nat, i: nat)
    requires g.Valid() && v < |g.vers|
  {
    assert g.ValidVersion(v);
    && i < |g.vers[v].depends| && !g.deps[g.vers[v].depends[i]].multiArchImplicit
    && match g.deps[g.vers[v].depends[i]].kind
       case Depends => true
       case PreDepends => true
       case Recommends => g.config.installRecommends || g.vers[v].recommendsSection
       case Suggests => g.config.installSuggests
       case _ => false
  }

  ghost predicate InstalledTarget(g: Graph, v: nat, i: nat, q: nat)
    requires g.Valid() && v < |g.vers|
  {
    assert g.ValidVersion(v);
    && i < |g.vers[v].depends|
    && exists w :: w in g.deps[g.vers[v].depends[i]].installedTargets && w < |g.vers| && g.vers[w].parentPkg == q
  }

  /** Package q is part of version v and installed. */
  ghost predicate Part(g: Graph, v: nat, q: nat, n: nat)
    requires g.Valid() && v < |g.vers|
  {
    exists i :: 0 <= i < n && IsPartOf(g, v, i) && InstalledTarget(g, v, i, q)
  }

  lemma {:induction false} ManualInTerms(g: Graph, v: nat, n: nat, q: nat)
    requires g.Valid() && v < |g.vers| && n <= |g.vers[v].depends|
    ensures q in ManualBelow(g, v, n) <==> Part(g, v, q, n)
  {
    hide *;
    if n > 0 {
      ManualInTerms(g, v, n - 1, q);
      OnePartManual(g, v, n - 1, q);
      OneMorePart(g, v, n - 1, q);
    } else {
      NoParts(g, v, q);
    }
  }

  lemma NoParts(g: Graph, v: nat, q: nat)
    requires g.Valid() && v < |g.vers|
    ensures q !in ManualBelow(g, v, 0) && !Part(g, v, q, 0)
  {
  }

  lemma OneMorePart(g: Graph, v: nat, i: nat, q: nat)
    requires g.Valid() && v < |g.vers| && i < |g.vers[v].depends|
    ensures Part(g, v, q, i + 1) <==> Part(g, v, q, i) || (IsPartOf(g, v, i) && InstalledTarget(g, v, i, q))
    ensures q in ManualBelow(g, v, i + 1) <==> q in ManualBelow(g, v, i) || q in ParentsOf(g, ManualTargets(g, v, i))
  {
    hide IsPartOf, InstalledTarget, ParentsOf, ManualTargets;
  }

  lemma OnePartManual(g: Graph, v: nat, i: nat, q: nat)
    requires g.Valid() && v < |g.vers| && i < |g.vers[v].depends|
    ensures q in ParentsOf(g, ManualTargets(g, v, i)) <==> IsPartOf(g, v, i) && InstalledTarget(g, v, i, q)
  {
    assert g.ValidVersion(v) && g.ValidDependency(g.vers[v].depends[i]);
    var l := g.deps[g.vers[v].depends[i]].installedTargets;
    assert IsPartOf(g, v, i) ==> ManualTargets(g, v, i) == l;
    assert !IsPartOf(g, v, i) ==> ManualTargets(g, v, i) == [];
    hide ManualTargets, IsPartOf, g.Valid;
    InParents(g, l, q);
    InParents(g, [], q);
  }

  lemma InParents(g: Graph, l: seq<nat>, q: nat)
    ensures q in ParentsOf(g, l) <==> exists w :: w in l && w < |g.vers| && g.vers[w].parentPkg == q
  {
    if q in ParentsOf(g, l) {
      var i :| 0 <= i < |l| && l[i] < |g.vers| && g.vers[l[i]].parentPkg == q;
      assert l[i] in l;
    }
    forall w | w in l && w < |g.vers| && g.vers[w].parentPkg == q ensures q in ParentsOf(g, l) {
      var i :| 0 <= i < |l| && l[i] == w;
    }
  }

  /**
    What a removal leaves: nothing is selected, the flags are set, and if the package was a metapackage
    nobody asked to remove its installed parts are manual from now on. All else stays.
  */
  lemma DeleteDone(g: Graph, ps: seq<PkgState>, p: nat, purge: bool, depth: nat, fromUser: bool, q: nat)
    requires ValidStates(g, ps) && p < |ps| && MayDelete(g, ps, p, purge, depth, fromUser) && q < |ps|
    ensures var ps', v := DeleteEffect(g, ps, p, purge, depth, fromUser), ps[p].installVer;
      && |ps'| == |ps| && ps'[p].installVer.None? && ps'[p].purge == purge && !ps'[p].autoKept
      && (ps'[p].mode == ModeKeep <==> g.pkgs[p].currentVer.None? && (g.pkgs[p].purged || !purge))
      && (ps'[p].mode == ModeKeep || ps'[p].mode == ModeDelete)
      && (q != p ==> ps'[q] == ps[q].(auto := ps'[q].auto))
      && ps'[q].auto == (ps[q].auto && !(!fromUser && v.Some? && v.value < |g.vers| &&
           g.vers[v.value].neverMarkAutoSection && Part(g, v.value, q, |g.vers[v.value].depends|)))
  {
    ManualFacts(g, ps, p, fromUser);
    if ps[p].installVer.Some? {
      ManualInTerms(g, ps[p].installVer.value, |g.vers[ps[p].installVer.value].depends|, q);
    }
    hide MayDelete, ManualBelow, Part, ManualSet, g.Valid;
  }

  // ---------- Reinstalling and starting ----------

  /** The package itself is flagged, and with an installed Multi-Arch: same one all its installed siblings; no other. */
  lemma ReInstallInTerms(g: Graph, ps: seq<PkgState>, p: nat, to: bool, q: nat)
    requires g.Valid() && |ps| == |g.pkgs| && p < |ps| && q < |ps|
    ensures var cur := g.pkgs[p].currentVer;
      var together := cur.Some? && cur.value < |g.vers| && g.vers[cur.value].multiArchSame
        && g.pkgs[q].group == g.pkgs[p].group && g.pkgs[q].currentVer.Some?;
      ReInstalled(g, ps, p, to, |g.pkgs|)[q] == if q == p || together then ps[q].(reInstall := to) else ps[q]
  {
    assert g.ValidPackage(p);
  }

  /** A fresh record keeps what is installed, asks for nothing, and is automatic iff the state file says so. */
  lemma InitialInTerms(g: Graph, candidates: seq<Option<nat>>, auto: set<nat>, p: nat)
    requires ValidCandidates(g, candidates) && p < |g.pkgs|
    ensures var st := WithAutoFlags(g, InitialRecords(g, candidates), auto, |g.pkgs|)[p];
      && st.installVer == g.pkgs[p].currentVer && st.candidateVer == candidates[p] && st.mode == ModeKeep
      && !st.autoKept && !st.purge && !st.reInstall && !st.protect && ModeOk(g, p, st)
      && (st.auto <==> p in auto && g.pkgs[p].versions != [])
  {
    assert g.OwnVersion(p, candidates[p]);
    StatusOfFits(g, p, InitialRecord(g, p, candidates[p]));
    hide StatusOf, StatusFits;
  }
}
