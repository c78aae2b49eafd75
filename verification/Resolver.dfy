/**
  The two problem resolvers on top of the dependency cache. ResolveByKeep is modelled in full;
  of Resolve the round that reinstalls broken packages and the final verdict, with an arbitrary
  run of mark operations in between.
*/
module Resolver {
  import opened Wrappers
  import opened DepGraph
  import opened DepBytes
  import opened DepSpec
  import opened DepLemmas
  import opened DepMarks
  import opened DepMeaning
  import opened DepTerms
  import opened DepVerdicts
  import opened AutoremoveWalk
  import opened Autoremove
  import opened DependencyCache
  import opened DepRun

  // ---------- What keeping packages does ----------

  function KeepFlags(ps: seq<PkgState>): (m: seq<bool>)
    ensures |m| == |ps| && forall p :: 0 <= p < |ps| ==> m[p] == ps[p].Keep()
  {
    seq(|ps|, p requires 0 <= p < |ps| => ps[p].Keep())
  }

  /** The number of packages that are not simply kept. */
  function NotKept(ps: seq<PkgState>): nat { Unmarked(KeepFlags(ps)) }

  /** Package p is as before, or was not protected and is kept now. */
  predicate MaybeKept(g: Graph, p: nat, st: PkgState, st': PkgState)
    requires p < |g.pkgs|
  {
    || st' == st.(depState := st'.depState)
    || (!st.protect && st' == KeepRecord(g, p, st, false).(depState := st'.depState))
  }

  /** Some packages were kept, and if anything changed at all there are fewer left to keep. */
  ghost predicate SomeKept(g: Graph, ps: seq<PkgState>, ps': seq<PkgState>) {
    && |ps| == |ps'| == |g.pkgs|
    && (forall p :: 0 <= p < |ps| ==> MaybeKept(g, p, ps[p], ps'[p]))
    && (ps' == ps || NotKept(ps') < NotKept(ps))
  }

  lemma NothingKept(g: Graph, ps: seq<PkgState>)
    requires |ps| == |g.pkgs|
    ensures SomeKept(g, ps, ps)
  {
  }

  lemma KeptOnAndOn(g: Graph, ps: seq<PkgState>, ps': seq<PkgState>, ps'': seq<PkgState>)
    requires SomeKept(g, ps, ps') && SomeKept(g, ps', ps'')
    ensures SomeKept(g, ps, ps'')
  {
    forall p | 0 <= p < |ps| ensures MaybeKept(g, p, ps[p], ps''[p]) {
      assert MaybeKept(g, p, ps[p], ps'[p]) && MaybeKept(g, p, ps'[p], ps''[p]);
    }
  }

  lemma OneKept(g: Graph, ps: seq<PkgState>, ps': seq<PkgState>, p: nat)
    requires ValidStates(g, ps) && p < |ps| && !ps[p].protect && ps[p].mode != ModeKeep
    requires OnlySummaries(ps[p := KeepRecord(g, p, ps[p], false)], ps')
    ensures SomeKept(g, ps, ps')
  {
    var next := ps[p := KeepRecord(g, p, ps[p], false)];
    forall q | 0 <= q < |ps| ensures MaybeKept(g, q, ps[q], ps'[q]) && (ps[q].Keep() ==> ps'[q].Keep()) {
      assert ps'[q] == next[q].(depState := ps'[q].depState);
    }
    assert ps'[p] == next[p].(depState := ps'[p].depState);
    assert !KeepFlags(ps)[p] && KeepFlags(ps')[p];
    UnmarkedGrown(KeepFlags(ps), KeepFlags(ps'));
  }

  lemma KeepStep(g: Graph, ps: seq<PkgState>, ps': seq<PkgState>, p: nat)
    requires ValidStates(g, ps) && p < |ps| && !ps[p].protect
    requires OnlySummaries(KeepEffect(g, ps, p, false, false, 0), ps')
    requires !MayKeep(g, ps, p, false, 0) || ps[p].mode == ModeKeep ==> ps' == ps
    ensures SomeKept(g, ps, ps')
  {
    if MayKeep(g, ps, p, false, 0) && ps[p].mode != ModeKeep {
      OneKept(g, ps, ps', p);
    }
  }

  /** A broken package has a version that is to be installed. */
  lemma BrokenIsSelected(g: Graph, s: CacheState, p: nat)
    requires Consistent(g, s) && p < |s.ps|
    ensures s.ps[p].InstBroken() || s.ps[p].InstPolicyBroken() ==> s.ps[p].installVer.Some?
    ensures s.ps[p].installVer.Some? ==> s.ps[p].installVer.value < |g.vers|
  {
    assert SummaryOk(g, s.ps, s.ds, p) && g.OwnVersion(p, s.ps[p].installVer);
  }

  lemma ConsistentIsShaped(g: Graph, s: CacheState)
    requires Consistent(g, s)
    ensures ValidStates(g, s.ps) && |s.ps| == |g.pkgs|
  {
  }

  predicate BrokenOrNewPolicy(st: PkgState, allowed: bool) {
    st.InstBroken() || (!allowed && !st.NowPolicyBroken() && st.InstPolicyBroken())
  }

  /** Members start..end of version v's list, and what could satisfy them. */
  function TargetsOf(g: Graph, v: nat, i: nat): (l: seq<nat>)
    requires g.Valid() && v < |g.vers| && i < |g.vers[v].depends|
    ensures forall k :: 0 <= k < |l| ==> l[k] < |g.vers|
  {
    assert g.ValidVersion(v) && g.ValidDependency(g.vers[v].depends[i]);
    g.deps[g.vers[v].depends[i]].allTargets
  }

  /** A package can only stop being broken when something changed. */
  lemma RepairCounts(g: Graph, ps: seq<PkgState>, ps': seq<PkgState>, p: nat, allowed: bool)
    requires SomeKept(g, ps, ps') && p < |ps|
    requires BrokenOrNewPolicy(ps[p], allowed) && !BrokenOrNewPolicy(ps'[p], allowed)
    ensures NotKept(ps') < NotKept(ps)
  {
    hide NotKept;
  }

  lemma KeptRecords(g: Graph, ps: seq<PkgState>, ps': seq<PkgState>)
    requires SomeKept(g, ps, ps')
    ensures |ps| == |ps'| == |g.pkgs| && forall p :: 0 <= p < |ps| ==> MaybeKept(g, p, ps[p], ps'[p])
    ensures NotKept(ps') <= NotKept(ps)
  {
    hide NotKept;
  }

  // ---------- When nothing is left to keep ----------

  /** An or-group that has to hold does not, or a policy wish that is met now and may not be given up is. */
  ghost predicate Troubled(g: Graph, ps: seq<PkgState>, p: nat, allowed: bool)
    requires g.Valid() && |ps| == |g.pkgs| && p < |ps|
  {
    || IsBroken(g, Selection(ps), p)
    || (!allowed && IsNeglected(g, Selection(ps), p) && !IsNeglected(g, Installed(g), p))
  }

  lemma TroubleInTerms(g: Graph, s: CacheState, p: nat, allowed: bool)
    requires Consistent(g, s) && p < |s.ps|
    ensures g.Valid() && |s.ps| == |g.pkgs|
    ensures BrokenOrNewPolicy(s.ps[p], allowed) <==> Troubled(g, s.ps, p, allowed)
  {
    ConsistentIsShaped(g, s);
    BrokenInTerms(g, s, p);
    hide IsBroken, IsNeglected, Consistent;
  }

  /** Package p is kept, or cannot be. */
  predicate Stuck(g: Graph, p: nat, st: PkgState)
    requires p < |g.pkgs|
  {
    || st.protect || st.mode == ModeKeep || g.pkgs[p].versions == []
    || (g.pkgs[p].okState == NeedsUnpack && !CanFetchCurrent(g, p))
  }

  lemma StuckStays(g: Graph, ps: seq<PkgState>, ps': seq<PkgState>, q: nat)
    requires SomeKept(g, ps, ps') && q < |ps| && Stuck(g, q, ps[q])
    ensures Stuck(g, q, ps'[q])
  {
    assert MaybeKept(g, q, ps[q], ps'[q]);
    hide NotKept;
  }

  /** Trying to keep a package leaves it kept or unkeepable. */
  lemma TriedIsStuck(g: Graph, ps: seq<PkgState>, ps': seq<PkgState>, p: nat)
    requires ValidStates(g, ps) && p < |ps| && ModeOk(g, p, ps[p])
    requires OnlySummaries(KeepEffect(g, ps, p, false, false, 0), ps')
    ensures |ps'| == |ps| == |g.pkgs| && Stuck(g, p, ps'[p])
  {
    KeepExactly(g, ps, p, false, 0);
    KeepDone(g, ps, p, false, false, 0);
    var next := KeepEffect(g, ps, p, false, false, 0);
    assert ps'[p] == next[p].(depState := ps'[p].depState);
    hide KeepEffect, MayKeep, g.Valid, ModeOk;
  }

  /** Whatever the first n of these versions belong to is stuck, unless it is not installed. */
  ghost predicate TargetsStuck(g: Graph, ps: seq<PkgState>, targets: seq<nat>, n: nat)
    requires g.Valid() && |ps| == |g.pkgs| && n <= |targets|
  {
    forall k :: 0 <= k < n && targets[k] < |g.vers| && g.pkgs[ParentOf(g, targets[k])].currentVer.Some? ==>
      Stuck(g, ParentOf(g, targets[k]), ps[ParentOf(g, targets[k])])
  }

  lemma TargetsStayStuck(g: Graph, ps: seq<PkgState>, ps': seq<PkgState>, targets: seq<nat>, n: nat)
    requires g.Valid() && SomeKept(g, ps, ps') && |ps| == |g.pkgs| && n <= |targets| && TargetsStuck(g, ps, targets, n)
    ensures |ps'| == |g.pkgs| && TargetsStuck(g, ps', targets, n)
  {
    hide Stuck, NotKept;
    assert |ps'| == |g.pkgs|;
    forall k | 0 <= k < n && targets[k] < |g.vers| && g.pkgs[ParentOf(g, targets[k])].currentVer.Some?
      ensures Stuck(g, ParentOf(g, targets[k]), ps'[ParentOf(g, targets[k])])
    {
      StuckStays(g, ps, ps', ParentOf(g, targets[k]));
    }
  }

  lemma MoreTargetsStuck(g: Graph, ps: seq<PkgState>, targets: seq<nat>, n: nat)
    requires g.Valid() && |ps| == |g.pkgs| && n < |targets| && TargetsStuck(g, ps, targets, n)
    requires targets[n] < |g.vers| && var q := ParentOf(g, targets[n]); g.pkgs[q].currentVer.Some? ==>
      Stuck(g, q, ps[q])
    ensures TargetsStuck(g, ps, targets, n + 1)
  {
    hide Stuck;
  }

  /** What entries a to n - 1 of version v's list could be satisfied by is stuck. */
  ghost predicate EntriesStuck(g: Graph, ps: seq<PkgState>, v: nat, a: nat, n: nat)
    requires g.Valid() && |ps| == |g.pkgs| && v < |g.vers|
  {
    assert g.ValidVersion(v);
    forall i: nat :: a <= i < n && i < |g.vers[v].depends| ==>
      var l := g.deps[g.vers[v].depends[i]].allTargets; TargetsStuck(g, ps, l, |l|)
  }

  lemma EntriesStayStuck(g: Graph, ps: seq<PkgState>, ps': seq<PkgState>, v: nat, a: nat, n: nat)
    requires g.Valid() && SomeKept(g, ps, ps') && |ps| == |g.pkgs| && v < |g.vers| && EntriesStuck(g, ps, v, a, n)
    ensures |ps'| == |g.pkgs| && EntriesStuck(g, ps', v, a, n)
  {
    assert g.ValidVersion(v) && |ps'| == |g.pkgs|;
    hide TargetsStuck, NotKept;
    forall i: nat | a <= i < n && i < |g.vers[v].depends|
      ensures var l := g.deps[g.vers[v].depends[i]].allTargets; TargetsStuck(g, ps', l, |l|)
    {
      var l := g.deps[g.vers[v].depends[i]].allTargets;
      TargetsStayStuck(g, ps, ps', l, |l|);
    }
  }

  /** No member of the or-group is there, or one is although it ends in a conflict. */
  ghost predicate Unanswered(g: Graph, sel: seq<Option<nat>>, v: nat, a: nat, b: nat)
    requires g.Valid() && |sel| == |g.pkgs| && v < |g.vers| && OrGroup(g, v, a, b)
  {
    assert g.ValidVersion(v);
    (KindAt(g, v, b) in {Conflicts, Breaks, Obsoletes}) ==
      exists k: nat :: a <= k <= b && Has(g, sel, g.vers[v].depends[k])
  }

  /** The or-group is none that has to hold by its last member, or in order, or there is nothing left to keep for it. */
  ghost predicate GroupDealtWith(g: Graph, ps: seq<PkgState>, v: nat, a: nat, b: nat)
    requires g.Valid() && |ps| == |g.pkgs| && v < |g.vers| && OrGroup(g, v, a, b)
  {
    MustHold(g, v, b) && Unanswered(g, Selection(ps), v, a, b) ==> EntriesStuck(g, ps, v, a, b + 1)
  }

  /** Neither package p nor anything its failing requirements name can be kept any more. */
  ghost predicate NothingLeft(g: Graph, ps: seq<PkgState>, p: nat)
    requires g.Valid() && |ps| == |g.pkgs| && p < |ps|
  {
    && Stuck(g, p, ps[p])
    && (ps[p].installVer.Some? && ps[p].installVer.value < |g.vers| ==>
          AllDealtWith(g, ps, ps[p].installVer.value, |g.vers[ps[p].installVer.value].depends|))
  }

  /** The or-groups among the first n entries have been dealt with. */
  ghost predicate AllDealtWith(g: Graph, ps: seq<PkgState>, v: nat, n: nat)
    requires g.Valid() && |ps| == |g.pkgs| && v < |g.vers|
  {
    forall a: nat, b: nat :: OrGroup(g, v, a, b) && b < n ==> GroupDealtWith(g, ps, v, a, b)
  }

  lemma ProtectedIsStuck(g: Graph, p: nat, st: PkgState)
    requires p < |g.pkgs| && st.protect
    ensures Stuck(g, p, st)
  {
  }

  lemma NoTargets(g: Graph, ps: seq<PkgState>, targets: seq<nat>)
    requires g.Valid() && |ps| == |g.pkgs|
    ensures TargetsStuck(g, ps, targets, 0)
  {
  }

  lemma NoEntriesStuck(g: Graph, ps: seq<PkgState>, v: nat, a: nat)
    requires g.Valid() && |ps| == |g.pkgs| && v < |g.vers|
    ensures EntriesStuck(g, ps, v, a, a)
  {
  }

  lemma MoreEntriesStuck(g: Graph, ps: seq<PkgState>, v: nat, a: nat, i: nat)
    requires g.Valid() && |ps| == |g.pkgs| && v < |g.vers| && a <= i < |g.vers[v].depends|
    requires EntriesStuck(g, ps, v, a, i) && TargetsStuck(g, ps, TargetsOf(g, v, i), |TargetsOf(g, v, i)|)
    ensures EntriesStuck(g, ps, v, a, i + 1)
  {
    hide TargetsStuck;
  }

  /** What the tests of the group's end look at. */
  lemma GroupFacts(g: Graph, s: CacheState, v: nat, a: nat, b: nat)
    requires Consistent(g, s) && v < |g.vers| && g.Valid() && OrGroup(g, v, a, b)
    ensures a <= b < |g.vers[v].depends| && g.vers[v].depends[b] < |g.deps| == |s.ds| && |s.ps| == |g.pkgs|
    ensures g.IsCritical(g.vers[v].depends[b]) <==> MustHold(g, v, b)
    ensures s.ds[g.vers[v].depends[b]].group.install <==> !Unanswered(g, Selection(s.ps), v, a, b)
  {
    GroupBitInTerms(g, s, v, a, b);
    StartInTerms(g, v, b);
    hide Consistent, Has;
  }

  lemma StuckIsDealtWith(g: Graph, ps: seq<PkgState>, v: nat, a: nat, b: nat)
    requires g.Valid() && |ps| == |g.pkgs| && v < |g.vers| && OrGroup(g, v, a, b)
    ensures EntriesStuck(g, ps, v, a, b + 1) || !MustHold(g, v, b) || !Unanswered(g, Selection(ps), v, a, b) ==>
      GroupDealtWith(g, ps, v, a, b)
  {
  }

  lemma NoneDealtWith(g: Graph, ps: seq<PkgState>, v: nat)
    requires g.Valid() && |ps| == |g.pkgs| && v < |g.vers|
    ensures AllDealtWith(g, ps, v, 0)
  {
  }

  lemma OneMoreDealtWith(g: Graph, ps: seq<PkgState>, v: nat, a: nat, b: nat)
    requires g.Valid() && |ps| == |g.pkgs| && v < |g.vers| && OrGroup(g, v, a, b)
    requires AllDealtWith(g, ps, v, a) && GroupDealtWith(g, ps, v, a, b)
    ensures AllDealtWith(g, ps, v, b + 1)
  {
    assert g.ValidVersion(v);
    hide GroupDealtWith;
    forall x: nat, y: nat | OrGroup(g, v, x, y) && y < b + 1 ensures GroupDealtWith(g, ps, v, x, y) {
      OrGroupIs(g, v, x, y);
      OrGroupIs(g, v, a, b);
      if a <= y < b { assert false; }
    }
  }

  lemma NotSelectedIsFine(st: PkgState, allowed: bool)
    requires !st.InstBroken() && !st.InstPolicyBroken()
    ensures !BrokenOrNewPolicy(st, allowed)
  {
  }

  /** A turn that changed nothing found nothing to keep. */
  lemma TurnInVain(g: Graph, ps0: seq<PkgState>, ps1: seq<PkgState>, ps2: seq<PkgState>, p: nat)
    requires g.Valid() && |ps0| == |ps1| == |g.pkgs| && p < |ps0| && SomeKept(g, ps0, ps1) && SomeKept(g, ps1, ps2)
    requires Stuck(g, p, ps1[p]) && ps1[p].installVer.Some? && ps1[p].installVer.value < |g.vers|
    requires ps2 == ps0 ==>
      AllDealtWith(g, ps0, ps1[p].installVer.value, |g.vers[ps1[p].installVer.value].depends|)
    ensures |ps2| == |ps0| && Stuck(g, p, ps2[p]) && (ps2 == ps0 ==> NothingLeft(g, ps0, p))
  {
    StuckStays(g, ps1, ps2, p);
    if ps2 == ps0 { NothingBetween(g, ps0, ps1, ps2); }
    hide AllDealtWith, Stuck, NotKept;
  }

  /** For the first n listed packages nothing is left to be done. */
  ghost predicate ListDealtWith(g: Graph, ps: seq<PkgState>, plist: seq<nat>, n: nat, allowed: set<nat>)
    requires g.Valid() && |ps| == |g.pkgs| && n <= |plist|
  {
    forall k :: 0 <= k < n && plist[k] < |ps| && Troubled(g, ps, plist[k], plist[k] in allowed) ==>
      NothingLeft(g, ps, plist[k])
  }

  lemma NothingListed(g: Graph, ps: seq<PkgState>, plist: seq<nat>, allowed: set<nat>)
    requires g.Valid() && |ps| == |g.pkgs|
    ensures ListDealtWith(g, ps, plist, 0, allowed)
  {
  }

  lemma OneMoreListed(g: Graph, ps: seq<PkgState>, plist: seq<nat>, n: nat, allowed: set<nat>)
    requires g.Valid() && |ps| == |g.pkgs| && n < |plist| && plist[n] < |ps| && ListDealtWith(g, ps, plist, n, allowed)
    requires Troubled(g, ps, plist[n], plist[n] in allowed) ==> NothingLeft(g, ps, plist[n])
    ensures ListDealtWith(g, ps, plist, n + 1, allowed)
  {
    hide Troubled, NothingLeft;
  }

  /** The next round begins with what the last one left. */
  lemma KeptSince(g: Graph, ps: seq<PkgState>, settled: seq<PkgState>, ps': seq<PkgState>)
    returns (next: seq<PkgState>)
    requires SomeKept(g, ps, settled) && SomeKept(g, settled, ps')
    ensures next == ps' && SomeKept(g, ps, next) && SomeKept(g, next, ps')
  {
    next := ps';
    KeptOnAndOn(g, ps, settled, ps');
    NothingKept(g, ps');
  }

  /** If nothing is different in the end, nothing was in between. */
  lemma NothingBetween(g: Graph, ps: seq<PkgState>, ps': seq<PkgState>, ps'': seq<PkgState>)
    requires SomeKept(g, ps, ps') && SomeKept(g, ps', ps'') && ps'' == ps
    ensures ps' == ps
  {
    hide NotKept;
  }

  // ---------- What an answer promises ----------

  /** Every selected version has all its hard requirements met. */
  ghost predicate AllMet(g: Graph, ps: seq<PkgState>)
    requires ValidStates(g, ps)
  {
    forall p :: 0 <= p < |ps| ==> PkgMet(g, ps, p)
  }

  /** ... which is a closed selection, and a conflict-free one unless a conflict is hidden among alternatives. */
  ghost predicate Satisfied(g: Graph, ps: seq<PkgState>)
    requires ValidStates(g, ps)
  {
    && AllMet(g, ps)
    && Closed(g, ps) && NoJudgedConflict(g, ps)
    && (ConflictFree(g, ps) <==> NoHiddenConflict(g, ps))
    && (NegativesStandAlone(g) ==> ConflictFree(g, ps))
  }

  lemma CounterTells(g: Graph, s: CacheState)
    requires Consistent(g, s)
    ensures ValidStates(g, s.ps)
    ensures s.tally.broken == 0 ==> Satisfied(g, s.ps)
    ensures s.tally.broken != 0 ==> !AllMet(g, s.ps)
  {
    BrokenCountMeaning(g, s);
    BrokenCountExact(g, s);
    NothingBrokenMeans(g, s);
    hide PkgMet, Closed, ConflictFree, NegativesStandAlone, NoHiddenConflict, NoJudgedConflict;
    if NegativesStandAlone(g) { NothingHidden(g, s.ps); }
    hide Consistent;
  }

  // ---------- What installing packages does ----------

  function InstallFlags(ps: seq<PkgState>): (m: seq<bool>)
    ensures |m| == |ps| && forall p :: 0 <= p < |ps| ==> m[p] == ps[p].Install()
  {
    seq(|ps|, p requires 0 <= p < |ps| => ps[p].Install())
  }

  function NotInstalled(ps: seq<PkgState>): nat { Unmarked(InstallFlags(ps)) }

  /** Only package p has changed, and it was not to be installed before. */
  ghost predicate OnlyTouched(ps: seq<PkgState>, ps': seq<PkgState>, p: nat) {
    && |ps| == |ps'| && p < |ps| && !ps[p].Install()
    && forall q :: 0 <= q < |ps| && q != p ==> ps'[q].Install() == ps[q].Install()
  }

  lemma InstallTouchesOne(g: Graph, ps: seq<PkgState>, ps': seq<PkgState>, p: nat, marked: bool)
    requires ValidStates(g, ps) && p < |ps| && !ps[p].Install()
    requires OnlySummaries(InstallEffect(g, ps, p, marked, 0, false), ps')
    ensures OnlyTouched(ps, ps', p)
  {
    var next := InstallEffect(g, ps, p, marked, 0, false);
    assert |next| == |ps| && forall q :: 0 <= q < |ps| && q != p ==> next[q] == ps[q];
    forall q | 0 <= q < |ps| && q != p ensures ps'[q].Install() == ps[q].Install() {
      assert ps'[q] == next[q].(depState := ps'[q].depState);
    }
  }

  lemma InstallsGrow(ps: seq<PkgState>, ps': seq<PkgState>, p: nat)
    requires OnlyTouched(ps, ps', p)
    ensures NotInstalled(ps') <= NotInstalled(ps)
    ensures ps'[p].Install() ==> NotInstalled(ps') < NotInstalled(ps)
  {
    UnmarkedGrown(InstallFlags(ps), InstallFlags(ps'));
    if ps'[p].Install() {
      assert !InstallFlags(ps)[p] && InstallFlags(ps')[p];
    }
  }

  /** The first n PreInstalled flags say what is marked for installation. */
  ghost predicate Recorded(flags: seq<ResolverFlags>, ps: seq<PkgState>, n: nat) {
    |flags| == |ps| && n <= |ps| && forall p :: 0 <= p < n ==>
      flags[p].upgradable && flags[p].preInstalled == ps[p].Install()
  }

  lemma RecordedStep(flags: seq<ResolverFlags>, flags': seq<ResolverFlags>, ps: seq<PkgState>, ps': seq<PkgState>,
                     n: nat)
    requires Recorded(flags, ps, n) && n < |ps| == |ps'| && |flags'| == |flags| && flags' == flags[n := flags'[n]]
    requires flags'[n].upgradable
    requires flags'[n].preInstalled == ps'[n].Install()
    requires ps' == ps || OnlyTouched(ps, ps', n)
    ensures Recorded(flags', ps', n + 1)
  {
  }

  /** Packages that are newly to be installed are automatically installed, the first n of them. */
  ghost predicate AutoFlagsSet(flags: seq<ResolverFlags>, ps: seq<PkgState>, n: nat) {
    |flags| == |ps| && n <= |ps| && forall p :: 0 <= p < n && ps[p].NewInstall() && !flags[p].preInstalled ==>
      ps[p].auto
  }

  /** The records with the first n packages that are newly to be installed, and not at somebody's request, automatic. */
  function AutoFlagged(flags: seq<ResolverFlags>, ps: seq<PkgState>, n: nat): (r: seq<PkgState>)
    requires |flags| == |ps|
    ensures |r| == |ps|
  {
    seq(|ps|, p requires 0 <= p < |ps| =>
      if p < n && ps[p].NewInstall() && !flags[p].preInstalled then ps[p].(auto := true) else ps[p])
  }

  lemma AutoFlaggedStep(flags: seq<ResolverFlags>, ps: seq<PkgState>, n: nat)
    requires |flags| == |ps| && n < |ps|
    ensures var r := AutoFlagged(flags, ps, n);
      && r[n] == ps[n]
      && AutoFlagged(flags, ps, n + 1) ==
           if r[n].NewInstall() && !flags[n].preInstalled then r[n := r[n].(auto := true)] else r
    ensures AutoFlagged(flags, ps, 0) == ps
  {
  }

  /** Afterwards new installations nobody asked for are automatic, and Auto flags are all that has changed. */
  lemma AutoFlaggedMeans(flags: seq<ResolverFlags>, ps: seq<PkgState>)
    requires |flags| == |ps|
    ensures var r := AutoFlagged(flags, ps, |ps|);
      && AutoFlagsSet(flags, r, |ps|)
      && forall p :: 0 <= p < |ps| ==> r[p] == ps[p].(auto := r[p].auto) && (ps[p].auto ==> r[p].auto)
  {
  }

  /** Whoever is to be installed stays so. */
  ghost predicate InstallsKept(ps: seq<PkgState>, ps': seq<PkgState>) {
    |ps| == |ps'| && forall p :: 0 <= p < |ps| && ps[p].Install() ==> ps'[p].Install()
  }

  lemma InstallsKeptOn(ps: seq<PkgState>, ps': seq<PkgState>, ps'': seq<PkgState>)
    requires InstallsKept(ps, ps') && InstallsKept(ps', ps'')
    ensures InstallsKept(ps, ps'')
  {
  }

  lemma TouchedKeepsInstalls(ps: seq<PkgState>, ps': seq<PkgState>, p: nat)
    requires ps' == ps || OnlyTouched(ps, ps', p)
    ensures InstallsKept(ps, ps')
  {
  }

  /** The first n entries end in twice the same. */
  predicate Repeats(stops: seq<nat>, n: nat)
    requires n <= |stops|
  {
    n >= 2 && stops[n - 1] == stops[n - 2]
  }

  lemma NoStops()
    ensures !Repeats([], 0)
  {
  }

  lemma MoreStops(stops: seq<nat>, k: nat)
    ensures forall n :: 0 <= n <= |stops| ==> Repeats(stops + [k], n) == Repeats(stops, n)
    ensures Repeats(stops + [k], |stops| + 1) <==> stops != [] && stops[|stops| - 1] == k
  {
  }

  // ---------- What reinstalling broken packages tries ----------

  /** Nothing stands against installing the candidate of package p. */
  ghost predicate WouldInstall(g: Graph, ps: seq<PkgState>, p: nat)
    requires |ps| == |g.pkgs| && p < |ps|
  {
    && ps[p].candidateVer.Some? && ps[p].candidateVer != g.pkgs[p].currentVer
    && !Withheld(g, p, ps[p]) && !TearsApart(g, ps, p)
  }

  /** Of the first n packages those that are broken are to be installed, or cannot be. */
  ghost predicate Tried(g: Graph, ps: seq<PkgState>, n: nat)
    requires g.Valid() && |ps| == |g.pkgs| && n <= |ps|
  {
    forall p :: 0 <= p < n && IsBroken(g, Selection(ps), p) ==> ps[p].Install() || !WouldInstall(g, ps, p)
  }

  lemma NothingTried(g: Graph, s: CacheState, p: nat)
    requires Consistent(g, s) && p < |s.ps|
    ensures OthersSame(s.ps, s.ps, p) && g.Valid() && |s.ps| == |g.pkgs| && ValidStates(g, s.ps)
    ensures s.ps[p].InstBroken() <==> IsBroken(g, Selection(s.ps), p)
  {
    BrokenInTerms(g, s, p);
    hide IsBroken, IsNeglected;
  }

  /** Whoever would be installed is, and nobody else's choice changes. */
  lemma TryingInstalls(g: Graph, s: CacheState, ps': seq<PkgState>, p: nat, marked: bool)
    requires Consistent(g, s) && p < |s.ps| && !s.ps[p].Install() && ValidStates(g, s.ps)
    requires OnlySummaries(InstallEffect(g, s.ps, p, marked, 0, false), ps')
    ensures g.Valid() && |s.ps| == |g.pkgs| && OthersSame(s.ps, ps', p)
    ensures IsBroken(g, Selection(s.ps), p) && WouldInstall(g, s.ps, p) ==> ps'[p].Install()
  {
    TriedFacts(g, s, p);
    hide *;
    var ps := s.ps;
    var next := InstallEffect(g, ps, p, marked, 0, false);
    if InstallAnswer(g, ps, p, 0, false) { InstallDone(g, ps, p, marked, 0, false); }
    else { InstallUndone(g, ps, p, marked, 0, false); }
    SummariesOnly(next, ps', p);
    OthersAreSame(ps, next, ps', p);
  }

  lemma TriedFacts(g: Graph, s: CacheState, p: nat)
    requires Consistent(g, s) && p < |s.ps| && !s.ps[p].Install() && ValidStates(g, s.ps)
    ensures g.Valid() && |s.ps| == |g.pkgs| && ModeOk(g, p, s.ps[p])
    ensures IsBroken(g, Selection(s.ps), p) && WouldInstall(g, s.ps, p) ==>
      InstallAnswer(g, s.ps, p, 0, false) && s.ps[p].candidateVer != g.pkgs[p].currentVer
  {
    BrokenInTerms(g, s, p);
    assert ModeOk(g, p, s.ps[p]);
    hide Consistent, IsBroken, IsNeglected, TearsApart;
    InstallExactly(g, s.ps, p, 0, false);
    hide InstallAnswer, ValidStates;
  }

  /** Packages other than p choose what they chose before. */
  ghost predicate OthersSame(ps: seq<PkgState>, ps': seq<PkgState>, p: nat) {
    |ps| == |ps'| && forall q :: 0 <= q < |ps| && q != p ==> ps'[q] == ps[q].(depState := ps'[q].depState)
  }

  lemma SummariesOnly(ps: seq<PkgState>, ps': seq<PkgState>, p: nat)
    requires OnlySummaries(ps, ps') && p < |ps|
    ensures |ps'| == |ps| && ps'[p].mode == ps[p].mode && ps'[p].Install() == (ps[p].mode == ModeInstall)
  {
  }

  lemma OthersAreSame(ps: seq<PkgState>, next: seq<PkgState>, ps': seq<PkgState>, p: nat)
    requires |next| == |ps| && OnlySummaries(next, ps') && forall q :: 0 <= q < |ps| && q != p ==> next[q] == ps[q]
    ensures OthersSame(ps, ps', p)
  {
    forall q | 0 <= q < |ps| && q != p ensures ps'[q] == ps[q].(depState := ps'[q].depState) {
      assert ps'[q] == next[q].(depState := ps'[q].depState);
    }
  }

  lemma TriedSame(g: Graph, ps: seq<PkgState>, ps': seq<PkgState>, n: nat)
    requires g.Valid() && |ps| == |g.pkgs| && n <= |ps| && OnlySummaries(ps, ps') && Tried(g, ps, n)
    ensures Tried(g, ps', n)
  {
    assert Selection(ps) == Selection(ps');
    hide IsBroken;
    forall p | 0 <= p < n && IsBroken(g, Selection(ps'), p) ensures ps'[p].Install() || !WouldInstall(g, ps', p) {
      assert ps'[p] == ps[p].(depState := ps'[p].depState);
      if TearsApart(g, ps, p) {
        var q :| 0 <= q < |ps| && Diverges(g, p, ps[p].candidateVer.value, q, ps[q].candidateVer);
        assert ps'[q] == ps[q].(depState := ps'[q].depState);
        assert Diverges(g, p, ps'[p].candidateVer.value, q, ps'[q].candidateVer);
      }
    }
  }

  lemma NobodyTried(g: Graph, ps: seq<PkgState>)
    requires g.Valid() && |ps| == |g.pkgs|
    ensures Tried(g, ps, 0) && SameFrom(ps, ps, 0)
  {
  }

  /** The choices of the packages from number n on are those at the start. */
  ghost predicate SameFrom(start: seq<PkgState>, ps: seq<PkgState>, n: nat) {
    |start| == |ps| && forall q :: n <= q < |ps| ==> ps[q] == start[q].(depState := ps[q].depState)
  }

  lemma SameFromNext(start: seq<PkgState>, ps: seq<PkgState>, ps': seq<PkgState>, p: nat)
    requires SameFrom(start, ps, p) && p < |ps| && OthersSame(ps, ps', p)
    ensures SameFrom(start, ps', p + 1) && ps[p] == start[p].(depState := ps[p].depState)
  {
    forall q | p < q < |ps| ensures ps'[q] == start[q].(depState := ps'[q].depState) {
      assert ps'[q] == ps[q].(depState := ps'[q].depState);
    }
  }

  /** One more package tried. If choices are as at the start now, they were before. */
  lemma TriedOneMore(g: Graph, start: seq<PkgState>, ps: seq<PkgState>, ps': seq<PkgState>, p: nat)
    requires g.Valid() && |start| == |ps| == |ps'| == |g.pkgs| && p < |ps| && OthersSame(ps, ps', p)
    requires ps[p] == start[p].(depState := ps[p].depState)
    requires OnlySummaries(start, ps) ==> Tried(g, ps, p)
    requires IsBroken(g, Selection(ps), p) ==> ps'[p].Install() || !WouldInstall(g, ps, p)
    ensures OnlySummaries(start, ps') ==> Tried(g, ps', p + 1)
  {
    if OnlySummaries(start, ps') {
      forall q | 0 <= q < |ps|
        ensures ps[q] == start[q].(depState := ps[q].depState) && ps'[q] == ps[q].(depState := ps'[q].depState)
      {
        assert ps'[q] == start[q].(depState := ps'[q].depState);
      }
      assert Tried(g, ps, p + 1) by { hide IsBroken, WouldInstall; }
      TriedSame(g, ps, ps', p + 1);
    }
  }

  datatype ResolverFlags = ResolverFlags(preInstalled: bool, upgradable: bool)

  /** What came of looking at one package: nothing to do or to be done, or it is repaired. */
  datatype Attempt = Skipped | RepairedByKeeping | RepairedByTargets

  datatype KeepResult = Resolved | Looping | StillBroken

  class ProblemResolver {
    const c: DepCache
    /** The BrokenPolicyAllowed flags. */
    const brokenPolicyAllowed: set<nat>
    const flags: array<ResolverFlags>

    constructor (c: DepCache, brokenPolicyAllowed: set<nat>)
      ensures this.c == c && this.brokenPolicyAllowed == brokenPolicyAllowed
      ensures fresh(flags) && flags.Length == c.pkgState.Length
    {
      this.c, this.brokenPolicyAllowed := c, brokenPolicyAllowed;
      flags := new ResolverFlags[c.pkgState.Length](p => ResolverFlags(false, false));
    }

    /**
      Whether the selection leaves a hard requirement of package p unmet, or a policy wish that is met for
      the version installed now and may not be given up.
    */
    method InstOrNewPolicyBroken(p: nat) returns (broken: bool)
      requires c.Ready() && p < |c.g.pkgs|
      ensures ValidStates(c.g, c.pkgState[..]) && p < c.pkgState.Length
      ensures broken <==>
        (!PkgMet(c.g, c.pkgState[..], p) || (p !in brokenPolicyAllowed && PolicyWorse(c.g, c.pkgState[..], p)))
      ensures broken <==> BrokenOrNewPolicy(c.pkgState[p], p in brokenPolicyAllowed)
    {
      c.ReadyState();
      PkgBrokenMeaning(c.g, c.State(), p);
      ConsistentIsShaped(c.g, c.State());
      hide *;
      if c.pkgState[p].InstBroken() { return true; }
      if p !in brokenPolicyAllowed && !c.pkgState[p].NowPolicyBroken() && c.pkgState[p].InstPolicyBroken() {
        return true;
      }
      return false;
    }

    /** Keeps package p unless it is protected. */
    method KeepUnlessProtected(p: nat)
      requires c.Ready() && p < |c.g.pkgs|
      modifies c.pkgState, c.depState, c.marked, c.garbage, c`tally, c`sizes, c`groupLevel, c`swept
      ensures c.Ready() && c.groupLevel == old(c.groupLevel)
      ensures SomeKept(c.g, old(c.pkgState[..]), c.pkgState[..]) && Stuck(c.g, p, c.pkgState[..][p])
    {
      hide *;
      c.ReadyFacts();
      c.ModeFacts(p);
      ghost var ps := c.pkgState[..];
      NothingKept(c.g, ps);
      if c.pkgState[p].protect {
        ProtectedIsStuck(c.g, p, c.pkgState[p]);
      } else {
        var _ := c.MarkKeep(p, false, false, 0);
        KeepStep(c.g, ps, c.pkgState[..], p);
        TriedIsStuck(c.g, ps, c.pkgState[..], p);
      }
    }

    /** Keeps what could satisfy one member of an or-group, until package p is no longer broken. */
    method KeepTargets(p: nat, targets: seq<nat>)
      requires c.Ready() && p < |c.g.pkgs| && forall k :: 0 <= k < |targets| ==> targets[k] < |c.g.vers|
      modifies c.pkgState, c.depState, c.marked, c.garbage, c`tally, c`sizes, c`groupLevel, c`swept
      ensures c.Ready() && c.groupLevel == old(c.groupLevel)
      ensures SomeKept(c.g, old(c.pkgState[..]), c.pkgState[..])
      ensures c.g.Valid() && |c.pkgState[..]| == |c.g.pkgs|
      ensures BrokenOrNewPolicy(c.pkgState[..][p], p in brokenPolicyAllowed) ==>
        TargetsStuck(c.g, c.pkgState[..], targets, |targets|)
    {
      hide *;
      c.ReadyFacts();
      NothingKept(c.g, c.pkgState[..]);
      NoTargets(c.g, c.pkgState[..], targets);
      for k := 0 to |targets|
        invariant c.Ready() && c.groupLevel == old(c.groupLevel)
        invariant SomeKept(c.g, old(c.pkgState[..]), c.pkgState[..])
        invariant c.g.Valid() && |c.pkgState[..]| == |c.g.pkgs| && TargetsStuck(c.g, c.pkgState[..], targets, k)
      {
        ghost var ps := c.pkgState[..];
        var q := ParentOf(c.g, targets[k]);
        if c.g.pkgs[q].currentVer.None? {
          MoreTargetsStuck(c.g, ps, targets, k);
          continue;
        }
        KeepUnlessProtected(q);
        c.ReadyFacts();
        KeptOnAndOn(c.g, old(c.pkgState[..]), ps, c.pkgState[..]);
        TargetsStayStuck(c.g, ps, c.pkgState[..], targets, k);
        MoreTargetsStuck(c.g, c.pkgState[..], targets, k);
        var broken := InstOrNewPolicyBroken(p);
        if !broken { break; }
      }
    }

    /** Works through the members start..end of one or-group of version v. */
    method KeepGroup(p: nat, v: nat, start: nat, end: nat)
      requires c.Ready() && p < |c.g.pkgs| && v < |c.g.vers| && start <= end < |c.g.vers[v].depends|
      modifies c.pkgState, c.depState, c.marked, c.garbage, c`tally, c`sizes, c`groupLevel, c`swept
      ensures c.Ready() && c.groupLevel == old(c.groupLevel)
      ensures SomeKept(c.g, old(c.pkgState[..]), c.pkgState[..])
      ensures c.g.Valid() && |c.pkgState[..]| == |c.g.pkgs|
      ensures BrokenOrNewPolicy(c.pkgState[..][p], p in brokenPolicyAllowed) ==>
        EntriesStuck(c.g, c.pkgState[..], v, start, end + 1)
    {
      hide *;
      var i := start;
      c.ReadyFacts();
      NothingKept(c.g, c.pkgState[..]);
      NoEntriesStuck(c.g, c.pkgState[..], v, start);
      while true
        invariant c.Ready() && c.groupLevel == old(c.groupLevel)
        invariant SomeKept(c.g, old(c.pkgState[..]), c.pkgState[..]) && start <= i <= end
        invariant c.g.Valid() && |c.pkgState[..]| == |c.g.pkgs| && EntriesStuck(c.g, c.pkgState[..], v, start, i)
        decreases end - i
      {
        ghost var ps := c.pkgState[..];
        KeepTargets(p, TargetsOf(c.g, v, i));
        c.ReadyFacts();
        KeptOnAndOn(c.g, old(c.pkgState[..]), ps, c.pkgState[..]);
        EntriesStayStuck(c.g, ps, c.pkgState[..], v, start, i);
        var broken := InstOrNewPolicyBroken(p);
        if !broken { break; }
        MoreEntriesStuck(c.g, c.pkgState[..], v, start, i);
        if i == end { break; }
        i := i + 1;
      }
    }

    /** One or-group: nothing to worry about, or everything it names is tried. */
    method KeepForGroup(p: nat, v: nat, start: nat, end: nat, ghost ps0: seq<PkgState>)
      requires c.Ready() && p < |c.g.pkgs| && v < |c.g.vers| && c.g.Valid() && OrGroup(c.g, v, start, end)
      requires SomeKept(c.g, ps0, c.pkgState[..]) && |ps0| == |c.g.pkgs|
      requires c.pkgState[..] == ps0 ==> AllDealtWith(c.g, ps0, v, start)
      modifies c.pkgState, c.depState, c.marked, c.garbage, c`tally, c`sizes, c`groupLevel, c`swept
      ensures c.Ready() && c.groupLevel == old(c.groupLevel)
      ensures SomeKept(c.g, old(c.pkgState[..]), c.pkgState[..])
      ensures SomeKept(c.g, ps0, c.pkgState[..]) && |c.pkgState[..]| == |c.g.pkgs|
      ensures BrokenOrNewPolicy(c.pkgState[..][p], p in brokenPolicyAllowed) && c.pkgState[..] == ps0 ==>
        AllDealtWith(c.g, ps0, v, end + 1)
    {
      hide *;
      ghost var ps := c.pkgState[..];
      c.ReadyFacts();
      c.ReadyState();
      GroupFacts(c.g, c.State(), v, start, end);
      c.StateParts();
      NothingKept(c.g, ps);
      StuckIsDealtWith(c.g, ps, v, start, end);
      var last := c.g.vers[v].depends[end];
      if !c.g.IsCritical(last) || c.depState[last].group.install {
        if ps == ps0 { OneMoreDealtWith(c.g, ps0, v, start, end); }
        return;
      }
      KeepGroup(p, v, start, end);
      KeptOnAndOn(c.g, ps0, ps, c.pkgState[..]);
      if c.pkgState[..] == ps0 && BrokenOrNewPolicy(c.pkgState[..][p], p in brokenPolicyAllowed) {
        NothingBetween(c.g, ps0, ps, c.pkgState[..]);
        StuckIsDealtWith(c.g, ps0, v, start, end);
        OneMoreDealtWith(c.g, ps0, v, start, end);
      }
    }

    /** Isolates the problem dependencies of version v and keeps what they ask for. */
    method KeepDependencies(p: nat, v: nat, ghost ps0: seq<PkgState>)
      requires c.Ready() && p < |c.g.pkgs| && SomeKept(c.g, ps0, c.pkgState[..]) && v < |c.g.vers|
      modifies c.pkgState, c.depState, c.marked, c.garbage, c`tally, c`sizes, c`groupLevel, c`swept
      ensures c.Ready() && c.groupLevel == old(c.groupLevel)
      ensures SomeKept(c.g, old(c.pkgState[..]), c.pkgState[..])
      ensures SomeKept(c.g, ps0, c.pkgState[..]) && |c.pkgState[..]| == |ps0| == |c.g.pkgs| && c.g.Valid()
      ensures BrokenOrNewPolicy(c.pkgState[..][p], p in brokenPolicyAllowed) && c.pkgState[..] == ps0 ==>
        AllDealtWith(c.g, ps0, v, |c.g.vers[v].depends|)
    {
      hide *;
      var next := 0;
      c.ReadyFacts();
      KeptRecords(c.g, ps0, c.pkgState[..]);
      NoneDealtWith(c.g, ps0, v);
      NothingKept(c.g, c.pkgState[..]);
      while next < |c.g.vers[v].depends|
        invariant c.Ready() && c.groupLevel == old(c.groupLevel) && c.g.Valid() && next <= |c.g.vers[v].depends|
        invariant SomeKept(c.g, old(c.pkgState[..]), c.pkgState[..])
        invariant SomeKept(c.g, ps0, c.pkgState[..]) && |c.pkgState[..]| == |ps0| == |c.g.pkgs|
        invariant next > 0 ==> c.g.ValidVersion(v) && GroupEnd(c.g, v, next - 1)
        invariant c.pkgState[..] == ps0 ==> AllDealtWith(c.g, ps0, v, next)
        decreases |c.g.vers[v].depends| - next
      {
        var start, end, after := c.GlobOr(v, next);
        GroupEndInRange(c.g, v, end);
        OrGroupIs(c.g, v, start, end);
        next := after;
        ghost var ps := c.pkgState[..];
        KeepForGroup(p, v, start, end, ps0);
        c.ReadyFacts();
        KeptOnAndOn(c.g, old(c.pkgState[..]), ps, c.pkgState[..]);
        var broken := InstOrNewPolicyBroken(p);
        if !broken { break; }
      }
    }

    /**
      One turn of the loop over the package list. A package in trouble is kept if that is possible; if the
      turn changes nothing there is nothing left to keep for it.
    */
    method RepairPackage(p: nat) returns (attempt: Attempt)
      requires c.Ready() && p < |c.g.pkgs|
      modifies c.pkgState, c.depState, c.marked, c.garbage, c`tally, c`sizes, c`groupLevel, c`swept
      ensures c.Ready() && c.groupLevel == old(c.groupLevel)
      ensures SomeKept(c.g, old(c.pkgState[..]), c.pkgState[..])
      ensures attempt != Skipped ==> NotKept(c.pkgState[..]) < NotKept(old(c.pkgState[..]))
      ensures c.g.Valid() && |c.pkgState[..]| == |old(c.pkgState[..])| == |c.g.pkgs|
      ensures var ps, ps', allowed := old(c.pkgState[..]), c.pkgState[..], p in brokenPolicyAllowed;
        && (attempt == Skipped <==> (Troubled(c.g, ps, p, allowed) ==> Troubled(c.g, ps', p, allowed)))
        && (Troubled(c.g, ps, p, allowed) ==> Stuck(c.g, p, ps'[p]))
        && (Troubled(c.g, ps, p, allowed) && ps' == ps ==> NothingLeft(c.g, ps, p))
    {
      hide *;
      ghost var ps0 := c.pkgState[..];
      ghost var allowed := p in brokenPolicyAllowed;
      c.ReadyFacts();
      NothingKept(c.g, ps0);
      c.ReadyState();
      TroubleInTerms(c.g, c.State(), p, allowed);
      BrokenIsSelected(c.g, c.State(), p);
      if c.pkgState[p].installVer.None? {
        NotSelectedIsFine(c.pkgState[p], allowed);
        return Skipped;
      }
      var broken := InstOrNewPolicyBroken(p);
      if !broken { return Skipped; }
      if c.pkgState[p].protect {
        ProtectedIsStuck(c.g, p, c.pkgState[p]);
      } else {
        KeepUnlessProtected(p);
        c.ReadyFacts();
        broken := InstOrNewPolicyBroken(p);
        c.ReadyState();
        TroubleInTerms(c.g, c.State(), p, allowed);
        if !broken {
          RepairCounts(c.g, ps0, c.pkgState[..], p, allowed);
          return RepairedByKeeping;
        }
      }
      broken := KeepForPackage(p, ps0);
      if broken { return Skipped; }
      RepairCounts(c.g, ps0, c.pkgState[..], p, allowed);
      return RepairedByTargets;
    }

    /** The rest of the turn for a package that is broken however it is kept. */
    method KeepForPackage(p: nat, ghost ps0: seq<PkgState>) returns (broken: bool)
      requires c.Ready() && p < |c.g.pkgs| && |c.pkgState[..]| == |ps0| == |c.g.pkgs|
      requires SomeKept(c.g, ps0, c.pkgState[..]) && Stuck(c.g, p, c.pkgState[..][p])
      requires BrokenOrNewPolicy(c.pkgState[..][p], p in brokenPolicyAllowed)
      modifies c.pkgState, c.depState, c.marked, c.garbage, c`tally, c`sizes, c`groupLevel, c`swept
      ensures c.Ready() && c.groupLevel == old(c.groupLevel) && c.g.Valid()
      ensures SomeKept(c.g, ps0, c.pkgState[..]) && |c.pkgState[..]| == |c.g.pkgs| && Stuck(c.g, p, c.pkgState[..][p])
      ensures broken <==> BrokenOrNewPolicy(c.pkgState[..][p], p in brokenPolicyAllowed)
      ensures broken <==> Troubled(c.g, c.pkgState[..], p, p in brokenPolicyAllowed)
      ensures broken && c.pkgState[..] == ps0 ==> NothingLeft(c.g, ps0, p)
    {
      hide *;
      ghost var ps1, allowed := c.pkgState[..], p in brokenPolicyAllowed;
      c.ReadyFacts();
      c.ReadyState();
      BrokenIsSelected(c.g, c.State(), p);
      BrokenEither(c.pkgState[p], allowed);
      KeepDependencies(p, c.pkgState[p].installVer.value, ps0);
      c.ReadyFacts();
      StuckStays(c.g, ps1, c.pkgState[..], p);
      broken := InstOrNewPolicyBroken(p);
      c.ReadyState();
      TroubleInTerms(c.g, c.State(), p, allowed);
      if broken { TurnInVain(c.g, ps0, ps1, c.pkgState[..], p); }
    }

    /**
      Restarts from the front of the list after every repair. Each restart leaves fewer packages
      that are not kept, so there are at most as many as there were such packages to begin with.
      `settled` is what the last round began with. If that round changed nothing, then for a listed
      package still in trouble nothing is left that could be kept. `stops` are the places in the list at
      which the targets had to be kept; it gives up when the same place comes up twice in a row.
    */
    method ResolveByKeepInternal(plist: seq<nat>)
      returns (result: KeepResult, ghost restarts: nat, ghost settled: seq<PkgState>, ghost stops: seq<nat>)
      requires c.Ready() && forall k :: 0 <= k < |plist| ==> plist[k] < |c.g.pkgs|
      modifies c.pkgState, c.depState, c.marked, c.garbage, c`tally, c`sizes, c`groupLevel, c`swept
      ensures c.Ready() && c.groupLevel == old(c.groupLevel)
      ensures |c.pkgState[..]| == |c.g.pkgs| == |old(c.pkgState[..])|
      ensures forall p :: 0 <= p < |c.g.pkgs| ==> MaybeKept(c.g, p, old(c.pkgState[..])[p], c.pkgState[..][p])
      ensures restarts <= NotKept(old(c.pkgState[..]))
      ensures ValidStates(c.g, c.pkgState[..]) && c.g.Valid()
      ensures SomeKept(c.g, old(c.pkgState[..]), settled) && SomeKept(c.g, settled, c.pkgState[..])
      ensures result != Looping && c.pkgState[..] == settled ==>
        ListDealtWith(c.g, settled, plist, |plist|, brokenPolicyAllowed)
      ensures c.pkgState[..] == old(c.pkgState[..]) ==> settled == old(c.pkgState[..])
      ensures |stops| <= restarts && (result == Looping <==> Repeats(stops, |stops|))
      ensures forall n :: 0 <= n < |stops| ==> stops[n] < |plist| && !Repeats(stops, n)
      ensures result == Resolved ==> Satisfied(c.g, c.pkgState[..])
      ensures result == StillBroken ==> !AllMet(c.g, c.pkgState[..])
    {
      hide *;
      ghost var ps := c.pkgState[..];
      c.ReadyFacts();
      NothingKept(c.g, ps);
      restarts, settled, stops := 0, ps, [];
      NoStops();
      result := Resolved;
      NothingListed(c.g, ps, plist, brokenPolicyAllowed);
      c.IncreaseActionGroupLevel();
      var k := 0;
      var lastStop := -1;
      while k < |plist|
        invariant c.Ready() && c.groupLevel == old(c.groupLevel) + 1 && k <= |plist|
        invariant SomeKept(c.g, ps, settled) && SomeKept(c.g, settled, c.pkgState[..])
        invariant restarts + NotKept(c.pkgState[..]) <= NotKept(ps) && |c.pkgState[..]| == |ps| == |c.g.pkgs|
        invariant c.g.Valid() && |stops| <= restarts && lastStop == if stops == [] then -1 else stops[|stops| - 1]
        invariant forall n :: 0 <= n < |stops| ==> stops[n] < |plist|
        invariant result == Resolved && forall n :: 0 <= n <= |stops| ==> !Repeats(stops, n)
        invariant c.pkgState[..] == settled ==> ListDealtWith(c.g, settled, plist, k, brokenPolicyAllowed)
        decreases NotKept(c.pkgState[..]), |plist| - k
      {
        ghost var before := c.pkgState[..];
        var attempt := RepairPackage(plist[k]);
        KeptOnAndOn(c.g, settled, before, c.pkgState[..]);
        KeptRecords(c.g, before, c.pkgState[..]);
        if attempt == Skipped {
          if c.pkgState[..] == settled {
            NothingBetween(c.g, settled, before, c.pkgState[..]);
            OneMoreListed(c.g, settled, plist, k, brokenPolicyAllowed);
          }
          k := k + 1;
          continue;
        }
        restarts := restarts + 1;
        if attempt == RepairedByTargets {
          stops := stops + [k];
          MoreStops(stops[..|stops| - 1], k);
          if k == lastStop {
            result := Looping;
            break;
          }
          lastStop := k;
        }
        k := 0;
        settled := KeptSince(c.g, ps, settled, c.pkgState[..]);
        NothingListed(c.g, settled, plist, brokenPolicyAllowed);
      }
      KeptOnAndOn(c.g, ps, settled, c.pkgState[..]);
      KeptRecords(c.g, ps, c.pkgState[..]);
      if c.pkgState[..] == ps { NothingBetween(c.g, ps, settled, c.pkgState[..]); }
      c.ReadyFacts();
      c.ReadyState();
      CounterTells(c.g, c.State());
      if result != Looping && c.tally.broken != 0 { result := StillBroken; }
      c.ReadyFacts();
      c.Release(false);
    }

    // ---------- Resolve ----------

    /** Records one package, after another attempt to install it should it be broken. */
    method RecordPackage(p: nat, brokenFix: bool) returns (again: bool)
      requires c.Ready() && p < |c.g.pkgs| && flags.Length == |c.g.pkgs|
      modifies c.pkgState, c.depState, c.marked, c.garbage, c`tally, c`sizes, c`groupLevel, c`swept, flags
      ensures c.Ready() && c.groupLevel == old(c.groupLevel)
      ensures var ps, ps' := old(c.pkgState[..]), c.pkgState[..];
        && |ps| == |ps'| == |c.g.pkgs| && (ps' == ps || OnlyTouched(ps, ps', p))
        && flags[..] == old(flags[..])[p := flags[p]] && flags[p].upgradable
        && (!again ==> flags[p].preInstalled == ps'[p].Install())
        && (again ==> OnlyTouched(ps, ps', p) && ps'[p].Install())
        && c.g.Valid() && OthersSame(ps, ps', p)
        && (brokenFix && IsBroken(c.g, Selection(ps), p) && WouldInstall(c.g, ps, p) ==> ps'[p].Install())
    {
      hide *;
      c.ReadyFacts();
      c.ReadyState();
      NothingTried(c.g, c.State(), p);
      again := false;
      if c.pkgState[p].Install() {
        flags[p] := ResolverFlags(true, true);
      } else {
        if c.pkgState[p].InstBroken() && brokenFix {
          ghost var ps, m, s := c.pkgState[..], c.marked[p], c.State();
          var _ := c.MarkInstall(p, 0, false);
          InstallTouchesOne(c.g, ps, c.pkgState[..], p, m);
          TryingInstalls(c.g, s, c.pkgState[..], p, m);
          again := c.pkgState[p].Install();
        }
        flags[p] := ResolverFlags(false, true);
      }
    }

    /**
      Every further round has at least one more package marked for installation, and none fewer, so there
      is at most one round more than there are packages to be marked. `lastRound` is what the last one
      began with; if it changed no choice, no broken package is left that could be marked.
    */
    method RecordInstalls(brokenFix: bool) returns (rounds: nat, ghost lastRound: seq<PkgState>)
      requires c.Ready() && flags.Length == |c.g.pkgs|
      modifies c.pkgState, c.depState, c.marked, c.garbage, c`tally, c`sizes, c`groupLevel, c`swept, flags
      ensures c.Ready() && c.groupLevel == old(c.groupLevel)
      ensures Recorded(flags[..], c.pkgState[..], |c.g.pkgs|)
      ensures InstallsKept(old(c.pkgState[..]), c.pkgState[..])
      ensures rounds + NotInstalled(c.pkgState[..]) <= NotInstalled(old(c.pkgState[..])) + 1
      ensures c.g.Valid() && |c.pkgState[..]| == |c.g.pkgs|
      ensures brokenFix && OnlySummaries(lastRound, c.pkgState[..]) ==> Tried(c.g, c.pkgState[..], |c.pkgState[..]|)
    {
      hide *;
      var again := true;
      rounds, lastRound := 0, c.pkgState[..];
      InstallsKeptStart(c.pkgState[..]);
      while again
        invariant c.Ready() && c.groupLevel == old(c.groupLevel)
        invariant !again ==> Recorded(flags[..], c.pkgState[..], |c.g.pkgs|)
        invariant InstallsKept(old(c.pkgState[..]), c.pkgState[..])
        invariant rounds + NotInstalled(c.pkgState[..]) <= NotInstalled(old(c.pkgState[..])) + if again then 0 else 1
        invariant !again ==> c.g.Valid() && |c.pkgState[..]| == |c.g.pkgs|
        invariant !again && brokenFix && OnlySummaries(lastRound, c.pkgState[..]) ==>
          Tried(c.g, c.pkgState[..], |c.pkgState[..]|)
        decreases NotInstalled(c.pkgState[..]), again
      {
        ghost var before := c.pkgState[..];
        lastRound := before;
        again := RecordRound(brokenFix);
        InstallsKeptOn(old(c.pkgState[..]), before, c.pkgState[..]);
        rounds := rounds + 1;
      }
    }

    method RecordRound(brokenFix: bool) returns (again: bool)
      requires c.Ready() && flags.Length == |c.g.pkgs|
      modifies c.pkgState, c.depState, c.marked, c.garbage, c`tally, c`sizes, c`groupLevel, c`swept, flags
      ensures c.Ready() && c.groupLevel == old(c.groupLevel)
      ensures !again ==> Recorded(flags[..], c.pkgState[..], |c.g.pkgs|)
      ensures InstallsKept(old(c.pkgState[..]), c.pkgState[..])
      ensures NotInstalled(c.pkgState[..]) <= NotInstalled(old(c.pkgState[..]))
      ensures again ==> NotInstalled(c.pkgState[..]) < NotInstalled(old(c.pkgState[..]))
      ensures c.g.Valid() && |c.pkgState[..]| == |c.g.pkgs|
      ensures brokenFix && OnlySummaries(old(c.pkgState[..]), c.pkgState[..]) ==>
        Tried(c.g, c.pkgState[..], |c.pkgState[..]|)
    {
      hide *;
      again := false;
      c.ReadyFacts();
      ghost var start := c.pkgState[..];
      NobodyTried(c.g, start);
      NothingRecorded(flags[..], c.pkgState[..]);
      InstallsKeptStart(c.pkgState[..]);
      for p := 0 to |c.g.pkgs|
        invariant c.Ready() && c.groupLevel == old(c.groupLevel)
        invariant !again ==> Recorded(flags[..], c.pkgState[..], p)
        invariant InstallsKept(old(c.pkgState[..]), c.pkgState[..])
        invariant NotInstalled(c.pkgState[..]) <= NotInstalled(old(c.pkgState[..]))
        invariant again ==> NotInstalled(c.pkgState[..]) < NotInstalled(old(c.pkgState[..]))
        invariant c.g.Valid() && |c.pkgState[..]| == |start| == |c.g.pkgs| && SameFrom(start, c.pkgState[..], p)
        invariant brokenFix && OnlySummaries(start, c.pkgState[..]) ==> Tried(c.g, c.pkgState[..], p)
      {
        ghost var ps, before := c.pkgState[..], flags[..];
        c.ReadyFacts();
        var now := RecordPackage(p, brokenFix);
        SameFromNext(start, ps, c.pkgState[..], p);
        if brokenFix { TriedOneMore(c.g, start, ps, c.pkgState[..], p); }
        if OnlyTouched(ps, c.pkgState[..], p) { InstallsGrow(ps, c.pkgState[..], p); }
        if !again && !now { RecordedStep(before, flags[..], ps, c.pkgState[..], p); }
        TouchedKeepsInstalls(ps, c.pkgState[..], p);
        InstallsKeptOn(old(c.pkgState[..]), ps, c.pkgState[..]);
        again := again || now;
      }
    }

    /** New installations the caller did not ask for are automatic ones; nothing else changes. */
    method SetAutoFlags()
      requires c.Ready() && c.groupLevel > 0 && flags.Length == |c.g.pkgs| == |c.pkgState[..]|
      modifies c.pkgState
      ensures c.Ready() && c.pkgState[..] == AutoFlagged(flags[..], old(c.pkgState[..]), |c.g.pkgs|)
    {
      hide *;
      ghost var ps := c.pkgState[..];
      NoneFlagged(flags[..], ps);
      for p := 0 to |c.g.pkgs|
        invariant c.Ready() && c.pkgState[..] == AutoFlagged(flags[..], ps, p)
      {
        c.ReadyFacts();
        c.ModeFacts(p);
        AutoFlaggedStep(flags[..], ps, p);
        if c.pkgState[p].NewInstall() && !flags[p].preInstalled {
          AutoIsQuiet(c.g, c.pkgState[..], p, true);
          c.RewriteInGroup(p, c.pkgState[p].(auto := true));
        }
      }
    }

    /** Trying to reinstate a package clears its flags; only installed packages are ever tried. */
    method ClearFlags(tried: seq<nat>)
      requires flags.Length == |c.g.pkgs|
      modifies flags
      ensures forall p :: 0 <= p < flags.Length ==>
        flags[p] == if p in tried && c.g.pkgs[p].currentVer.Some? then ResolverFlags(false, false) else old(flags[p])
    {
      for i := 0 to |tried|
        invariant forall p :: 0 <= p < flags.Length ==>
          flags[p] == if p in tried[..i] && c.g.pkgs[p].currentVer.Some? then ResolverFlags(false, false)
            else old(flags[p])
      {
        assert tried[..i + 1] == tried[..i] + [tried[i]];
        if tried[i] < flags.Length && c.g.pkgs[tried[i]].currentVer.Some? {
          flags[tried[i]] := ResolverFlags(false, false);
        }
      }
      assert tried[..|tried|] == tried;
    }

    /**
      `fixing` is whatever the second phase does to the cache, `tried` what it tried to reinstate, and
      `fixed` the records it leaves. `recorded` are the records whose installations the flags tell.
    */
    method ResolveInternal(brokenFix: bool, fixing: seq<Op>, tried: seq<nat>)
      returns (ok: bool, ghost recorded: seq<PkgState>, ghost fixed: seq<PkgState>)
      requires c.Ready() && flags.Length == |c.g.pkgs| && forall i :: 0 <= i < |fixing| ==> InRange(c.g, fixing[i])
      modifies c.pkgState, c.depState, c.marked, c.garbage, c`tally, c`sizes, c`groupLevel, c`swept, flags
      ensures c.Ready() && c.groupLevel == old(c.groupLevel) && ValidStates(c.g, c.pkgState[..])
      ensures ok ==> Satisfied(c.g, c.pkgState[..])
      ensures |fixed| == |recorded| == flags.Length && InstallsKept(old(c.pkgState[..]), recorded)
      ensures forall p :: 0 <= p < flags.Length ==>
        flags[p] == if p in tried && c.g.pkgs[p].currentVer.Some? then ResolverFlags(false, false)
                    else ResolverFlags(recorded[p].Install(), true)
      ensures c.pkgState[..] == if ok then AutoFlagged(flags[..], fixed, |fixed|) else fixed
      ensures ok ==> AutoFlagsSet(flags[..], c.pkgState[..], |c.g.pkgs|)
      ensures !ok ==> !AllMet(c.g, c.pkgState[..])
    {
      hide *;
      c.IncreaseActionGroupLevel();
      var _, _ := RecordInstalls(brokenFix);
      recorded := c.pkgState[..];
      RecordedMeans(flags[..], recorded);
      Run(c, fixing);
      ClearFlags(tried);
      ok := c.tally.broken == 0;
      c.ReadyFacts();
      fixed := c.pkgState[..];
      if ok {
        SetAutoFlags();
        AutoFlaggedMeans(flags[..], fixed);
      }
      c.ReadyFacts();
      c.ReadyState();
      CounterTells(c.g, c.State());
      c.ReadyFacts();
      c.Release(false);
    }
  }

  lemma RecordedMeans(flags: seq<ResolverFlags>, ps: seq<PkgState>)
    requires Recorded(flags, ps, |ps|)
    ensures |flags| == |ps| && forall p :: 0 <= p < |ps| ==> flags[p] == ResolverFlags(ps[p].Install(), true)
  {
  }

  lemma InstallsKeptStart(ps: seq<PkgState>)
    ensures InstallsKept(ps, ps)
  {
  }

  lemma NoneFlagged(flags: seq<ResolverFlags>, ps: seq<PkgState>)
    requires |flags| == |ps|
    ensures AutoFlagged(flags, ps, 0) == ps
  {
  }

  lemma NothingRecorded(flags: seq<ResolverFlags>, ps: seq<PkgState>)
    requires |flags| == |ps|
    ensures Recorded(flags, ps, 0)
  {
  }

  lemma BrokenEither(st: PkgState, allowed: bool)
    requires BrokenOrNewPolicy(st, allowed)
    ensures st.InstBroken() || st.InstPolicyBroken()
  {
  }

  lemma GroupEndInRange(g: Graph, v: nat, i: nat)
    requires v < |g.vers| && g.ValidVersion(v) && GroupEnd(g, v, i)
    ensures i < |g.vers[v].depends| && g.vers[v].depends[i] < |g.deps|
  {
  }
}
