/**
  What the counters mean: the number of broken packages is zero exactly when the
  selected versions satisfy each other's hard dependencies.
*/
module DepMeaning {
  import opened Wrappers
  import opened DepGraph
  import opened DepBytes
  import opened DepSpec
  import opened DepLemmas
  import opened DepRepair

  // ---------- The two ways to build or-group bytes ----------

  /**
    Rebuilding a version from low bits that are right for what is installed and selected writes, for
    both, the bytes a full pass over the same records writes; from low bits that are right
    altogether it writes those bytes.
  */
  lemma BuildersAgree(g: Graph, base: seq<PkgState>, ps: seq<PkgState>, full: seq<Byte>, t: Tally, z: Sizes,
                      ds: seq<Byte>, ds': seq<Byte>, v: nat, d: nat)
    requires FullyComputed(g, base, ps, full, t, z, |g.pkgs|)
    requires v < |g.vers| && |ds| == |g.deps| && BuiltFrom(g, ds, ds', v) && d < |ds| && g.deps[d].parentVer == v
    requires forall e :: 0 <= e < |ds| && g.deps[e].parentVer == v ==> LowOk(g, base, ds, e)
    ensures |ds'| == |full| == |ds| && ds'[d].Agrees(full[d])
    ensures LowExact(g, base, ds, v) ==> ds'[d] == full[d]
  {
    assert g.ValidDependency(d) && g.ValidVersion(v);
    var raw, checked := RawsStored(g, ds), RawsChecked(g, base);
    assert full[d] == FullByte(g, checked, d) && ds'[d] == CanonByte(g, raw, v, g.deps[d].pos);
    hide CanonByte, Rebuilt, FullByte, RawState, SummariesDone, SumsDone;
    forall j | 0 <= j <= g.deps[d].pos
      ensures raw[g.vers[v].depends[j]].Agrees(checked[g.vers[v].depends[j]])
      ensures LowExact(g, base, ds, v) ==> raw[g.vers[v].depends[j]] == checked[g.vers[v].depends[j]]
    {
      assert LowOk(g, base, ds, g.vers[v].depends[j]);
    }
    CanonByteAgrees(g, raw, checked, v, g.deps[d].pos);
    if LowExact(g, base, ds, v) { SameRawsSameByte(g, raw, checked, v, g.deps[d].pos); }
    FullByteIs(g, checked, d);
  }

  /** The low bits of version v are those of a fresh check, the candidate bit included. */
  ghost predicate LowExact(g: Graph, ps: seq<PkgState>, ds: seq<Byte>, v: nat)
    requires ValidStates(g, ps) && |ds| == |g.deps|
  {
    forall d :: 0 <= d < |ds| && g.deps[d].parentVer == v ==> RawOf(ds[d], g.IsNegative(d)) == RawState(g, ps, d)
  }

  lemma SameRawsSameByte(g: Graph, raw: seq<Bits>, raw': seq<Bits>, v: nat, i: nat)
    requires v < |g.vers| && g.ValidVersion(v) && i < |g.vers[v].depends| && |raw| == |raw'| == |g.deps|
    requires forall j :: 0 <= j <= i ==> raw[g.vers[v].depends[j]] == raw'[g.vers[v].depends[j]]
    ensures CanonByte(g, raw, v, i) == CanonByte(g, raw', v, i)
  {
    GroupBeforeSame(g, raw, raw', v, i);
  }

  lemma FullByteIs(g: Graph, raw: seq<Bits>, d: nat)
    requires g.Valid() && |raw| == |g.deps| && d < |raw|
    ensures g.deps[d].parentVer < |g.vers| && g.ValidVersion(g.deps[d].parentVer)
    ensures g.deps[d].pos < |g.vers[g.deps[d].parentVer].depends|
    ensures FullByte(g, raw, d) == CanonByte(g, raw, g.deps[d].parentVer, g.deps[d].pos)
  {
    assert g.ValidDependency(d) && g.ValidVersion(g.deps[d].parentVer);
  }

  /** Rebuilding twice is rebuilding once. */
  lemma RebuildIdempotent(g: Graph, ds: seq<Byte>, ds1: seq<Byte>, ds2: seq<Byte>, v: nat)
    requires g.Valid() && v < |g.vers| && |ds| == |g.deps| && BuiltFrom(g, ds, ds1, v)
    requires |ds1| == |g.deps| && BuiltFrom(g, ds1, ds2, v)
    ensures ds2 == ds1
  {
    assert g.ValidVersion(v);
    BytesRebuilt(g, ds, ds1, v);
    forall d | 0 <= d < |ds1| ensures ds2[d] == ds1[d] {
      if g.deps[d].parentVer == v {
        assert g.ValidDependency(d);
      }
    }
  }

  // ---------- One or-group ----------

  /**
    What the last byte of an or-group tells about it: with a positive last member that some member
    is a hit, with a negative one that this last member is none, whatever the others are.
  */
  ghost predicate GroupMet(g: Graph, ps: seq<PkgState>, v: nat, i: nat, ty: VersionType)
    requires ValidStates(g, ps) && v < |g.vers|
  {
    assert g.ValidVersion(v);
    var l := g.vers[v].depends;
    i < |l| ==>
      if g.IsNegative(l[i]) then !DepHit(g, ps, l[i], ty)
      else exists j :: GroupStart(g, v, i) <= j <= i && DepHit(g, ps, l[j], ty)
  }

  lemma GroupByteRaw(g: Graph, raw: seq<Bits>, v: nat, i: nat, ty: VersionType)
    requires v < |g.vers| && g.ValidVersion(v) && |raw| == |g.deps| && i < |g.vers[v].depends|
    ensures var l := g.vers[v].depends;
      Passes(CanonByte(g, raw, v, i), ty) <==>
        if g.IsNegative(l[i]) then !raw[l[i]].At(ty)
        else exists j :: GroupStart(g, v, i) <= j <= i && raw[l[j]].At(ty)
  {
    var l := g.vers[v].depends;
    PassesStored(raw[l[i]], GroupBefore(g, raw, v, i), g.IsNegative(l[i]), ty);
    GroupBeforeBit(g, raw, v, i, ty);
    hide GroupBefore, GroupStart, Passes, Stored;
    if raw[l[i]].At(ty) {
      assert GroupStart(g, v, i) <= i <= i && raw[l[i]].At(ty);
    }
  }

  lemma LowIsHit(g: Graph, ps: seq<PkgState>, ds: seq<Byte>, d: nat, ty: VersionType)
    requires ValidStates(g, ps) && |ds| == |g.deps| && d < |ds| && LowOk(g, ps, ds, d) && ty != CandidateVersion
    ensures RawsStored(g, ds)[d].At(ty) <==> DepHit(g, ps, d, ty)
  {
    hide DepHit;
  }

  /** Canonical bytes with correct low bits pass the test of the version scan iff the group is met. */
  lemma GroupByteMeaning(g: Graph, ps: seq<PkgState>, ds: seq<Byte>, v: nat, i: nat, ty: VersionType)
    requires ValidStates(g, ps) && |ds| == |g.deps| && v < |g.vers| && ty != CandidateVersion
    requires Canonical(g, ds, v) && forall d :: 0 <= d < |ds| ==> LowOk(g, ps, ds, d)
    requires g.ValidVersion(v) && GroupEnd(g, v, i)
    ensures GroupFails(g, ds, v, i, ty) <==> !GroupMet(g, ps, v, i, ty)
  {
    var l, raw := g.vers[v].depends, RawsStored(g, ds);
    assert ds[l[i]] == CanonByte(g, raw, v, i);
    GroupByteRaw(g, raw, v, i, ty);
    hide LowOk, DepHit, RawsStored, Canonical, CanonByte, GroupStart, Passes;
    forall j | 0 <= j <= i ensures raw[l[j]].At(ty) <==> DepHit(g, ps, l[j], ty) {
      LowIsHit(g, ps, ds, l[j], ty);
    }
  }

  // ---------- All packages ----------

  /** Every hard requirement of version v is met. */
  ghost predicate VerMet(g: Graph, ps: seq<PkgState>, v: nat, ty: VersionType)
    requires ValidStates(g, ps) && v < |g.vers|
  {
    assert g.ValidVersion(v);
    forall i :: GroupEnd(g, v, i) && g.IsCritical(g.vers[v].depends[GroupStart(g, v, i)]) ==> GroupMet(g, ps, v, i, ty)
  }

  /** ... and everything the policy asks for besides. */
  ghost predicate VerPolicyMet(g: Graph, ps: seq<PkgState>, v: nat, ty: VersionType)
    requires ValidStates(g, ps) && v < |g.vers|
  {
    assert g.ValidVersion(v);
    forall i :: GroupEnd(g, v, i) && g.IsImportantDep(g.vers[v].depends[GroupStart(g, v, i)]) ==>
      GroupMet(g, ps, v, i, ty)
  }

  /** Every hard requirement of the version selected for p is met. */
  ghost predicate PkgMet(g: Graph, ps: seq<PkgState>, p: nat)
    requires ValidStates(g, ps) && p < |ps|
  {
    assert g.OwnVersion(p, ps[p].installVer);
    ps[p].installVer.Some? ==> VerMet(g, ps, ps[p].installVer.value, InstallVersion)
  }

  /** Selecting what is selected for p leaves policy wishes open that are met for what is installed now. */
  ghost predicate PolicyWorse(g: Graph, ps: seq<PkgState>, p: nat)
    requires ValidStates(g, ps) && p < |ps|
  {
    assert g.OwnVersion(p, ps[p].installVer) && g.ValidPackage(p);
    && (ps[p].installVer.Some? && !VerPolicyMet(g, ps, ps[p].installVer.value, InstallVersion))
    && (g.pkgs[p].currentVer.Some? ==> VerPolicyMet(g, ps, g.pkgs[p].currentVer.value, NowVersion))
  }

  /** What the scan of one version finds. */
  lemma ScanMeaning(g: Graph, ps: seq<PkgState>, ds: seq<Byte>, v: nat, ty: VersionType)
    requires ValidStates(g, ps) && |ds| == |g.deps| && v < |g.vers| && ty != CandidateVersion
    requires Canonical(g, ds, v) && forall d :: 0 <= d < |ds| ==> LowOk(g, ps, ds, d)
    ensures MinFails(g, ds, v, ty) <==> !VerMet(g, ps, v, ty)
    ensures PolicyFails(g, ds, v, ty) <==> !VerPolicyMet(g, ps, v, ty)
  {
    assert g.ValidVersion(v);
    hide LowOk, Canonical, GroupMet, GroupStart, g.IsCritical, GroupFails;
    forall i | GroupEnd(g, v, i)
      ensures GroupFails(g, ds, v, i, ty) <==> !GroupMet(g, ps, v, i, ty)
      ensures MinGroupFails(g, ds, v, i, ty) <==>
        g.IsCritical(g.vers[v].depends[GroupStart(g, v, i)]) && !GroupMet(g, ps, v, i, ty)
      ensures PolicyGroupFails(g, ds, v, i, ty) || MinGroupFails(g, ds, v, i, ty) <==>
        g.IsImportantDep(g.vers[v].depends[GroupStart(g, v, i)]) && !GroupMet(g, ps, v, i, ty)
    {
      GroupByteMeaning(g, ps, ds, v, i, ty);
    }
    forall i | MinGroupFails(g, ds, v, i, ty) || PolicyGroupFails(g, ds, v, i, ty) ensures GroupEnd(g, v, i) {
      FailingEnds(g, ds, v, i, ty);
    }
  }

  lemma FailingEnds(g: Graph, ds: seq<Byte>, v: nat, i: nat, ty: VersionType)
    requires g.Valid() && v < |g.vers| && |ds| == |g.deps| && g.ValidVersion(v)
    requires MinGroupFails(g, ds, v, i, ty) || PolicyGroupFails(g, ds, v, i, ty)
    ensures GroupEnd(g, v, i)
  {
  }

  /** The brokenness bits of a record say whether requirements and policy wishes are met. */
  lemma PkgBrokenMeaning(g: Graph, s: CacheState, p: nat)
    requires Consistent(g, s) && p < |s.ps|
    ensures s.ps[p].InstBroken() <==> !PkgMet(g, s.ps, p)
    ensures !s.ps[p].NowPolicyBroken() && s.ps[p].InstPolicyBroken() <==> PolicyWorse(g, s.ps, p)
  {
    assert SummaryOk(g, s.ps, s.ds, p) && g.OwnVersion(p, s.ps[p].installVer) && g.ValidPackage(p);
    var cur, inst := g.pkgs[p].currentVer, s.ps[p].installVer;
    hide LowOk, Canonical, MinFails, PolicyFails, VerMet, VerPolicyMet, Total, TotalSizes, StateContribs, SizeContribs;
    if inst.Some? { ScanMeaning(g, s.ps, s.ds, inst.value, InstallVersion); }
    if cur.Some? { ScanMeaning(g, s.ps, s.ds, cur.value, NowVersion); }
  }

  lemma {:induction false} NoneBroken(c: seq<Tally>)
    ensures Total(c).broken == 0 <==> forall p :: 0 <= p < |c| ==> c[p].broken == 0
  {
    if c != [] {
      var n := |c| - 1;
      NoneBroken(c[..n]);
      assert forall p :: 0 <= p < n ==> c[..n][p] == c[p];
    }
  }

  /** No broken packages: every selected version has all its hard requirements met. */
  lemma BrokenCountMeaning(g: Graph, s: CacheState)
    requires Consistent(g, s)
    ensures s.tally.broken == 0 <==> forall p :: 0 <= p < |s.ps| ==> PkgMet(g, s.ps, p)
  {
    hide *;
    BrokenCountSplit(g, s);
    var c := StateContribs(g, s.ps);
    NoneBroken(c);
    forall p | 0 <= p < |s.ps| ensures c[p].broken == 0 <==> PkgMet(g, s.ps, p) {
      PkgBrokenMeaning(g, s, p);
      BrokenBit(g, s.ps, p);
    }
  }

  lemma BrokenCountSplit(g: Graph, s: CacheState)
    requires Consistent(g, s)
    ensures ValidStates(g, s.ps) && |s.ps| == |g.pkgs| && s.tally == Total(StateContribs(g, s.ps))
  {
  }

  lemma BrokenBit(g: Graph, ps: seq<PkgState>, p: nat)
    requires |ps| == |g.pkgs| && p < |ps|
    ensures |StateContribs(g, ps)| == |ps| && (StateContribs(g, ps)[p].broken == 0 <==> !ps[p].InstBroken())
  {
  }

  // ---------- The selection ----------

  predicate Selected(g: Graph, ps: seq<PkgState>, v: nat)
    requires |ps| == |g.pkgs|
  {
    v < |g.vers| && g.vers[v].parentPkg < |ps| && ps[g.vers[v].parentPkg].installVer == Some(v)
  }

  /** Version w is one dependency d asks for, by its own name or by a name it provides. */
  ghost predicate Matches(g: Graph, d: nat, w: nat)
    requires g.Valid() && d < |g.deps|
  {
    assert g.ValidDependency(d) && g.ValidPackage(g.deps[d].target);
    var D := g.deps[d];
    && w < |g.vers|
    && ((g.vers[w].parentPkg == D.target && w in D.satVers && !g.IsIgnorablePkg(d, D.target))
        || (D.kind != Obsoletes && MatchesByName(g, d, w)))
  }

  ghost predicate MatchesByName(g: Graph, d: nat, w: nat)
    requires g.Valid() && d < |g.deps|
  {
    assert g.ValidDependency(d) && g.ValidPackage(g.deps[d].target);
    var l := g.pkgs[g.deps[d].target].providesList;
    exists k :: 0 <= k < |l| && ProvidesMatch(g, d, l[k], w)
  }

  predicate ProvidesMatch(g: Graph, d: nat, r: nat, w: nat)
    requires g.Valid() && d < |g.deps| && r < |g.prvs|
  {
    g.prvs[r].ownerVer == w && r in g.deps[d].satPrvs && !g.IsIgnorablePrv(d, r)
  }

  /** The cache's check of a dependency finds exactly the selected versions matching it. */
  lemma HitIsMatch(g: Graph, ps: seq<PkgState>, d: nat)
    requires ValidStates(g, ps) && d < |g.deps|
    ensures DepHit(g, ps, d, InstallVersion) <==> exists w :: Selected(g, ps, w) && Matches(g, d, w)
  {
    assert g.ValidDependency(d) && g.ValidPackage(g.deps[d].target);
    var t := g.deps[d].target;
    var l := g.pkgs[t].providesList;
    assert g.OwnVersion(t, ps[t].installVer);
    if TargetHit(g, ps, d, InstallVersion) {
      assert Selected(g, ps, ps[t].installVer.value) && Matches(g, d, ps[t].installVer.value);
    }
    forall k | 0 <= k < |l| && PrvHit(g, ps, d, l[k], InstallVersion)
      ensures ProvidesMatch(g, d, l[k], g.prvs[l[k]].ownerVer) && Selected(g, ps, g.prvs[l[k]].ownerVer)
    {
      assert g.ValidProvides(l[k]) && g.OwnVersion(g.OwnerPkg(l[k]), ps[g.OwnerPkg(l[k])].installVer);
    }
    forall k, w | 0 <= k < |l| && ProvidesMatch(g, d, l[k], w) && Selected(g, ps, w)
      ensures PrvHit(g, ps, d, l[k], InstallVersion)
    {
    }
  }

  /**
    Negative dependencies have no alternatives and positive groups have no negative members: section
    7.1 of the Debian Policy Manual allows alternatives in Depends, Recommends, Suggests and Pre-Depends only.
  */
  ghost predicate NegativesStandAlone(g: Graph)
    requires g.Valid()
  {
    forall v, i :: 0 <= v < |g.vers| && 0 <= i < |g.vers[v].depends| ==> StandsAlone(g, v, i)
  }

  ghost predicate StandsAlone(g: Graph, v: nat, i: nat)
    requires g.Valid() && v < |g.vers|
  {
    assert g.ValidVersion(v);
    i < |g.vers[v].depends| && g.IsNegative(g.vers[v].depends[i]) ==> GroupEnd(g, v, i) && GroupStart(g, v, i) == i
  }

  /** Each critical positive or-group of a selected version has a member some selected version satisfies. */
  ghost predicate Closed(g: Graph, ps: seq<PkgState>)
    requires ValidStates(g, ps)
  {
    forall v: nat, i: nat :: Selected(g, ps, v) && 0 <= i < |g.vers[v].depends| ==> GroupClosed(g, ps, v, i)
  }

  ghost predicate GroupClosed(g: Graph, ps: seq<PkgState>, v: nat, i: nat)
    requires ValidStates(g, ps) && v < |g.vers|
  {
    assert g.ValidVersion(v);
    var l := g.vers[v].depends;
    GroupEnd(g, v, i) && g.IsCritical(l[GroupStart(g, v, i)]) && !g.IsNegative(l[i]) ==>
      exists j, w :: GroupStart(g, v, i) <= j <= i && Selected(g, ps, w) && Matches(g, l[j], w)
  }

  /** No negative dependency of a selected version matches a selected version. */
  ghost predicate ConflictFree(g: Graph, ps: seq<PkgState>)
    requires ValidStates(g, ps)
  {
    forall v: nat, i: nat :: Selected(g, ps, v) && 0 <= i < |g.vers[v].depends| ==> NoConflict(g, ps, v, i)
  }

  ghost predicate NoConflict(g: Graph, ps: seq<PkgState>, v: nat, i: nat)
    requires ValidStates(g, ps) && v < |g.vers|
  {
    assert g.ValidVersion(v);
    i < |g.vers[v].depends| && g.IsNegative(g.vers[v].depends[i]) ==>
      forall w :: Selected(g, ps, w) ==> !Matches(g, g.vers[v].depends[i], w)
  }

  /** Entry i is a negative dependency the scan of version v never judges by itself. */
  ghost predicate Unjudged(g: Graph, v: nat, i: nat)
    requires g.Valid() && v < |g.vers|
  {
    assert g.ValidVersion(v);
    var l := g.vers[v].depends;
    i < |l| && g.IsNegative(l[i]) && !(GroupEnd(g, v, i) && g.IsCritical(l[GroupStart(g, v, i)]))
  }

  /** No negative dependency that is judged matches a selected version. */
  ghost predicate NoJudgedConflict(g: Graph, ps: seq<PkgState>)
    requires ValidStates(g, ps)
  {
    forall v: nat, i: nat :: Selected(g, ps, v) && 0 <= i < |g.vers[v].depends| && !Unjudged(g, v, i) ==>
      NoConflict(g, ps, v, i)
  }

  /** No negative dependency that is not judged matches one, either. */
  ghost predicate NoHiddenConflict(g: Graph, ps: seq<PkgState>)
    requires ValidStates(g, ps)
  {
    forall v: nat, i: nat :: Selected(g, ps, v) && 0 <= i < |g.vers[v].depends| && Unjudged(g, v, i) ==>
      NoConflict(g, ps, v, i)
  }

  lemma GroupMetMeaning(g: Graph, ps: seq<PkgState>, v: nat, i: nat)
    requires ValidStates(g, ps) && v < |g.vers| && g.ValidVersion(v) && GroupEnd(g, v, i)
    requires g.IsCritical(g.vers[v].depends[GroupStart(g, v, i)])
    ensures GroupMet(g, ps, v, i, InstallVersion) <==> GroupClosed(g, ps, v, i) && NoConflict(g, ps, v, i)
  {
    var l := g.vers[v].depends;
    forall j | 0 <= j <= i
      ensures DepHit(g, ps, l[j], InstallVersion) <==> exists w :: Selected(g, ps, w) && Matches(g, l[j], w)
    {
      HitIsMatch(g, ps, l[j]);
    }
    hide DepHit, Matches, Selected;
  }

  /** What entry i contributes to its version being met. */
  ghost predicate EntryMet(g: Graph, ps: seq<PkgState>, v: nat, i: nat)
    requires ValidStates(g, ps) && v < |g.vers|
  {
    GroupClosed(g, ps, v, i) && (!Unjudged(g, v, i) ==> NoConflict(g, ps, v, i))
  }

  lemma EntryMetMeaning(g: Graph, ps: seq<PkgState>, v: nat, i: nat)
    requires ValidStates(g, ps) && v < |g.vers| && g.ValidVersion(v) && i < |g.vers[v].depends|
    ensures EntryMet(g, ps, v, i) <==>
      (GroupEnd(g, v, i) && g.IsCritical(g.vers[v].depends[GroupStart(g, v, i)]) ==>
        GroupMet(g, ps, v, i, InstallVersion))
  {
    if GroupEnd(g, v, i) && g.IsCritical(g.vers[v].depends[GroupStart(g, v, i)]) {
      GroupMetMeaning(g, ps, v, i);
    }
    hide GroupMet, GroupStart, Matches, Selected;
  }

  lemma PkgMetMeaning(g: Graph, ps: seq<PkgState>, p: nat)
    requires ValidStates(g, ps) && p < |ps| && ps[p].installVer.Some?
    ensures ps[p].installVer.value < |g.vers| && Selected(g, ps, ps[p].installVer.value)
    ensures PkgMet(g, ps, p) <==>
      forall i :: 0 <= i < |g.vers[ps[p].installVer.value].depends| ==> EntryMet(g, ps, ps[p].installVer.value, i)
  {
    assert g.OwnVersion(p, ps[p].installVer);
    var v := ps[p].installVer.value;
    assert g.ValidVersion(v);
    hide EntryMet, GroupMet, GroupStart;
    forall i | 0 <= i < |g.vers[v].depends|
      ensures EntryMet(g, ps, v, i) <==>
        (GroupEnd(g, v, i) && g.IsCritical(g.vers[v].depends[GroupStart(g, v, i)]) ==>
          GroupMet(g, ps, v, i, InstallVersion))
    {
      EntryMetMeaning(g, ps, v, i);
    }
    assert forall i: nat :: GroupEnd(g, v, i) ==> i < |g.vers[v].depends|;
  }

  /**
    What the broken count says, exactly: it is zero iff the selection is closed and no negative
    dependency that ends an or-group with a critical start matches a selected version.
  */
  lemma BrokenCountExact(g: Graph, s: CacheState)
    requires Consistent(g, s)
    ensures ValidStates(g, s.ps)
    ensures s.tally.broken == 0 <==> Closed(g, s.ps) && NoJudgedConflict(g, s.ps)
  {
    hide *;
    BrokenCountSplit(g, s);
    BrokenCountMeaning(g, s);
    ClosedMeaning(g, s.ps);
  }

  /**
    When a broken count of zero can be trusted: it always means a closed selection, is zero for every
    closed and conflict-free one, and means freedom from conflicts iff there is no hidden conflict.
  */
  lemma NothingBrokenMeans(g: Graph, s: CacheState)
    requires Consistent(g, s)
    ensures ValidStates(g, s.ps)
    ensures s.tally.broken == 0 ==> Closed(g, s.ps)
    ensures Closed(g, s.ps) && ConflictFree(g, s.ps) ==> s.tally.broken == 0
    ensures s.tally.broken == 0 ==> (ConflictFree(g, s.ps) <==> NoHiddenConflict(g, s.ps))
  {
    hide *;
    BrokenCountExact(g, s);
    ConflictsSplit(g, s.ps);
  }

  lemma ConflictsSplit(g: Graph, ps: seq<PkgState>)
    requires ValidStates(g, ps)
    ensures ConflictFree(g, ps) <==> NoJudgedConflict(g, ps) && NoHiddenConflict(g, ps)
  {
    hide NoConflict, Unjudged, Selected;
  }

  /** Where negative dependencies have no alternatives there is nothing a conflict could hide behind. */
  lemma NothingBrokenMeansClosed(g: Graph, s: CacheState)
    requires Consistent(g, s) && g.Valid() && NegativesStandAlone(g)
    ensures ValidStates(g, s.ps)
    ensures s.tally.broken == 0 <==> Closed(g, s.ps) && ConflictFree(g, s.ps)
  {
    hide *;
    BrokenCountSplit(g, s);
    NothingBrokenMeans(g, s);
    NothingHidden(g, s.ps);
  }

  lemma NothingHidden(g: Graph, ps: seq<PkgState>)
    requires ValidStates(g, ps) && NegativesStandAlone(g)
    ensures NoHiddenConflict(g, ps)
  {
    hide NoConflict;
    forall v: nat, i: nat | v < |g.vers| && i < |g.vers[v].depends| ensures !Unjudged(g, v, i) {
      assert StandsAlone(g, v, i);
    }
  }

  lemma ClosedMeaning(g: Graph, ps: seq<PkgState>)
    requires ValidStates(g, ps)
    ensures (forall p :: 0 <= p < |ps| ==> PkgMet(g, ps, p)) <==> Closed(g, ps) && NoJudgedConflict(g, ps)
  {
    hide PkgMet, GroupClosed, NoConflict, Unjudged;
    forall p | 0 <= p < |ps| && ps[p].installVer.Some?
      ensures ps[p].installVer.value < |g.vers| && Selected(g, ps, ps[p].installVer.value)
      ensures PkgMet(g, ps, p) <==>
        forall i :: 0 <= i < |g.vers[ps[p].installVer.value].depends| ==> EntryMet(g, ps, ps[p].installVer.value, i)
    {
      PkgMetMeaning(g, ps, p);
    }
    forall p | 0 <= p < |ps| && ps[p].installVer.None? ensures PkgMet(g, ps, p) { NothingSelectedIsMet(g, ps, p); }
    forall v: nat | Selected(g, ps, v)
      ensures exists p :: 0 <= p < |ps| && ps[p].installVer == Some(v)
    {
      assert ps[g.vers[v].parentPkg].installVer == Some(v);
    }
    if forall p :: 0 <= p < |ps| ==> PkgMet(g, ps, p) {
      forall v: nat, i: nat | Selected(g, ps, v) && i < |g.vers[v].depends|
        ensures GroupClosed(g, ps, v, i) && (!Unjudged(g, v, i) ==> NoConflict(g, ps, v, i))
      {
        assert EntryMet(g, ps, v, i);
      }
    }
  }

  lemma NothingSelectedIsMet(g: Graph, ps: seq<PkgState>, p: nat)
    requires ValidStates(g, ps) && p < |ps| && ps[p].installVer.None?
    ensures PkgMet(g, ps, p)
  {
  }

  // ---------- Negative dependencies with alternatives ----------

  function Plain(parentPkg: nat, depends: seq<nat>): Version {
    Version(parentPkg, depends, [], 0, 0, 0, 0, false, true, false, false, false)
  }

  function Installable(group: nat, v: nat, revDepends: seq<nat>): Package {
    Package(group, None, [v], revDepends, [], NeedsNothing, true, false, false, false, false)
  }

  /** Package 0 conflicts with package 1 "or" with package 2. */
  const ALTERNATIVE_CONFLICTS := Graph(
    [Installable(0, 0, []), Installable(1, 1, [0]), Installable(2, 2, [1])],
    [Plain(0, [0, 1]), Plain(1, []), Plain(2, [])],
    [Dependency(0, 0, 1, Conflicts, true, false, {1}, {}, [], []),
      Dependency(0, 1, 2, Conflicts, false, false, {2}, {}, [], [])],
    [], Config(true, false, false, false, false, true, true), 0, false)

  lemma VersionsValid(g: Graph, v: nat)
    requires g == ALTERNATIVE_CONFLICTS && v < 3
    ensures g.ValidVersion(v) && g.ValidPackage(v)
  {
    if v == 0 { assert g.vers[0].depends == [0, 1]; }
  }

  lemma DependenciesValid(g: Graph, d: nat)
    requires g == ALTERNATIVE_CONFLICTS && d < 2
    ensures g.ValidDependency(d)
  {
    assert g.vers[0].depends == [0, 1];
  }

  /** Such a graph exists. */
  lemma AlternativeConflictsExist(g: Graph)
    requires g == ALTERNATIVE_CONFLICTS
    ensures g.Valid() && AlternativeConflicts(g)
  {
    forall v: nat | v < 3 ensures g.ValidVersion(v) && g.ValidPackage(v) { VersionsValid(g, v); }
    forall d: nat | d < 2 ensures g.ValidDependency(d) { DependenciesValid(g, d); }
    hide g.ValidVersion, g.ValidPackage, g.ValidDependency;
  }

  /** Version 0 conflicts with version 1 "or" with version 2, and nothing else depends on anything. */
  ghost predicate AlternativeConflicts(g: Graph) {
    && |g.pkgs| == |g.vers| == 3 && |g.deps| == 2 && g.prvs == []
    && (forall p :: 0 <= p < 3 ==> g.pkgs[p].group == p && g.vers[p].parentPkg == p && g.pkgs[p].providesList == [])
    && g.vers[0].depends == [0, 1] && g.vers[1].depends == g.vers[2].depends == []
    && g.deps[0].target == 1 && g.deps[0].kind == Conflicts && g.deps[0].orNext && g.deps[0].satVers == {1}
    && g.deps[1].target == 2 && g.deps[1].kind == Conflicts && !g.deps[1].orNext
  }

  /**
    Without NegativesStandAlone the guarantee is lost: of alternative conflicts only the last is looked
    at, so packages 0 and 1 can be selected together and still nothing counts as broken.
  */
  lemma AlternativeConflictsMissed(g: Graph, s: CacheState)
    requires AlternativeConflicts(g) && Consistent(g, s)
    requires s.ps[0].installVer == Some(0) && s.ps[1].installVer == Some(1) && s.ps[2].installVer == None
    ensures s.tally.broken == 0 && !ConflictFree(g, s.ps)
  {
    BrokenCountMeaning(g, s);
    AlternativeConflictsSelection(g, s.ps);
  }

  lemma AlternativeConflictsSelection(g: Graph, ps: seq<PkgState>)
    requires AlternativeConflicts(g) && ValidStates(g, ps)
    requires ps[0].installVer == Some(0) && ps[1].installVer == Some(1) && ps[2].installVer == None
    ensures !ConflictFree(g, ps) && forall p :: 0 <= p < |ps| ==> PkgMet(g, ps, p)
  {
    ConflictIsThere(g, ps);
    LastConflictIsMet(g, ps);
    hide *;
    forall p | 0 <= p < |ps| ensures PkgMet(g, ps, p) {
      if p == 2 { NothingSelectedIsMet(g, ps, p); }
    }
  }

  lemma ConflictIsThere(g: Graph, ps: seq<PkgState>)
    requires AlternativeConflicts(g) && ValidStates(g, ps)
    requires ps[0].installVer == Some(0) && ps[1].installVer == Some(1)
    ensures !ConflictFree(g, ps)
  {
    assert g.ValidVersion(0) && g.ValidDependency(0);
    assert Selected(g, ps, 0) && Selected(g, ps, 1) && Matches(g, 0, 1);
    assert !NoConflict(g, ps, 0, 0);
  }

  lemma LastConflictIsMet(g: Graph, ps: seq<PkgState>)
    requires AlternativeConflicts(g) && ValidStates(g, ps)
    requires ps[0].installVer == Some(0) && ps[1].installVer == Some(1) && ps[2].installVer == None
    ensures |ps| == 3 && PkgMet(g, ps, 0) && PkgMet(g, ps, 1)
  {
    assert g.ValidVersion(0) && g.ValidVersion(1) && g.ValidDependency(1);
    assert !DepHit(g, ps, 1, InstallVersion);
    hide DepHit;
  }
}
