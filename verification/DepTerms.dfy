/**
  The verdicts of the cache read off the package data: which or-groups count, what a selection has
  to contain for one to hold, and what each counter and size total adds up to. Nothing here goes
  through the bytes, or through the predicates the cache itself asks.
*/
module DepTerms {
  import opened Wrappers
  import opened DepGraph
  import opened DepBytes
  import opened DepSpec
  import opened DepLemmas
  import opened DepRepair
  import opened DepMarks
  import opened DepMeaning
  import opened DepCheck

  // ---------- Or-groups ----------

  /** Entries a to b of version v's list are one whole or-group. */
  ghost predicate OrGroup(g: Graph, v: nat, a: nat, b: nat)
    requires g.Valid() && v < |g.vers|
  {
    assert g.ValidVersion(v);
    var l := g.vers[v].depends;
    && a <= b < |l| && (a > 0 ==> !g.deps[l[a - 1]].orNext)
    && (forall k :: a <= k < b ==> g.deps[l[k]].orNext) && !g.deps[l[b]].orNext
  }

  function KindAt(g: Graph, v: nat, i: nat): DepType
    requires v < |g.vers| && g.ValidVersion(v) && i < |g.vers[v].depends|
  {
    g.deps[g.vers[v].depends[i]].kind
  }

  /** Whoever selects version v has to see to the or-group that begins with entry i. */
  ghost predicate MustHold(g: Graph, v: nat, i: nat)
    requires g.Valid() && v < |g.vers|
  {
    assert g.ValidVersion(v);
    i < |g.vers[v].depends| && KindAt(g, v, i) in {Depends, PreDepends, Conflicts, Breaks, Obsoletes}
  }

  /** ... or should, if the policy is followed. */
  ghost predicate ShouldHold(g: Graph, v: nat, i: nat)
    requires g.Valid() && v < |g.vers|
  {
    assert g.ValidVersion(v);
    && i < |g.vers[v].depends|
    && match KindAt(g, v, i)
       case Recommends => g.config.installRecommends || g.vers[v].recommendsSection
       case Suggests => g.config.installSuggests
       case Replaces => false
       case Enhances => false
       case _ => true
  }

  lemma {:induction false} OrGroupStarts(g: Graph, v: nat, a: nat, b: nat)
    requires g.Valid() && v < |g.vers| && g.ValidVersion(v) && a <= b < |g.vers[v].depends|
    requires a > 0 ==> !g.deps[g.vers[v].depends[a - 1]].orNext
    requires forall k :: a <= k < b ==> g.deps[g.vers[v].depends[k]].orNext
    ensures GroupStart(g, v, b) == a
  {
    if b > a { OrGroupStarts(g, v, a, b - 1); }
  }

  lemma {:induction false} StartsOrGroup(g: Graph, v: nat, b: nat)
    requires g.Valid() && v < |g.vers| && g.ValidVersion(v) && b < |g.vers[v].depends|
    ensures var a := GroupStart(g, v, b);
      && (a > 0 ==> !g.deps[g.vers[v].depends[a - 1]].orNext)
      && forall k :: a <= k < b ==> g.deps[g.vers[v].depends[k]].orNext
  {
    if b > 0 && g.deps[g.vers[v].depends[b - 1]].orNext { StartsOrGroup(g, v, b - 1); }
  }

  lemma OrGroupIs(g: Graph, v: nat, a: nat, b: nat)
    requires g.Valid() && v < |g.vers| && g.ValidVersion(v)
    ensures OrGroup(g, v, a, b) <==> GroupEnd(g, v, b) && GroupStart(g, v, b) == a
  {
    if OrGroup(g, v, a, b) { OrGroupStarts(g, v, a, b); }
    if GroupEnd(g, v, b) { StartsOrGroup(g, v, b); }
  }

  // ---------- The scan of one version ----------

  /** Neither the result of entry b nor that of its or-group is set. */
  ghost predicate EndFails(g: Graph, ds: seq<Byte>, v: nat, b: nat, check: VersionType)
    requires g.Valid() && v < |g.vers| && |ds| == |g.deps|
  {
    assert g.ValidVersion(v);
    b < |g.vers[v].depends| && !ds[g.vers[v].depends[b]].low.At(check) && !ds[g.vers[v].depends[b]].group.At(check)
  }

  /** An or-group that has to hold fails by the byte of its last member. */
  ghost predicate MustFails(g: Graph, ds: seq<Byte>, v: nat, check: VersionType)
    requires g.Valid() && v < |g.vers| && |ds| == |g.deps|
  {
    exists a, b :: OrGroup(g, v, a, b) && MustHold(g, v, a) && EndFails(g, ds, v, b, check)
  }

  /** One that should hold does. */
  ghost predicate ShouldFails(g: Graph, ds: seq<Byte>, v: nat, check: VersionType)
    requires g.Valid() && v < |g.vers| && |ds| == |g.deps|
  {
    exists a, b :: OrGroup(g, v, a, b) && ShouldHold(g, v, a) && EndFails(g, ds, v, b, check)
  }

  /** The scan fails for an or-group whose first member says it has to hold, and on policy for one that should. */
  lemma ScanInTerms(g: Graph, ds: seq<Byte>, v: nat, check: VersionType)
    requires g.Valid() && v < |g.vers| && |ds| == |g.deps|
    ensures MinFails(g, ds, v, check) <==> MustFails(g, ds, v, check)
    ensures PolicyFails(g, ds, v, check) <==> ShouldFails(g, ds, v, check)
  {
    assert g.ValidVersion(v);
    forall i | MinGroupFails(g, ds, v, i, check) || PolicyGroupFails(g, ds, v, i, check)
      ensures OrGroup(g, v, GroupStart(g, v, i), i) && EndFails(g, ds, v, i, check)
      ensures ShouldHold(g, v, GroupStart(g, v, i))
      ensures MinGroupFails(g, ds, v, i, check) ==> MustHold(g, v, GroupStart(g, v, i))
    {
      OrGroupIs(g, v, GroupStart(g, v, i), i);
    }
    forall a, b | OrGroup(g, v, a, b) && EndFails(g, ds, v, b, check)
      ensures MustHold(g, v, a) ==> MinGroupFails(g, ds, v, b, check)
      ensures ShouldHold(g, v, a) ==> MinGroupFails(g, ds, v, b, check) || PolicyGroupFails(g, ds, v, b, check)
    {
      OrGroupIs(g, v, a, b);
    }
    hide OrGroup, MustHold, ShouldHold, EndFails, MinGroupFails, PolicyGroupFails;
  }

  /** What the scan learns from one or-group, of which entry i is the first and `end` the last. */
  lemma GroupScanned(g: Graph, ds: seq<Byte>, v: nat, i: nat, end: nat, check: VersionType)
    requires g.Valid() && v < |g.vers| && |ds| == |g.deps| && g.ValidVersion(v)
    requires GroupEnd(g, v, end) && GroupStart(g, v, end) == i && forall j :: i <= j < end ==> !GroupEnd(g, v, j)
    ensures i <= end < |g.vers[v].depends| && g.vers[v].depends[i] < |g.deps| && g.vers[v].depends[end] < |g.deps|
    ensures g.deps[g.vers[v].depends[i]].parentVer == v
    ensures forall j :: i <= j < end ==> !MinGroupFails(g, ds, v, j, check) && !PolicyGroupFails(g, ds, v, j, check)
    ensures var fails := !Passes(ds[g.vers[v].depends[end]], check);
      && (MinGroupFails(g, ds, v, end, check) <==> fails && g.IsCritical(g.vers[v].depends[i]))
      && (PolicyGroupFails(g, ds, v, end, check) <==>
            fails && !g.IsCritical(g.vers[v].depends[i]) && g.IsImportantDep(g.vers[v].depends[i]))
  {
  }

  lemma ScanStarts(g: Graph, ds: seq<Byte>, v: nat, check: VersionType)
    requires g.Valid() && v < |g.vers| && |ds| == |g.deps|
    ensures g.ValidVersion(v)
    ensures MinFails(g, ds, v, check) <==> exists i :: MinGroupFails(g, ds, v, i, check)
    ensures PolicyFails(g, ds, v, check) <==>
      MinFails(g, ds, v, check) || exists i :: PolicyGroupFails(g, ds, v, i, check)
    ensures forall i: nat :: MinGroupFails(g, ds, v, i, check) || PolicyGroupFails(g, ds, v, i, check) ==>
      i < |g.vers[v].depends|
  {
    assert g.ValidVersion(v);
  }

  // ---------- What holds of a selection ----------

  /** The versions there are now, and those there will be. */
  function Installed(g: Graph): (sel: seq<Option<nat>>)
    ensures |sel| == |g.pkgs|
  {
    seq(|g.pkgs|, p requires 0 <= p < |g.pkgs| => g.pkgs[p].currentVer)
  }

  function Selection(ps: seq<PkgState>): (sel: seq<Option<nat>>)
    ensures |sel| == |ps|
  {
    seq(|ps|, p requires 0 <= p < |ps| => ps[p].installVer)
  }

  /**
    The selection has what d names: the package itself in a version that fits, or a version that provides
    the name. A conflict does not concern the package it belongs to, nor names its group provides; one of
    a Multi-Arch: same package does not concern its siblings unless it was made for them, and such a one
    is not about provided names at all. Obsoletes never is.
  */
  ghost predicate Has(g: Graph, sel: seq<Option<nat>>, d: nat)
    requires g.Valid() && |sel| == |g.pkgs| && d < |g.deps|
  {
    assert g.ValidDependency(d) && g.ValidPackage(g.deps[d].target);
    var D := g.deps[d];
    var own := ParentOf(g, D.parentVer);
    var siblings := g.pkgs[own].group == g.pkgs[D.target].group;
    || (sel[D.target].Some? && sel[D.target].value in D.satVers
        && (D.kind in {Conflicts, Breaks, Obsoletes} ==>
              D.target != own && (siblings ==> !g.vers[D.parentVer].multiArchSame || D.multiArchImplicit)))
    || exists k :: 0 <= k < |g.pkgs[D.target].providesList| && HasProvider(g, sel, d, g.pkgs[D.target].providesList[k])
  }

  ghost predicate HasProvider(g: Graph, sel: seq<Option<nat>>, d: nat, r: nat)
    requires g.Valid() && |sel| == |g.pkgs| && d < |g.deps| && r < |g.prvs|
  {
    assert g.ValidDependency(d) && g.ValidProvides(r);
    var D, v := g.deps[d], g.prvs[r].ownerVer;
    && r in D.satPrvs && sel[ParentOf(g, v)] == Some(v) && D.kind != Obsoletes
    && (D.kind in {Conflicts, Breaks} ==>
          g.pkgs[ParentOf(g, v)].group != g.pkgs[ParentOf(g, D.parentVer)].group && !D.multiArchImplicit)
  }

  function Candidates(ps: seq<PkgState>): (sel: seq<Option<nat>>)
    ensures |sel| == |ps|
  {
    seq(|ps|, p requires 0 <= p < |ps| => ps[p].candidateVer)
  }

  lemma HitInTerms(g: Graph, ps: seq<PkgState>, d: nat)
    requires ValidStates(g, ps) && d < |g.deps|
    ensures DepHit(g, ps, d, NowVersion) <==> Has(g, Installed(g), d)
    ensures DepHit(g, ps, d, InstallVersion) <==> Has(g, Selection(ps), d)
    ensures DepHit(g, ps, d, CandidateVersion) <==> Has(g, Candidates(ps), d)
  {
    assert g.ValidDependency(d) && g.ValidPackage(g.deps[d].target);
    var l := g.pkgs[g.deps[d].target].providesList;
    forall k | 0 <= k < |l|
      ensures g.deps[d].kind != Obsoletes && PrvHit(g, ps, d, l[k], NowVersion) <==>
        HasProvider(g, Installed(g), d, l[k])
      ensures g.deps[d].kind != Obsoletes && PrvHit(g, ps, d, l[k], InstallVersion) <==>
        HasProvider(g, Selection(ps), d, l[k])
      ensures g.deps[d].kind != Obsoletes && PrvHit(g, ps, d, l[k], CandidateVersion) <==>
        HasProvider(g, Candidates(ps), d, l[k])
    {
      assert g.ValidProvides(l[k]);
    }
    hide PrvHit, HasProvider;
  }

  /** An or-group that ends in a conflict holds if that conflict does not apply, any other if one member is there. */
  ghost predicate Holds(g: Graph, sel: seq<Option<nat>>, v: nat, a: nat, b: nat)
    requires g.Valid() && |sel| == |g.pkgs| && v < |g.vers| && OrGroup(g, v, a, b)
  {
    assert g.ValidVersion(v);
    var l := g.vers[v].depends;
    if KindAt(g, v, b) in {Conflicts, Breaks, Obsoletes} then !Has(g, sel, l[b])
    else exists k :: a <= k <= b && Has(g, sel, l[k])
  }

  /** An or-group that has to hold does not. */
  ghost predicate Violated(g: Graph, sel: seq<Option<nat>>, v: nat)
    requires g.Valid() && |sel| == |g.pkgs| && v < |g.vers|
  {
    exists a, b :: OrGroup(g, v, a, b) && MustHold(g, v, a) && !Holds(g, sel, v, a, b)
  }

  /** An or-group that should hold does not. */
  ghost predicate Neglected(g: Graph, sel: seq<Option<nat>>, v: nat)
    requires g.Valid() && |sel| == |g.pkgs| && v < |g.vers|
  {
    exists a, b :: OrGroup(g, v, a, b) && ShouldHold(g, v, a) && !Holds(g, sel, v, a, b)
  }

  lemma MetInTerms(g: Graph, ps: seq<PkgState>, v: nat, a: nat, b: nat, ty: VersionType)
    requires ValidStates(g, ps) && v < |g.vers| && OrGroup(g, v, a, b) && ty != CandidateVersion
    ensures GroupMet(g, ps, v, b, ty) <==> Holds(g, if ty == NowVersion then Installed(g) else Selection(ps), v, a, b)
  {
    assert g.ValidVersion(v);
    OrGroupIs(g, v, a, b);
    hide OrGroup, GroupEnd, GroupStart;
    forall k | 0 <= k <= b
      ensures DepHit(g, ps, g.vers[v].depends[k], ty) <==>
        Has(g, if ty == NowVersion then Installed(g) else Selection(ps), g.vers[v].depends[k])
    {
      HitInTerms(g, ps, g.vers[v].depends[k]);
    }
    hide DepHit, Has;
  }

  lemma StartInTerms(g: Graph, v: nat, a: nat)
    requires g.Valid() && v < |g.vers| && g.ValidVersion(v) && a < |g.vers[v].depends|
    ensures var d := g.vers[v].depends[a];
      && d < |g.deps| && g.deps[d].parentVer < |g.vers|
      && (g.IsCritical(d) <==> MustHold(g, v, a)) && (g.IsImportantDep(d) <==> ShouldHold(g, v, a))
  {
  }

  lemma GroupInTerms(g: Graph, ps: seq<PkgState>, v: nat, b: nat, ty: VersionType)
    requires ValidStates(g, ps) && v < |g.vers| && g.ValidVersion(v) && GroupEnd(g, v, b) && ty != CandidateVersion
    ensures b < |g.vers[v].depends| && g.vers[v].depends[GroupStart(g, v, b)] < |g.deps|
    ensures g.deps[g.vers[v].depends[GroupStart(g, v, b)]].parentVer == v
    ensures var a, sel := GroupStart(g, v, b), if ty == NowVersion then Installed(g) else Selection(ps);
      && OrGroup(g, v, a, b) && (GroupMet(g, ps, v, b, ty) <==> Holds(g, sel, v, a, b))
      && (g.IsCritical(g.vers[v].depends[a]) <==> MustHold(g, v, a))
      && (g.IsImportantDep(g.vers[v].depends[a]) <==> ShouldHold(g, v, a))
  {
    var a := GroupStart(g, v, b);
    StartInTerms(g, v, a);
    OrGroupIs(g, v, a, b);
    MetInTerms(g, ps, v, a, b, ty);
    hide *;
  }

  /** What is required of a version, and wished for, in terms of the selection. */
  lemma VersionInTerms(g: Graph, ps: seq<PkgState>, v: nat, ty: VersionType)
    requires ValidStates(g, ps) && v < |g.vers| && ty != CandidateVersion
    ensures var sel := if ty == NowVersion then Installed(g) else Selection(ps);
      && (VerMet(g, ps, v, ty) <==> !Violated(g, sel, v))
      && (VerPolicyMet(g, ps, v, ty) <==> !Neglected(g, sel, v))
  {
    assert g.ValidVersion(v);
    var sel := if ty == NowVersion then Installed(g) else Selection(ps);
    hide GroupMet, Holds, OrGroup, GroupStart, MustHold, ShouldHold, g.IsCritical, g.IsImportantDep;
    forall b | GroupEnd(g, v, b)
      ensures var a := GroupStart(g, v, b);
        && OrGroup(g, v, a, b) && (GroupMet(g, ps, v, b, ty) <==> Holds(g, sel, v, a, b))
        && (g.IsCritical(g.vers[v].depends[a]) <==> MustHold(g, v, a))
        && (g.IsImportantDep(g.vers[v].depends[a]) <==> ShouldHold(g, v, a))
    {
      GroupInTerms(g, ps, v, b, ty);
    }
    forall a, b | OrGroup(g, v, a, b) ensures GroupEnd(g, v, b) && GroupStart(g, v, b) == a { OrGroupIs(g, v, a, b); }
    hide GroupEnd;
  }

  /** The group bit of the last byte: with a conflict at the end it is set when no member applies. */
  lemma GroupBitInTerms(g: Graph, s: CacheState, v: nat, a: nat, b: nat)
    requires Consistent(g, s) && v < |g.vers| && g.Valid() && OrGroup(g, v, a, b)
    ensures g.ValidVersion(v) && |s.ds| == |g.deps| && |s.ps| == |g.pkgs|
    ensures s.ds[g.vers[v].depends[b]].group.install <==>
      (KindAt(g, v, b) in {Conflicts, Breaks, Obsoletes}) !=
      exists k :: a <= k <= b && Has(g, Selection(s.ps), g.vers[v].depends[k])
  {
    assert g.ValidVersion(v) && Canonical(g, s.ds, v);
    var l, raw := g.vers[v].depends, RawsStored(g, s.ds);
    assert s.ds[l[b]] == CanonByte(g, raw, v, b);
    OrGroupIs(g, v, a, b);
    GroupBeforeBit(g, raw, v, b, InstallVersion);
    hide RawsStored, Canonical, SummaryOk, GroupBefore, GroupStart, OrGroup, Total, TotalSizes;
    forall k | a <= k <= b ensures raw[l[k]].At(InstallVersion) <==> Has(g, Selection(s.ps), l[k]) {
      LowIsHit(g, s.ps, s.ds, l[k], InstallVersion);
      HitInTerms(g, s.ps, l[k]);
    }
    hide DepHit, Has, LowOk, Consistent;
    if exists k :: a <= k <= b && raw[l[k]].At(InstallVersion) {
      var k :| a <= k <= b && raw[l[k]].At(InstallVersion);
      assert k == b || a <= k < b;
    }
  }

  // ---------- The counters ----------

  datatype Counter = Broken | PolicyBroken | Bad | Inst | Del | Keep | Upgrade

  function Get(t: Tally, k: Counter): nat {
    match k
    case Broken => t.broken
    case PolicyBroken => t.policyBroken
    case Bad => t.bad
    case Inst => t.inst
    case Del => t.del
    case Keep => t.keep
    case Upgrade => t.upgrade
  }

  lemma GetPlus(t: Tally, o: Tally, k: Counter)
    ensures Get(t.Plus(o), k) == Get(t, k) + Get(o, k)
  {
  }

  /** A counter that some packages raise by one and the others not at all is the number of the former. */
  lemma {:induction false} CountWith(c: seq<Tally>, k: Counter, w: set<nat>)
    requires (forall p :: p in w ==> p < |c|) && forall p :: 0 <= p < |c| ==> Get(c[p], k) == One(p in w)
    ensures Get(Total(c), k) == |w|
  {
    if c == [] {
      assert w == {};
    } else {
      var n := |c| - 1;
      CountWith(c[..n], k, w - {n});
      GetPlus(Total(c[..n]), c[n], k);
      hide Get;
      if n in w { assert w == (w - {n}) + {n}; } else { assert w == w - {n}; }
    }
  }

  /** Somebody selects a version of package p with an or-group that has to hold, and does not. */
  ghost predicate IsBroken(g: Graph, sel: seq<Option<nat>>, p: nat)
    requires g.Valid() && |sel| == |g.pkgs| && p < |sel|
  {
    sel[p].Some? && sel[p].value < |g.vers| && Violated(g, sel, sel[p].value)
  }

  ghost predicate IsNeglected(g: Graph, sel: seq<Option<nat>>, p: nat)
    requires g.Valid() && |sel| == |g.pkgs| && p < |sel|
  {
    sel[p].Some? && sel[p].value < |g.vers| && Neglected(g, sel, sel[p].value)
  }

  /** The four brokenness bits of a record. */
  lemma BrokenInTerms(g: Graph, s: CacheState, p: nat)
    requires Consistent(g, s) && p < |s.ps|
    ensures s.ps[p].InstBroken() <==> IsBroken(g, Selection(s.ps), p)
    ensures s.ps[p].InstPolicyBroken() <==> IsNeglected(g, Selection(s.ps), p)
    ensures s.ps[p].NowBroken() <==> IsBroken(g, Installed(g), p)
    ensures s.ps[p].NowPolicyBroken() <==> IsNeglected(g, Installed(g), p)
  {
    hide *;
    SummaryMeans(g, s, p);
    var cur, inst := g.pkgs[p].currentVer, s.ps[p].installVer;
    if inst.Some? { VersionBroken(g, s, inst.value, InstallVersion); }
    if cur.Some? { VersionBroken(g, s, cur.value, NowVersion); }
    BrokenMeans(g, Selection(s.ps), p);
    BrokenMeans(g, Installed(g), p);
  }

  lemma BrokenMeans(g: Graph, sel: seq<Option<nat>>, p: nat)
    requires g.Valid() && |sel| == |g.pkgs| && p < |sel|
    ensures IsBroken(g, sel, p) <==> sel[p].Some? && sel[p].value < |g.vers| && Violated(g, sel, sel[p].value)
    ensures IsNeglected(g, sel, p) <==> sel[p].Some? && sel[p].value < |g.vers| && Neglected(g, sel, sel[p].value)
  {
  }

  lemma SummaryMeans(g: Graph, s: CacheState, p: nat)
    requires Consistent(g, s) && p < |s.ps|
    ensures ValidStates(g, s.ps) && |s.ps| == |g.pkgs| && |s.ds| == |g.deps| && g.Valid()
    ensures var st, cur, inst := s.ps[p], g.pkgs[p].currentVer, s.ps[p].installVer;
      && Selection(s.ps)[p] == inst && Installed(g)[p] == cur
      && (cur.Some? ==> cur.value < |g.vers|) && (inst.Some? ==> inst.value < |g.vers|)
      && (st.NowBroken() <==> cur.Some? && MinFails(g, s.ds, cur.value, NowVersion))
      && (st.NowPolicyBroken() <==> cur.Some? && PolicyFails(g, s.ds, cur.value, NowVersion))
      && (st.InstBroken() <==> inst.Some? && MinFails(g, s.ds, inst.value, InstallVersion))
      && (st.InstPolicyBroken() <==> inst.Some? && PolicyFails(g, s.ds, inst.value, InstallVersion))
  {
    assert SummaryOk(g, s.ps, s.ds, p) && g.OwnVersion(p, s.ps[p].installVer) && g.ValidPackage(p);
    hide LowOk, Canonical, MinFails, PolicyFails, Total, TotalSizes, ModeOk;
  }

  lemma VersionBroken(g: Graph, s: CacheState, v: nat, ty: VersionType)
    requires Consistent(g, s) && v < |g.vers| && ty != CandidateVersion
    ensures ValidStates(g, s.ps) && |s.ds| == |g.deps|
    ensures var sel := if ty == NowVersion then Installed(g) else Selection(s.ps);
      && (MinFails(g, s.ds, v, ty) <==> Violated(g, sel, v)) && (PolicyFails(g, s.ds, v, ty) <==> Neglected(g, sel, v))
  {
    hide LowOk, Canonical, MinFails, PolicyFails, VerMet, VerPolicyMet, Violated, Neglected, ModeOk, SummaryOk;
    ScanMeaning(g, s.ps, s.ds, v, ty);
    VersionInTerms(g, s.ps, v, ty);
  }

  predicate IsUpgrade(g: Graph, st: PkgState, p: nat)
    requires p < |g.pkgs|
  {
    var cur, v := g.pkgs[p].currentVer, st.installVer;
    && cur.Some? && v.Some? && cur.value < |g.vers| && v.value < |g.vers|
    && g.vers[v.value].rank > g.vers[cur.value].rank
  }

  /** Something is to be unpacked: another version, or the same one again if there is none to change to. */
  predicate IsUnpacked(g: Graph, st: PkgState, p: nat)
    requires p < |g.pkgs|
  {
    var cur, v := g.pkgs[p].currentVer, st.installVer;
    && v.Some?
    && (cur.None?
        || (v != cur && cur.value < |g.vers| && v.value < |g.vers| && g.vers[v.value].rank != g.vers[cur.value].rank)
        || (st.status == 0 && st.reInstall))
  }

  predicate IsKeptBack(g: Graph, st: PkgState, p: nat)
    requires p < |g.pkgs|
  {
    g.pkgs[p].currentVer.Some? && st.installVer == g.pkgs[p].currentVer && st.status != 0
  }

  lemma ContribInTerms(g: Graph, p: nat, st: PkgState)
    requires p < |g.pkgs| && ModeOk(g, p, st)
    ensures var t := StateContrib(g, p, st);
      && t.broken == One(st.InstBroken()) && t.policyBroken == One(st.InstPolicyBroken())
      && t.bad == One(g.pkgs[p].okState != NeedsNothing) && t.del == One(st.mode == ModeDelete)
      && t.inst == One(IsUnpacked(g, st, p)) && t.keep == One(IsKeptBack(g, st, p))
      && t.upgrade == One(IsUpgrade(g, st, p))
  {
  }

  /** Whether package p is one counter k is about. */
  ghost predicate Concerns(g: Graph, ps: seq<PkgState>, k: Counter, p: nat)
    requires g.Valid() && |ps| == |g.pkgs| && p < |ps|
  {
    match k
    case Broken => IsBroken(g, Selection(ps), p)
    case PolicyBroken => IsNeglected(g, Selection(ps), p)
    case Bad => g.pkgs[p].okState != NeedsNothing
    case Inst => IsUnpacked(g, ps[p], p)
    case Del => ps[p].mode == ModeDelete
    case Keep => IsKeptBack(g, ps[p], p)
    case Upgrade => IsUpgrade(g, ps[p], p)
  }

  /** Each of the seven counters is the number of packages it is about. */
  lemma CounterInTerms(g: Graph, s: CacheState, k: Counter)
    requires Consistent(g, s)
    ensures ValidStates(g, s.ps) && |s.ps| == |g.pkgs| && g.Valid()
    ensures Get(s.tally, k) == |set p | 0 <= p < |s.ps| && Concerns(g, s.ps, k, p)|
  {
    hide *;
    TallyFacts(g, s);
    forall p | 0 <= p < |s.ps|
      ensures Get(StateContribs(g, s.ps)[p], k) == One(Concerns(g, s.ps, k, p))
    {
      ConcernInTerms(g, s, p, k);
    }
    CountWith(StateContribs(g, s.ps), k, set p | 0 <= p < |s.ps| && Concerns(g, s.ps, k, p));
  }

  lemma TallyFacts(g: Graph, s: CacheState)
    requires Consistent(g, s)
    ensures ValidStates(g, s.ps) && |s.ps| == |g.pkgs| && g.Valid() && s.tally == Total(StateContribs(g, s.ps))
    ensures forall p :: 0 <= p < |s.ps| ==> StateContribs(g, s.ps)[p] == StateContrib(g, p, s.ps[p])
    ensures forall p :: 0 <= p < |s.ps| ==> ModeOk(g, p, s.ps[p])
  {
    hide StateContrib, ModeOk, Total;
  }

  lemma ConcernInTerms(g: Graph, s: CacheState, p: nat, k: Counter)
    requires Consistent(g, s) && p < |s.ps| && |s.ps| == |g.pkgs| && g.Valid()
    ensures Get(StateContrib(g, p, s.ps[p]), k) == One(Concerns(g, s.ps, k, p))
  {
    TallyFacts(g, s);
    BrokenInTerms(g, s, p);
    ContribInTerms(g, p, s.ps[p]);
    hide StateContrib, IsBroken, IsNeglected, IsUnpacked, IsKeptBack, IsUpgrade, Consistent, ModeOk, ValidStates;
  }

  /** Every or-group of version v that has to hold does. */
  ghost predicate Upheld(g: Graph, sel: seq<Option<nat>>, v: nat)
    requires g.Valid() && |sel| == |g.pkgs| && v < |g.vers|
  {
    forall a, b :: OrGroup(g, v, a, b) && MustHold(g, v, a) ==> Holds(g, sel, v, a, b)
  }

  /** Nothing counts as broken iff every or-group that has to hold for a selected version does. */
  lemma NothingBrokenInTerms(g: Graph, s: CacheState)
    requires Consistent(g, s)
    ensures ValidStates(g, s.ps) && |s.ps| == |g.pkgs|
    ensures s.tally.broken == 0 <==>
      forall v: nat :: v < |g.vers| && Some(v) in Selection(s.ps) ==> Upheld(g, Selection(s.ps), v)
  {
    hide *;
    CounterInTerms(g, s, Broken);
    NobodyBroken(g, s.ps);
    SelectionUpheld(g, Selection(s.ps));
    BrokenIs(s.tally);
  }

  lemma BrokenIs(t: Tally)
    ensures Get(t, Broken) == t.broken
  {
  }

  lemma NobodyBroken(g: Graph, ps: seq<PkgState>)
    requires g.Valid() && |ps| == |g.pkgs|
    ensures |set p | 0 <= p < |ps| && Concerns(g, ps, Broken, p)| == 0 <==>
      forall p :: 0 <= p < |ps| ==> !IsBroken(g, Selection(ps), p)
  {
    hide IsBroken;
    var w := set p | 0 <= p < |ps| && Concerns(g, ps, Broken, p);
    assert forall p :: 0 <= p < |ps| ==> (IsBroken(g, Selection(ps), p) <==> p in w);
    assert |w| == 0 <==> w == {};
  }

  lemma SelectionUpheld(g: Graph, sel: seq<Option<nat>>)
    requires g.Valid() && |sel| == |g.pkgs|
    ensures (forall p :: 0 <= p < |sel| ==> !IsBroken(g, sel, p)) <==>
      forall v: nat :: v < |g.vers| && Some(v) in sel ==> Upheld(g, sel, v)
  {
    hide OrGroup, MustHold, Holds;
    forall v: nat | v < |g.vers| ensures Violated(g, sel, v) <==> !Upheld(g, sel, v) {
    }
    hide Violated, Upheld;
    forall p | 0 <= p < |sel| && sel[p].Some? && sel[p].value < |g.vers|
      ensures Some(sel[p].value) in sel && (IsBroken(g, sel, p) <==> !Upheld(g, sel, sel[p].value))
    {
      assert sel[p] == Some(sel[p].value);
    }
  }

  // ---------- The sizes ----------

  function SizeOf(g: Graph, v: Option<nat>): nat {
    if v.Some? && v.value < |g.vers| then g.vers[v.value].installedSize else 0
  }

  /** What the versions of the first n packages take up on disk. */
  function Occupied(g: Graph, sel: seq<Option<nat>>, n: nat): nat
    requires n <= |sel|
  {
    if n == 0 then 0 else Occupied(g, sel, n - 1) + SizeOf(g, sel[n - 1])
  }

  /** What has to be fetched for package p. The size of the null version is read for one that is half unpacked. */
  function ToFetch(g: Graph, st: PkgState, p: nat): nat
    requires p < |g.pkgs|
  {
    var P, v := g.pkgs[p], st.installVer;
    if P.versions == [] || (P.okState == NeedsConfigure && st.mode == ModeKeep) then 0
    else if v.None? then (if P.okState == NeedsUnpack && st.mode == ModeKeep then g.nullSize else 0)
    else if (v != P.currentVer || st.reInstall || P.okState == NeedsUnpack) && v.value < |g.vers| then
      g.vers[v.value].size
    else 0
  }

  function ToFetchAll(g: Graph, ps: seq<PkgState>, n: nat): nat
    requires n <= |ps| == |g.pkgs|
  {
    if n == 0 then 0 else ToFetchAll(g, ps, n - 1) + ToFetch(g, ps[n - 1], n - 1)
  }

  lemma SizeInTerms(g: Graph, p: nat, st: PkgState)
    requires g.Valid() && p < |g.pkgs| && ModeOk(g, p, st) && g.OwnVersion(p, st.installVer)
    ensures SizeContrib(g, p, st) ==
      Sizes(SizeOf(g, st.installVer) - SizeOf(g, g.pkgs[p].currentVer), ToFetch(g, st, p))
  {
    assert g.ValidPackage(p);
    if st.installVer.Some? { assert g.ValidVersion(st.installVer.value); }
    if g.pkgs[p].currentVer.Some? { assert g.ValidVersion(g.pkgs[p].currentVer.value); }
  }

  lemma {:induction false} SizesAddUp(g: Graph, ps: seq<PkgState>, n: nat)
    requires ValidStates(g, ps) && n <= |ps| && forall p :: 0 <= p < |ps| ==> ModeOk(g, p, ps[p])
    ensures TotalSizes(SizeContribs(g, ps)[..n]) ==
      Sizes(Occupied(g, Selection(ps), n) - Occupied(g, Installed(g), n), ToFetchAll(g, ps, n))
  {
    hide *;
    SizesStep(g, ps, n);
    if n > 0 {
      SizesAddUp(g, ps, n - 1);
      OneSize(g, ps, n - 1);
      PlusIs(TotalSizes(SizeContribs(g, ps)[..n - 1]), SizeContribs(g, ps)[n - 1]);
    }
  }

  lemma PlusIs(z: Sizes, o: Sizes)
    ensures z.Plus(o) == Sizes(z.usr + o.usr, z.download + o.download)
  {
  }

  /** The sums with one package more. */
  lemma SizesStep(g: Graph, ps: seq<PkgState>, n: nat)
    requires ValidStates(g, ps) && n <= |ps|
    ensures |ps| == |g.pkgs|
    ensures n == 0 ==> TotalSizes(SizeContribs(g, ps)[..n]) == Sizes(0, 0) && ToFetchAll(g, ps, n) == 0
    ensures n == 0 ==> Occupied(g, Selection(ps), n) == Occupied(g, Installed(g), n) == 0
    ensures n > 0 ==>
      var c := SizeContribs(g, ps);
      && TotalSizes(c[..n]) == TotalSizes(c[..n - 1]).Plus(c[n - 1])
      && Occupied(g, Selection(ps), n) == Occupied(g, Selection(ps), n - 1) + SizeOf(g, ps[n - 1].installVer)
      && Occupied(g, Installed(g), n) == Occupied(g, Installed(g), n - 1) + SizeOf(g, g.pkgs[n - 1].currentVer)
      && ToFetchAll(g, ps, n) == ToFetchAll(g, ps, n - 1) + ToFetch(g, ps[n - 1], n - 1)
  {
    hide SizeContrib, SizeOf, ToFetch, g.Valid;
    if n > 0 {
      assert SizeContribs(g, ps)[..n][..n - 1] == SizeContribs(g, ps)[..n - 1];
      assert Selection(ps)[n - 1] == ps[n - 1].installVer && Installed(g)[n - 1] == g.pkgs[n - 1].currentVer;
    }
  }

  lemma OneSize(g: Graph, ps: seq<PkgState>, p: nat)
    requires ValidStates(g, ps) && p < |ps| && ModeOk(g, p, ps[p])
    ensures |ps| == |g.pkgs|
    ensures SizeContribs(g, ps)[p] ==
      Sizes(SizeOf(g, ps[p].installVer) - SizeOf(g, g.pkgs[p].currentVer), ToFetch(g, ps[p], p))
  {
    OwnInstall(g, ps, p);
    hide *;
    SizeInTerms(g, p, ps[p]);
  }

  lemma OwnInstall(g: Graph, ps: seq<PkgState>, p: nat)
    requires ValidStates(g, ps) && p < |ps|
    ensures g.Valid() && |ps| == |g.pkgs| && g.OwnVersion(p, ps[p].installVer)
  {
  }

  /** The disk usage is what there will be less what there is, and every version to be unpacked is fetched once. */
  lemma SizesInTerms(g: Graph, s: CacheState)
    requires Consistent(g, s)
    ensures |s.ps| == |g.pkgs|
    ensures s.sizes.usr == Occupied(g, Selection(s.ps), |s.ps|) - Occupied(g, Installed(g), |s.ps|)
    ensures s.sizes.download == ToFetchAll(g, s.ps, |s.ps|)
  {
    hide ModeOk, SizeContrib, LowOk, Canonical, SummaryOk;
    SizesAddUp(g, s.ps, |s.ps|);
    assert SizeContribs(g, s.ps)[..|s.ps|] == SizeContribs(g, s.ps);
  }

  // ---------- What the self-check finds ----------

  /** Every record says of its package whether it is broken. */
  ghost predicate RecordsRight(g: Graph, ps: seq<PkgState>)
    requires g.Valid() && |ps| == |g.pkgs|
  {
    forall p :: 0 <= p < |ps| ==> RecordRight(g, ps, p)
  }

  ghost predicate RecordRight(g: Graph, ps: seq<PkgState>, p: nat)
    requires g.Valid() && |ps| == |g.pkgs| && p < |ps|
  {
    && (ps[p].InstBroken() <==> IsBroken(g, Selection(ps), p))
    && (ps[p].InstPolicyBroken() <==> IsNeglected(g, Selection(ps), p))
    && (ps[p].NowBroken() <==> IsBroken(g, Installed(g), p))
    && (ps[p].NowPolicyBroken() <==> IsNeglected(g, Installed(g), p))
  }

  ghost function Number(g: Graph, ps: seq<PkgState>, k: Counter): nat
    requires g.Valid() && |ps| == |g.pkgs|
  {
    |set p | 0 <= p < |ps| && Concerns(g, ps, k, p)|
  }

  /** Each counter but that of the upgrades is right, and so are the sizes. */
  ghost predicate TotalsRight(g: Graph, s: CacheState)
    requires g.Valid() && |s.ps| == |g.pkgs|
  {
    && (forall k: Counter :: k != Upgrade ==> Get(s.tally, k) == Number(g, s.ps, k))
    && s.sizes.usr == Occupied(g, Selection(s.ps), |s.ps|) - Occupied(g, Installed(g), |s.ps|)
    && s.sizes.download == ToFetchAll(g, s.ps, |s.ps|)
  }

  /** A cache in order has nothing wrong with it. */
  lemma ConsistentIsRight(g: Graph, s: CacheState)
    requires Consistent(g, s)
    ensures g.Valid() && |s.ps| == |g.pkgs| && RecordsRight(g, s.ps) && TotalsRight(g, s)
  {
    hide *;
    TallyFacts(g, s);
    forall p | 0 <= p < |s.ps| ensures RecordRight(g, s.ps, p) {
      BrokenInTerms(g, s, p);
      RecordIsRight(g, s.ps, p);
    }
    forall k: Counter | k != Upgrade ensures Get(s.tally, k) == Number(g, s.ps, k) {
      CounterInTerms(g, s, k);
      NumberIs(g, s.ps, k);
    }
    SizesInTerms(g, s);
    MakeRight(g, s);
  }

  lemma RecordIsRight(g: Graph, ps: seq<PkgState>, p: nat)
    requires g.Valid() && |ps| == |g.pkgs| && p < |ps|
    requires ps[p].InstBroken() <==> IsBroken(g, Selection(ps), p)
    requires ps[p].InstPolicyBroken() <==> IsNeglected(g, Selection(ps), p)
    requires ps[p].NowBroken() <==> IsBroken(g, Installed(g), p)
    requires ps[p].NowPolicyBroken() <==> IsNeglected(g, Installed(g), p)
    ensures RecordRight(g, ps, p)
  {
  }

  lemma NumberIs(g: Graph, ps: seq<PkgState>, k: Counter)
    requires g.Valid() && |ps| == |g.pkgs|
    ensures Number(g, ps, k) == |set p | 0 <= p < |ps| && Concerns(g, ps, k, p)|
  {
  }

  lemma MakeRight(g: Graph, s: CacheState)
    requires g.Valid() && |s.ps| == |g.pkgs| && forall p :: 0 <= p < |s.ps| ==> RecordRight(g, s.ps, p)
    requires forall k: Counter :: k != Upgrade ==> Get(s.tally, k) == Number(g, s.ps, k)
    requires s.sizes.usr == Occupied(g, Selection(s.ps), |s.ps|) - Occupied(g, Installed(g), |s.ps|)
    requires s.sizes.download == ToFetchAll(g, s.ps, |s.ps|)
    ensures RecordsRight(g, s.ps) && TotalsRight(g, s)
  {
  }

  /** What the numbers look at is copied for the pass, but for the bits that say who is broken. */
  lemma SameForNumbers(g: Graph, ps: seq<PkgState>, ps': seq<PkgState>, k: Counter)
    requires g.Valid() && |ps| == |ps'| == |g.pkgs| && AllSameForPass(ps, ps')
    ensures Selection(ps) == Selection(ps') && Number(g, ps, k) == Number(g, ps', k)
    ensures ToFetchAll(g, ps, |ps|) == ToFetchAll(g, ps', |ps|)
  {
    forall p | 0 <= p < |ps| ensures ps[p].installVer == ps'[p].installVer { assert SameForPass(ps[p], ps'[p]); }
    assert Selection(ps) == Selection(ps');
    hide IsBroken, IsNeglected;
    forall p | 0 <= p < |ps| ensures Concerns(g, ps, k, p) <==> Concerns(g, ps', k, p) {
      assert SameForPass(ps[p], ps'[p]);
    }
    assert (set p | 0 <= p < |ps| && Concerns(g, ps, k, p)) == set p | 0 <= p < |ps'| && Concerns(g, ps', k, p);
    SameFetched(g, ps, ps', |ps|);
  }

  lemma {:induction false} SameFetched(g: Graph, ps: seq<PkgState>, ps': seq<PkgState>, n: nat)
    requires n <= |ps| == |ps'| == |g.pkgs| && AllSameForPass(ps, ps')
    ensures ToFetchAll(g, ps, n) == ToFetchAll(g, ps', n)
  {
    if n > 0 {
      SameFetched(g, ps, ps', n - 1);
      assert SameForPass(ps[n - 1], ps'[n - 1]);
    }
  }

  /** A full pass over the same choices agrees with what is stored exactly if what is stored is right. */
  lemma PassFindsWrong(g: Graph, s: CacheState, base: seq<PkgState>, ps: seq<PkgState>, ds: seq<Byte>, t: Tally,
                       z: Sizes)
    requires Shape(g, s) && AllSameForPass(s.ps, base) && FullyComputed(g, base, ps, ds, t, z, |g.pkgs|)
    requires forall p :: 0 <= p < |base| ==> ModeOk(g, p, base[p])
    ensures g.Valid() && |s.ps| == |g.pkgs|
    ensures SameCounts(s.tally, s.sizes, t, z) && AllSameBrokenness(s.ps, ps)
       <==> RecordsRight(g, s.ps) && TotalsRight(g, s)
  {
    hide *;
    var full := CacheState(ps, ds, t, z);
    FullIsConsistent(g, base, ps, ds, t, z);
    PassKeepsChoices(g, s, base, ps, ds, t, z);
    ConsistentIsRight(g, full);
    SameForNumbers(g, s.ps, ps, Broken);
    SameTotalsRight(g, s, full);
    SameBits(g, s.ps, ps);
  }

  /** So a check that compares with a pass over copied records finds what is wrong, and nothing else. */
  lemma CheckFindsWrong(g: Graph, s: CacheState, ps: seq<PkgState>, ds: seq<Byte>, t: Tally, z: Sizes, same: bool)
    requires ValidStates(g, s.ps) && |s.ps| == |g.pkgs| && FullyComputed(g, Copied(s.ps), ps, ds, t, z, |g.pkgs|)
    requires same == (AllSameBrokenness(s.ps, ps) && SameCounts(s.tally, s.sizes, t, z))
    ensures g.Valid() && (Shape(g, s) ==> (same <==> RecordsRight(g, s.ps) && TotalsRight(g, s)))
  {
    ValidStatesMean(g, s.ps);
    if Shape(g, s) {
      ShapeMeans(g, s);
      hide *;
      CopiedFacts(g, s.ps);
      CopiedModes(g, s.ps);
      PassFindsWrong(g, s, Copied(s.ps), ps, ds, t, z);
    }
  }

  lemma ValidStatesMean(g: Graph, ps: seq<PkgState>)
    requires ValidStates(g, ps)
    ensures g.Valid() && |ps| == |g.pkgs|
  {
  }

  lemma ShapeMeans(g: Graph, s: CacheState)
    requires Shape(g, s)
    ensures forall p :: 0 <= p < |s.ps| ==> ModeOk(g, p, s.ps[p])
  {
  }

  lemma PassKeepsChoices(g: Graph, s: CacheState, base: seq<PkgState>, ps: seq<PkgState>, ds: seq<Byte>, t: Tally,
                         z: Sizes)
    requires Shape(g, s) && AllSameForPass(s.ps, base) && FullyComputed(g, base, ps, ds, t, z, |g.pkgs|)
    ensures g.Valid() && |s.ps| == |ps| == |g.pkgs| && AllSameForPass(s.ps, ps)
  {
    PassStarts(s.ps, base, ps);
  }

  lemma SameTotalsRight(g: Graph, s: CacheState, full: CacheState)
    requires g.Valid() && |s.ps| == |full.ps| == |g.pkgs| && AllSameForPass(s.ps, full.ps) && TotalsRight(g, full)
    ensures SameCounts(s.tally, s.sizes, full.tally, full.sizes) <==> TotalsRight(g, s)
  {
    hide Number, Occupied, ToFetchAll, AllSameForPass, Get;
    forall k: Counter ensures Number(g, s.ps, k) == Number(g, full.ps, k) { SameForNumbers(g, s.ps, full.ps, k); }
    SameForNumbers(g, s.ps, full.ps, Broken);
    SameTallies(s.tally, full.tally);
  }

  lemma SameTallies(t: Tally, t': Tally)
    ensures t.(upgrade := 0) == t'.(upgrade := 0) <==> forall k: Counter :: k != Upgrade ==> Get(t, k) == Get(t', k)
  {
    if forall k: Counter :: k != Upgrade ==> Get(t, k) == Get(t', k) {
      assert Get(t, Broken) == Get(t', Broken) && Get(t, PolicyBroken) == Get(t', PolicyBroken);
      assert Get(t, Bad) == Get(t', Bad) && Get(t, Inst) == Get(t', Inst) && Get(t, Del) == Get(t', Del);
      assert Get(t, Keep) == Get(t', Keep);
    }
  }

  lemma SameBits(g: Graph, ps: seq<PkgState>, ps': seq<PkgState>)
    requires g.Valid() && |ps| == |ps'| == |g.pkgs| && Selection(ps) == Selection(ps') && RecordsRight(g, ps')
    ensures AllSameBrokenness(ps, ps') <==> RecordsRight(g, ps)
  {
    hide IsBroken, IsNeglected;
    forall p | 0 <= p < |ps| ensures SameBrokenness(ps[p], ps'[p]) <==> RecordRight(g, ps, p) {
      assert RecordRight(g, ps', p);
    }
  }
}
