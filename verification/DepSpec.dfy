/**
  What the derived state of the dependency cache means: the result of checking
  one dependency, the byte an or-group stores, the brokenness of a package and
  its contribution to the counters, each as a function of the chosen versions.
*/
module DepSpec {
  import opened Wrappers
  import opened DepGraph
  import opened DepBytes

  datatype Mode = ModeDelete | ModeKeep | ModeInstall | ModeGarbage

  /** The record kept per package; the boolean fields are bits of Flags and iFlags. */
  datatype PkgState = PkgState(
    candidateVer: Option<nat>, installVer: Option<nat>, auto: bool,
    autoKept: bool, purge: bool, reInstall: bool, protect: bool,
    status: int, mode: Mode, depState: Summary)
  {
    predicate NewInstall() { status == 2 && mode == ModeInstall }
    predicate Delete() { mode == ModeDelete }
    predicate Keep() { mode == ModeKeep }
    predicate Install() { mode == ModeInstall }
    predicate NowBroken() { !depState.nowMin }
    predicate NowPolicyBroken() { !depState.nowPolicy }
    predicate InstBroken() { !depState.instMin }
    predicate InstPolicyBroken() { !depState.instPolicy }
  }

  const MAX_DEPTH: nat := 3000

  /** The sanity check on the first line of every mark operation. */
  predicate IsModeChangeOk(g: Graph, st: PkgState, mode: Mode, p: nat, depth: nat, fromUser: bool)
    requires p < |g.pkgs|
  {
    var P := g.pkgs[p];
    if depth > MAX_DEPTH || P.versions == [] then false
    else if fromUser || st.mode == mode then true
    else if st.protect then false
    else if mode != ModeKeep && P.hold && !g.config.ignoreHold then false
    else if mode == ModeDelete && (P.essential || P.important) && !g.config.allowRemoveEssential then false
    else true
  }

  // ---------- Checking one dependency ----------

  ghost predicate ValidStates(g: Graph, ps: seq<PkgState>) {
    && g.Valid()
    && |ps| == |g.pkgs|
    && forall p :: 0 <= p < |ps| ==> g.OwnVersion(p, ps[p].candidateVer) && g.OwnVersion(p, ps[p].installVer)
  }

  /** The version of package p a check of the given type looks at. */
  function Chosen(g: Graph, ps: seq<PkgState>, p: nat, ty: VersionType): Option<nat>
    requires |ps| == |g.pkgs| && p < |ps|
  {
    match ty
    case NowVersion => g.pkgs[p].currentVer
    case InstallVersion => ps[p].installVer
    case CandidateVersion => ps[p].candidateVer
  }

  ghost predicate TargetHit(g: Graph, ps: seq<PkgState>, d: nat, ty: VersionType)
    requires ValidStates(g, ps) && d < |g.deps|
  {
    assert g.ValidDependency(d);
    var t := g.deps[d].target;
    var v := Chosen(g, ps, t, ty);
    !g.IsIgnorablePkg(d, t) && v.Some? && v.value in g.deps[d].satVers
  }

  ghost predicate PrvHit(g: Graph, ps: seq<PkgState>, d: nat, r: nat, ty: VersionType)
    requires ValidStates(g, ps) && d < |g.deps| && r < |g.prvs|
  {
    && !g.IsIgnorablePrv(d, r)
    && Chosen(g, ps, g.OwnerPkg(r), ty) == Some(g.prvs[r].ownerVer)
    && r in g.deps[d].satPrvs
  }

  /** The dependency's own package or one of its providers is a hit. */
  ghost predicate DepHit(g: Graph, ps: seq<PkgState>, d: nat, ty: VersionType)
    requires ValidStates(g, ps) && d < |g.deps|
  {
    assert g.ValidDependency(d) && g.ValidPackage(g.deps[d].target);
    var l := g.pkgs[g.deps[d].target].providesList;
    || TargetHit(g, ps, d, ty)
    || (g.deps[d].kind != Obsoletes && exists k :: 0 <= k < |l| && PrvHit(g, ps, d, l[k], ty))
  }

  ghost function RawState(g: Graph, ps: seq<PkgState>, d: nat): Bits
    requires ValidStates(g, ps) && d < |g.deps|
  {
    Bits(DepHit(g, ps, d, NowVersion), DepHit(g, ps, d, InstallVersion), DepHit(g, ps, d, CandidateVersion))
  }

  // ---------- Or-groups ----------

  /** The group bits gathered before entry i of a version's list. */
  function GroupBefore(g: Graph, raw: seq<Bits>, v: nat, i: nat): (b: Bits)
    requires v < |g.vers| && g.ValidVersion(v) && i <= |g.vers[v].depends| && |raw| == |g.deps|
  {
    if i == 0 || !g.deps[g.vers[v].depends[i - 1]].orNext then NO_BITS
    else GroupBefore(g, raw, v, i - 1).Or(raw[g.vers[v].depends[i - 1]])
  }

  /** The byte entry i of a version's list has to hold. */
  function CanonByte(g: Graph, raw: seq<Bits>, v: nat, i: nat): Byte
    requires v < |g.vers| && g.ValidVersion(v) && i < |g.vers[v].depends| && |raw| == |g.deps|
  {
    var d := g.vers[v].depends[i];
    Stored(raw[d], GroupBefore(g, raw, v, i).Or(raw[d]), g.IsNegative(d))
  }

  ghost function RawsStored(g: Graph, ds: seq<Byte>): (raw: seq<Bits>)
    requires |ds| == |g.deps|
    ensures |raw| == |ds|
    ensures forall d :: 0 <= d < |ds| ==> raw[d] == RawOf(ds[d], g.IsNegative(d))
  {
    seq(|ds|, d requires 0 <= d < |ds| => RawOf(ds[d], g.IsNegative(d)))
  }

  ghost function RawsChecked(g: Graph, ps: seq<PkgState>): (raw: seq<Bits>)
    requires ValidStates(g, ps)
    ensures |raw| == |g.deps|
    ensures forall d :: 0 <= d < |raw| ==> raw[d] == RawState(g, ps, d)
  {
    seq(|g.deps|, d requires 0 <= d < |g.deps| => RawState(g, ps, d))
  }

  /** Every byte of version v is the one its own low bits demand. */
  ghost predicate Canonical(g: Graph, ds: seq<Byte>, v: nat)
    requires g.Valid() && v < |g.vers| && |ds| == |g.deps|
  {
    assert g.ValidVersion(v);
    forall i {:trigger g.vers[v].depends[i]} :: 0 <= i < |g.vers[v].depends| ==>
      ds[g.vers[v].depends[i]] == CanonByte(g, RawsStored(g, ds), v, i)
  }

  /** The low bits of d agree with a fresh check, for Now and Install. */
  ghost predicate LowOk(g: Graph, ps: seq<PkgState>, ds: seq<Byte>, d: nat)
    requires ValidStates(g, ps) && |ds| == |g.deps| && d < |ds|
  {
    RawOf(ds[d], g.IsNegative(d)).Agrees(RawState(g, ps, d))
  }

  predicate GroupEnd(g: Graph, v: nat, i: nat)
    requires v < |g.vers| && g.ValidVersion(v)
  {
    i < |g.vers[v].depends| && !g.deps[g.vers[v].depends[i]].orNext
  }

  function GroupStart(g: Graph, v: nat, i: nat): (k: nat)
    requires v < |g.vers| && g.ValidVersion(v) && i < |g.vers[v].depends|
    ensures k <= i
  {
    if i == 0 || !g.deps[g.vers[v].depends[i - 1]].orNext then i else GroupStart(g, v, i - 1)
  }

  // ---------- Brokenness of a version ----------

  /** The or-group ending at entry i fails the check, by the byte of its last member. */
  ghost predicate GroupFails(g: Graph, ds: seq<Byte>, v: nat, i: nat, check: VersionType)
    requires g.Valid() && v < |g.vers| && |ds| == |g.deps|
  {
    assert g.ValidVersion(v);
    GroupEnd(g, v, i) && !Passes(ds[g.vers[v].depends[i]], check)
  }

  /** ... and its first member makes it a hard requirement. */
  ghost predicate MinGroupFails(g: Graph, ds: seq<Byte>, v: nat, i: nat, check: VersionType)
    requires g.Valid() && v < |g.vers| && |ds| == |g.deps|
  {
    assert g.ValidVersion(v);
    GroupFails(g, ds, v, i, check) && g.IsCritical(g.vers[v].depends[GroupStart(g, v, i)])
  }

  /** ... or one the policy asks for. */
  ghost predicate PolicyGroupFails(g: Graph, ds: seq<Byte>, v: nat, i: nat, check: VersionType)
    requires g.Valid() && v < |g.vers| && |ds| == |g.deps|
  {
    assert g.ValidVersion(v);
    && GroupFails(g, ds, v, i, check)
    && !g.IsCritical(g.vers[v].depends[GroupStart(g, v, i)])
    && g.IsImportantDep(g.vers[v].depends[GroupStart(g, v, i)])
  }

  ghost predicate MinFails(g: Graph, ds: seq<Byte>, v: nat, check: VersionType)
    requires g.Valid() && v < |g.vers| && |ds| == |g.deps|
  {
    exists i :: MinGroupFails(g, ds, v, i, check)
  }

  ghost predicate PolicyFails(g: Graph, ds: seq<Byte>, v: nat, check: VersionType)
    requires g.Valid() && v < |g.vers| && |ds| == |g.deps|
  {
    MinFails(g, ds, v, check) || exists i :: PolicyGroupFails(g, ds, v, i, check)
  }

  /** The Now and Inst summary of a package agrees with the dependency bytes. */
  ghost predicate SummaryOk(g: Graph, ps: seq<PkgState>, ds: seq<Byte>, p: nat)
    requires ValidStates(g, ps) && |ds| == |g.deps| && p < |ps|
  {
    assert g.ValidPackage(p);
    var cur, inst := g.pkgs[p].currentVer, ps[p].installVer;
    && (ps[p].NowBroken() <==> cur.Some? && MinFails(g, ds, cur.value, NowVersion))
    && (ps[p].NowPolicyBroken() <==> cur.Some? && PolicyFails(g, ds, cur.value, NowVersion))
    && (ps[p].InstBroken() <==> inst.Some? && MinFails(g, ds, inst.value, InstallVersion))
    && (ps[p].InstPolicyBroken() <==> inst.Some? && PolicyFails(g, ds, inst.value, InstallVersion))
  }

  // ---------- Counters ----------

  datatype Tally = Tally(broken: nat, policyBroken: nat, bad: nat, inst: nat, del: nat, keep: nat, upgrade: nat)
  {
    function Plus(o: Tally): Tally {
      Tally(broken + o.broken, policyBroken + o.policyBroken, bad + o.bad, inst + o.inst,
            del + o.del, keep + o.keep, upgrade + o.upgrade)
    }

    predicate AtLeast(o: Tally) {
      && broken >= o.broken && policyBroken >= o.policyBroken && bad >= o.bad && inst >= o.inst
      && del >= o.del && keep >= o.keep && upgrade >= o.upgrade
    }
  }

  datatype Sizes = Sizes(usr: int, download: nat)
  {
    function Plus(o: Sizes): Sizes { Sizes(usr + o.usr, download + o.download) }
  }

  function One(b: bool): nat { if b then 1 else 0 }

  function BrokenContrib(g: Graph, p: nat, st: PkgState): Tally
    requires p < |g.pkgs|
  {
    Tally(One(st.InstBroken()), One(st.InstPolicyBroken()), One(g.pkgs[p].okState != NeedsNothing), 0, 0, 0, 0)
  }

  function ModeContrib(g: Graph, p: nat, st: PkgState): Tally
    requires p < |g.pkgs|
  {
    var P := g.pkgs[p];
    if P.currentVer.None? then
      Tally(0, 0, 0, One(st.mode == ModeInstall), One(st.mode == ModeDelete && st.purge && !P.purged), 0, 0)
    else if st.status == 0 then
      Tally(0, 0, 0, One(st.mode != ModeDelete && st.reInstall), One(st.mode == ModeDelete), 0, 0)
    else
      Tally(0, 0, 0, One(st.mode == ModeInstall), One(st.mode == ModeDelete), One(st.mode == ModeKeep),
            One(st.mode == ModeInstall && st.status > 0))
  }

  /** What package p adds to the counters. */
  function StateContrib(g: Graph, p: nat, st: PkgState): Tally
    requires p < |g.pkgs|
  {
    BrokenContrib(g, p, st).Plus(ModeContrib(g, p, st))
  }

  /** What package p adds to the two size totals. */
  function SizeContrib(g: Graph, p: nat, st: PkgState): Sizes
    requires g.Valid() && p < |g.pkgs| && g.OwnVersion(p, st.installVer)
  {
    assert g.ValidPackage(p);
    var P := g.pkgs[p];
    if P.versions == [] || (P.okState == NeedsConfigure && st.Keep()) then Sizes(0, 0)
    else if st.NewInstall() then Sizes(g.VerInstalledSize(st.installVer), g.VerSize(st.installVer))
    else if P.currentVer.Some? && (st.installVer != P.currentVer || st.reInstall) && st.installVer.Some? then
      Sizes(g.VerInstalledSize(st.installVer) - g.VerInstalledSize(P.currentVer), g.VerSize(st.installVer))
    else if P.okState == NeedsUnpack && !st.Delete() then Sizes(0, g.VerSize(st.installVer))
    else if P.currentVer.Some? && st.installVer.None? then Sizes(0 - g.VerInstalledSize(P.currentVer), 0)
    else Sizes(0, 0)
  }

  function Total(c: seq<Tally>): Tally {
    if c == [] then Tally(0, 0, 0, 0, 0, 0, 0) else Total(c[..|c| - 1]).Plus(c[|c| - 1])
  }

  function TotalSizes(c: seq<Sizes>): Sizes {
    if c == [] then Sizes(0, 0) else TotalSizes(c[..|c| - 1]).Plus(c[|c| - 1])
  }

  ghost function StateContribs(g: Graph, ps: seq<PkgState>): (c: seq<Tally>)
    requires |ps| == |g.pkgs|
    ensures |c| == |ps|
    ensures forall p :: 0 <= p < |ps| ==> c[p] == StateContrib(g, p, ps[p])
  {
    seq(|ps|, p requires 0 <= p < |ps| => StateContrib(g, p, ps[p]))
  }

  ghost function SizeContribs(g: Graph, ps: seq<PkgState>): (c: seq<Sizes>)
    requires ValidStates(g, ps)
    ensures |c| == |ps|
    ensures forall p :: 0 <= p < |ps| ==> c[p] == SizeContrib(g, p, ps[p])
  {
    seq(|ps|, p requires 0 <= p < |ps| => SizeContrib(g, p, ps[p]))
  }

  // ---------- The whole state ----------

  /** The status tells how the candidate compares to the current version, unless it is the current version. */
  predicate StatusFits(g: Graph, p: nat, st: PkgState)
    requires p < |g.pkgs|
  {
    var cand, cur := st.candidateVer, g.pkgs[p].currentVer;
    cand.Some? && cand != cur ==>
      if cur.None? then st.status == 2
      else
        && cand.value < |g.vers| && cur.value < |g.vers|
        && st.status == Compare(g.vers[cand.value].rank, g.vers[cur.value].rank)
  }

  function Compare(a: int, b: int): int { if a < b then -1 else if a > b then 1 else 0 }

  /** The mode of a package determines which version it selects. */
  predicate ModeOk(g: Graph, p: nat, st: PkgState)
    requires p < |g.pkgs|
  {
    && StatusFits(g, p, st)
    && match st.mode
       case ModeKeep => st.installVer == g.pkgs[p].currentVer
       case ModeDelete => st.installVer.None? && (g.pkgs[p].currentVer.None? ==> st.purge && !g.pkgs[p].purged)
       case ModeInstall =>
         st.installVer.Some? && st.installVer == st.candidateVer && st.installVer != g.pkgs[p].currentVer
       case ModeGarbage => false
  }

  datatype CacheState = CacheState(ps: seq<PkgState>, ds: seq<Byte>, tally: Tally, sizes: Sizes)

  ghost predicate Shape(g: Graph, s: CacheState) {
    && ValidStates(g, s.ps)
    && |s.ds| == |g.deps|
    && (forall p :: 0 <= p < |s.ps| ==> ModeOk(g, p, s.ps[p]))
  }

  /** The state between two operations: everything derived is up to date. */
  ghost predicate Consistent(g: Graph, s: CacheState) {
    && Shape(g, s)
    && (forall v :: 0 <= v < |g.vers| ==> Canonical(g, s.ds, v))
    && (forall d :: 0 <= d < |s.ds| ==> LowOk(g, s.ps, s.ds, d))
    && (forall p :: 0 <= p < |s.ps| ==> SummaryOk(g, s.ps, s.ds, p))
    && s.tally == Total(StateContribs(g, s.ps))
    && s.sizes == TotalSizes(SizeContribs(g, s.ps))
  }
}
