/**
  The agreement between the incremental state and a full recomputation, in both
  directions: what the pass computes is consistent, and whatever is consistent is
  what the pass would compute.
*/
module DepCheck {
  import opened Wrappers
  import opened DepGraph
  import opened DepBytes
  import opened DepSpec
  import opened DepLemmas
  import opened DepRepair

  /** The two records differ at most in the summary and in the Auto flag. */
  predicate SameForPass(st: PkgState, st': PkgState) {
    st'.(auto := st.auto, depState := st.depState) == st
  }

  ghost predicate AllSameForPass(ps: seq<PkgState>, ps': seq<PkgState>) {
    |ps| == |ps'| && forall p :: 0 <= p < |ps| ==> SameForPass(ps[p], ps'[p])
  }

  /** The four summary bits of one package agree. */
  predicate SameBrokenness(st: PkgState, st': PkgState) {
    && st.NowBroken() == st'.NowBroken() && st.NowPolicyBroken() == st'.NowPolicyBroken()
    && st.InstBroken() == st'.InstBroken() && st.InstPolicyBroken() == st'.InstPolicyBroken()
  }

  ghost predicate AllSameBrokenness(ps: seq<PkgState>, ps': seq<PkgState>) {
    |ps| == |ps'| && forall p :: 0 <= p < |ps| ==> SameBrokenness(ps[p], ps'[p])
  }

  ghost predicate BytesAgree(ds: seq<Byte>, ds': seq<Byte>) {
    |ds| == |ds'| && forall d :: 0 <= d < |ds| ==> ds[d].Agrees(ds'[d])
  }

  /** The records CheckConsistency hands to the pass: everything but the Auto flag and the summary is copied. */
  function Copied(ps: seq<PkgState>): (r: seq<PkgState>)
    ensures |r| == |ps|
  {
    seq(|ps|, p requires 0 <= p < |ps| => ps[p].(auto := false, depState := ZERO_SUMMARY))
  }

  lemma CopiedFacts(g: Graph, ps: seq<PkgState>)
    requires ValidStates(g, ps)
    ensures ValidStates(g, Copied(ps)) && AllSameForPass(ps, Copied(ps))
  {
    forall p | 0 <= p < |ps|
      ensures g.OwnVersion(p, Copied(ps)[p].candidateVer) && g.OwnVersion(p, Copied(ps)[p].installVer)
    {
      assert g.OwnVersion(p, ps[p].candidateVer) && g.OwnVersion(p, ps[p].installVer);
    }
  }

  /** The totals the check compares; the number of upgrades is not among them. */
  predicate SameCounts(t: Tally, z: Sizes, t': Tally, z': Sizes) {
    t.(upgrade := 0) == t'.(upgrade := 0) && z == z'
  }

  /** A full pass over the choices of s.ps finds the totals and the brokenness s records. */
  ghost predicate Confirmed(g: Graph, s: CacheState) {
    exists ps, ds, t, z ::
      && FullyComputed(g, Copied(s.ps), ps, ds, t, z, |g.pkgs|)
      && SameCounts(s.tally, s.sizes, t, z) && AllSameBrokenness(s.ps, ps)
  }

  // ---------- A full pass leaves a consistent state ----------

  lemma FullBytesCanonical(g: Graph, raw: seq<Bits>, ds: seq<Byte>, v: nat)
    requires g.Valid() && |raw| == |ds| == |g.deps| && v < |g.vers|
    requires forall d :: 0 <= d < |ds| ==> ds[d] == FullByte(g, raw, d)
    ensures RawsStored(g, ds) == raw
    ensures Canonical(g, ds, v)
  {
    forall d | 0 <= d < |ds| ensures RawsStored(g, ds)[d] == raw[d] {
      assert g.ValidDependency(d) && g.ValidVersion(g.deps[d].parentVer);
      assert g.vers[g.deps[d].parentVer].depends[g.deps[d].pos] == d;
    }
    assert RawsStored(g, ds) == raw;
    assert g.ValidVersion(v);
  }

  lemma AllBytesFull(g: Graph, base: seq<PkgState>, ps: seq<PkgState>, ds: seq<Byte>, t: Tally, z: Sizes)
    requires FullyComputed(g, base, ps, ds, t, z, |g.pkgs|)
    ensures |RawsChecked(g, base)| == |ds| == |g.deps|
    ensures forall d :: 0 <= d < |ds| ==> ds[d] == FullByte(g, RawsChecked(g, base), d)
  {
  }

  /** The state the full pass computes is the one every operation starts from. */
  lemma FullIsConsistent(g: Graph, base: seq<PkgState>, ps: seq<PkgState>, ds: seq<Byte>, t: Tally, z: Sizes)
    requires FullyComputed(g, base, ps, ds, t, z, |g.pkgs|)
    requires forall p :: 0 <= p < |base| ==> ModeOk(g, p, base[p])
    ensures Consistent(g, CacheState(ps, ds, t, z))
  {
    var raw := RawsChecked(g, base);
    AllBytesFull(g, base, ps, ds, t, z);
    SameChoiceSameRaws(g, base, ps);
    SummariesKeepSizes(g, base, ps);
    assert StateContribs(g, ps)[..|g.pkgs|] == StateContribs(g, ps);
    assert SizeContribs(g, base)[..|g.pkgs|] == SizeContribs(g, base);
    forall v | 0 <= v < |g.vers| ensures Canonical(g, ds, v) { FullBytesCanonical(g, raw, ds, v); }
    forall d | 0 <= d < |ds| ensures LowOk(g, ps, ds, d) {
      FullBytesCanonical(g, raw, ds, g.deps[d].parentVer) by { assert g.ValidDependency(d); }
      assert RawsStored(g, ds)[d] == raw[d];
    }
    forall p | 0 <= p < |ps| ensures ModeOk(g, p, ps[p]) {
      assert ps[p] == base[p].(depState := ps[p].depState);
    }
  }

  // ---------- A consistent state is what the full pass computes ----------

  /** The records a full pass would start from choose what ps chooses. */
  lemma PassSeesSameRaws(g: Graph, ps: seq<PkgState>, base: seq<PkgState>)
    requires ValidStates(g, ps) && ValidStates(g, base) && AllSameForPass(ps, base)
    ensures forall d :: 0 <= d < |g.deps| ==> RawsChecked(g, base)[d].Agrees(RawState(g, ps, d))
  {
    forall d | 0 <= d < |g.deps| ensures RawsChecked(g, base)[d].Agrees(RawState(g, ps, d)) {
      SameSelectionSameRaw(g, base, ps, d);
    }
  }

  lemma IncrementalByte(g: Graph, ps: seq<PkgState>, ds: seq<Byte>, raw: seq<Bits>, d: nat)
    requires ValidStates(g, ps) && |ds| == |raw| == |g.deps| && d < |ds|
    requires forall v :: 0 <= v < |g.vers| ==> Canonical(g, ds, v)
    requires forall e :: 0 <= e < |ds| ==> LowOk(g, ps, ds, e)
    requires forall e :: 0 <= e < |ds| ==> raw[e].Agrees(RawState(g, ps, e))
    ensures ds[d].Agrees(FullByte(g, raw, d))
  {
    assert g.ValidDependency(d) && g.ValidVersion(g.deps[d].parentVer);
    var v, i := g.deps[d].parentVer, g.deps[d].pos;
    assert Canonical(g, ds, v) && g.vers[v].depends[i] == d;
    var stored := RawsStored(g, ds);
    forall e | 0 <= e < |stored| ensures stored[e].Agrees(raw[e]) {
      assert LowOk(g, ps, ds, e);
    }
    CanonByteAgrees(g, stored, raw, v, i);
  }

  /** Bytes that agree for Now and Install make the version scan agree for Now and Install. */
  lemma AgreeingBytesSameScan(g: Graph, ds: seq<Byte>, ds': seq<Byte>, v: nat, check: VersionType)
    requires g.Valid() && v < |g.vers| && |ds| == |g.deps| && BytesAgree(ds, ds') && check != CandidateVersion
    ensures MinFails(g, ds, v, check) == MinFails(g, ds', v, check)
    ensures PolicyFails(g, ds, v, check) == PolicyFails(g, ds', v, check)
  {
    assert g.ValidVersion(v);
    assert forall i :: MinGroupFails(g, ds, v, i, check) <==> MinGroupFails(g, ds', v, i, check);
    assert forall i :: PolicyGroupFails(g, ds, v, i, check) <==> PolicyGroupFails(g, ds', v, i, check);
  }

  lemma SameBrokennessOf(g: Graph, ps: seq<PkgState>, ps': seq<PkgState>, ds: seq<Byte>, ds': seq<Byte>, p: nat)
    requires ValidStates(g, ps) && ValidStates(g, ps') && |ds| == |g.deps| && BytesAgree(ds, ds')
    requires p < |ps| && ps[p].installVer == ps'[p].installVer
    requires SummaryOk(g, ps, ds, p) && SummaryOk(g, ps', ds', p)
    ensures SameBrokenness(ps[p], ps'[p])
  {
    assert g.ValidPackage(p) && g.OwnVersion(p, ps[p].installVer);
    var cur, inst := g.pkgs[p].currentVer, ps[p].installVer;
    if cur.Some? { AgreeingBytesSameScan(g, ds, ds', cur.value, NowVersion); }
    if inst.Some? { AgreeingBytesSameScan(g, ds, ds', inst.value, InstallVersion); }
  }

  lemma SameTotals(g: Graph, ps: seq<PkgState>, ps': seq<PkgState>)
    requires ValidStates(g, ps) && ValidStates(g, ps') && AllSameForPass(ps, ps') && AllSameBrokenness(ps, ps')
    ensures StateContribs(g, ps) == StateContribs(g, ps')
    ensures SizeContribs(g, ps) == SizeContribs(g, ps')
  {
    forall p | 0 <= p < |ps|
      ensures StateContrib(g, p, ps[p]) == StateContrib(g, p, ps'[p])
      ensures SizeContribs(g, ps)[p] == SizeContribs(g, ps')[p]
    {
      SameSizeContrib(g, ps, ps', p);
      assert SameForPass(ps[p], ps'[p]) && SameBrokenness(ps[p], ps'[p]);
    }
  }

  lemma SameSizeContrib(g: Graph, ps: seq<PkgState>, ps': seq<PkgState>, p: nat)
    requires ValidStates(g, ps) && ValidStates(g, ps') && AllSameForPass(ps, ps') && p < |ps|
    ensures SizeContribs(g, ps)[p] == SizeContribs(g, ps')[p]
  {
    assert SameForPass(ps[p], ps'[p]) && g.OwnVersion(p, ps[p].installVer);
  }

  lemma PassStarts(ps: seq<PkgState>, base: seq<PkgState>, ps': seq<PkgState>)
    requires AllSameForPass(ps, base) && OnlySummaries(base, ps')
    ensures AllSameForPass(ps, ps')
  {
    forall p | 0 <= p < |ps| ensures SameForPass(ps[p], ps'[p]) {
      assert SameForPass(ps[p], base[p]) && ps'[p] == base[p].(depState := ps'[p].depState);
    }
  }

  /**
    Incremental equals full: a full pass over the same choices computes the same Now and
    Install bits, the same brokenness of every package, the same counters and the same sizes.
  */
  lemma IncrementalEqualsFull(g: Graph, s: CacheState, base: seq<PkgState>, ps: seq<PkgState>, ds: seq<Byte>,
                              t: Tally, z: Sizes)
    requires Consistent(g, s) && AllSameForPass(s.ps, base)
    requires FullyComputed(g, base, ps, ds, t, z, |g.pkgs|)
    ensures BytesAgree(s.ds, ds)
    ensures AllSameBrokenness(s.ps, ps)
    ensures t == s.tally && z == s.sizes
  {
    var raw := RawsChecked(g, base);
    AllBytesFull(g, base, ps, ds, t, z);
    PassSeesSameRaws(g, s.ps, base);
    PassStarts(s.ps, base, ps);
    forall d | 0 <= d < |ds| ensures s.ds[d].Agrees(ds[d]) { IncrementalByte(g, s.ps, s.ds, raw, d); }
    forall p | 0 <= p < |ps| ensures SameBrokenness(s.ps[p], ps[p]) {
      assert SameForPass(s.ps[p], ps[p]);
      SameBrokennessOf(g, s.ps, ps, s.ds, ds, p);
    }
    SameTotals(g, s.ps, ps);
    SummariesKeepSizes(g, base, ps);
    assert StateContribs(g, ps)[..|g.pkgs|] == StateContribs(g, ps);
    assert SizeContribs(g, base)[..|g.pkgs|] == SizeContribs(g, base);
  }

  /** Two full passes over the same records end the same. */
  lemma PassDeterministic(g: Graph, base: seq<PkgState>, ps: seq<PkgState>, ds: seq<Byte>, t: Tally, z: Sizes,
                          ps': seq<PkgState>, ds': seq<Byte>, t': Tally, z': Sizes)
    requires FullyComputed(g, base, ps, ds, t, z, |g.pkgs|) && FullyComputed(g, base, ps', ds', t', z', |g.pkgs|)
    ensures ds == ds' && AllSameBrokenness(ps, ps') && t == t' && z == z'
  {
    AllBytesFull(g, base, ps, ds, t, z);
    AllBytesFull(g, base, ps', ds', t', z');
    assert ds == ds';
    forall p | 0 <= p < |ps| ensures SameForPass(ps[p], ps'[p]) {
      assert ps[p] == base[p].(depState := ps[p].depState) && ps'[p] == base[p].(depState := ps'[p].depState);
    }
    forall p | 0 <= p < |ps| ensures SameBrokenness(ps[p], ps'[p]) {
      assert SameForPass(ps[p], ps'[p]);
      SameBrokennessOf(g, ps, ps', ds, ds', p);
    }
    SameTotals(g, ps, ps');
  }

  /** A fresh level of the error stack: whether it holds warnings, and the flag errors set. */
  datatype ErrorLevel = ErrorLevel(warnings: bool, pending: bool)
  {
    /** A warning is kept, but does not make anything pending. */
    function Warning(): (r: ErrorLevel)
      ensures r.warnings && r.pending == pending
    {
      this.(warnings := true)
    }
  }

  function NoErrors(): (r: ErrorLevel)
    ensures !r.warnings && !r.pending
  {
    ErrorLevel(false, false)
  }

  lemma CopiedModes(g: Graph, ps: seq<PkgState>)
    requires |ps| == |g.pkgs| && forall p :: 0 <= p < |ps| ==> ModeOk(g, p, ps[p])
    ensures forall p :: 0 <= p < |ps| ==> ModeOk(g, p, Copied(ps)[p])
  {
    forall p | 0 <= p < |ps| ensures ModeOk(g, p, Copied(ps)[p]) { assert ModeOk(g, p, ps[p]); }
  }

  /** What the comparison at the end of the check finds out. */
  lemma CheckVerdict(g: Graph, s: CacheState, ps: seq<PkgState>, ds: seq<Byte>, t: Tally, z: Sizes, ok: bool)
    requires ValidStates(g, s.ps) && FullyComputed(g, Copied(s.ps), ps, ds, t, z, |g.pkgs|)
    requires ok == (AllSameBrokenness(s.ps, ps) && SameCounts(s.tally, s.sizes, t, z))
    ensures ok <==> Confirmed(g, s)
    ensures Consistent(g, s) ==> ok
  {
    CopiedFacts(g, s.ps);
    if Consistent(g, s) {
      IncrementalEqualsFull(g, s, Copied(s.ps), ps, ds, t, z);
    }
    if Confirmed(g, s) {
      var ps', ds', t', z' :|
        && FullyComputed(g, Copied(s.ps), ps', ds', t', z', |g.pkgs|)
        && SameCounts(s.tally, s.sizes, t', z') && AllSameBrokenness(s.ps, ps');
      PassDeterministic(g, Copied(s.ps), ps, ds, t, z, ps', ds', t', z');
      hide FullyComputed, Consistent, Copied;
    }
  }
}
