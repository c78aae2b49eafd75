/**
  The immutable part of the package cache: packages, versions, dependencies and
  provides, each identified by its index, and the questions the dependency
  engine asks about a single dependency.
*/
module DepGraph {
  import opened Wrappers

  datatype DepType =
    | Depends | PreDepends | Recommends | Suggests
    | Conflicts | Breaks | Replaces | Obsoletes | Enhances

  /** What dpkg still has to do for a package. */
  datatype OkState = NeedsNothing | NeedsUnpack | NeedsConfigure

  /**
    One alternative of a dependency field; `pos` is its place in the list of the
    version it belongs to. `orNext` says that the next entry of
    the list belongs to the same or-group. Version comparison is not modelled:
    `satVers` and `satPrvs` hold the versions and the provides whose version
    satisfies the dependency's relation. `allTargets` is every version that
    could satisfy it, `installedTargets` the installed ones among them.
  */
  datatype Dependency = Dependency(
    parentVer: nat, pos: nat, target: nat, kind: DepType, orNext: bool, multiArchImplicit: bool,
    satVers: set<nat>, satPrvs: set<nat>, allTargets: seq<nat>, installedTargets: seq<nat>)

  /** `rank` orders the versions of a package, standing for CompareVer; `text` stands for the version string. */
  datatype Version = Version(
    parentPkg: nat, depends: seq<nat>, providesList: seq<nat>,
    installedSize: nat, size: nat, rank: int, text: nat, multiArchSame: bool, downloadable: bool,
    required: bool, recommendsSection: bool, neverMarkAutoSection: bool)

  datatype Provides = Provides(ownerVer: nat, parentPkg: nat)

  datatype Package = Package(
    group: nat, currentVer: Option<nat>, versions: seq<nat>, revDepends: seq<nat>, providesList: seq<nat>,
    okState: OkState, purged: bool, hold: bool, essential: bool, important: bool, inRootSet: bool)

  datatype Config = Config(
    installRecommends: bool, installSuggests: bool, ignoreHold: bool, allowRemoveEssential: bool,
    markAuto: bool, followRecommends: bool, followSuggests: bool)

  /** `nullSize` and `nullDownloadable` are what reading those fields of the null version yields. */
  datatype Graph = Graph(
    pkgs: seq<Package>, vers: seq<Version>, deps: seq<Dependency>, prvs: seq<Provides>,
    config: Config, nullSize: nat, nullDownloadable: bool)
  {
    ghost predicate ValidVersion(v: nat)
      requires v < |vers|
    {
      var V := vers[v];
      && V.parentPkg < |pkgs|
      && v in pkgs[V.parentPkg].versions
      && (forall i :: 0 <= i < |V.depends| ==>
            V.depends[i] < |deps| && deps[V.depends[i]].parentVer == v && deps[V.depends[i]].pos == i)
      && (|V.depends| > 0 ==> !deps[V.depends[|V.depends| - 1]].orNext)
      && (forall i :: 0 <= i < |V.providesList| ==> V.providesList[i] < |prvs|)
    }

    ghost predicate ValidDependency(d: nat)
      requires d < |deps|
    {
      var D := deps[d];
      && D.parentVer < |vers|
      && D.pos < |vers[D.parentVer].depends| && vers[D.parentVer].depends[D.pos] == d
      && D.target < |pkgs|
      && d in pkgs[D.target].revDepends
      && (forall i :: 0 <= i < |D.allTargets| ==> D.allTargets[i] < |vers|)
      && (forall i :: 0 <= i < |D.installedTargets| ==> D.installedTargets[i] < |vers|)
    }

    ghost predicate ValidProvides(r: nat)
      requires r < |prvs|
    {
      && prvs[r].ownerVer < |vers|
      && prvs[r].parentPkg < |pkgs|
      && r in vers[prvs[r].ownerVer].providesList
    }

    ghost predicate ValidPackage(p: nat)
      requires p < |pkgs|
    {
      var P := pkgs[p];
      && OwnVersion(p, P.currentVer)
      && (forall i :: 0 <= i < |P.versions| ==> P.versions[i] < |vers| && vers[P.versions[i]].parentPkg == p)
      && (forall i :: 0 <= i < |P.revDepends| ==> P.revDepends[i] < |deps|)
      && (forall i :: 0 <= i < |P.providesList| ==>
        P.providesList[i] < |prvs| && prvs[P.providesList[i]].parentPkg == p)
    }

    /** The null version, or a version of package p. */
    ghost predicate OwnVersion(p: nat, v: Option<nat>) {
      v.Some? ==> v.value < |vers| && vers[v.value].parentPkg == p
    }

    /** The cross references the cache generator writes are mutually consistent. */
    ghost predicate Valid() {
      && (forall v :: 0 <= v < |vers| ==> ValidVersion(v))
      && (forall d :: 0 <= d < |deps| ==> ValidDependency(d))
      && (forall r :: 0 <= r < |prvs| ==> ValidProvides(r))
      && (forall p :: 0 <= p < |pkgs| ==> ValidPackage(p))
    }

    predicate IsNegative(d: nat)
      requires d < |deps|
    {
      deps[d].kind in {Breaks, Conflicts, Obsoletes}
    }

    predicate IsCritical(d: nat)
      requires d < |deps|
    {
      IsNegative(d) || deps[d].kind in {Depends, PreDepends}
    }

    /** The default policy on which dependencies have to be installed, too. */
    predicate IsImportantDep(d: nat)
      requires d < |deps| && deps[d].parentVer < |vers|
    {
      if IsCritical(d) then true
      else if deps[d].kind == Recommends then
        config.installRecommends || vers[deps[d].parentVer].recommendsSection
      else
        deps[d].kind == Suggests && config.installSuggests
    }

    function OwnerPkg(r: nat): (p: nat)
      requires Valid() && r < |prvs|
      ensures p < |pkgs|
    {
      assert ValidProvides(r) && ValidVersion(prvs[r].ownerVer);
      vers[prvs[r].ownerVer].parentPkg
    }

    function ParentPkg(d: nat): (p: nat)
      requires Valid() && d < |deps|
      ensures p < |pkgs|
    {
      assert ValidDependency(d) && ValidVersion(deps[d].parentVer);
      vers[deps[d].parentVer].parentPkg
    }

    /** Self-conflicts, and group conflicts of a version that is M-A:same. */
    predicate IsIgnorablePkg(d: nat, p: nat)
      requires Valid() && d < |deps| && p < |pkgs|
    {
      assert ValidDependency(d);
      var v := deps[d].parentVer;
      var pp := ParentPkg(d);
      && IsNegative(d)
      && pkgs[pp].group == pkgs[p].group
      && (pp == p || (vers[v].multiArchSame && !deps[d].multiArchImplicit))
    }

    predicate IsIgnorablePrv(d: nat, r: nat)
      requires Valid() && d < |deps| && r < |prvs|
    {
      var own := pkgs[ParentPkg(d)].group;
      var other := pkgs[OwnerPkg(r)].group;
      IsNegative(d) && (other == own || deps[d].multiArchImplicit)
    }

    function VerSize(v: Option<nat>): nat
      requires v.Some? ==> v.value < |vers|
    {
      if v.Some? then vers[v.value].size else nullSize
    }

    predicate Downloadable(v: Option<nat>)
      requires v.Some? ==> v.value < |vers|
    {
      if v.Some? then vers[v.value].downloadable else nullDownloadable
    }

    function VerInstalledSize(v: Option<nat>): nat
      requires v.Some? ==> v.value < |vers|
    {
      if v.Some? then vers[v.value].installedSize else nullSize
    }
  }
}
