/** The bubblewrap mount plan: what `build_sandbox_argv` mounts, and what each path then shows. */
module SandboxMounts {
  import opened Options

  /** An absolute path, component by component; [] is the root. */
  type Path = seq<string>

  /** A path argument before validation; ".." may still occur. */
  datatype RawPath = RawPath(absolute: bool, parts: Path)

  datatype Profile = Agent | Learner | Runner

  /** `Tool` re-exposes something of the home, `Bundle` and `Snapshot` the lesson's own files. */
  datatype Kind = HostRoot | Proc | Dev | Tmpfs | Tool(writable: bool) | Bundle(writable: bool) | Snapshot

  datatype Mount = Mount(kind: Kind, target: Path)

  datatype Plan = Mounts(mounts: seq<Mount>) | Rejected(reason: string)

  const TMP: Path := ["tmp"]
  const RUN: Path := ["run"]
  const HOME: Path := ["home", "aina"]
  const WORKDIR: Path := ["tmp", "ephemeris-runner"]
  const MODULE_CACHE: Path := HOME + ["go", "pkg", "mod"]
  const MAX_SNAPSHOT_NAME := 200

  /** p is q or lies below it. */
  predicate Under(p: Path, q: Path) {
    q <= p
  }

  predicate PathsOverlap(p: Path, q: Path) {
    Under(p, q) || Under(q, p)
  }

  function HomeMounts(profile: Profile): seq<Mount> {
    match profile
    case Runner => [Mount(Tool(false), MODULE_CACHE)]
    case Learner => [
      Mount(Tool(false), HOME + [".local", "bin"]),
      Mount(Tool(false), HOME + ["go"]),
      Mount(Tool(false), HOME + [".cache", "go-build"])]
    case Agent => [
      Mount(Tool(false), HOME + [".local", "bin"]),
      Mount(Tool(false), HOME + [".nvm", "versions"]),
      Mount(Tool(false), HOME + [".local", "share", "claude", "versions"]),
      Mount(Tmpfs, HOME + [".codex"]),
      Mount(Tool(false), HOME + [".codex", "auth.json"]),
      Mount(Tool(false), HOME + [".codex", "config.toml"]),
      Mount(Tmpfs, HOME + [".claude"]),
      Mount(Tool(false), HOME + [".claude", ".credentials.json"]),
      Mount(Tool(false), HOME + [".claude", "settings.json"]),
      Mount(Tool(false), HOME + [".claude.json"]),
      Mount(Tool(true), HOME + ["go"]),
      Mount(Tool(true), HOME + [".cache", "go-build"])]
  }

  /** What every profile mounts before its home mounts. */
  function BaseMounts(profile: Profile): seq<Mount> {
    [Mount(HostRoot, []), Mount(Proc, ["proc"]), Mount(Dev, ["dev"]), Mount(Tmpfs, TMP), Mount(Tmpfs, HOME)] +
    if profile.Agent? then [] else [Mount(Tmpfs, RUN)]
  }

  /** `_needs_private_mask`: a root below /tmp, /run or the blank home is blank already, unless a
      later home mount overlaps it. */
  predicate NeedsPrivateMask(root: Path, rebound: seq<Mount>) {
    if Under(root, TMP) || Under(root, RUN) then false
    else if !Under(root, HOME) then true
    else exists i :: 0 <= i < |rebound| && !rebound[i].kind.Tmpfs? && PathsOverlap(root, rebound[i].target)
  }

  predicate NestedInEarlier(roots: seq<Path>, k: nat)
    requires k < |roots|
  {
    exists j :: 0 <= j < k && Under(roots[k], roots[j])
  }

  /** The masks the loop adds for the first k roots. */
  function MaskMounts(roots: seq<Path>, rebound: seq<Mount>, k: nat): seq<Mount>
    requires k <= |roots|
  {
    if k == 0 then []
    else
      var mask := if !NestedInEarlier(roots, k - 1) && NeedsPrivateMask(roots[k - 1], rebound)
                  then [Mount(Tmpfs, roots[k - 1])] else [];
      MaskMounts(roots, rebound, k - 1) + mask
  }

  /** list(dict.fromkeys(...)): first occurrences, in order. */
  function Dedup(ps: seq<Path>): (out: seq<Path>)
    ensures forall p :: p in out <==> p in ps
  {
    if ps == [] then []
    else
      var front, last := Dedup(ps[..|ps| - 1]), ps[|ps| - 1];
      assert ps == ps[..|ps| - 1] + [last];
      if last in front then front else front + [last]
  }

  predicate Clean(p: RawPath) {
    p.absolute && ".." !in p.parts
  }

  /** A strict descendant of a root that is not the filesystem root. */
  predicate BundleOk(bundle: RawPath, root: RawPath) {
    Clean(bundle) && Clean(root) && root.parts != [] && Under(bundle.parts, root.parts) && bundle.parts != root.parts
  }

  predicate PrivateOk(private: RawPath, root: RawPath) {
    && Clean(private) && private.parts != []
    && root.absolute && Under(root.parts, private.parts) && root.parts != private.parts
  }

  predicate MaskOk(p: RawPath) {
    Clean(p) && p.parts != []
  }

  predicate SafeName(name: string) {
    && name !in ["", ".", ".."]
    && |name| <= MAX_SNAPSHOT_NAME
    && forall i :: 0 <= i < |name| ==> name[i] != '/' && name[i] as int >= 32 && name[i] as int != 127
  }

  datatype Request = Request(
    profile: Profile, bundle: RawPath, bundleRoot: RawPath, private: Option<RawPath>, masks: seq<RawPath>,
    snapshotFd: Option<int>, snapshotName: Option<string>, moduleCacheFd: Option<int>, checkout: Path)

  /** The roots to blank, in the order the loop sees them. */
  function MaskRoots(q: Request): seq<Path> {
    Dedup(
      (if q.private.Some? then [q.private.value.parts] else [])
      + (if q.profile.Runner? then [q.checkout] else [])
      + seq(|q.masks|, i requires 0 <= i < |q.masks| => q.masks[i].parts))
  }

  function SnapshotTarget(q: Request): Option<Path> {
    if q.snapshotName.Some? then Some(WORKDIR + [q.snapshotName.value]) else None
  }

  /** The refusals of `build_sandbox_argv`, in its order; None means the plan is built. */
  function Refusal(q: Request): Option<string> {
    if !BundleOk(q.bundle, q.bundleRoot) then Some("bundle")
    else if q.private.Some? && !PrivateOk(q.private.value, q.bundleRoot) then Some("private root")
    else if q.profile.Runner? && q.private.None? then Some("private root required")
    else if q.profile.Runner? && !(q.moduleCacheFd.Some? && q.moduleCacheFd.value >= 0) then Some("module cache")
    else if !q.profile.Runner? && q.moduleCacheFd.Some? then Some("module cache only for runner")
    else if exists i :: 0 <= i < |q.masks| && !MaskOk(q.masks[i]) then Some("mask")
    else if q.profile.Runner? && exists i :: 1 <= i < |MaskRoots(q)| && Under(MaskRoots(q)[i], q.bundle.parts)
    then Some("mask inside bundle")
    else if !q.profile.Runner? && (q.snapshotFd.Some? || q.snapshotName.Some?) then Some("snapshot only for runner")
    else if q.snapshotFd.Some? != q.snapshotName.Some? then Some("snapshot pair")
    else if q.snapshotName.Some? && !SafeName(q.snapshotName.value) then Some("snapshot name")
    else if q.snapshotFd.Some? && q.snapshotFd.value < 0 then Some("snapshot fd")
    else None
  }

  /** An absolute path that names no parent. */
  ghost predicate Pure(p: RawPath) {
    p.absolute && forall i :: 0 <= i < |p.parts| ==> p.parts[i] != ".."
  }

  /** p lies properly below q. */
  ghost predicate Below(p: Path, q: Path) {
    |q| < |p| && forall i :: 0 <= i < |q| ==> p[i] == q[i]
  }

  /** One path component without control characters. */
  ghost predicate PlainName(name: string) {
    && 0 < |name| <= 200 && name != "." && name != ".."
    && '/' !in name && (forall c :: c in name ==> ' ' <= c && c as int != 127)
  }

  /** What a caller may ask for. */
  ghost predicate Acceptable(q: Request) {
    && Pure(q.bundle) && Pure(q.bundleRoot) && q.bundleRoot.parts != [] && Below(q.bundle.parts, q.bundleRoot.parts)
    && (q.private.Some? ==>
          Pure(q.private.value) && q.private.value.parts != [] && Below(q.bundleRoot.parts, q.private.value.parts))
    && (forall i :: 0 <= i < |q.masks| ==> Pure(q.masks[i]) && q.masks[i].parts != [])
    && (if q.profile.Runner? then
          && q.private.Some? && q.moduleCacheFd.Some? && q.moduleCacheFd.value >= 0
          && (forall i :: 1 <= i < |MaskRoots(q)| ==> !Under(MaskRoots(q)[i], q.bundle.parts))
          && (q.snapshotFd.None? <==> q.snapshotName.None?)
          && (q.snapshotFd.Some? ==> q.snapshotFd.value >= 0 && PlainName(q.snapshotName.value))
        else q.moduleCacheFd.None? && q.snapshotFd.None? && q.snapshotName.None?)
  }

  /** Those requests and no others get a plan. */
  lemma RefusalIsExact(q: Request)
    ensures Refusal(q).None? <==> Acceptable(q)
  {
    PureIsClean(q.bundle);
    PureIsClean(q.bundleRoot);
    BelowIsStrict(q.bundle.parts, q.bundleRoot.parts);
    if q.private.Some? {
      PureIsClean(q.private.value);
      BelowIsStrict(q.bundleRoot.parts, q.private.value.parts);
    }
    forall i | 0 <= i < |q.masks| ensures MaskOk(q.masks[i]) <==> Pure(q.masks[i]) && q.masks[i].parts != [] {
      PureIsClean(q.masks[i]);
    }
    if q.snapshotName.Some? {
      PlainIsSafe(q.snapshotName.value);
    }
  }

  lemma PureIsClean(p: RawPath)
    ensures Clean(p) <==> Pure(p)
  {
  }

  lemma BelowIsStrict(p: Path, q: Path)
    ensures Below(p, q) <==> Under(p, q) && p != q
  {
    if |q| == |p| {
      assert Under(p, q) ==> p == q;
    }
  }

  lemma PlainIsSafe(name: string)
    ensures SafeName(name) <==> PlainName(name)
  {
    assert forall i :: 0 <= i < |name| ==> name[i] in name;
    assert |name| == 0 ==> name == "";
  }

  function BeforeMasks(profile: Profile): seq<Mount> {
    BaseMounts(profile) + HomeMounts(profile)
  }

  function AfterMasks(q: Request): seq<Mount> {
    if q.profile.Runner?
    then [Mount(Bundle(false), q.bundle.parts)] +
      if q.snapshotName.Some? then [Mount(Snapshot, SnapshotTarget(q).value)] else []
    else [Mount(Bundle(true), q.bundle.parts)]
  }

  function MasksOf(q: Request): seq<Mount> {
    if q.profile.Agent? then [] else MaskMounts(MaskRoots(q), HomeMounts(q.profile), |MaskRoots(q)|)
  }

  function MountPlan(q: Request): seq<Mount> {
    BeforeMasks(q.profile) + MasksOf(q) + AfterMasks(q)
  }

  /** Later mounts shadow earlier ones: a path shows the last mount at or above it. */
  function Resolve(mounts: seq<Mount>, p: Path): Option<Mount> {
    if mounts == [] then None
    else if Under(p, mounts[|mounts| - 1].target) then Some(mounts[|mounts| - 1])
    else Resolve(mounts[..|mounts| - 1], p)
  }

  /** `build_sandbox_argv`, as the mounts it emits in order. */
  method BuildSandboxMounts(q: Request) returns (plan: Plan)
    ensures plan == if Refusal(q).Some? then Rejected(Refusal(q).value) else Mounts(MountPlan(q))
  {
    var refusal := Refusal(q);
    if refusal.Some? {
      return Rejected(refusal.value);
    }
    var mounts := BeforeMasks(q.profile);
    if !q.profile.Agent? {
      var rebound, roots := HomeMounts(q.profile), MaskRoots(q);
      for k := 0 to |roots|
        invariant mounts == BeforeMasks(q.profile) + MaskMounts(roots, rebound, k)
      {
        if !NestedInEarlier(roots, k) && NeedsPrivateMask(roots[k], rebound) {
          mounts := mounts + [Mount(Tmpfs, roots[k])];
        }
      }
    }
    return Mounts(mounts + AfterMasks(q));
  }

  lemma {:induction false} ResolveSplit(a: seq<Mount>, b: seq<Mount>, p: Path)
    ensures Resolve(a + b, p) == if Resolve(b, p).Some? then Resolve(b, p) else Resolve(a, p)
  {
    if b == [] {
      assert a + b == a;
    } else {
      assert (a + b)[..|a + b| - 1] == a + b[..|b| - 1];
      ResolveSplit(a, b[..|b| - 1], p);
    }
  }

  /** What a path shows is a mount of the list at or above it. */
  lemma {:induction false} ResolvedIsMember(mounts: seq<Mount>, p: Path)
    ensures Resolve(mounts, p).Some? ==> Resolve(mounts, p).value in mounts && Under(p, Resolve(mounts, p).value.target)
    ensures Resolve(mounts, p).None? ==> forall m :: m in mounts ==> !Under(p, m.target)
  {
    if mounts != [] {
      ResolvedIsMember(mounts[..|mounts| - 1], p);
      assert mounts == mounts[..|mounts| - 1] + [mounts[|mounts| - 1]];
    }
  }

  /** The loop mounts nothing but tmpfs, and only at mask roots. */
  lemma {:induction false} MasksAreTmpfsAtRoots(roots: seq<Path>, rebound: seq<Mount>, k: nat)
    requires k <= |roots|
    ensures forall m :: m in MaskMounts(roots, rebound, k) ==> m.kind.Tmpfs? && m.target in roots[..k]
  {
    if k > 0 {
      MasksAreTmpfsAtRoots(roots, rebound, k - 1);
      assert roots[..k] == roots[..k - 1] + [roots[k - 1]];
    }
  }

  /** A root whose mask was not skipped has its tmpfs in the list. */
  lemma {:induction false} MaskIsEmitted(roots: seq<Path>, rebound: seq<Mount>, k: nat, i: nat)
    requires i < k <= |roots| && !NestedInEarlier(roots, i) && NeedsPrivateMask(roots[i], rebound)
    ensures Mount(Tmpfs, roots[i]) in MaskMounts(roots, rebound, k)
  {
    if i < k - 1 {
      MaskIsEmitted(roots, rebound, k - 1, i);
    } else {
      assert MaskMounts(roots, rebound, k) == MaskMounts(roots, rebound, i) + [Mount(Tmpfs, roots[i])];
    }
  }

  /** Two ancestors of one path are comparable. */
  lemma AncestorsOverlap(p: Path, a: Path, b: Path)
    requires Under(p, a) && Under(p, b)
    ensures PathsOverlap(a, b)
  {
    assert |a| <= |b| ==> a == p[..|a|] && b[..|a|] == p[..|a|];
    assert |b| <= |a| ==> b == p[..|b|] && a[..|b|] == p[..|b|];
  }

  lemma NotUnderBoth(p: Path, a: Path, b: Path)
    requires Under(p, a) && !PathsOverlap(a, b)
    ensures !Under(p, b)
  {
    if Under(p, b) {
      AncestorsOverlap(p, a, b);
    }
  }

  /** Without its own mask, a root below /tmp, /run or the untouched home still shows a tmpfs. */
  lemma BlankWithoutMask(profile: Profile, root: Path, p: Path)
    requires !profile.Agent? && Under(p, root) && !NeedsPrivateMask(root, HomeMounts(profile))
    ensures Resolve(BeforeMasks(profile), p).Some? && Resolve(BeforeMasks(profile), p).value.kind.Tmpfs?
  {
    var base, home := BaseMounts(profile), HomeMounts(profile);
    ResolveSplit(base, home, p);
    ResolvedIsMember(home, p);
    assert Under(root, TMP) ==> p[0] == "tmp";
    assert Under(root, RUN) ==> p[0] == "run";
    forall i | 0 <= i < |home| ensures !Under(p, home[i].target) {
      NotUnderBoth(p, root, home[i].target);
    }
    assert forall m :: m in home ==> !Under(p, m.target);
    BlankBase(profile, root, p);
  }

  /** And only there: below a root that gets a mask something else would show without it. */
  lemma EveryMaskIsNeeded(profile: Profile, root: Path) returns (p: Path)
    requires !profile.Agent? && root != [] && NeedsPrivateMask(root, HomeMounts(profile))
    ensures Under(p, root) && Resolve(BeforeMasks(profile), p).Some?
    ensures !Resolve(BeforeMasks(profile), p).value.kind.Tmpfs?
  {
    var base, home := BaseMounts(profile), HomeMounts(profile);
    if Under(root, HOME) {
      var i :| 0 <= i < |home| && !home[i].kind.Tmpfs? && PathsOverlap(root, home[i].target);
      p := if Under(root, home[i].target) then root else home[i].target;
      ResolveSplit(base, home, p);
      ResolvedIsMember(home, p);
      assert home[i] in home && Under(p, home[i].target);
    } else {
      p := root;
      ResolveSplit(base, home, p);
      ResolvedIsMember(home, p);
      forall m | m in home ensures !Under(root, m.target) {
        assert Under(m.target, HOME);
        NotBelowIt(root, m.target, HOME);
      }
      RootShowsHost(profile, root);
    }
  }

  lemma NotBelowIt(p: Path, q: Path, r: Path)
    requires !Under(p, r) && Under(q, r)
    ensures !Under(p, q)
  {
    if Under(p, q) {
      UnderTransitive(p, q, r);
    }
  }

  lemma UnderTransitive(p: Path, q: Path, r: Path)
    requires Under(p, q) && Under(q, r)
    ensures Under(p, r)
  {
    assert p[..|r|] == q[..|r|];
  }

  lemma RootShowsHost(profile: Profile, root: Path)
    requires !Under(root, TMP) && !Under(root, RUN) && !Under(root, HOME)
    ensures Resolve(BaseMounts(profile), root).Some? && !Resolve(BaseMounts(profile), root).value.kind.Tmpfs?
  {
    var base := BaseMounts(profile);
    ResolvedIsMember(base, root);
    assert base[0] in base && Under(root, base[0].target);
    forall m | m in base && m.kind.Tmpfs? ensures !Under(root, m.target) {
    }
  }

  lemma BlankBase(profile: Profile, root: Path, p: Path)
    requires !profile.Agent? && Under(p, root)
    requires Under(root, TMP) || Under(root, RUN) || Under(root, HOME)
    ensures Resolve(BaseMounts(profile), p).Some? && Resolve(BaseMounts(profile), p).value.kind.Tmpfs?
  {
    var base := BaseMounts(profile);
    var front := [Mount(HostRoot, []), Mount(Proc, ["proc"]), Mount(Dev, ["dev"])];
    var blank := [Mount(Tmpfs, TMP), Mount(Tmpfs, HOME), Mount(Tmpfs, RUN)];
    assert base == front + blank;
    ResolveSplit(front, blank, p);
    ResolvedIsMember(blank, p);
    assert blank[0] in blank && blank[1] in blank && blank[2] in blank;
  }

  /** Skipped masks are covered: under any mask root, before the bundle, everything is blank. */
  lemma {:induction false} RootsAreBlank(profile: Profile, roots: seq<Path>, i: nat, p: Path)
    requires !profile.Agent? && i < |roots| && Under(p, roots[i])
    ensures var m := Resolve(BeforeMasks(profile) + MaskMounts(roots, HomeMounts(profile), |roots|), p);
            m.Some? && m.value.kind.Tmpfs?
    decreases i
  {
    var before, rebound := BeforeMasks(profile), HomeMounts(profile);
    var masks := MaskMounts(roots, rebound, |roots|);
    if NestedInEarlier(roots, i) {
      var j :| 0 <= j < i && Under(roots[i], roots[j]);
      RootsAreBlank(profile, roots, j, p);
    } else {
      ResolveSplit(before, masks, p);
      ResolvedIsMember(masks, p);
      MasksAreTmpfsAtRoots(roots, rebound, |roots|);
      if NeedsPrivateMask(roots[i], rebound) {
        MaskIsEmitted(roots, rebound, |roots|, i);
      } else {
        BlankWithoutMask(profile, roots[i], p);
      }
    }
  }

  predicate InSnapshot(q: Request, p: Path) {
    SnapshotTarget(q).Some? && Under(p, SnapshotTarget(q).value)
  }

  lemma ResolveAfter(q: Request, p: Path)
    requires q.snapshotName.Some? ==> q.profile.Runner?
    ensures Resolve(AfterMasks(q), p) ==
      if InSnapshot(q, p) then Some(Mount(Snapshot, SnapshotTarget(q).value))
      else if Under(p, q.bundle.parts) then Some(Mount(Bundle(!q.profile.Runner?), q.bundle.parts))
      else None
  {
    var bundle := [Mount(Bundle(!q.profile.Runner?), q.bundle.parts)];
    if q.snapshotName.Some? {
      ResolveSplit(bundle, [Mount(Snapshot, SnapshotTarget(q).value)], p);
    } else {
      assert AfterMasks(q) == bundle;
    }
  }

  /** Every path under a mask root and outside the bundle and the snapshot shows an empty tmpfs. */
  lemma MaskedPathsAreBlank(q: Request, root: Path, p: Path)
    requires Refusal(q).None? && !q.profile.Agent?
    requires root in MaskRoots(q) && Under(p, root)
    requires !Under(p, q.bundle.parts) && !InSnapshot(q, p)
    ensures Resolve(MountPlan(q), p).Some? && Resolve(MountPlan(q), p).value.kind.Tmpfs?
  {
    var i :| 0 <= i < |MaskRoots(q)| && MaskRoots(q)[i] == root;
    ResolveSplit(BeforeMasks(q.profile) + MasksOf(q), AfterMasks(q), p);
    ResolveAfter(q, p);
    RootsAreBlank(q.profile, MaskRoots(q), i, p);
  }

  /** Every bundle path outside the snapshot shows the bundle, whatever was masked. */
  lemma BundleIsVisible(q: Request, p: Path)
    requires Refusal(q).None? && Under(p, q.bundle.parts) && !InSnapshot(q, p)
    ensures Resolve(MountPlan(q), p) == Some(Mount(Bundle(!q.profile.Runner?), q.bundle.parts))
  {
    ResolveSplit(BeforeMasks(q.profile) + MasksOf(q), AfterMasks(q), p);
    ResolveAfter(q, p);
  }

  /** Masks hide nothing else: outside the roots, the bundle and the snapshot the plan is the one without masks. */
  lemma MasksHideOnlyRoots(q: Request, p: Path)
    requires Refusal(q).None? && !Under(p, q.bundle.parts) && !InSnapshot(q, p)
    requires forall root :: root in MaskRoots(q) ==> !Under(p, root)
    ensures Resolve(MountPlan(q), p) == Resolve(BeforeMasks(q.profile), p)
  {
    ResolveSplit(BeforeMasks(q.profile) + MasksOf(q), AfterMasks(q), p);
    ResolveAfter(q, p);
    ResolveSplit(BeforeMasks(q.profile), MasksOf(q), p);
    ResolvedIsMember(MasksOf(q), p);
    var roots := MaskRoots(q);
    MasksAreTmpfsAtRoots(roots, HomeMounts(q.profile), |roots|);
    assert roots[..|roots|] == roots;
  }

  /** A runner's masks never lie inside its bundle, so the whole private root outside it is blank. */
  lemma RunnerMasksAvoidBundle(q: Request, root: Path)
    requires Refusal(q).None? && q.profile.Runner? && root in MaskRoots(q)
    ensures !Under(root, q.bundle.parts)
  {
    var roots := MaskRoots(q);
    var i :| 0 <= i < |roots| && roots[i] == root;
    var listed := [q.private.value.parts] + [q.checkout]
      + seq(|q.masks|, k requires 0 <= k < |q.masks| => q.masks[k].parts);
    DedupHead(listed);
    assert roots == Dedup(listed);
    assert i == 0 ==> |root| < |q.bundle.parts|;
  }

  lemma {:induction false} DedupHead(ps: seq<Path>)
    requires ps != []
    ensures Dedup(ps) != [] && Dedup(ps)[0] == ps[0]
  {
    if |ps| > 1 {
      DedupHead(ps[..|ps| - 1]);
    } else {
      assert ps[..0] == [];
    }
  }

  const GO: Path := HOME + ["go"]
  const GO_BUILD: Path := HOME + [".cache", "go-build"]

  /** What of its home an agent may read: tools, and four files of the two agents' own configuration. */
  const AGENT_READS: seq<Path> := [
    HOME + [".local", "bin"], HOME + [".nvm", "versions"], HOME + [".local", "share", "claude", "versions"],
    HOME + [".codex", "auth.json"], HOME + [".codex", "config.toml"],
    HOME + [".claude", ".credentials.json"], HOME + [".claude", "settings.json"], HOME + [".claude.json"]]

  ghost predicate AgentReads(p: Path) {
    exists i :: 0 <= i < |AGENT_READS| && Under(p, AGENT_READS[i])
  }

  /** An agent's home is blank but for the two Go caches, which it can write, and what it may read; outside
      its home and bundle it can write through no bind. */
  lemma AgentHomeIsExact(q: Request, p: Path)
    requires Refusal(q).None? && q.profile.Agent? && !Under(p, q.bundle.parts)
    ensures Resolve(MountPlan(q), p).Some?
    ensures var k := Resolve(MountPlan(q), p).value.kind;
            && (Under(p, HOME) ==>
                  k == if Under(p, GO) || Under(p, GO_BUILD) then Tool(true)
                       else if AgentReads(p) then Tool(false) else Tmpfs)
            && (!Under(p, HOME) ==> k.HostRoot? || k.Proc? || k.Dev? || k.Tmpfs?)
  {
    AgentPlan(q, p);
    AgentBase(p);
    if Under(p, HOME) {
      AgentHome(p);
    } else {
      AgentOutside(p);
    }
  }

  lemma AgentOutside(p: Path)
    requires !Under(p, HOME)
    ensures Resolve(HomeMounts(Agent), p).None?
  {
    assert forall i :: 0 <= i < |HomeMounts(Agent)| ==> Under(HomeMounts(Agent)[i].target, HOME);
    OutsideHome(HomeMounts(Agent), p);
  }

  /** Outside its bundle an agent sees its home mounts, and what lies behind them. */
  lemma AgentPlan(q: Request, p: Path)
    requires Refusal(q).None? && q.profile.Agent? && !Under(p, q.bundle.parts)
    ensures Resolve(MountPlan(q), p) ==
            if Resolve(HomeMounts(Agent), p).Some? then Resolve(HomeMounts(Agent), p)
            else Resolve(BaseMounts(Agent), p)
  {
    var after := [Mount(Bundle(true), q.bundle.parts)];
    var before := BaseMounts(Agent) + HomeMounts(Agent);
    assert MountPlan(q) == before + after;
    ResolveSplit(before, after, p);
    ResolvedIsMember(after, p);
    ResolveSplit(BaseMounts(Agent), HomeMounts(Agent), p);
  }

  lemma OutsideHome(home: seq<Mount>, p: Path)
    requires !Under(p, HOME) && forall i :: 0 <= i < |home| ==> Under(home[i].target, HOME)
    ensures Resolve(home, p).None?
  {
    ResolvedIsMember(home, p);
    forall m | m in home ensures !Under(p, m.target) {
      NotBelowIt(p, m.target, HOME);
    }
  }

  lemma AgentBase(p: Path)
    ensures Resolve(BaseMounts(Agent), p).Some?
    ensures Under(p, HOME) ==> Resolve(BaseMounts(Agent), p).value.kind.Tmpfs?
    ensures var k := Resolve(BaseMounts(Agent), p).value.kind; k.HostRoot? || k.Proc? || k.Dev? || k.Tmpfs?
  {
    var base := BaseMounts(Agent);
    ResolvedIsMember(base, p);
    assert base[0] in base && Under(p, base[0].target);
    if Under(p, HOME) {
      assert base == base[..4] + [Mount(Tmpfs, HOME)];
      ResolveSplit(base[..4], [Mount(Tmpfs, HOME)], p);
      ResolvedIsMember([Mount(Tmpfs, HOME)], p);
    }
  }

  /** The mount a path shows is above it, and no later one is. */
  lemma {:induction false} ResolvedAt(mounts: seq<Mount>, p: Path) returns (i: nat)
    requires Resolve(mounts, p).Some?
    ensures i < |mounts| && Resolve(mounts, p).value == mounts[i] && Under(p, mounts[i].target)
    ensures forall j :: i < j < |mounts| ==> !Under(p, mounts[j].target)
  {
    var n := |mounts| - 1;
    if Under(p, mounts[n].target) {
      i := n;
    } else {
      i := ResolvedAt(mounts[..n], p);
      assert forall j :: i < j < n ==> mounts[j] == mounts[..n][j];
    }
  }

  /** Paths below different entries of the home are apart. */
  lemma EntryOf(p: Path, q: Path)
    requires Under(p, q) && |q| > 2
    ensures |p| > 2 && p[2] == q[2]
  {
  }

  /** Where a path an agent may read is mounted: behind the two blank directories of its own, if it has one. */
  function ReadAt(k: nat): nat {
    if k < 3 then k else if k < 5 then k + 1 else k + 2
  }

  lemma ReadsAreMounted(k: nat)
    requires k < |AGENT_READS|
    ensures ReadAt(k) < 10 && HomeMounts(Agent)[ReadAt(k)] == Mount(Tool(false), AGENT_READS[k])
    ensures AGENT_READS[k][2] == if k == 0 || k == 2 then ".local" else if k == 1 then ".nvm"
                                 else if k < 5 then ".codex" else if k < 7 then ".claude" else ".claude.json"
  {
  }

  /** Below one of the two blank directories, but in front of none of its own files. */
  lemma BlankIsNotRead(p: Path, i: nat)
    requires (i == 3 || i == 6) && Under(p, HomeMounts(Agent)[i].target)
    requires forall j :: i < j < 12 ==> !Under(p, HomeMounts(Agent)[j].target)
    ensures !AgentReads(p)
  {
    EntryOf(p, HomeMounts(Agent)[i].target);
    forall k | 0 <= k < |AGENT_READS| ensures !Under(p, AGENT_READS[k]) {
      ReadsAreMounted(k);
      if ReadAt(k) < i && Under(p, AGENT_READS[k]) {
        EntryOf(p, AGENT_READS[k]);
      }
    }
  }

  /** What the home mounts show, if anything: the last of them above the path. */
  lemma AgentHome(p: Path)
    ensures var shown := Resolve(HomeMounts(Agent), p);
            if Under(p, GO) || Under(p, GO_BUILD) then shown.Some? && shown.value.kind == Tool(true)
            else if AgentReads(p) then shown.Some? && shown.value.kind == Tool(false)
            else shown.Some? ==> shown.value.kind == Tmpfs
  {
    var home := HomeMounts(Agent);
    ResolvedIsMember(home, p);
    assert home[10] == Mount(Tool(true), GO) && home[11] == Mount(Tool(true), GO_BUILD);
    assert home[10] in home && home[11] in home;
    forall k | 0 <= k < |AGENT_READS| ensures home[ReadAt(k)] in home && home[ReadAt(k)].target == AGENT_READS[k] {
      ReadsAreMounted(k);
    }
    if Resolve(home, p).Some? {
      var i := ResolvedAt(home, p);
      if i == 3 || i == 6 {
        BlankIsNotRead(p, i);
      } else if i < 10 {
        ReadAgain(p, i);
      }
    }
  }

  lemma ReadAgain(p: Path, i: nat)
    requires i < 10 && i != 3 && i != 6 && Under(p, HomeMounts(Agent)[i].target)
    ensures AgentReads(p) && HomeMounts(Agent)[i].kind == Tool(false)
  {
    var k := if i < 3 then i else if i < 6 then i - 1 else i - 2;
    ReadsAreMounted(k);
  }

  /** A learner can write through a bind only inside its bundle, a runner through none at all. */
  lemma WritableBindsAreTheBundle(q: Request, p: Path)
    requires Refusal(q).None? && !q.profile.Agent?
    ensures Resolve(MountPlan(q), p).Some?
    ensures var k := Resolve(MountPlan(q), p).value.kind;
      (k.Tool? ==> !k.writable) && (k.Bundle? && k.writable ==> q.profile.Learner? && Under(p, q.bundle.parts))
  {
    var plan := MountPlan(q);
    ResolvedIsMember(plan, p);
    assert plan[0] == Mount(HostRoot, []) && plan[0] in plan && Under(p, []);
    var m := Resolve(plan, p).value;
    assert m in BeforeMasks(q.profile) || m in MasksOf(q) || m in AfterMasks(q);
    WritableMounts(q, m);
  }

  lemma WritableMounts(q: Request, m: Mount)
    requires Refusal(q).None? && !q.profile.Agent?
    requires m in BeforeMasks(q.profile) || m in MasksOf(q) || m in AfterMasks(q)
    ensures m.kind.Tool? ==> !m.kind.writable
    ensures m.kind.Bundle? && m.kind.writable ==> q.profile.Learner? && m.target == q.bundle.parts
  {
    var roots := MaskRoots(q);
    if m in MasksOf(q) {
      MasksAreTmpfsAtRoots(roots, HomeMounts(q.profile), |roots|);
    } else if m in BeforeMasks(q.profile) {
      ToolsAreReadOnly(q.profile, m);
    }
  }

  lemma ToolsAreReadOnly(profile: Profile, m: Mount)
    requires !profile.Agent? && m in BeforeMasks(profile)
    ensures !m.kind.Bundle? && (m.kind.Tool? ==> !m.kind.writable)
  {
    if m in HomeMounts(profile) {
      assert m.kind == Tool(false);
    } else {
      assert m in BaseMounts(profile);
    }
  }
}
