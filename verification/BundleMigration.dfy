/** The v1 to v2 bundle migration: apply with a durable rollback record, crash anywhere, roll back. */
module BundleMigration {
  import opened Options

  /** SHA-256, taken as injective. */
  datatype Digest = Sha256(content: Bytes)

  datatype PlanAction = Migrate | AlreadyV2 | Skip | Stop

  /** One bundle's decision; `oldBytes` and `newBytes` matter for Migrate only. */
  datatype BundlePlan = BundlePlan(slug: string, action: PlanAction, oldBytes: Bytes, newBytes: Bytes)

  datatype Entry = Entry(slug: string, oldSha: Digest, newSha: Digest)

  /** What the ledger records of a planned migration. */
  function EntryOf(p: BundlePlan): Entry {
    Entry(p.slug, Sha256(p.oldBytes), Sha256(p.newBytes))
  }

  /** Somebody else replaces or removes a manifest. */
  datatype Edit = Edit(slug: string, content: Option<Bytes>)

  type Manifests = map<string, Bytes>

  function Lookup(m: Manifests, slug: string): Option<Bytes> {
    if slug in m then Some(m[slug]) else None
  }

  function ApplyEdit(m: Manifests, e: Edit): Manifests {
    if e.content.Some? then m[e.slug := e.content.value] else map s | s in m && s != e.slug :: m[s]
  }

  /** [e for e in entries if e["slug"] != slug]. */
  function Without(ledger: seq<Entry>, slug: string): (out: seq<Entry>)
    ensures forall e :: e in out <==> e in ledger && e.slug != slug
  {
    if ledger == [] then []
    else if ledger[0].slug == slug then Without(ledger[1..], slug)
    else [ledger[0]] + Without(ledger[1..], slug)
  }

  /** Edits in order, except of the one bundle they spare. */
  function ApplyEdits(m: Manifests, edits: seq<Edit>, spared: Option<string>): Manifests {
    if edits == [] then m
    else
      var before, last := ApplyEdits(m, edits[..|edits| - 1], spared), edits[|edits| - 1];
      if Some(last.slug) == spared then before else ApplyEdit(before, last)
  }

  // ----- rollback, entry by entry -----

  /** The entry's copy is present and is what the entry recorded. */
  predicate CopyMatches(copies: Manifests, unsafe: set<string>, e: Entry) {
    e.slug !in unsafe && e.slug in copies && Sha256(copies[e.slug]) == e.oldSha
  }

  /** The manifest still holds the migrated bytes of this entry, and not the old ones already. */
  predicate Effective(m: Manifests, copies: Manifests, unsafe: set<string>, e: Entry) {
    && CopyMatches(copies, unsafe, e)
    && e.slug in m && Sha256(m[e.slug]) != e.oldSha && Sha256(m[e.slug]) == e.newSha
  }

  function RollbackEntry(m: Manifests, copies: Manifests, unsafe: set<string>, e: Entry): Manifests {
    if Effective(m, copies, unsafe, e) then m[e.slug := copies[e.slug]] else m
  }

  function RollbackAll(m: Manifests, copies: Manifests, unsafe: set<string>, ledger: seq<Entry>): Manifests {
    if ledger == [] then m
    else RollbackEntry(RollbackAll(m, copies, unsafe, ledger[..|ledger| - 1]), copies, unsafe, ledger[|ledger| - 1])
  }

  ghost predicate SomeEffective(m: Manifests, copies: Manifests, unsafe: set<string>, ledger: seq<Entry>,
                                slug: string) {
    exists e :: e in ledger && e.slug == slug && Effective(m, copies, unsafe, e)
  }

  /** What a rollback does to each manifest, for any ledger: it becomes its copy when some entry
      recognises its bytes as migrated, and is left alone otherwise. */
  lemma {:induction false} RollbackOf(m: Manifests, copies: Manifests, unsafe: set<string>, ledger: seq<Entry>,
                                      slug: string)
    ensures Lookup(RollbackAll(m, copies, unsafe, ledger), slug) ==
            if SomeEffective(m, copies, unsafe, ledger, slug) then Lookup(copies, slug) else Lookup(m, slug)
  {
    if ledger != [] {
      var front, e := ledger[..|ledger| - 1], ledger[|ledger| - 1];
      RollbackOf(m, copies, unsafe, front, slug);
      assert ledger == front + [e];
      var mid := RollbackAll(m, copies, unsafe, front);
      if e.slug == slug {
        assert Lookup(mid, slug) == Lookup(m, slug) ==>
          (Effective(mid, copies, unsafe, e) <==> Effective(m, copies, unsafe, e));
      }
      assert SomeEffective(m, copies, unsafe, ledger, slug) <==>
        SomeEffective(m, copies, unsafe, front, slug) || (e.slug == slug && Effective(m, copies, unsafe, e));
    }
  }

  lemma SameManifests(a: Manifests, b: Manifests)
    requires forall slug :: Lookup(a, slug) == Lookup(b, slug)
    ensures a == b
  {
    assert forall s :: s in a <==> Lookup(a, s).Some?;
    assert forall s :: s in b <==> Lookup(b, s).Some?;
    forall s | s in a ensures s in b && a[s] == b[s] {
      assert Lookup(a, s) == Lookup(b, s);
    }
    forall s | s in b ensures s in a {
      assert Lookup(a, s) == Lookup(b, s);
    }
  }

  /** A rollback cut short at any entry and started over ends where an uninterrupted one does. */
  lemma RollbackResumes(m: Manifests, copies: Manifests, unsafe: set<string>, ledger: seq<Entry>, k: nat)
    requires k <= |ledger|
    ensures RollbackAll(RollbackAll(m, copies, unsafe, ledger[..k]), copies, unsafe, ledger) ==
            RollbackAll(m, copies, unsafe, ledger)
  {
    var part := RollbackAll(m, copies, unsafe, ledger[..k]);
    forall slug ensures Lookup(RollbackAll(part, copies, unsafe, ledger), slug) ==
                        Lookup(RollbackAll(m, copies, unsafe, ledger), slug) {
      RollbackOf(part, copies, unsafe, ledger, slug);
      RollbackOf(m, copies, unsafe, ledger, slug);
      RollbackOf(m, copies, unsafe, ledger[..k], slug);
      if SomeEffective(m, copies, unsafe, ledger[..k], slug) {
        var e :| e in ledger[..k] && e.slug == slug && Effective(m, copies, unsafe, e);
        assert e in ledger;
      } else {
        assert Lookup(part, slug) == Lookup(m, slug);
        assert forall e :: e in ledger && e.slug == slug ==>
          (Effective(part, copies, unsafe, e) <==> Effective(m, copies, unsafe, e));
      }
    }
    SameManifests(RollbackAll(part, copies, unsafe, ledger), RollbackAll(m, copies, unsafe, ledger));
  }

  /** A second rollback changes nothing. */
  lemma RollbackIsIdempotent(m: Manifests, copies: Manifests, unsafe: set<string>, ledger: seq<Entry>)
    ensures var once := RollbackAll(m, copies, unsafe, ledger);
            RollbackAll(once, copies, unsafe, ledger) == once
  {
    RollbackResumes(m, copies, unsafe, ledger, |ledger|);
    assert ledger[..|ledger|] == ledger;
  }

  /** The copy is intact and the manifest holds the recorded old bytes or the migrated ones. */
  predicate Restorable(m: Manifests, copies: Manifests, unsafe: set<string>, e: Entry) {
    && CopyMatches(copies, unsafe, e) && e.slug in m
    && (Sha256(m[e.slug]) == e.oldSha || Sha256(m[e.slug]) == e.newSha)
  }

  /** How many of the first n entries are not, each when its turn comes. */
  function Failures(m: Manifests, copies: Manifests, unsafe: set<string>, ledger: seq<Entry>, n: nat): nat
    requires n <= |ledger|
  {
    if n == 0 then 0
    else
      var turn := RollbackAll(m, copies, unsafe, ledger[..n - 1]);
      Failures(m, copies, unsafe, ledger, n - 1) + if Restorable(turn, copies, unsafe, ledger[n - 1]) then 0 else 1
  }

  /** The first n bundles of the ledger hold their copies. */
  ghost predicate AllBack(m: Manifests, copies: Manifests, unsafe: set<string>, ledger: seq<Entry>, n: nat) {
    forall i :: 0 <= i < n <= |ledger| ==>
      CopyMatches(copies, unsafe, ledger[i]) && Lookup(m, ledger[i].slug) == Some(copies[ledger[i].slug])
  }

  lemma OneMoreBack(m: Manifests, copies: Manifests, unsafe: set<string>, ledger: seq<Entry>, n: nat)
    requires n < |ledger| && AllBack(m, copies, unsafe, ledger, n) && Restorable(m, copies, unsafe, ledger[n])
    ensures AllBack(RollbackEntry(m, copies, unsafe, ledger[n]), copies, unsafe, ledger, n + 1)
  {
  }

  ghost predicate UniqueSlugs(ledger: seq<Entry>) {
    forall i, j :: 0 <= i < j < |ledger| ==> ledger[i].slug != ledger[j].slug
  }

  /** With one entry a bundle, an entry's turn finds its manifest as it was at the start. */
  lemma {:induction false} FailuresBeforehand(m: Manifests, copies: Manifests, unsafe: set<string>,
                                              ledger: seq<Entry>, n: nat)
    requires UniqueSlugs(ledger) && n <= |ledger|
    ensures Failures(m, copies, unsafe, ledger, n) == 0 <==>
            forall k :: 0 <= k < n ==> Restorable(m, copies, unsafe, ledger[k])
  {
    if n > 0 {
      FailuresBeforehand(m, copies, unsafe, ledger, n - 1);
      var e := ledger[n - 1];
      RollbackOf(m, copies, unsafe, ledger[..n - 1], e.slug);
      assert Lookup(RollbackAll(m, copies, unsafe, ledger[..n - 1]), e.slug) == Lookup(m, e.slug);
    }
  }

  // ----- the run and its invariant -----

  ghost predicate PlannedFrom(planned: Manifests, plans: seq<BundlePlan>) {
    forall p :: p in plans && p.action.Migrate? ==> Lookup(planned, p.slug) == Some(p.oldBytes)
  }

  /** Every ledger entry is that of a recorded plan and can restore what was there at planning time. */
  ghost predicate EntrySound(planned: Manifests, copies: Manifests, recorded: set<BundlePlan>, e: Entry) {
    && e.slug in copies && Lookup(planned, e.slug) == Some(copies[e.slug]) && e.oldSha == Sha256(copies[e.slug])
    && exists p :: p in recorded && e == EntryOf(p)
  }

  ghost predicate LedgerSound(planned: Manifests, copies: Manifests, ledger: seq<Entry>, recorded: set<BundlePlan>) {
    && UniqueSlugs(ledger)
    && forall e :: e in ledger ==> EntrySound(planned, copies, recorded, e)
  }

  /** The manifest holds exactly the new bytes of a plan whose ledger entry is there. */
  ghost predicate HoldsPlan(m: Manifests, ledger: seq<Entry>, p: BundlePlan) {
    EntryOf(p) in ledger && Lookup(m, p.slug) == Some(p.newBytes)
  }

  /** A manifest nobody edited holds its planning-time bytes or the planned bytes of a recorded plan. */
  ghost predicate OldOrPlanned(planned: Manifests, m: Manifests, ledger: seq<Entry>, recorded: set<BundlePlan>,
                               slug: string) {
    || Lookup(m, slug) == Lookup(planned, slug)
    || exists p :: p in recorded && p.slug == slug && HoldsPlan(m, ledger, p)
  }

  ghost predicate CrashSafe(planned: Manifests, m: Manifests, copies: Manifests, ledger: seq<Entry>,
                            recorded: set<BundlePlan>, edited: set<string>) {
    && LedgerSound(planned, copies, ledger, recorded)
    && forall slug :: slug !in edited ==> OldOrPlanned(planned, m, ledger, recorded, slug)
  }

  lemma WithoutIsUnique(ledger: seq<Entry>, e: Entry)
    requires UniqueSlugs(ledger)
    ensures UniqueSlugs(Without(ledger, e.slug) + [e])
  {
    var out := Without(ledger, e.slug);
    WithoutKeepsUnique(ledger, e.slug);
    forall i | 0 <= i < |out| ensures out[i].slug != e.slug {
      assert out[i] in out;
    }
  }

  lemma {:induction false} WithoutKeepsUnique(ledger: seq<Entry>, slug: string)
    requires UniqueSlugs(ledger)
    ensures UniqueSlugs(Without(ledger, slug))
  {
    if ledger != [] {
      var tail := ledger[1..];
      WithoutKeepsUnique(tail, slug);
      var rest := Without(tail, slug);
      forall k | 0 <= k < |rest| ensures rest[k].slug != ledger[0].slug {
        assert rest[k] in rest;
        var j :| 0 <= j < |tail| && tail[j] == rest[k];
        assert ledger[j + 1] == rest[k];
      }
      assert UniqueSlugs([ledger[0]] + rest);
    }
  }

  /** Writing a plan's copy keeps everything restorable. */
  lemma CopyKeepsSafe(planned: Manifests, m: Manifests, copies: Manifests, ledger: seq<Entry>,
                      recorded: set<BundlePlan>, edited: set<string>, p: BundlePlan)
    requires CrashSafe(planned, m, copies, ledger, recorded, edited)
    requires Lookup(planned, p.slug) == Some(p.oldBytes)
    ensures CrashSafe(planned, m, copies[p.slug := p.oldBytes], ledger, recorded, edited)
  {
    forall e | e in ledger ensures EntrySound(planned, copies[p.slug := p.oldBytes], recorded, e) {
      assert EntrySound(planned, copies, recorded, e);
    }
  }

  /** So does its ledger entry, before the manifest itself is touched. */
  lemma RecordKeepsSafe(planned: Manifests, m: Manifests, copies: Manifests, ledger: seq<Entry>,
                        recorded: set<BundlePlan>, edited: set<string>, p: BundlePlan)
    requires CrashSafe(planned, m, copies, ledger, recorded, edited) && Lookup(copies, p.slug) == Some(p.oldBytes)
    requires Lookup(planned, p.slug) == Some(p.oldBytes) && Lookup(m, p.slug) == Some(p.oldBytes)
    ensures CrashSafe(planned, m, copies, Without(ledger, p.slug) + [EntryOf(p)], recorded + {p}, edited)
  {
    var ledger', recorded' := Without(ledger, p.slug) + [EntryOf(p)], recorded + {p};
    WithoutIsUnique(ledger, EntryOf(p));
    forall e | e in ledger' ensures EntrySound(planned, copies, recorded', e) {
      if e in ledger && e.slug != p.slug {
        assert EntrySound(planned, copies, recorded, e);
      } else {
        assert p in recorded' && e == EntryOf(p);
      }
    }
    forall slug | slug !in edited ensures OldOrPlanned(planned, m, ledger', recorded', slug) {
      assert OldOrPlanned(planned, m, ledger, recorded, slug);
      if Lookup(m, slug) != Lookup(planned, slug) {
        var q :| q in recorded && q.slug == slug && HoldsPlan(m, ledger, q);
        assert HoldsPlan(m, ledger', q);
      }
    }
  }

  lemma PublishKeepsSafe(planned: Manifests, m: Manifests, copies: Manifests, ledger: seq<Entry>,
                         recorded: set<BundlePlan>, edited: set<string>, p: BundlePlan)
    requires CrashSafe(planned, m, copies, ledger, recorded, edited) && p in recorded && EntryOf(p) in ledger
    ensures CrashSafe(planned, m[p.slug := p.newBytes], copies, ledger, recorded, edited)
  {
    var m' := m[p.slug := p.newBytes];
    forall slug | slug !in edited ensures OldOrPlanned(planned, m', ledger, recorded, slug) {
      assert OldOrPlanned(planned, m, ledger, recorded, slug);
      if slug == p.slug {
        assert HoldsPlan(m', ledger, p);
      } else {
        SameBytesSamePlan(planned, m, m', ledger, recorded, slug);
      }
    }
  }

  lemma SameBytesSamePlan(planned: Manifests, m: Manifests, m': Manifests, ledger: seq<Entry>,
                          recorded: set<BundlePlan>, slug: string)
    requires OldOrPlanned(planned, m, ledger, recorded, slug) && Lookup(m', slug) == Lookup(m, slug)
    ensures OldOrPlanned(planned, m', ledger, recorded, slug)
  {
    if Lookup(m, slug) != Lookup(planned, slug) {
      var q :| q in recorded && q.slug == slug && HoldsPlan(m, ledger, q);
      assert HoldsPlan(m', ledger, q);
    }
  }

  lemma EditKeepsSafe(planned: Manifests, m: Manifests, copies: Manifests, ledger: seq<Entry>,
                      recorded: set<BundlePlan>, edited: set<string>, e: Edit)
    requires CrashSafe(planned, m, copies, ledger, recorded, edited)
    ensures CrashSafe(planned, ApplyEdit(m, e), copies, ledger, recorded, edited + {e.slug})
  {
    forall slug | slug !in edited + {e.slug} ensures OldOrPlanned(planned, ApplyEdit(m, e), ledger, recorded, slug) {
      assert OldOrPlanned(planned, m, ledger, recorded, slug);
      SameBytesSamePlan(planned, m, ApplyEdit(m, e), ledger, recorded, slug);
    }
  }

  /** What a crash at any point can leave: an unedited manifest holds its old bytes, or the new bytes of a
      recorded plan made from those old bytes, with the old bytes in the copy and the plan in the ledger. */
  lemma CrashLeavesOldOrPlanned(planned: Manifests, m: Manifests, copies: Manifests, ledger: seq<Entry>,
                                recorded: set<BundlePlan>, edited: set<string>, slug: string)
    requires CrashSafe(planned, m, copies, ledger, recorded, edited) && slug !in edited
    ensures Lookup(m, slug) == Lookup(planned, slug)
            || exists p :: p in recorded && p.slug == slug && Lookup(m, slug) == Some(p.newBytes)
                           && Lookup(planned, slug) == Lookup(copies, slug) == Some(p.oldBytes)
                           && EntryOf(p) in ledger
  {
    assert OldOrPlanned(planned, m, ledger, recorded, slug);
    if Lookup(m, slug) != Lookup(planned, slug) {
      var p :| p in recorded && p.slug == slug && HoldsPlan(m, ledger, p);
      assert EntrySound(planned, copies, recorded, EntryOf(p));
    }
  }

  /** After a crash at any point, rolling back gives every unedited bundle its exact planning-time bytes. */
  lemma RollbackRestores(planned: Manifests, m: Manifests, copies: Manifests, ledger: seq<Entry>,
                         recorded: set<BundlePlan>, edited: set<string>, unsafe: set<string>, slug: string)
    requires CrashSafe(planned, m, copies, ledger, recorded, edited)
    requires slug !in edited && slug !in unsafe
    ensures Lookup(RollbackAll(m, copies, unsafe, ledger), slug) == Lookup(planned, slug)
  {
    RollbackOf(m, copies, unsafe, ledger, slug);
    forall e | e in ledger && e.slug == slug ensures EntrySound(planned, copies, recorded, e) {
    }
    assert OldOrPlanned(planned, m, ledger, recorded, slug);
    if Lookup(m, slug) != Lookup(planned, slug) {
      var p :| p in recorded && p.slug == slug && HoldsPlan(m, ledger, p);
      assert EntrySound(planned, copies, recorded, EntryOf(p));
      assert Effective(m, copies, unsafe, EntryOf(p));
    }
  }

  /** A manifest edited since migration is never overwritten: whatever bytes no ledger entry recorded
      as migrated survive the rollback. */
  lemma RollbackSparesEdits(m: Manifests, copies: Manifests, unsafe: set<string>, ledger: seq<Entry>, slug: string)
    requires slug in m ==> forall e :: e in ledger && e.slug == slug ==> e.newSha != Sha256(m[slug])
    ensures Lookup(RollbackAll(m, copies, unsafe, ledger), slug) == Lookup(m, slug)
  {
    RollbackOf(m, copies, unsafe, ledger, slug);
  }

  datatype Applied = Done | Refused | VerifyFailed | Crashed

  class Migration {
    var manifests: Manifests
    var copies: Manifests                  // the rollback directory's copies, durable once written
    var ledger: seq<Entry>                 // rollback.json
    ghost var planned: Manifests           // the manifests every plan was made from
    ghost var recorded: set<BundlePlan>    // the plans whose ledger entry was ever written
    ghost var edited: set<string>          // bundles somebody else wrote to since

    ghost predicate Valid()
      reads this
    {
      CrashSafe(planned, manifests, copies, ledger, recorded, edited)
    }

    /** Planning is done, and the fresh rollback directory holds an empty ledger. */
    constructor (manifests: Manifests)
      ensures Valid() && this.manifests == manifests == planned && ledger == [] && copies == map[]
      ensures edited == {} && recorded == {}
    {
      this.manifests := manifests;
      copies := map[];
      ledger := [];
      planned := manifests;
      recorded := {};
      edited := {};
    }

    method Disturb(edits: seq<Edit>, spared: Option<string>)
      requires Valid()
      modifies this`manifests, this`edited
      ensures Valid() && old(edited) <= edited
      ensures edited <= old(edited) + set e | e in edits :: e.slug
      ensures forall slug :: slug !in edited || Some(slug) == spared ==>
                               Lookup(manifests, slug) == Lookup(old(manifests), slug)
      ensures edits == [] ==> manifests == old(manifests) && edited == old(edited)
      ensures manifests == ApplyEdits(old(manifests), edits, spared)
    {
      for i := 0 to |edits|
        invariant Valid() && old(edited) <= edited
        invariant manifests == ApplyEdits(old(manifests), edits[..i], spared)
        invariant edited <= old(edited) + set e | e in edits :: e.slug
        invariant forall slug :: slug !in edited || Some(slug) == spared ==>
                                   Lookup(manifests, slug) == Lookup(old(manifests), slug)
        invariant i == 0 ==> manifests == old(manifests) && edited == old(edited)
      {
        assert edits[..i + 1][..i] == edits[..i];
        if Some(edits[i].slug) != spared {
          EditKeepsSafe(planned, manifests, copies, ledger, recorded, edited, edits[i]);
          manifests := ApplyEdit(manifests, edits[i]);
          edited := edited + {edits[i].slug};
        }
      }
      assert edits[..|edits|] == edits;
    }

    /** The durable rollback data, copy first and then the ledger, before the manifest is touched. */
    method RecordPlan(p: BundlePlan, edits: seq<seq<Edit>>, at: nat, crash: Option<nat>) returns (crashed: bool)
      requires Valid() && Lookup(planned, p.slug) == Lookup(manifests, p.slug) == Some(p.oldBytes)
      modifies this
      ensures Valid() && planned == old(planned) && old(edited) <= edited
      ensures old(recorded) <= recorded <= old(recorded) + {p}
      ensures Lookup(copies, p.slug) == Some(p.oldBytes) && Lookup(manifests, p.slug) == Some(p.oldBytes)
      ensures !crashed ==> p in recorded && EntryOf(p) in ledger
      ensures forall slug :: slug !in edited ==> Lookup(manifests, slug) == Lookup(old(manifests), slug)
      ensures edits == [] ==> manifests == old(manifests) && edited == old(edited)
      ensures crashed <==> crash == Some(at) || crash == Some(at + 1)
    {
      CopyKeepsSafe(planned, manifests, copies, ledger, recorded, edited, p);
      copies := copies[p.slug := p.oldBytes];
      if crash == Some(at) { return true; }
      Disturb(At(edits, at), Some(p.slug));
      RecordKeepsSafe(planned, manifests, copies, ledger, recorded, edited, p);
      ledger := Without(ledger, p.slug) + [EntryOf(p)];
      recorded := recorded + {p};
      if crash == Some(at + 1) { return true; }
      Disturb(At(edits, at + 1), Some(p.slug));
      crashed := false;
    }

    /** `apply_plan`. The stale-plan guard and the replacement it guards count as one step, so edits
        in between spare this bundle; a crash may fall after each durable write. `rejected` stands for the
        later checks: the manifest does not read back as version 2, or a declared page has moved. */
    method ApplyPlan(p: BundlePlan, unsafe: bool, edits: seq<seq<Edit>>, at: nat, rejected: bool, crash: Option<nat>)
      returns (r: Applied)
      requires Valid() && p.action.Migrate? && Lookup(planned, p.slug) == Some(p.oldBytes)
      modifies this
      ensures Valid() && planned == old(planned) && old(edited) <= edited
      ensures old(recorded) <= recorded <= old(recorded) + {p}
      ensures r.Refused? <==> unsafe || Lookup(old(manifests), p.slug) != Some(p.oldBytes)
      ensures r.Refused? ==> manifests == old(manifests) && copies == old(copies) && ledger == old(ledger)
                             && recorded == old(recorded)
      ensures r.Done? ==> Lookup(manifests, p.slug) == Some(p.newBytes) && EntryOf(p) in ledger
      ensures r.Done? ==> Lookup(copies, p.slug) == Some(p.oldBytes)
      ensures forall slug :: slug != p.slug && slug !in edited ==>
                               Lookup(manifests, slug) == Lookup(old(manifests), slug)
      ensures r.Crashed? <==> !r.Refused? && (crash == Some(at) || crash == Some(at + 1) || crash == Some(at + 2))
      ensures edits == [] ==> edited == old(edited)
                              && forall slug :: slug != p.slug ==>
                                                  Lookup(manifests, slug) == Lookup(old(manifests), slug)
      ensures edits == [] && crash.None? ==> (r.Done? <==> !r.Refused? && !rejected)
    {
      if unsafe || Lookup(manifests, p.slug) != Some(p.oldBytes) {
        return Refused;
      }
      var crashed := RecordPlan(p, edits, at, crash);
      if crashed { return Crashed; }
      PublishKeepsSafe(planned, manifests, copies, ledger, recorded, edited, p);
      manifests := manifests[p.slug := p.newBytes];
      if crash == Some(at + 2) { return Crashed; }
      Disturb(At(edits, at + 2), None);
      if Lookup(manifests, p.slug) != Some(p.newBytes) || rejected { return VerifyFailed; }
      return Done;
    }

    /** One round of the write loop: stops and stale database rows are failures, migrations are applied. */
    method TakePlan(p: BundlePlan, drifted: bool, unsafe: bool, edits: seq<seq<Edit>>, at: nat, rejected: bool,
                    crash: Option<nat>) returns (crashed: bool, failed: bool)
      requires Valid() && (p.action.Migrate? ==> Lookup(planned, p.slug) == Some(p.oldBytes))
      modifies this
      ensures Valid() && planned == old(planned) && old(edited) <= edited
      ensures recorded <= old(recorded) + if p.action.Migrate? then {p} else {}
      ensures forall slug :: slug !in edited && !(p.action.Migrate? && slug == p.slug) ==>
                               Lookup(manifests, slug) == Lookup(old(manifests), slug)
      ensures !crashed && !failed && p.action.Migrate? ==> Lookup(manifests, p.slug) == Some(p.newBytes)
      ensures !crashed && !failed ==> !p.action.Stop? && !(p.action.Migrate? && drifted)
      ensures edits == [] ==> edited == old(edited)
                              && forall slug :: !(p.action.Migrate? && slug == p.slug) ==>
                                                  Lookup(manifests, slug) == Lookup(old(manifests), slug)
      ensures edits == [] && crash.None? ==>
                (failed <==> !MaySucceed(p, drifted, unsafe, rejected)
                             || (p.action.Migrate? && Lookup(old(manifests), p.slug) != Some(p.oldBytes)))
      ensures crash.None? ==> !crashed
    {
      crashed, failed := false, p.action.Stop? || (p.action.Migrate? && drifted);
      if p.action.Migrate? && !drifted {
        var r := ApplyPlan(p, unsafe, edits, at, rejected, crash);
        crashed, failed := r.Crashed?, !r.Crashed? && !r.Done?;
      }
    }

    /** The write loop of `run`: plans in order, stale database rows refused, crash anywhere. At the end and
        at every crash a bundle nobody edited holds its old bytes or the new bytes of one of these plans, and
        a run that nobody disturbs fails exactly for what its plans say beforehand. */
    method Run(plans: seq<BundlePlan>, drifted: set<string>, unsafe: set<string>, edits: seq<seq<Edit>>,
               rejected: set<string>, crash: Option<nat>) returns (crashed: bool, failed: nat)
      requires Valid() && PlannedFrom(planned, plans)
      modifies this
      ensures Valid() && planned == old(planned) && old(edited) <= edited
      ensures recorded <= old(recorded) + Migrations(plans)
      ensures old(recorded) == {} ==>
                forall slug :: slug !in edited ==> OldOrNew(planned, manifests, copies, ledger, plans, slug)
      ensures !crashed && failed == 0 ==> AllMigrated(plans, |plans|, manifests, edited)
      ensures !crashed && failed == 0 ==>
                forall p :: p in plans ==> !p.action.Stop? && !(p.action.Migrate? && p.slug in drifted)
      ensures edits == [] && crash.None? && old(manifests) == old(planned) && OnePlanEach(plans) ==>
                (failed == 0 <==> forall i :: 0 <= i < |plans| ==> Succeeds(plans[i], drifted, unsafe, rejected))
      ensures edits == [] ==> edited == old(edited)
      ensures crash.None? ==> !crashed
    {
      crashed, failed := false, 0;
      var k := 0;
      while k < |plans| && !crashed
        invariant 0 <= k <= |plans|
        invariant Valid() && planned == old(planned) && old(edited) <= edited
        invariant recorded <= old(recorded) + Migrations(plans)
        invariant !crashed && failed == 0 ==> AllMigrated(plans, k, manifests, edited)
        invariant !crashed && failed == 0 ==>
                    forall i :: 0 <= i < k ==>
                                  !plans[i].action.Stop? && !(plans[i].action.Migrate? && plans[i].slug in drifted)
        invariant edits == [] ==> edited == old(edited)
        invariant edits == [] && crash.None? && old(manifests) == old(planned) && OnePlanEach(plans) ==>
                    && StillPlanned(planned, manifests, plans, k)
                    && (failed == 0 <==> forall i :: 0 <= i < k ==> Succeeds(plans[i], drifted, unsafe, rejected))
        invariant crash.None? ==> !crashed
        invariant crashed ==> k < |plans|
        decreases |plans| - k, !crashed
      {
        var p := plans[k];
        ghost var before, was := manifests, edited;
        assert p in plans;
        var bad;
        crashed, bad := TakePlan(p, p.slug in drifted, p.slug in unsafe, edits, 3 * k, p.slug in rejected, crash);
        if !crashed {
          if bad {
            failed := failed + 1;
          } else if failed == 0 {
            AllMigratedGrows(plans, k, before, manifests, was, edited);
          }
          if edits == [] && crash.None? && old(manifests) == old(planned) && OnePlanEach(plans) {
            StillPlannedNext(planned, before, manifests, plans, k);
          }
          k := k + 1;
        }
      }
      if old(recorded) == {} {
        RunLeavesOldOrNew(planned, manifests, copies, ledger, recorded, edited, plans);
      }
    }

    /** One entry: refused with a bad copy or bytes nobody recorded, else the old bytes are there. */
    method RestoreEntry(e: Entry, unsafe: set<string>) returns (refused: bool)
      modifies this`manifests
      ensures manifests == RollbackEntry(old(manifests), copies, unsafe, e)
      ensures refused <==> !Restorable(old(manifests), copies, unsafe, e)
    {
      if !CopyMatches(copies, unsafe, e) {
        return true;
      }
      if e.slug in manifests && Sha256(manifests[e.slug]) == e.oldSha {
        return false;
      }
      if !(e.slug in manifests && Sha256(manifests[e.slug]) == e.newSha) {
        return true;
      }
      manifests := manifests[e.slug := copies[e.slug]];
      return false;
    }

    /** `rollback`. The failures are the entries that cannot be restored when their turn comes; without any,
        every recorded bundle is back at its recorded old bytes. A ledger that names each bundle once has
        none exactly when every bundle held its old or its migrated bytes beforehand, with its copy intact. */
    method Rollback(unsafe: set<string>) returns (failures: nat)
      modifies this`manifests
      ensures failures == Failures(old(manifests), copies, unsafe, ledger, |ledger|)
      ensures UniqueSlugs(ledger) ==>
                (failures == 0 <==> forall e :: e in ledger ==> Restorable(old(manifests), copies, unsafe, e))
      ensures manifests == RollbackAll(old(manifests), copies, unsafe, ledger)
      ensures failures == 0 ==> forall e :: e in ledger ==> e.slug in manifests && Sha256(manifests[e.slug]) == e.oldSha
    {
      failures := 0;
      for k := 0 to |ledger|
        invariant manifests == RollbackAll(old(manifests), copies, unsafe, ledger[..k])
        invariant failures == Failures(old(manifests), copies, unsafe, ledger, k)
        invariant failures == 0 ==> AllBack(manifests, copies, unsafe, ledger, k)
      {
        assert ledger[..k + 1][..k] == ledger[..k];
        ghost var before := manifests;
        var refused := RestoreEntry(ledger[k], unsafe);
        if refused {
          failures := failures + 1;
        } else if failures == 0 {
          OneMoreBack(before, copies, unsafe, ledger, k);
        }
      }
      assert ledger[..|ledger|] == ledger;
      if UniqueSlugs(ledger) {
        FailuresBeforehand(old(manifests), copies, unsafe, ledger, |ledger|);
      }
    }
  }

  function At(edits: seq<seq<Edit>>, point: nat): seq<Edit> {
    if point < |edits| then edits[point] else []
  }

  // ----- what a run promises -----

  function Migrations(plans: seq<BundlePlan>): set<BundlePlan> {
    set p | p in plans && p.action.Migrate?
  }

  /** Nothing known beforehand stands in the way of a plan. */
  predicate MaySucceed(p: BundlePlan, drifted: bool, unsafe: bool, rejected: bool) {
    !p.action.Stop? && (p.action.Migrate? ==> !drifted && !unsafe && !rejected)
  }

  predicate Succeeds(p: BundlePlan, drifted: set<string>, unsafe: set<string>, rejected: set<string>) {
    MaySucceed(p, p.slug in drifted, p.slug in unsafe, p.slug in rejected)
  }

  ghost predicate OnePlanEach(plans: seq<BundlePlan>) {
    forall i, j :: 0 <= i < j < |plans| && plans[i].action.Migrate? && plans[j].action.Migrate? ==>
                     plans[i].slug != plans[j].slug
  }

  ghost predicate StillPlanned(planned: Manifests, m: Manifests, plans: seq<BundlePlan>, k: int) {
    forall i :: 0 <= k <= i < |plans| && plans[i].action.Migrate? ==>
                  Lookup(m, plans[i].slug) == Lookup(planned, plans[i].slug)
  }

  /** The bundle holds the planned bytes of one of the first k plans for it. */
  ghost predicate Migrated(plans: seq<BundlePlan>, k: int, m: Manifests, slug: string) {
    exists j :: 0 <= j < k <= |plans| && plans[j].action.Migrate? && plans[j].slug == slug
                && Lookup(m, slug) == Some(plans[j].newBytes)
  }

  ghost predicate AllMigrated(plans: seq<BundlePlan>, k: int, m: Manifests, edited: set<string>) {
    forall i :: 0 <= i < k <= |plans| && plans[i].action.Migrate? && plans[i].slug !in edited ==>
                  Migrated(plans, k, m, plans[i].slug)
  }

  /** Old bytes, or the new bytes of one of the plans, made from the old bytes its copy holds and its
      ledger entry names. */
  ghost predicate OldOrNew(planned: Manifests, m: Manifests, copies: Manifests, ledger: seq<Entry>,
                           plans: seq<BundlePlan>, slug: string) {
    || Lookup(m, slug) == Lookup(planned, slug)
    || exists p :: p in plans && p.action.Migrate? && p.slug == slug && Lookup(m, slug) == Some(p.newBytes)
                   && Lookup(planned, slug) == Lookup(copies, slug) == Some(p.oldBytes) && EntryOf(p) in ledger
  }

  lemma AllMigratedGrows(plans: seq<BundlePlan>, k: nat, m: Manifests, m': Manifests,
                         was: set<string>, edited: set<string>)
    requires k < |plans| && AllMigrated(plans, k, m, was) && was <= edited
    requires plans[k].action.Migrate? ==> Lookup(m', plans[k].slug) == Some(plans[k].newBytes)
    requires forall slug :: slug !in edited && !(plans[k].action.Migrate? && slug == plans[k].slug) ==>
                              Lookup(m', slug) == Lookup(m, slug)
    ensures AllMigrated(plans, k + 1, m', edited)
  {
    forall i | 0 <= i < k + 1 && plans[i].action.Migrate? && plans[i].slug !in edited
      ensures Migrated(plans, k + 1, m', plans[i].slug)
    {
      if plans[k].action.Migrate? && plans[k].slug == plans[i].slug {
        assert Lookup(m', plans[i].slug) == Some(plans[k].newBytes);
      } else {
        assert Migrated(plans, k, m, plans[i].slug);
      }
    }
  }

  lemma StillPlannedNext(planned: Manifests, m: Manifests, m': Manifests, plans: seq<BundlePlan>, k: nat)
    requires k < |plans| && OnePlanEach(plans) && StillPlanned(planned, m, plans, k)
    requires forall slug :: !(plans[k].action.Migrate? && slug == plans[k].slug) ==> Lookup(m', slug) == Lookup(m, slug)
    ensures StillPlanned(planned, m', plans, k + 1)
  {
  }

  lemma RunLeavesOldOrNew(planned: Manifests, m: Manifests, copies: Manifests, ledger: seq<Entry>,
                          recorded: set<BundlePlan>, edited: set<string>, plans: seq<BundlePlan>)
    requires CrashSafe(planned, m, copies, ledger, recorded, edited) && recorded <= Migrations(plans)
    ensures forall slug :: slug !in edited ==> OldOrNew(planned, m, copies, ledger, plans, slug)
  {
    forall slug | slug !in edited ensures OldOrNew(planned, m, copies, ledger, plans, slug) {
      CrashLeavesOldOrPlanned(planned, m, copies, ledger, recorded, edited, slug);
    }
  }
}
