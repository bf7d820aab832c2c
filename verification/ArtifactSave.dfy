/** Compare-and-swap saves of one lesson file, and run snapshots of it, while others edit it too. */
module ArtifactSave {
  import opened Options

  const MAX_FILE_BYTES: nat := 64 * 1024

  /** The name in the bundle. A seal stands for the identity, size and times of one version. `Odd` is a
      link, a directory, or a file with a second name. */
  datatype File = Absent | Regular(seal: nat, data: Bytes) | Odd(seal: nat)

  /** SHA-256, taken as injective. */
  datatype Rev = Sha256(content: Bytes)

  /** `base_rev`: what the client last saw. */
  datatype Base = NoFile | At(rev: Rev)

  datatype Refusal = NotEligible | TooLarge | UnsafeFile | FileConflict(current: Option<Rev>) | Missing | NotText

  datatype Saved = Unchanged | Published(eventRecorded: bool) | Refused(why: Refusal) | Crashed

  datatype Snapshot = Taken(rev: Rev, data: Bytes) | NotTaken(why: Refusal)

  /** What anybody else may do to the name. */
  datatype Edit = Write(data: Bytes) | Remove | MakeOdd

  /** How far the disk follows: staging or the directory sync may fail, the event insert may fail. */
  datatype Faults = Faults(stageFails: bool, syncFails: bool, eventFails: bool)

  const NO_FAULTS := Faults(false, false, false)

  function ContentOf(f: File): Option<Bytes> {
    if f.Regular? then Some(f.data) else None
  }

  function RevOf(content: Option<Bytes>): Option<Rev> {
    if content.Some? then Some(Sha256(content.value)) else None
  }

  /** The content a base names, if it names one. */
  function BaseOf(content: Option<Bytes>): Base {
    if content.Some? then At(Sha256(content.value)) else NoFile
  }

  /** One version of the name: who put it there, and for a save the base its client had named. */
  datatype Version = Version(file: File, saver: Option<Base>)

  /** What an edit leaves at the name; every write takes the next seal. */
  function EditedTo(e: Edit, seal: nat): File {
    match e
    case Write(data) => Regular(seal, data)
    case Remove => Absent
    case MakeOdd => Odd(seal)
  }

  class ArtifactStore {
    var file: File
    var nextSeal: nat
    ghost var versions: seq<Version>         // every state the name ever had, oldest first

    /** No lost update: every version a save published directly follows the very content its client had
        named, and differs from it. */
    ghost predicate FollowsBase(i: nat)
      requires i < |versions|
      reads this
    {
      versions[i].saver.Some? ==>
        && i > 0 && versions[i].file.Regular?
        && !versions[i - 1].file.Odd?
        && versions[i].saver.value == BaseOf(ContentOf(versions[i - 1].file))
        && ContentOf(versions[i - 1].file) != ContentOf(versions[i].file)
        && |versions[i].file.data| <= MAX_FILE_BYTES
    }

    ghost predicate Valid()
      reads this
    {
      && versions != [] && versions[|versions| - 1].file == file
      && (file.Absent? || file.seal < nextSeal)
      && forall i {:trigger FollowsBase(i)} :: 0 <= i < |versions| ==> FollowsBase(i)
    }

    /** Two saves that named the same base are both published only if somebody brought that base back
        after the first: neither silently overwrote the other. */
    lemma SameBaseTwice(i: nat, j: nat)
      requires Valid() && i < j < |versions|
      requires versions[i].saver.Some? && versions[j].saver == versions[i].saver
      ensures i < j - 1 && versions[j - 1].file != versions[i].file
      ensures BaseOf(ContentOf(versions[j - 1].file)) == versions[i].saver.value
    {
      assert FollowsBase(i) && FollowsBase(j);
    }

    /** The versions others added since. */
    twostate predicate OthersRan()
      reads this
    {
      && old(versions) <= versions && old(nextSeal) <= nextSeal
      && (forall i :: |old(versions)| <= i < |versions| ==> versions[i].saver.None?)
      && (file != old(file) ==> file.Absent? || file.seal >= old(nextSeal))
    }

    constructor ()
      ensures Valid() && file == Absent && versions == [Version(Absent, None)]
    {
      file, nextSeal, versions := Absent, 0, [Version(Absent, None)];
    }

    /** The name gets its next version. */
    method Put(f: File, ghost saver: Option<Base>)
      requires Valid() && (f.Absent? || f.seal == nextSeal)
      requires saver.Some? ==>
        && f.Regular? && !file.Odd? && saver.value == BaseOf(ContentOf(file)) && ContentOf(file) != Some(f.data)
        && |f.data| <= MAX_FILE_BYTES
      modifies this
      ensures Valid() && file == f && nextSeal == old(nextSeal) + 1
      ensures versions == old(versions) + [Version(f, saver)]
    {
      file, nextSeal := f, nextSeal + 1;
      versions := versions + [Version(f, saver)];
      forall i | 0 <= i < |versions| ensures FollowsBase(i) {
        assert i < |versions| - 1 ==> old(FollowsBase(i));
      }
    }

    /** Everybody else: learner, agent, or a save of another process that published in between. */
    method Interfere(edits: seq<Edit>)
      requires Valid()
      modifies this
      ensures Valid() && OthersRan()
      ensures nextSeal == old(nextSeal) + |edits| && |versions| == |old(versions)| + |edits|
      ensures edits != [] ==> file == EditedTo(edits[|edits| - 1], nextSeal - 1)
      ensures edits == [] ==> file == old(file) && versions == old(versions)
    {
      for i := 0 to |edits|
        invariant Valid() && OthersRan()
        invariant nextSeal == old(nextSeal) + i && |versions| == |old(versions)| + i
        invariant i > 0 ==> file == EditedTo(edits[i - 1], nextSeal - 1)
        invariant i == 0 ==> file == old(file) && versions == old(versions)
      {
        match edits[i] {
          case Write(data) => Put(Regular(nextSeal, data), None);
          case Remove => Put(Absent, None);
          case MakeOdd => Put(Odd(nextSeal), None);
        }
      }
    }

    /** `_open_artifact`: the content is read between two identity checks; `during` happens in between. */
    method Open(during: seq<Edit>) returns (held: Option<File>, why: Option<Refusal>)
      requires Valid()
      modifies this
      ensures Valid() && OthersRan()
      ensures why == None && held == None ==> old(file).Absent?
      ensures held.Some? ==> why == None && held.value == old(file) && held.value.Regular?
                               && |held.value.data| <= MAX_FILE_BYTES && held.value.seal < nextSeal
                               && file == held.value
      ensures during == [] ==> file == old(file) && versions == old(versions)
      ensures during == [] ==>
                (why.Some? <==> old(file).Odd? || (old(file).Regular? && |old(file).data| > MAX_FILE_BYTES))
      ensures why == Some(TooLarge) <==> old(file).Regular? && |old(file).data| > MAX_FILE_BYTES
      ensures why.Some? ==> why.value.TooLarge? || why.value.UnsafeFile?
      ensures old(file).Regular? && |old(file).data| <= MAX_FILE_BYTES && during != [] ==> why == Some(UnsafeFile)
      ensures why == None && held == None ==> file == old(file) && versions == old(versions)
    {
      held, why := None, None;
      match file {
        case Absent =>
        case Odd(_) => why := Some(UnsafeFile);
        case Regular(seal, data) =>
          if |data| > MAX_FILE_BYTES {
            why := Some(TooLarge);
          } else {
            var first := file;
            Interfere(during);
            if file.Regular? && file.seal == seal { held := Some(first); } else { why := Some(UnsafeFile); }
          }
      }
    }

    /** `_name_matches` and `_name_absent`: the name still carries the identity of what was held. */
    predicate StillNamed(held: Option<File>)
      requires held.Some? ==> held.value.Regular?
      reads this
    {
      if held.Some? then file.Regular? && file.seal == held.value.seal else file.Absent?
    }

    /** `save_artifact` under the bundle lock. Others may act at points 0 to 3 of `env`; the identity check
        and the replacement it guards count as one step. A crash may fall before or after it. */
    method Save(base: Base, data: Bytes, eligible: bool, env: seq<seq<Edit>>, faults: Faults, crash: Option<nat>)
      returns (r: Saved, refund: bool, ghost at: nat)
      requires Valid()
      modifies this
      ensures Valid() && old(versions) <= versions && at < |versions|
      // The call publishes at most one version, the one at `at`; all others are other people's.
      ensures forall i :: |old(versions)| <= i < |versions| && versions[i].saver.Some? ==>
                i == at && versions[i].saver == Some(base) && ContentOf(versions[i].file) == Some(data)
      ensures r.Published? ==> at >= |old(versions)| && versions[at].saver == Some(base)
      ensures r.Unchanged? ==> ContentOf(versions[at].file) == Some(data) && at + 1 >= |old(versions)|
      ensures r.Unchanged? || (r.Refused? && r.why.FileConflict?) ==>
                forall i :: |old(versions)| <= i < |versions| ==> versions[i].saver.None?
      ensures refund <==> r.Unchanged?
      ensures |data| > MAX_FILE_BYTES ==> r == Refused(TooLarge) && versions == old(versions)
      ensures |data| <= MAX_FILE_BYTES && !eligible ==> r == Refused(NotEligible)
      ensures |data| > MAX_FILE_BYTES || !eligible ==>
                forall i :: |old(versions)| <= i < |versions| ==> versions[i].saver.None?
      ensures crash == None ==> !r.Crashed?
      ensures env == [] && faults == NO_FAULTS && crash == None && eligible && |data| <= MAX_FILE_BYTES
              && !old(file).Odd? && (old(file).Regular? ==> |old(file).data| <= MAX_FILE_BYTES) ==>
                if ContentOf(old(file)) == Some(data) then r == Unchanged
                else if base == BaseOf(ContentOf(old(file))) then r == Published(true) && ContentOf(file) == Some(data)
                else r == Refused(FileConflict(RevOf(ContentOf(old(file)))))
      ensures r.Published? ==> !faults.syncFails && (r.eventRecorded <==> !faults.eventFails)
      ensures env == [] && eligible && |data| <= MAX_FILE_BYTES && old(file).Odd? ==> r == Refused(UnsafeFile)
      ensures env == [] && eligible && old(file).Regular? && |old(file).data| > MAX_FILE_BYTES ==>
                r == Refused(TooLarge)
    {
      r, refund, at := Refused(TooLarge), false, |versions| - 1;
      if |data| > MAX_FILE_BYTES { return; }
      Interfere(Point(env, 0));
      if !eligible { r := Refused(NotEligible); return; }
      var held, why := Open(Point(env, 1));
      if why.Some? { r := Refused(why.value); return; }
      r, refund, at := SaveOver(base, data, held, env, faults, crash);
    }

    /** The content held by the name, if any, is known: nothing to do, a conflict, or a publication. */
    method SaveOver(base: Base, data: Bytes, held: Option<File>, env: seq<seq<Edit>>, faults: Faults,
                    crash: Option<nat>)
      returns (r: Saved, refund: bool, ghost at: nat)
      requires Valid() && |data| <= MAX_FILE_BYTES
      requires held.Some? ==> held.value.Regular? && file == held.value
      modifies this
      ensures Valid() && old(versions) <= versions && at < |versions|
      ensures forall i :: |old(versions)| <= i < |versions| && versions[i].saver.Some? ==>
                i == at && versions[i].saver == Some(base) && ContentOf(versions[i].file) == Some(data)
      ensures r.Published? ==> at >= |old(versions)| && versions[at].saver == Some(base)
      ensures r.Unchanged? ==> ContentOf(versions[at].file) == Some(data) && at + 1 >= |old(versions)|
      ensures r.Unchanged? || (r.Refused? && r.why.FileConflict?) ==>
                forall i :: |old(versions)| <= i < |versions| ==> versions[i].saver.None?
      ensures refund <==> r.Unchanged?
      ensures crash == None ==> !r.Crashed?
      ensures r.Published? ==> !faults.syncFails && (r.eventRecorded <==> !faults.eventFails)
      ensures env == [] && faults == NO_FAULTS && crash == None && old(StillNamed(held)) ==>
                var seen := if held.Some? then Some(held.value.data) else None;
                if seen == Some(data) then r == Unchanged
                else if base == BaseOf(seen) then r == Published(true) && ContentOf(file) == Some(data)
                else r == Refused(FileConflict(RevOf(seen)))
    {
      r, refund, at := Unchanged, false, |versions| - 1;
      var seen := if held.Some? then Some(held.value.data) else None;
      if seen == Some(data) {
        Interfere(Point(env, 2));
        at := |versions| - 1;
        refund := StillNamed(held);
        if !refund { r := Refused(FileConflict(RevOf(seen))); }
      } else if base != BaseOf(seen) {
        r := Refused(FileConflict(RevOf(seen)));
      } else {
        r, at := Publish(base, data, held, env, faults, crash);
      }
    }

    /** Staging, the second identity check and the replacement, once the base was found to match. */
    method Publish(base: Base, data: Bytes, held: Option<File>, env: seq<seq<Edit>>, faults: Faults, crash: Option<nat>)
      returns (r: Saved, ghost at: nat)
      requires Valid() && |data| <= MAX_FILE_BYTES
      requires held.Some? ==> held.value.Regular? && held.value.data != data && file == held.value
      requires base == BaseOf(if held.Some? then Some(held.value.data) else None)
      modifies this
      ensures Valid() && old(versions) <= versions && at < |versions|
      ensures forall i :: |old(versions)| <= i < |versions| && versions[i].saver.Some? ==>
                (i == at && versions[i].saver == Some(base) && ContentOf(versions[i].file) == Some(data))
      ensures r.Published? ==> at >= |old(versions)| && versions[at].saver == Some(base)
      ensures faults.stageFails ==> r == Refused(UnsafeFile)
      ensures r.Published? ==> !faults.syncFails && (r.eventRecorded <==> !faults.eventFails)
      ensures crash == None && !faults.stageFails ==>
                r == if at < |old(versions)| || versions[at].saver.None?
                     then Refused(FileConflict(RevOf(if held.Some? then Some(held.value.data) else None)))
                     else if faults.syncFails then Refused(UnsafeFile) else Published(!faults.eventFails)
      ensures crash == None && !faults.stageFails && Point(env, 2) == [] && old(StillNamed(held)) ==>
                at >= |old(versions)| && versions[at].saver.Some?
      ensures held.Some? && Point(env, 2) != [] ==> at < |old(versions)| || versions[at].saver.None?
      ensures !r.Unchanged? && (r.Refused? && r.why.FileConflict? ==>
                forall i :: |old(versions)| <= i < |versions| ==> versions[i].saver.None?)
      ensures crash == None ==> !r.Crashed?
      ensures env == [] && faults == NO_FAULTS && crash == None && old(StillNamed(held)) ==>
                r == Published(true) && ContentOf(file) == Some(data)
    {
      r, at := Refused(UnsafeFile), |versions| - 1;
      if faults.stageFails { return; }
      if crash == Some(0) { r := Crashed; return; }
      Interfere(Point(env, 2));
      at := |versions| - 1;
      if !StillNamed(held) {
        r := Refused(FileConflict(RevOf(if held.Some? then Some(held.value.data) else None)));
        return;
      }
      Put(Regular(nextSeal, data), Some(base));
      at := |versions| - 1;
      label Replaced:
      Interfere(Point(env, 3));
      assert versions[at] == old@Replaced(versions)[at];
      if crash == Some(1) { r := Crashed; return; }
      r := if faults.syncFails then Refused(UnsafeFile) else Published(!faults.eventFails);
    }

    /** `get_run_snapshot`: the bytes handed to a run are the current file's, under the revision asked for. */
    method RunSnapshot(rev: Rev, eligible: bool, isText: bool, env: seq<seq<Edit>>) returns (r: Snapshot)
      requires Valid()
      modifies this
      ensures Valid() && OthersRan()
      ensures !eligible ==> r == NotTaken(NotEligible)
      ensures r.Taken? ==> eligible && isText
      ensures r.Taken? ==> r.rev == rev == Sha256(r.data) && ContentOf(file) == Some(r.data)
                           && |r.data| <= MAX_FILE_BYTES
      ensures env == [] && eligible && isText && old(file).Regular? && |old(file).data| <= MAX_FILE_BYTES ==>
                r == if Sha256(old(file).data) == rev then Taken(rev, old(file).data)
                     else NotTaken(FileConflict(Some(Sha256(old(file).data))))
      ensures env == [] && eligible && !isText && old(file).Regular? && |old(file).data| <= MAX_FILE_BYTES ==>
                r == NotTaken(NotText)
      ensures env == [] && eligible && !old(file).Regular? ==>
                r == NotTaken(if old(file).Absent? then Missing else UnsafeFile)
      ensures env == [] && eligible && old(file).Regular? && |old(file).data| > MAX_FILE_BYTES ==>
                r == NotTaken(TooLarge)
    {
      Interfere(Point(env, 0));
      if !eligible { return NotTaken(NotEligible); }
      var held, why := Open(Point(env, 1));
      if why.Some? { return NotTaken(why.value); }
      if held.None? { return NotTaken(Missing); }
      if !isText { return NotTaken(NotText); }
      Interfere(Point(env, 2));
      var current := Sha256(held.value.data);
      if !StillNamed(held) || rev != current { return NotTaken(FileConflict(Some(current))); }
      return Taken(current, held.value.data);
    }
  }

  function Point(env: seq<seq<Edit>>, k: nat): seq<Edit> {
    if k < |env| then env[k] else []
  }
}
