/** Copying an artifact that keeps moving: the source is read file by file, each file at a moment of its
    own, once for the copy and once for the comparison that accepts it. */
module Snapshot {
  import opened Options
  import opened Fingerprint

  type Digest = Bytes -> Bytes

  ghost predicate CollisionFree(digest: Digest)
  {
    forall x, y :: digest(x) == digest(y) ==> x == y
  }

  // The source at every moment.
  type Timeline = nat -> Artifact

  datatype Name = InOutput(path: Bytes) | InModels(path: Bytes)

  function Look(a: Artifact, name: Name): (data: Option<Bytes>)
  {
    match name
    case InOutput(p) => if p in a.output then Some(a.output[p]) else None
    case InModels(p) => if p in ModelFiles(a) then Some(ModelFiles(a)[p]) else None
  }

  // One pass over the source: when the walk of its directories comes by each name, the names it finds
  // there, and when each of them is read.
  datatype Pass = Pass(found: set<Name>, walked: Name -> nat, read: Name -> nat)

  /** The walk finds a name exactly if a file is there when it comes by. */
  ghost predicate Walks(src: Timeline, pass: Pass)
  {
    forall name: Name :: name in pass.found <==> Look(src(pass.walked(name)), name).Some?
  }

  /** A file found may be gone when its turn comes; the source then raises. */
  ghost predicate Completes(src: Timeline, pass: Pass)
  {
    forall name: Name :: name in pass.found ==> Look(src(pass.read(name)), name).Some?
  }

  /** What a pass gathers: the paths the walk found, each with the contents it was read with. */
  ghost function Gathered(src: Timeline, pass: Pass): (a: Artifact)
    requires Completes(src, pass)
  {
    var output := set name | name in pass.found && name.InOutput? :: name.path;
    var models := set name | name in pass.found && name.InModels? :: name.path;
    assert forall p :: p in output ==> InOutput(p) in pass.found;
    assert forall p :: p in models ==> InModels(p) in pass.found;
    Artifact(map p | p in output :: Look(src(pass.read(InOutput(p))), InOutput(p)).value,
             Some(map p | p in models :: Look(src(pass.read(InModels(p))), InModels(p)).value))
  }

  // One attempt: the copy, then the comparison.
  datatype Attempt = Attempt(copy: Pass, comparison: Pass)

  datatype Taken = Accepted(copy: Artifact, fingerprint: Bytes) | Unstable | FileGone

  ghost predicate Agrees(digest: Digest, src: Timeline, attempt: Attempt)
    requires Completes(src, attempt.copy) && Completes(src, attempt.comparison)
  {
    digest(Stream(Gathered(src, attempt.copy))) == digest(Stream(Gathered(src, attempt.comparison)))
  }

  /** Two attempts at most; a file gone while it is copied or compared raises. */
  ghost function Take(digest: Digest, src: Timeline, attempts: seq<Attempt>): (taken: Taken)
  {
    if attempts == [] then Unstable
    else if !Completes(src, attempts[0].copy) || !Completes(src, attempts[0].comparison) then FileGone
    else if Agrees(digest, src, attempts[0]) then
      var copy := Gathered(src, attempts[0].copy);
      Accepted(copy, digest(Stream(copy)))
    else Take(digest, src, attempts[1..])
  }

  ghost predicate NulFree(src: Timeline)
  {
    forall t: nat :: NulFreePaths(src(t))
  }

  // ---- what an accepted copy is ----

  /** The moment a pass settled what it says of a name: its reading if the walk found it, else the walk. */
  function Seen(pass: Pass, name: Name): (at: nat)
  {
    if name in pass.found then pass.read(name) else pass.walked(name)
  }

  lemma GatheredIsWhatWasSeen(src: Timeline, pass: Pass, name: Name)
    requires Walks(src, pass) && Completes(src, pass)
    ensures Look(Gathered(src, pass), name) == Look(src(Seen(pass, name)), name)
  {
    assert name == if name.InOutput? then InOutput(name.path) else InModels(name.path);
  }

  lemma SameFilesLookTheSame(a: Artifact, b: Artifact)
    ensures SameFiles(a, b) <==> forall name: Name :: Look(a, name) == Look(b, name)
  {
    if forall name: Name :: Look(a, name) == Look(b, name) {
      forall p
        ensures p in a.output <==> p in b.output
        ensures p in a.output ==> a.output[p] == b.output[p]
        ensures p in ModelFiles(a) <==> p in ModelFiles(b)
        ensures p in ModelFiles(a) ==> ModelFiles(a)[p] == ModelFiles(b)[p]
      {
        assert Look(a, InOutput(p)) == Look(b, InOutput(p)) && Look(a, InModels(p)) == Look(b, InModels(p));
      }
      assert a.output == b.output;
    }
  }

  lemma GatheredIsNulFree(src: Timeline, pass: Pass)
    requires NulFree(src) && Completes(src, pass)
    ensures NulFreePaths(Gathered(src, pass))
  {
    forall name | name in pass.found
      ensures NUL !in name.path
    {
      assert NulFreePaths(src(pass.read(name))) && Look(src(pass.read(name)), name).Some?;
    }
  }

  /** Equal fingerprints: the two passes saw the same of every name. */
  lemma AgreementIsNameByName(digest: Digest, src: Timeline, attempt: Attempt)
    requires CollisionFree(digest) && NulFree(src) && Walks(src, attempt.copy) && Walks(src, attempt.comparison)
    requires Completes(src, attempt.copy) && Completes(src, attempt.comparison)
    ensures Agrees(digest, src, attempt) <==>
              forall name: Name :: Look(src(Seen(attempt.copy, name)), name)
                                   == Look(src(Seen(attempt.comparison, name)), name)
  {
    hide Gathered;
    hide Look;
    hide Seen;
    var copy, compared := Gathered(src, attempt.copy), Gathered(src, attempt.comparison);
    GatheredIsNulFree(src, attempt.copy);
    GatheredIsNulFree(src, attempt.comparison);
    StreamIdentifiesTheArtifact(copy, compared);
    SameFilesLookTheSame(copy, compared);
    forall name: Name
      ensures Look(copy, name) == Look(src(Seen(attempt.copy, name)), name)
      ensures Look(compared, name) == Look(src(Seen(attempt.comparison, name)), name)
    {
      GatheredIsWhatWasSeen(src, attempt.copy, name);
      GatheredIsWhatWasSeen(src, attempt.comparison, name);
    }
    assert (forall name: Name :: Look(copy, name) == Look(compared, name)) <==>
           forall name: Name :: Look(src(Seen(attempt.copy, name)), name)
                                == Look(src(Seen(attempt.comparison, name)), name);
  }

  /** The copy is the source at a moment exactly when every name then looked as the copying pass saw it. */
  lemma CopyIsTheSourceExactlyWhen(src: Timeline, pass: Pass, at: nat)
    requires Walks(src, pass) && Completes(src, pass)
    ensures SameFiles(Gathered(src, pass), src(at)) <==>
              forall name: Name :: Look(src(at), name) == Look(src(Seen(pass, name)), name)
  {
    hide Gathered;
    hide Look;
    hide Seen;
    SameFilesLookTheSame(Gathered(src, pass), src(at));
    forall name: Name
      ensures Look(Gathered(src, pass), name) == Look(src(Seen(pass, name)), name)
    {
      GatheredIsWhatWasSeen(src, pass, name);
    }
  }

  /** Nothing leaves a value and comes back to it between the moments `from` and `until`. */
  ghost predicate NoReturn(src: Timeline, name: Name, from: nat, until: nat)
  {
    Look(src(from), name) == Look(src(until), name) ==>
      forall t: nat :: from <= t <= until ==> Look(src(t), name) == Look(src(from), name)
  }

  /** The copy was over before `at`, and the comparison began no earlier. */
  ghost predicate Between(attempt: Attempt, at: nat)
  {
    forall name: Name ::
      && attempt.copy.walked(name) <= at <= attempt.comparison.walked(name)
      && attempt.copy.read(name) <= at <= attempt.comparison.read(name)
  }

  /** Double collect: where no name leaves what the copy saw and returns to it before the comparison sees
      it, an accepted copy is the source as it stood at any moment between the two passes. */
  lemma AcceptedCopyIsOneVersion(digest: Digest, src: Timeline, attempt: Attempt, at: nat)
    requires CollisionFree(digest) && NulFree(src) && Walks(src, attempt.copy) && Walks(src, attempt.comparison)
    requires Completes(src, attempt.copy) && Completes(src, attempt.comparison)
    requires Agrees(digest, src, attempt) && Between(attempt, at)
    requires forall name: Name :: NoReturn(src, name, Seen(attempt.copy, name),
                                           Seen(attempt.comparison, name))
    ensures SameFiles(Gathered(src, attempt.copy), src(at))
  {
    hide Gathered;
    hide Look;
    hide Agrees;
    hide Completes;
    hide Walks;
    AgreementIsNameByName(digest, src, attempt);
    CopyIsTheSourceExactlyWhen(src, attempt.copy, at);
    forall name: Name
      ensures Look(src(at), name) == Look(src(Seen(attempt.copy, name)), name)
    {
      assert NoReturn(src, name, Seen(attempt.copy, name), Seen(attempt.comparison, name));
    }
  }

  /** A snapshot that is accepted is one version of the source, under that version's fingerprint, given
      the same of every attempt; one that is not saw the source differ in every attempt. */
  lemma {:induction false} SnapshotIsOneVersion(digest: Digest, src: Timeline, attempts: seq<Attempt>, at: seq<nat>)
    requires CollisionFree(digest) && NulFree(src) && |at| == |attempts|
    requires forall k :: 0 <= k < |attempts| ==> Walks(src, attempts[k].copy) && Walks(src, attempts[k].comparison)
    requires forall k :: 0 <= k < |attempts| ==> Between(attempts[k], at[k])
    requires forall k, name: Name :: 0 <= k < |attempts| ==>
               NoReturn(src, name, Seen(attempts[k].copy, name), Seen(attempts[k].comparison, name))
    ensures match Take(digest, src, attempts)
            case Accepted(copy, fingerprint) =>
              exists k :: 0 <= k < |attempts| && SameFiles(copy, src(at[k])) &&
                  fingerprint == digest(Stream(src(at[k])))
            case Unstable =>
              forall k :: 0 <= k < |attempts| ==>
                Completes(src, attempts[k].copy) && Completes(src, attempts[k].comparison) &&
                    !Agrees(digest, src, attempts[k])
            case FileGone =>
              exists k :: 0 <= k < |attempts| &&
                  !(Completes(src, attempts[k].copy) && Completes(src, attempts[k].comparison))
    decreases |attempts|
  {
    hide Completes;
    hide Walks;
    hide Agrees;
    hide NoReturn;
    hide Seen;
    hide Gathered;
    hide NulFree;
    hide SameFiles;
    if attempts == [] {
    } else if !Completes(src, attempts[0].copy) || !Completes(src, attempts[0].comparison) {
    } else if Agrees(digest, src, attempts[0]) {
      AcceptedCopyIsOneVersion(digest, src, attempts[0], at[0]);
      SameFilesSameStream(src, attempts[0].copy, at[0]);
    } else {
      SnapshotIsOneVersion(digest, src, attempts[1..], at[1..]);
      assert forall k :: 0 < k < |attempts| ==> attempts[k] == attempts[1..][k - 1];
    }
  }

  lemma SameFilesSameStream(src: Timeline, pass: Pass, at: nat)
    requires NulFree(src) && Completes(src, pass) && SameFiles(Gathered(src, pass), src(at))
    ensures Stream(Gathered(src, pass)) == Stream(src(at))
  {
    GatheredIsNulFree(src, pass);
    assert NulFreePaths(src(at));
    StreamIdentifiesTheArtifact(Gathered(src, pass), src(at));
  }

  // ---- the condition is needed ----

  const A: Bytes := [97]
  const B: Bytes := [98]

  /** A writer that flips both files back and forth. */
  function Flipping(t: nat): (a: Artifact)
  {
    Artifact(map[A := [t % 2], B := [t % 2]], None)
  }

  /** `a` is read on the even moments, `b` on the odd ones, by both passes. */
  function ReadAcross(first: nat): (pass: Pass)
  {
    Pass({InOutput(A), InOutput(B)}, name => first, name => if name == InOutput(B) then first + 1 else first)
  }

  lemma FlippingHasBoth(t: nat)
    ensures Flipping(t).output.Keys == {A, B} && Flipping(t).output[A] == Flipping(t).output[B] == [t % 2]
    ensures Flipping(t).models.None?
  {}

  const BLEND := Artifact(map[A := [0], B := [1]], Some(map[]))

  lemma ReadAcrossCompletes(first: nat)
    ensures Walks(Flipping, ReadAcross(first)) && Completes(Flipping, ReadAcross(first))
  {
    FlippingHasBoth(first);
    FlippingHasBoth(first + 1);
    hide Flipping;
  }

  lemma GathersTheBlend(src: Timeline, pass: Pass)
    requires Completes(src, pass) && pass.found == {InOutput(A), InOutput(B)}
    requires Look(src(pass.read(InOutput(A))), InOutput(A)) == Some([0])
    requires Look(src(pass.read(InOutput(B))), InOutput(B)) == Some([1])
    ensures Gathered(src, pass) == BLEND
  {
    hide Look;
    hide Completes;
    var g := Gathered(src, pass);
    assert InOutput(A) in pass.found && InOutput(B) in pass.found;
    assert g.output == BLEND.output;
    assert g.models.value == map[];
  }

  lemma ReadAcrossGathersTheBlend(first: nat)
    requires first % 2 == 0
    ensures Walks(Flipping, ReadAcross(first)) && Completes(Flipping, ReadAcross(first))
    ensures Gathered(Flipping, ReadAcross(first)) == BLEND
  {
    ReadAcrossCompletes(first);
    FlippingHasBoth(first);
    FlippingHasBoth(first + 1);
    hide Flipping;
    hide Walks;
    hide Completes;
    hide Gathered;
    GathersTheBlend(Flipping, ReadAcross(first));
  }

  lemma TheBlendNeverWas(t: nat)
    ensures !SameFiles(BLEND, Flipping(t))
  {
    assert Flipping(t).output[A] == Flipping(t).output[B];
    assert BLEND.output[A] != BLEND.output[B];
  }

  /** Without it a blend is accepted: both passes see the old `a` and the new `b`, and the source never
      held the two together. */
  lemma ABlendCanBeAccepted(digest: Digest)
    ensures var attempt := Attempt(ReadAcross(0), ReadAcross(2));
            && Walks(Flipping, attempt.copy) && Walks(Flipping, attempt.comparison) && Between(attempt, 1)
            && Take(digest, Flipping, [attempt]) == Accepted(BLEND, digest(Stream(BLEND)))
            && forall t: nat :: !SameFiles(BLEND, Flipping(t))
  {
    hide Completes;
    hide Walks;
    hide Gathered;
    hide Stream;
    hide SameFiles;
    hide Flipping;
    ReadAcrossGathersTheBlend(0);
    ReadAcrossGathersTheBlend(2);
    forall t: nat
      ensures !SameFiles(BLEND, Flipping(t))
    {
      TheBlendNeverWas(t);
    }
  }
}
