/** The safe cron swap: add the new job, see it listed with a sane next run, only then remove the old
    one, and look again. Every command can fail, and listings can say anything. */
module SafeCronSwap {
  import opened Options

  /** The routine takes an id that counts as true. */
  type JobId = s: string | s != "" witness "job"

  /** What a listing says about a job's next run: nothing that counts as true, a number of milliseconds,
      or any other value, with what it compares as (None when not as a number) and whether it reads as
      a date. */
  datatype NextRun = Missing | At(ms: real) | Other(compares: Option<real>, isDate: bool)

  datatype Job = Job(id: JobId, name: string, nextRun: NextRun)

  /** What one listing command gives: None when it fails or its output has no jobs. */
  type Listing = Option<seq<Job>>

  const MAX_ATTEMPTS := 5
  const TOLERANCE_MS := 60_000

  /** The greatest instant, in milliseconds, that a date can hold (ECMA-262, section 21.4.1.1). */
  const MAX_DATE_MS := 8_640_000_000_000_000.0

  /** One listing of the verification and the clock when it is checked. */
  datatype Look = Look(listing: Listing, now: int)

  /** One behaviour of everything outside the routine: which commands succeed, what the looks of the
      verification show, and whether writing the note of a failed check throws. A look that is not
      given fails. */
  datatype Env = Env(
    snapshotOk: bool, addOk: bool, looks: seq<Look>, noteThrows: bool, removeOk: bool, finalListing: Listing)
  {
    function At(k: nat): Look {
      if k < |looks| then looks[k] else Look(None, 0)
    }
  }

  datatype Error =
    | SnapshotFailed | AddFailed | NoNextRun | NextRunInPast | NotFound | RemoveFailed
    | OldStillPresent | NewMissing | FinalListingFailed

  datatype Report = Report(
    newId: Option<JobId>, addedOk: bool, verifiedOk: bool, removedOk: bool, finalOk: bool, error: Option<Error>)

  datatype Outcome = Outcome(success: bool, report: Report, removeAttempted: bool)

  function Find(jobs: seq<Job>, name: string): (j: Option<Job>)
    ensures j.Some? ==> j.value in jobs && j.value.name == name
    ensures j.None? ==> forall k :: k in jobs ==> k.name != name
  {
    if jobs == [] then None
    else if jobs[0].name == name then Some(jobs[0])
    else Find(jobs[1..], name)
  }

  predicate HasId(jobs: seq<Job>, id: JobId) {
    exists j :: j in jobs && j.id == id
  }

  /** How the check of the job's next run ends: well, with a complaint, or in the middle, because the
      line that logs the accepted instant cannot write it as a date. */
  datatype Verdict = Sane | Complaint(error: Error) | Unwritable

  predicate Past(nextRun: NextRun, now: int) {
    match nextRun
    case Missing => false
    case At(ms) => ms < (now - TOLERANCE_MS) as real
    case Other(compares, _) => compares.Some? && compares.value < (now - TOLERANCE_MS) as real
  }

  predicate Writable(nextRun: NextRun) {
    match nextRun
    case Missing => true
    case At(ms) => -MAX_DATE_MS <= ms <= MAX_DATE_MS
    case Other(_, isDate) => isDate
  }

  function Check(j: Job, now: int): Verdict {
    if j.nextRun.Missing? then Complaint(NoNextRun)
    else if Past(j.nextRun, now) then Complaint(NextRunInPast)
    else if !Writable(j.nextRun) then Unwritable
    else Sane
  }

  function Seen(env: Env, name: string, k: nat): Option<Job> {
    match env.At(k).listing
    case None => None
    case Some(jobs) => Find(jobs, name)
  }

  /** The listing, from the k-th attempt on, that first shows the new job. */
  function FirstSeen(env: Env, name: string, k: nat): (r: Option<nat>)
    ensures r.Some? ==> k <= r.value < MAX_ATTEMPTS && Seen(env, name, r.value).Some?
    decreases MAX_ATTEMPTS - k
  {
    if k >= MAX_ATTEMPTS then None
    else if Seen(env, name, k).Some? then Some(k)
    else FirstSeen(env, name, k + 1)
  }

  const Blank := Report(None, false, false, false, false, None)

  function Fail(r: Report, e: Error, removeAttempted: bool): Outcome {
    Outcome(false, r.(error := Some(e)), removeAttempted)
  }

  /** The routine from the removal on. */
  function RemoveAndCheck(env: Env, oldId: JobId, r: Report, newId: JobId): Outcome {
    if !env.removeOk then Fail(r, RemoveFailed, true)
    else
      var removed := r.(removedOk := true);
      match env.finalListing
      case None => Fail(removed, FinalListingFailed, true)
      case Some(jobs) =>
        if HasId(jobs, oldId) then Fail(removed, OldStillPresent, true)
        else if !HasId(jobs, newId) then Fail(removed, NewMissing, true)
        else Outcome(true, removed.(finalOk := true), true)
  }

  function Swap(env: Env, oldId: JobId, name: string): Outcome {
    if !env.snapshotOk then Fail(Blank, SnapshotFailed, false)
    else if !env.addOk then Fail(Blank, AddFailed, false)
    else
      var added := Blank.(addedOk := true);
      match FirstSeen(env, name, 0)
      case None => Fail(added, NotFound, false)
      case Some(k) =>
        var job := Seen(env, name, k).value;
        var found := added.(newId := Some(job.id));
        // A throw inside the check ends in the loop's own handler, with the id already set.
        match Check(job, env.At(k).now)
        case Sane => RemoveAndCheck(env, oldId, found.(verifiedOk := true), job.id)
        case Unwritable => RemoveAndCheck(env, oldId, found, job.id)
        case Complaint(e) =>
          if env.noteThrows then RemoveAndCheck(env, oldId, found.(error := Some(e)), job.id)
          else Fail(found, e, false)
  }

  method Run(env: Env, oldId: JobId, name: string) returns (o: Outcome)
    ensures o == Swap(env, oldId, name)
  {
    var report := Report(None, false, false, false, false, None);
    if !env.snapshotOk {
      report := report.(error := Some(SnapshotFailed));
      return Outcome(false, report, false);
    }
    if !env.addOk {
      report := report.(error := Some(AddFailed));
      return Outcome(false, report, false);
    }
    report := report.(addedOk := true);

    var newJobId: Option<JobId> := None;
    var attempts := 0;
    while attempts < MAX_ATTEMPTS && newJobId.None?
      invariant attempts <= MAX_ATTEMPTS
      invariant newJobId.None? ==> report == Blank.(addedOk := true)
      invariant newJobId.None? ==> FirstSeen(env, name, 0) == FirstSeen(env, name, attempts)
      invariant newJobId.Some? ==> Swap(env, oldId, name) == RemoveAndCheck(env, oldId, report, newJobId.value)
      decreases newJobId.None?, MAX_ATTEMPTS - attempts
    {
      var listing := env.At(attempts).listing;
      if listing.None? {
        attempts := attempts + 1;
        continue;
      }
      var job := Find(listing.value, name);
      if job.None? {
        attempts := attempts + 1;
        continue;
      }
      newJobId := Some(job.value.id);
      report := report.(newId := newJobId);
      match Check(job.value, env.At(attempts).now) {
        case Complaint(e) =>
          report := report.(error := Some(e));
          if !env.noteThrows { return Outcome(false, report, false); }
          attempts := attempts + 1;
        case Unwritable =>
          attempts := attempts + 1;
        case Sane =>
          report := report.(verifiedOk := true);
      }
    }
    if newJobId.None? {
      report := report.(error := Some(NotFound));
      return Outcome(false, report, false);
    }

    if !env.removeOk {
      report := report.(error := Some(RemoveFailed));
      return Outcome(false, report, true);
    }
    report := report.(removedOk := true);

    if env.finalListing.None? {
      report := report.(error := Some(FinalListingFailed));
      return Outcome(false, report, true);
    }
    if HasId(env.finalListing.value, oldId) {
      report := report.(error := Some(OldStillPresent));
      return Outcome(false, report, true);
    }
    if !HasId(env.finalListing.value, newJobId.value) {
      report := report.(error := Some(NewMissing));
      return Outcome(false, report, true);
    }
    report := report.(finalOk := true);
    return Outcome(true, report, true);
  }

  // ----- Main results, for every pattern of failures

  /** Listing k is the first that shows a job of the verify name. */
  predicate ShownFirst(env: Env, name: string, k: nat) {
    k < MAX_ATTEMPTS && Seen(env, name, k).Some? && forall i :: 0 <= i < k ==> Seen(env, name, i).None?
  }

  lemma {:induction false} FirstSeenIsFirst(env: Env, name: string, from: nat, k: nat)
    requires ShownFirst(env, name, k) && from <= k
    ensures FirstSeen(env, name, from) == Some(k)
    decreases k - from
  {
    if from < k {
      FirstSeenIsFirst(env, name, from + 1, k);
    }
  }

  lemma {:induction false} NothingBefore(env: Env, name: string, from: nat)
    ensures var r := FirstSeen(env, name, from);
      forall i :: from <= i < (if r.Some? then r.value else MAX_ATTEMPTS) ==> Seen(env, name, i).None?
    decreases MAX_ATTEMPTS - from
  {
    if from < MAX_ATTEMPTS && Seen(env, name, from).None? {
      NothingBefore(env, name, from + 1);
    }
  }

  /** The check of the first job that the verification finds comes out as `verdict`. */
  ghost predicate FirstCheck(env: Env, name: string, verdict: Verdict) {
    env.snapshotOk && env.addOk &&
    exists k: nat :: ShownFirst(env, name, k) && Check(Seen(env, name, k).value, env.At(k).now) == verdict
  }

  /** A check that does not come out well, and whose throw the loop's own handler swallows: a complaint
      that cannot be noted, or a next run that cannot be written as a date. */
  ghost predicate Swallowed(env: Env, name: string) {
    FirstCheck(env, name, Unwritable) ||
    (env.noteThrows && exists e :: FirstCheck(env, name, Complaint(e)))
  }

  lemma VerdictOfFirst(env: Env, name: string)
    requires env.snapshotOk && env.addOk && FirstSeen(env, name, 0).Some?
    ensures var k := FirstSeen(env, name, 0).value;
      forall v :: FirstCheck(env, name, v) <==> v == Check(Seen(env, name, k).value, env.At(k).now)
  {
    NothingBefore(env, name, 0);
    var k := FirstSeen(env, name, 0).value;
    assert ShownFirst(env, name, k);
    forall i: nat | ShownFirst(env, name, i)
      ensures i == k
    {
      FirstSeenIsFirst(env, name, 0, i);
    }
  }

  lemma NoVerdict(env: Env, name: string)
    requires FirstSeen(env, name, 0).None?
    ensures forall v :: !FirstCheck(env, name, v)
  {
    NothingBefore(env, name, 0);
  }

  /** The old job is removed on a verified new one exactly when the first listing to show a job of the
      verify name passes the check, and it is removed unverified exactly when the check is swallowed. */
  lemma RemovalNeedsVerification(env: Env, oldId: JobId, name: string)
    ensures var o := Swap(env, oldId, name);
      && (o.removeAttempted && o.report.verifiedOk <==> FirstCheck(env, name, Sane))
      && (o.removeAttempted && !o.report.verifiedOk <==> Swallowed(env, name))
  {
    if FirstSeen(env, name, 0).None? {
      NoVerdict(env, name);
    } else if env.snapshotOk && env.addOk {
      VerdictOfFirst(env, name);
    }
  }

  // ----- What counts as a sane next run, and how each way ends

  /** Job i of the k-th look is the first of the verify name, and no look before shows one. */
  predicate Found(env: Env, name: string, k: nat, i: nat) {
    env.snapshotOk && env.addOk && k < 5 &&
    (forall e :: 0 <= e < k && env.At(e).listing.Some? ==> forall j :: j in env.At(e).listing.value ==> j.name != name) &&
    env.At(k).listing.Some? &&
    var jobs := env.At(k).listing.value;
    i < |jobs| && jobs[i].name == name && forall e :: 0 <= e < i ==> jobs[e].name != name
  }

  lemma {:induction false} FindsFirst(jobs: seq<Job>, name: string, i: nat)
    requires i < |jobs| && jobs[i].name == name && forall e :: 0 <= e < i ==> jobs[e].name != name
    ensures Find(jobs, name) == Some(jobs[i])
    decreases i
  {
    if i > 0 {
      FindsFirst(jobs[1..], name, i - 1);
    }
  }

  lemma FoundIsSeen(env: Env, name: string, k: nat, i: nat)
    requires Found(env, name, k, i)
    ensures FirstSeen(env, name, 0) == Some(k) && Seen(env, name, k) == Some(env.At(k).listing.value[i])
  {
    FindsFirst(env.At(k).listing.value, name, i);
    assert ShownFirst(env, name, k);
    FirstSeenIsFirst(env, name, 0, k);
  }

  /** A job without a next run, or with one more than a minute ago, ends the routine with that complaint
      and without a removal, unless the complaint cannot be noted; a next run that no date can hold is
      passed over without verification; and every other job is verified. */
  lemma NextRunDecides(env: Env, oldId: JobId, name: string, k: nat, i: nat)
    requires Found(env, name, k, i)
    ensures var o := Swap(env, oldId, name);
      var job, clock := env.At(k).listing.value[i], env.At(k).now as real;
      o.report.newId == Some(job.id) &&
      match job.nextRun
      case Missing =>
        !o.report.verifiedOk && (o.removeAttempted <==> env.noteThrows) &&
        (!env.noteThrows ==> o.report.error == Some(NoNextRun))
      case At(ms) =>
        if ms < clock - 60_000.0 then
          !o.report.verifiedOk && (o.removeAttempted <==> env.noteThrows) &&
          (!env.noteThrows ==> o.report.error == Some(NextRunInPast))
        else
          o.removeAttempted &&
          (o.report.verifiedOk <==> -8_640_000_000_000_000.0 <= ms <= 8_640_000_000_000_000.0)
      case Other(compares, isDate) =>
        if compares.Some? && compares.value < clock - 60_000.0 then
          !o.report.verifiedOk && (o.removeAttempted <==> env.noteThrows) &&
          (!env.noteThrows ==> o.report.error == Some(NextRunInPast))
        else
          o.removeAttempted && (o.report.verifiedOk <==> isDate)
  {
    FoundIsSeen(env, name, k, i);
  }

  /** Where no look shows a job of the verify name, nothing is removed. */
  lemma NothingFoundStops(env: Env, oldId: JobId, name: string)
    requires forall e, j :: 0 <= e < 5 && env.At(e).listing.Some? && j in env.At(e).listing.value ==> j.name != name
    ensures var o := Swap(env, oldId, name);
      !o.success && !o.removeAttempted && o.report.newId.None? &&
      o.report.error == Some(if !env.snapshotOk then SnapshotFailed else if !env.addOk then AddFailed else NotFound)
  {
    assert forall e: nat :: e < 5 ==> Seen(env, name, e).None?;
  }

  /** How an attempted removal ends. */
  lemma RemovalEnds(env: Env, oldId: JobId, name: string)
    requires Swap(env, oldId, name).removeAttempted
    ensures var o := Swap(env, oldId, name);
      && o.report.newId.Some? && o.report.removedOk == env.removeOk
      && (o.success <==> env.removeOk && env.finalListing.Some? && !HasId(env.finalListing.value, oldId) &&
                         HasId(env.finalListing.value, o.report.newId.value))
      && (!o.success ==> o.report.error == Some(
            if !env.removeOk then RemoveFailed
            else if env.finalListing.None? then FinalListingFailed
            else if HasId(env.finalListing.value, oldId) then OldStillPresent
            else NewMissing))
  {
    FlagsAndSuccess(env, oldId, name);
  }

  /** What the removal and the last look add to a report that has none of it. */
  lemma RemovalFlags(env: Env, oldId: JobId, r: Report, newId: JobId)
    requires !r.removedOk && !r.finalOk && r.newId == Some(newId)
    ensures var o := RemoveAndCheck(env, oldId, r, newId);
      && o.removeAttempted && o.report.newId == r.newId
      && o.report.addedOk == r.addedOk && o.report.verifiedOk == r.verifiedOk
      && (o.success <==> o.report.finalOk) && (o.report.finalOk ==> o.report.removedOk)
      && (o.success ==> env.finalListing.Some? && HasId(env.finalListing.value, newId))
      && (o.success ==> !HasId(env.finalListing.value, oldId)) && (!o.success ==> o.report.error.Some?)
  {
  }

  /** Each flag of the report implies the ones before it, verification apart where the check was
      swallowed; the routine reports success exactly when the last flag is set, and then the final
      listing has the new id and lacks the old one. */
  lemma FlagsAndSuccess(env: Env, oldId: JobId, name: string)
    ensures var o := Swap(env, oldId, name); var r := o.report;
      && (o.success <==> r.finalOk)
      && (r.finalOk ==> r.removedOk) && (r.removedOk ==> o.removeAttempted)
      && (r.removedOk ==> r.verifiedOk || Swallowed(env, name))
      && (r.verifiedOk ==> r.addedOk && r.newId.Some?) && (o.removeAttempted ==> r.addedOk && r.newId.Some?)
      && (o.success ==> env.finalListing.Some? && r.newId.Some?)
      && (o.success ==> HasId(env.finalListing.value, r.newId.value) && !HasId(env.finalListing.value, oldId))
      && (!o.success ==> r.error.Some?)
  {
    RemovalNeedsVerification(env, oldId, name);
    if env.snapshotOk && env.addOk && FirstSeen(env, name, 0).Some? {
      var k := FirstSeen(env, name, 0).value;
      var job := Seen(env, name, k).value;
      var found := Blank.(addedOk := true, newId := Some(job.id));
      match Check(job, env.At(k).now)
      case Sane => RemovalFlags(env, oldId, found.(verifiedOk := true), job.id);
      case Unwritable => RemovalFlags(env, oldId, found, job.id);
      case Complaint(e) => RemovalFlags(env, oldId, found.(error := Some(e)), job.id);
    }
  }

  /** Both ways of removing the old job unverified happen, and end in a reported success: a next run in
      nanoseconds, and a job without a next run whose note cannot be written. */
  lemma UnverifiedRemovals()
    ensures var late := Job("new", "nightly", At(1_700_000_000_000_000_000.0));
      var env := Env(true, true, [Look(Some([late]), 0)], false, true, Some([late]));
      var o := Swap(env, "old", "nightly");
      o.success && o.report.finalOk && !o.report.verifiedOk && !env.noteThrows
    ensures var idle := Job("new", "nightly", Missing);
      var env := Env(true, true, [Look(Some([idle]), 0)], true, true, Some([idle]));
      var o := Swap(env, "old", "nightly");
      o.success && o.report.finalOk && !o.report.verifiedOk
  {
    var late := Job("new", "nightly", At(1_700_000_000_000_000_000.0));
    var idle := Job("new", "nightly", Missing);
    OneLook(late, true);
    OneLook(idle, true);
    OneLook(late, false);
  }

  /** One look that shows one job, which the final listing still shows. */
  lemma OneLook(job: Job, noteThrows: bool)
    requires job.name == "nightly" && job.id != "old"
    ensures var env := Env(true, true, [Look(Some([job]), 0)], noteThrows, true, Some([job]));
      && FirstSeen(env, "nightly", 0) == Some(0) && Seen(env, "nightly", 0) == Some(job)
      && HasId([job], job.id) && !HasId([job], "old")
  {
    var env := Env(true, true, [Look(Some([job]), 0)], noteThrows, true, Some([job]));
    assert Find([job], "nightly") == Some(job);
    assert job in [job];
  }

  /** The jobs that exist at each moment, by id: before the add, after it, at each of the five looks,
      after the removal and at the final listing. */
  type World = seq<map<JobId, string>>

  const MOMENTS := 9
  const REMOVED_AT := 7

  /** From the moment before to moment i every job stays, under its name, except for the removal. */
  predicate Carried(world: World, i: nat, oldId: JobId, removal: bool)
    requires 0 < i < |world|
  {
    forall id :: id in world[i - 1] && (i == REMOVED_AT && removal ==> id != oldId) ==>
      id in world[i] && world[i][id] == world[i - 1][id]
  }

  /** The scheduler loses no job by itself and renames none, the removal takes at most the old job, and
      listings show only jobs that exist. */
  ghost predicate Honest(env: Env, oldId: JobId, world: World, removal: bool) {
    |world| == MOMENTS &&
    (forall i :: 0 < i < MOMENTS ==> Carried(world, i, oldId, removal)) &&
    (forall k: nat, j :: k < MAX_ATTEMPTS && env.At(k).listing.Some? && j in env.At(k).listing.value ==>
       j.id in world[2 + k] && world[2 + k][j.id] == j.name)
  }

  lemma {:induction false} Persists(env: Env, oldId: JobId, world: World, removal: bool, id: JobId, early: nat, later: nat)
    requires Honest(env, oldId, world, removal) && early <= later < MOMENTS && id in world[early]
    requires removal && id == oldId ==> later < REMOVED_AT
    ensures id in world[later] && world[later][id] == world[early][id]
    decreases later
  {
    if early < later {
      assert Carried(world, later, oldId, removal);
      Persists(env, oldId, world, removal, id, early, later - 1);
    }
  }

  /** At every moment the old job exists, or the new one does. */
  predicate OldOrNew(world: World, oldId: JobId, newId: Option<JobId>) {
    forall at :: 0 <= at < |world| ==> oldId in world[at] || (newId.Some? && newId.value in world[at])
  }

  /** The new job was listed under the verify name, so it is not one that has another name at the start. */
  lemma NewJobIsListed(env: Env, oldId: JobId, name: string, world: World) returns (k: nat)
    requires Honest(env, oldId, world, Swap(env, oldId, name).removeAttempted)
    requires Swap(env, oldId, name).report.newId.Some?
    ensures var newId := Swap(env, oldId, name).report.newId.value;
      (newId in world[0] ==> world[0][newId] == name) && k < MAX_ATTEMPTS && newId in world[2 + k]
  {
    var o := Swap(env, oldId, name);
    k := FirstSeen(env, name, 0).value;
    var job := Seen(env, name, k).value;
    assert job in env.At(k).listing.value;
    if job.id in world[0] {
      Persists(env, oldId, world, o.removeAttempted, job.id, 0, 2 + k);
    }
  }

  lemma KeepsOldOrNew(env: Env, oldId: JobId, name: string, world: World)
    requires Honest(env, oldId, world, Swap(env, oldId, name).removeAttempted)
    requires oldId in world[0] && world[0][oldId] != name
    ensures OldOrNew(world, oldId, Swap(env, oldId, name).report.newId)
  {
    var o := Swap(env, oldId, name);
    forall at | 0 <= at < |world|
      ensures oldId in world[at] || (o.report.newId.Some? && o.report.newId.value in world[at])
    {
      if at < REMOVED_AT || !o.removeAttempted {
        Persists(env, oldId, world, o.removeAttempted, oldId, 0, at);
      } else {
        var k := NewJobIsListed(env, oldId, name, world);
        Persists(env, oldId, world, true, o.report.newId.value, 2 + k, at);
      }
    }
  }

  /** When the old job has the verify name, it vouches for itself: the add command succeeds without
      adding anything, the old job is removed, and nothing of that name is left. */
  lemma SharedNameCanLoseBoth(before: map<JobId, string>, oldId: JobId, name: string) returns (env: Env, world: World)
    requires oldId in before && before[oldId] == name
    ensures Honest(env, oldId, world, Swap(env, oldId, name).removeAttempted) && world[0] == before
    ensures !OldOrNew(world, oldId, Swap(env, oldId, name).report.newId)
  {
    var oldJob, after := Job(oldId, name, At(1.0)), before - {oldId};
    env := Env(true, true, [Look(Some([oldJob]), 0)], false, true, Some([]));
    world := [before, before, before, before, before, before, before, after, after];
    assert Find([oldJob], name) == Some(oldJob);
    assert Seen(env, name, 0) == Some(oldJob) && Check(oldJob, 0) == Sane;
    assert Swap(env, oldId, name).removeAttempted && Swap(env, oldId, name).report.newId == Some(oldId);
    assert forall i :: 0 <= i < MOMENTS ==> world[i] == if i < REMOVED_AT then before else after;
    assert forall i :: 0 < i < MOMENTS ==> Carried(world, i, oldId, true);
    assert oldId !in world[8];
  }

  /** Exactly when the old job itself does not have the verify name, no behaviour of the commands and of
      the scheduler leaves a moment without the old job and without the new one. */
  lemma OldOrNewIsAlwaysThere(before: map<JobId, string>, oldId: JobId, name: string)
    requires oldId in before
    ensures before[oldId] != name <==>
      forall env, world ::
        Honest(env, oldId, world, Swap(env, oldId, name).removeAttempted) && world[0] == before ==>
        OldOrNew(world, oldId, Swap(env, oldId, name).report.newId)
  {
    if before[oldId] != name {
      forall env, world |
        Honest(env, oldId, world, Swap(env, oldId, name).removeAttempted) && world[0] == before
        ensures OldOrNew(world, oldId, Swap(env, oldId, name).report.newId)
      {
        KeepsOldOrNew(env, oldId, name, world);
      }
    } else {
      var env, world := SharedNameCanLoseBoth(before, oldId, name);
    }
  }

  /** If no job at all has the verify name at the start, the new job is really new. */
  lemma NewJobIsNew(env: Env, oldId: JobId, name: string, world: World)
    requires Honest(env, oldId, world, Swap(env, oldId, name).removeAttempted)
    requires forall id :: id in world[0] ==> world[0][id] != name
    ensures var newId := Swap(env, oldId, name).report.newId;
      newId.Some? ==> newId.value !in world[0]
  {
    if Swap(env, oldId, name).report.newId.Some? {
      var k := NewJobIsListed(env, oldId, name, world);
    }
  }
}
