/** The life of one uploaded file: its row, its object, its multipart upload, and any number
    of commits at once (src/files/files.service.ts). Files share nothing, so one is enough. */
module FilesService {
  import opened Wrappers
  import opened Limits
  import opened Multipart

  type CommitId = nat

  datatype Status = PENDING | COMPLETED

  datatype Stored = Stored(size: nat, etag: nat)

  /** What storage holds under the row's upload id; `Gone` once assembled or expired. */
  datatype Upload = NotMultipart | Open(parts: map<nat, Stored>) | Gone

  datatype CommitError =
    | NoSuchUpload
    | PartsMissing(numbers: seq<nat>)
    | InvalidPart
    | ObjectMissing
    | SizeMismatch(found: nat)

  /** Where one call of commit() stands. */
  datatype Pc =
    | Listing
    | Completing(have: seq<Part>)
    | Heading
    | Updating
    | Finished(result: Result<Status, CommitError>)

  /** `uploaded` is history: every part ever stored, by its ETag. `headMatched`: some HeadObject
      has reported the expected size. */
  datatype File = File(
    size: nat, status: Status, upload: Upload, content: Option<nat>, commits: map<CommitId, Pc>,
    uploaded: map<nat, Part>, nextEtag: nat, headMatched: bool)

  datatype Step =
    | UploadPart(number: nat, length: nat)
    | PutObject(length: nat)
    | BeginCommit(id: CommitId)
    | ListParts(id: CommitId, seen: seq<Part>)
    | Complete(id: CommitId)
    | Head(id: CommitId)
    | Update(id: CommitId)
    | Crash(id: CommitId)
    | ExpireUpload

  predicate ValidSize(size: nat) {
    1 <= size <= MAX_OBJECT
  }

  function PlanFor(size: nat): (p: Plan)
    requires ValidSize(size)
    ensures PlanOk(p) && p.size == size
  {
    PartSizeIsLeast(size);
    Plan(size, ComputePartSize(size).value)
  }

  /** Each listed part was stored at some time; pages read at different moments may mix times. */
  predicate Seen(uploaded: map<nat, Part>, seen: seq<Part>) {
    forall i :: 0 <= i < |seen| ==> seen[i].etag in uploaded && uploaded[seen[i].etag] == seen[i]
  }

  /** CompleteMultipartUpload compares ETags, nothing else. */
  predicate EtagsMatch(parts: map<nat, Stored>, have: seq<Part>) {
    forall i :: 0 <= i < |have| ==> have[i].number in parts && parts[have[i].number].etag == have[i].etag
  }

  function Assembled(parts: map<nat, Stored>, have: seq<Part>): nat
    requires EtagsMatch(parts, have)
  {
    if have == [] then 0 else Assembled(parts, have[..|have| - 1]) + parts[have[|have| - 1].number].size
  }

  function Goto(f: File, id: CommitId, pc: Pc): File {
    f.(commits := f.commits[id := pc])
  }

  function Fail(f: File, id: CommitId, e: CommitError): File {
    Goto(f, id, Finished(Err(e)))
  }

  function Apply(f: File, step: Step): File
    requires ValidSize(f.size)
  {
    match step
    case UploadPart(n, length) =>
      // only the numbers 1..total are ever presigned
      if f.upload.Open? && 1 <= n <= Total(PlanFor(f.size)) then
        f.(upload := Open(f.upload.parts[n := Stored(length, f.nextEtag)]),
           uploaded := f.uploaded[f.nextEtag := Part(n, length, f.nextEtag)], nextEtag := f.nextEtag + 1)
      else f
    case PutObject(length) =>
      // a presigned PUT is issued only when there is no multipart upload
      if f.upload.NotMultipart? then f.(content := Some(length)) else f
    case BeginCommit(id) =>
      if id in f.commits then f
      else if f.status == COMPLETED then Goto(f, id, Finished(Ok(COMPLETED)))
      else Goto(f, id, if f.upload.NotMultipart? then Heading else Listing)
    case ListParts(id, seen) =>
      if id !in f.commits || !f.commits[id].Listing? then f
      else if f.upload.Gone? then Fail(f, id, NoSuchUpload)
      else if !f.upload.Open? || !Ascending(seen) || !Seen(f.uploaded, seen) then f
      else
        var p := PlanFor(f.size);
        var missing := MissingUpTo(p, seen, Total(p));
        if missing != [] then Fail(f, id, PartsMissing(missing)) else Goto(f, id, Completing(GoodParts(p, seen)))
    case Complete(id) =>
      if id !in f.commits || !f.commits[id].Completing? then f
      else if f.upload.Open? then
        var have := f.commits[id].have;
        if EtagsMatch(f.upload.parts, have) then
          Goto(f.(upload := Gone, content := Some(Assembled(f.upload.parts, have))), id, Heading)
        else Fail(f, id, InvalidPart)
      else Goto(f, id, Heading)  // NoSuchUpload is tolerated here
    case Head(id) =>
      if id !in f.commits || !f.commits[id].Heading? then f
      else if f.content.None? then Fail(f, id, ObjectMissing)
      else if f.content.value != f.size then Fail(f, id, SizeMismatch(f.content.value))
      else Goto(f.(headMatched := true), id, Updating)
    case Update(id) =>
      if id !in f.commits || !f.commits[id].Updating? then f
      else Goto(f.(status := COMPLETED), id, Finished(Ok(COMPLETED)))
    case Crash(id) => f.(commits := f.commits - {id})
    case ExpireUpload => if f.upload.Open? then f.(upload := Gone) else f
  }

  function Run(f: File, steps: seq<Step>): (end: File)
    requires ValidSize(f.size)
    ensures end.size == f.size
  {
    if steps == [] then f else Apply(Run(f, steps[..|steps| - 1]), steps[|steps| - 1])
  }

  function NewFile(size: nat, multipart: bool): File {
    File(size, PENDING, if multipart then Open(map[]) else NotMultipart, None, map[], map[], 0, false)
  }

  // ---- the invariant ----

  predicate CommitSound(f: File, pc: Pc) {
    && (pc.Completing? ==> Ascending(pc.have) && Seen(f.uploaded, pc.have) && SumSizes(pc.have) == f.size)
    && (pc.Updating? ==> f.headMatched)
    && (pc.Listing? || pc.Completing? ==> !f.upload.NotMultipart?)
  }

  predicate Sound(f: File) {
    && ValidSize(f.size)
    && (f.upload.Open? ==> forall n :: n in f.upload.parts ==>
          f.upload.parts[n].etag in f.uploaded && f.uploaded[f.upload.parts[n].etag] == Part(n, f.upload.parts[n].size, f.upload.parts[n].etag))
    && (forall e :: e in f.uploaded ==> e < f.nextEtag && 1 <= f.uploaded[e].number <= Total(PlanFor(f.size)))
    && (!f.upload.NotMultipart? && f.content.Some? ==> f.content.value == f.size)
    && (f.status == COMPLETED ==> f.headMatched)
    && (forall c :: c in f.commits ==> CommitSound(f, f.commits[c]))
  }

  /** What storage assembles from matching ETags is what the listing added up to. */
  lemma {:induction false} AssembledIsSum(f: File, have: seq<Part>)
    requires Sound(f) && f.upload.Open? && Seen(f.uploaded, have) && EtagsMatch(f.upload.parts, have)
    ensures Assembled(f.upload.parts, have) == SumSizes(have)
  {
    if have != [] {
      AssembledIsSum(f, have[..|have| - 1]);
    }
  }

  lemma {:induction false} GoodPartsSeen(uploaded: map<nat, Part>, p: Plan, seen: seq<Part>)
    requires Seen(uploaded, seen)
    ensures Seen(uploaded, GoodParts(p, seen))
  {
    if seen != [] {
      GoodPartsSeen(uploaded, p, seen[..|seen| - 1]);
    }
  }

  lemma GotoKeeps(f: File, id: CommitId, pc: Pc)
    requires Sound(f) && CommitSound(f, pc)
    ensures Sound(Goto(f, id, pc))
  {
    hide Ascending, Seen, SumSizes, PlanFor, Total;
  }

  lemma ListKeeps(f: File, id: CommitId, seen: seq<Part>)
    requires Sound(f) && ValidSize(f.size)
    ensures Sound(Apply(f, ListParts(id, seen)))
  {
    var f' := Apply(f, ListParts(id, seen));
    if f' != f {
      var p := PlanFor(f.size);
      var good := GoodParts(p, seen);
      assert f.commits[id].Listing? && CommitSound(f, f.commits[id]);
      if f'.commits[id].Completing? {
        AssemblesExactly(p, seen);
        GoodPartsSeen(f.uploaded, p, seen);
      }
      hide Sound, PlanFor, Total, GoodParts, MissingUpTo;
      GotoKeeps(f, id, f'.commits[id]);
    }
  }

  lemma UploadKeeps(f: File, n: nat, length: nat)
    requires Sound(f)
    ensures Sound(Apply(f, UploadPart(n, length)))
  {
    var f' := Apply(f, UploadPart(n, length));
    forall c | c in f'.commits ensures CommitSound(f', f'.commits[c]) {
      assert CommitSound(f, f.commits[c]);
    }
  }

  lemma CompleteKeeps(f: File, id: CommitId)
    requires Sound(f)
    ensures Sound(Apply(f, Complete(id)))
  {
    if id in f.commits && f.commits[id].Completing? && f.upload.Open? && EtagsMatch(f.upload.parts, f.commits[id].have) {
      assert CommitSound(f, f.commits[id]);
      AssembledIsSum(f, f.commits[id].have);
    }
  }

  lemma OtherKeeps(f: File, step: Step)
    requires Sound(f) && !step.ListParts? && !step.Complete? && !step.UploadPart?
    ensures Sound(Apply(f, step))
  {
    hide Ascending, Seen, SumSizes, PlanFor, Total, GoodParts, MissingUpTo, EtagsMatch, Assembled;
  }

  lemma ApplyKeeps(f: File, step: Step)
    requires Sound(f) && ValidSize(f.size)
    ensures Sound(Apply(f, step))
  {
    hide Sound, Apply;
    match step
    case ListParts(id, seen) => ListKeeps(f, id, seen);
    case Complete(id) => CompleteKeeps(f, id);
    case UploadPart(n, length) => UploadKeeps(f, n, length);
    case _ => OtherKeeps(f, step);
  }

  lemma {:induction false} RunKeeps(f: File, steps: seq<Step>)
    requires Sound(f) && ValidSize(f.size)
    ensures Sound(Run(f, steps))
  {
    hide Sound, Apply;
    if steps != [] {
      RunKeeps(f, steps[..|steps| - 1]);
      ApplyKeeps(Run(f, steps[..|steps| - 1]), steps[|steps| - 1]);
    }
  }

  // ---- what every run keeps ----

  /** COMPLETED is final, and reached only once storage has reported exactly the declared size;
      a multipart object, whenever there is one, is exactly that long. */
  lemma EveryRunIsSound(size: nat, multipart: bool, steps: seq<Step>)
    requires ValidSize(size)
    ensures var f := Run(NewFile(size, multipart), steps);
            && (f.status == COMPLETED ==> exists k :: SizeSeen(size, multipart, steps, k))
            && (multipart && f.content.Some? ==> f.content.value == size)
  {
    hide Apply;
    RunKeeps(NewFile(size, multipart), steps);
    KindStays(NewFile(size, multipart), steps);
    MatchWasSeen(size, multipart, steps);
  }

  /** Step `k` was a HeadObject, and the object then stored had exactly the declared size. */
  predicate SizeSeen(size: nat, multipart: bool, steps: seq<Step>, k: nat)
    requires ValidSize(size)
  {
    k < |steps| && steps[k].Head? && Run(NewFile(size, multipart), steps[..k]).content == Some(size)
  }

  lemma {:induction false} MatchWasSeen(size: nat, multipart: bool, steps: seq<Step>)
    requires ValidSize(size)
    ensures Run(NewFile(size, multipart), steps).headMatched ==> exists k :: SizeSeen(size, multipart, steps, k)
  {
    hide Apply;
    if steps != [] {
      var before, last := steps[..|steps| - 1], |steps| - 1;
      var f := Run(NewFile(size, multipart), before);
      MatchWasSeen(size, multipart, before);
      HeadMatchedMeans(f, steps[last]);
      if k: nat :| SizeSeen(size, multipart, before, k) {
        assert before[..k] == steps[..k] && SizeSeen(size, multipart, steps, k);
      }
      if Matches(f, steps[last]) {
        assert SizeSeen(size, multipart, steps, last);
      }
    }
  }

  lemma {:induction false} KindStays(f: File, steps: seq<Step>)
    requires ValidSize(f.size)
    ensures Run(f, steps).upload.NotMultipart? == f.upload.NotMultipart?
  {
    if steps != [] {
      KindStays(f, steps[..|steps| - 1]);
    }
  }

  predicate Matches(f: File, step: Step) {
    step.Head? && step.id in f.commits && f.commits[step.id].Heading? && f.content == Some(f.size)
  }

  /** `headMatched` is set by a matching HeadObject answer and by nothing else. */
  lemma HeadMatchedMeans(f: File, step: Step)
    requires ValidSize(f.size)
    ensures Apply(f, step).headMatched <==> f.headMatched || Matches(f, step)
  {
  }

  lemma {:induction false} CompletedStays(f: File, steps: seq<Step>)
    requires ValidSize(f.size) && f.status == COMPLETED
    ensures Run(f, steps).status == COMPLETED
  {
    if steps != [] {
      CompletedStays(f, steps[..|steps| - 1]);
    }
  }

  lemma {:induction false} RunJoins(f: File, a: seq<Step>, b: seq<Step>)
    requires ValidSize(f.size)
    ensures Run(Run(f, a), b) == Run(f, a + b)
  {
    if b == [] {
      assert a + b == a;
    } else {
      var last := |b| - 1;
      RunJoins(f, a, b[..last]);
      assert a + b == (a + b[..last]) + [b[last]];
    }
  }

  // ---- which uploads can still be completed ----

  /** A commit that is past its listing and will find the object. */
  predicate Underway(f: File, c: CommitId) {
    c in f.commits && (f.commits[c].Updating? || (f.content.Some? && (f.commits[c].Completing? || f.commits[c].Heading?)))
  }

  /** A multipart file whose upload is gone completes only through a commit already underway. */
  ghost predicate Completable(f: File) {
    f.status == COMPLETED || !f.upload.Gone? || exists c :: Underway(f, c)
  }

  lemma StuckStep(f: File, step: Step)
    requires ValidSize(f.size) && !Completable(f)
    ensures !Completable(Apply(f, step))
  {
    hide PlanFor, MissingUpTo, GoodParts, EtagsMatch, Assembled, Ascending, Seen;
    if step.Complete? || step.Head? || step.Update? {
      assert !Underway(f, step.id);
    }
    var f' := Apply(f, step);
    assert f'.upload.Gone? && f'.content == f.content;
    forall c ensures !Underway(f', c) {
      assert !Underway(f, c);
    }
  }

  lemma {:induction false} StuckStays(f: File, steps: seq<Step>)
    requires ValidSize(f.size) && !Completable(f)
    ensures !Completable(Run(f, steps))
  {
    hide Completable, Apply;
    if steps != [] {
      StuckStays(f, steps[..|steps| - 1]);
      StuckStep(Run(f, steps[..|steps| - 1]), steps[|steps| - 1]);
    }
  }

  function WholePart(p: Plan, n: nat): nat
    requires PlanOk(p) && 1 <= n <= Total(p)
  {
    PartsCover(p.size, p.partSize);
    PartLength(p.size, p.partSize, n)
  }

  predicate InPlan(p: Plan, numbers: seq<nat>)
    requires PlanOk(p)
  {
    forall i :: 0 <= i < |numbers| ==> 1 <= numbers[i] <= Total(p)
  }

  /** The client uploads these parts, each whole. */
  function UploadThese(p: Plan, numbers: seq<nat>): seq<Step>
    requires PlanOk(p) && InPlan(p, numbers)
  {
    if numbers == [] then []
    else
      var last := numbers[|numbers| - 1];
      UploadThese(p, numbers[..|numbers| - 1]) + [UploadPart(last, WholePart(p, last))]
  }

  /** What storage lists of the parts 1..k. */
  function StoredParts(parts: map<nat, Stored>, k: nat): seq<Part> {
    if k == 0 then []
    else StoredParts(parts, k - 1) + if k in parts then [Part(k, parts[k].size, parts[k].etag)] else []
  }

  lemma {:induction false} ListingMeans(parts: map<nat, Stored>, k: nat)
    ensures var listed := StoredParts(parts, k);
            && Ascending(listed)
            && forall part :: part in listed <==>
                 1 <= part.number <= k && part.number in parts && parts[part.number] == Stored(part.size, part.etag)
  {
    if k > 0 {
      ListingMeans(parts, k - 1);
      var before := StoredParts(parts, k - 1);
      forall i | 0 <= i < |before| ensures before[i].number < k {
        assert before[i] in before;
      }
    }
  }

  /** A listing of what is stored now was seen, and its ETags still match. */
  lemma ListingIsSeen(f: File, k: nat)
    requires Sound(f) && f.upload.Open?
    ensures Seen(f.uploaded, StoredParts(f.upload.parts, k)) && EtagsMatch(f.upload.parts, StoredParts(f.upload.parts, k))
  {
    var listed := StoredParts(f.upload.parts, k);
    ListingMeans(f.upload.parts, k);
    forall i | 0 <= i < |listed|
      ensures listed[i].etag in f.uploaded && f.uploaded[listed[i].etag] == listed[i]
      ensures listed[i].number in f.upload.parts && f.upload.parts[listed[i].number].etag == listed[i].etag
    {
      assert listed[i] in listed;
    }
  }

  /** Exactly the parts named are now there whole; no other has changed. */
  predicate Uploaded(p: Plan, before: map<nat, Stored>, after: map<nat, Stored>, numbers: seq<nat>)
    requires PlanOk(p) && InPlan(p, numbers)
  {
    && (forall n :: n in numbers ==> n in after && after[n].size == WholePart(p, n))
    && (forall n :: n in before && n !in numbers ==> n in after && after[n] == before[n])
  }

  lemma {:induction false} UploadTheseGives(f: File, numbers: seq<nat>)
    requires Sound(f) && ValidSize(f.size) && f.upload.Open? && InPlan(PlanFor(f.size), numbers)
    ensures var p := PlanFor(f.size);
            var g := Run(f, UploadThese(p, numbers));
            && Sound(g) && g.upload.Open? && g.status == f.status && g.commits == f.commits
            && Uploaded(p, f.upload.parts, g.upload.parts, numbers)
  {
    hide Sound, Apply, WholePart, PlanFor, Total;
    if numbers != [] {
      var p, before, last := PlanFor(f.size), numbers[..|numbers| - 1], numbers[|numbers| - 1];
      UploadTheseGives(f, before);
      var g := Run(f, UploadThese(p, before));
      UploadKeeps(g, last, WholePart(p, last));
      UploadStores(g, last, WholePart(p, last));
      assert numbers == before + [last];
    }
  }

  lemma UploadStores(f: File, n: nat, length: nat)
    requires ValidSize(f.size) && f.upload.Open? && 1 <= n <= Total(PlanFor(f.size))
    ensures var g := Apply(f, UploadPart(n, length));
            && g.upload == Open(f.upload.parts[n := Stored(length, f.nextEtag)])
            && g.status == f.status && g.commits == f.commits
  {
  }

  lemma {:induction false} FreshId(ids: set<CommitId>) returns (id: CommitId)
    ensures forall c :: c in ids ==> c < id
  {
    if ids == {} {
      id := 0;
    } else {
      var c :| c in ids;
      var rest := FreshId(ids - {c});
      id := if rest > c then rest else c + 1;
      forall x | x in ids ensures x < id {
        assert x == c || x in ids - {c};
      }
    }
  }

  function CommitSteps(id: CommitId, seen: seq<Part>): seq<Step> {
    [BeginCommit(id), ListParts(id, seen), Complete(id)]
  }

  lemma {:induction false} GoodPartsMatch(parts: map<nat, Stored>, p: Plan, seen: seq<Part>)
    requires EtagsMatch(parts, seen)
    ensures EtagsMatch(parts, GoodParts(p, seen))
  {
    if seen != [] {
      GoodPartsMatch(parts, p, seen[..|seen| - 1]);
    }
  }

  /** When a listing misses no part and its good ones have not been replaced since, one commit
      assembles exactly `size` bytes, whatever else the listing holds. */
  lemma CommitAssembles(f: File, id: CommitId, seen: seq<Part>)
    requires Sound(f) && ValidSize(f.size) && f.upload.Open? && f.status == PENDING && id !in f.commits
    requires Ascending(seen) && Seen(f.uploaded, seen)
    requires var p := PlanFor(f.size);
             EtagsMatch(f.upload.parts, GoodParts(p, seen)) && MissingUpTo(p, seen, Total(p)) == []
    ensures Run(f, CommitSteps(id, seen))
         == f.(upload := Gone, content := Some(f.size), commits := f.commits[id := Heading])
  {
    hide Run, Apply, Sound, Gathered;
    GoodPartsAssemble(f, seen);
    Three(f, BeginCommit(id), ListParts(id, seen), Complete(id));
    GatheredIs(f, id, seen);
    GatheredWhole(f, id, seen);
  }

  lemma GatheredWhole(f: File, id: CommitId, seen: seq<Part>)
    requires ValidSize(f.size) && f.upload.Open? && f.status == PENDING
    requires var p := PlanFor(f.size);
             && EtagsMatch(f.upload.parts, GoodParts(p, seen)) && MissingUpTo(p, seen, Total(p)) == []
             && Assembled(f.upload.parts, GoodParts(p, seen)) == f.size
    ensures Gathered(f, id, seen) == f.(upload := Gone, content := Some(f.size), commits := f.commits[id := Heading])
  {
    hide GoodParts, MissingUpTo, Assembled, EtagsMatch, PlanFor, Total;
  }

  lemma GoodPartsAssemble(f: File, seen: seq<Part>)
    requires Sound(f) && ValidSize(f.size) && f.upload.Open? && Ascending(seen) && Seen(f.uploaded, seen)
    requires var p := PlanFor(f.size);
             EtagsMatch(f.upload.parts, GoodParts(p, seen)) && MissingUpTo(p, seen, Total(p)) == []
    ensures Assembled(f.upload.parts, GoodParts(PlanFor(f.size), seen)) == f.size
  {
    hide Sound, Assembled, GoodParts, MissingUpTo, EtagsMatch;
    var p := PlanFor(f.size);
    AssemblesExactly(p, seen);
    GoodPartsSeen(f.uploaded, p, seen);
    AssembledIsSum(f, GoodParts(p, seen));
  }

  lemma RunOne(f: File, steps: seq<Step>, last: Step)
    requires ValidSize(f.size)
    ensures Run(f, steps + [last]) == Apply(Run(f, steps), last)
  {
    hide Apply;
    assert (steps + [last])[..|steps|] == steps;
  }

  lemma Two(f: File, x: Step, y: Step)
    requires ValidSize(f.size)
    ensures Run(f, [x]) == Apply(f, x) && Run(f, [x, y]) == Apply(Apply(f, x), y)
  {
    hide Run, Apply;
    RunOne(f, [], x);
    assert [] + [x] == [x] && Run(f, []) == f by {
      RunNone(f);
    }
    RunOne(f, [x], y);
    assert [x] + [y] == [x, y];
  }

  lemma RunNone(f: File)
    requires ValidSize(f.size)
    ensures Run(f, []) == f
  {
  }

  lemma Three(f: File, x: Step, y: Step, z: Step)
    requires ValidSize(f.size)
    ensures Run(f, [x, y, z]) == Apply(Apply(Apply(f, x), y), z)
  {
    hide Run, Apply;
    Two(f, x, y);
    RunOne(f, [x, y], z);
    assert [x, y] + [z] == [x, y, z];
  }

  function FinishSteps(id: CommitId): seq<Step> {
    [Head(id), Update(id)]
  }

  lemma FinishCompletes(f: File, id: CommitId)
    requires ValidSize(f.size) && id in f.commits && f.commits[id].Heading? && f.content == Some(f.size)
    ensures var g := Run(f, FinishSteps(id));
            && g.status == COMPLETED && g.content == f.content
            && id in g.commits && g.commits[id] == Finished(Ok(COMPLETED))
  {
    Two(f, Head(id), Update(id));
  }

  /** What parts() reports missing of what is stored now. */
  function Missing(f: File): (numbers: seq<nat>)
    requires ValidSize(f.size) && f.upload.Open?
    ensures InPlan(PlanFor(f.size), numbers)
  {
    var p := PlanFor(f.size);
    var numbers := MissingUpTo(p, StoredParts(f.upload.parts, Total(p)), Total(p));
    assert InPlan(p, numbers) by {
      MissingMeans(p, StoredParts(f.upload.parts, Total(p)), Total(p));
      assert forall i :: 0 <= i < |numbers| ==> numbers[i] in numbers;
    }
    numbers
  }

  /** Upload exactly what is missing, list again, and complete. */
  function ResumeSteps(f: File, id: CommitId): seq<Step>
    requires ValidSize(f.size) && f.upload.Open?
  {
    var p := PlanFor(f.size);
    var uploads := UploadThese(p, Missing(f));
    var g := Run(f, uploads);
    uploads + CommitSteps(id, if g.upload.Open? then StoredParts(g.upload.parts, Total(p)) else [])
  }

  /** After that nothing is missing any more. */
  lemma NothingMissing(f: File, g: File)
    requires ValidSize(f.size) && g.size == f.size && f.upload.Open? && g.upload.Open?
    requires Uploaded(PlanFor(f.size), f.upload.parts, g.upload.parts, Missing(f))
    ensures Missing(g) == []
  {
    var p := PlanFor(f.size);
    var total := Total(p);
    var before, after := StoredParts(f.upload.parts, total), StoredParts(g.upload.parts, total);
    ListingMeans(f.upload.parts, total);
    ListingMeans(g.upload.parts, total);
    MissingMeans(p, before, total);
    forall n | n in MissingUpTo(p, before, total) ensures Has(p, after, n) {
      var part := Part(n, g.upload.parts[n].size, g.upload.parts[n].etag);
      assert part in after && Good(p, part);
    }
    ResumeCompletes(p, before, after);
  }

  /** From any open upload, whatever parts are there, whole, cut off or replaced: uploading exactly
      the missing ones and committing once assembles the object. */
  lemma OpenCompletes(f: File, id: CommitId)
    requires Sound(f) && ValidSize(f.size) && f.upload.Open? && f.status == PENDING && id !in f.commits
    ensures var g := Run(f, ResumeSteps(f, id));
            && g.upload.Gone? && g.content == Some(f.size) && g.status == PENDING
            && g.commits == f.commits[id := Heading]
  {
    hide Sound, GoodParts, MissingUpTo, Seen, EtagsMatch, Assembled, Apply, Uploaded;
    var p, uploads := PlanFor(f.size), UploadThese(PlanFor(f.size), Missing(f));
    UploadTheseGives(f, Missing(f));
    var g := Run(f, uploads);
    NothingMissing(f, g);
    var seen := StoredParts(g.upload.parts, Total(p));
    ListingMeans(g.upload.parts, Total(p));
    ListingIsSeen(g, Total(p));
    GoodPartsMatch(g.upload.parts, p, seen);
    CommitAssembles(g, id, seen);
    RunJoins(f, uploads, CommitSteps(id, seen));
  }

  /** And the file is COMPLETED, with exactly the declared number of bytes. */
  lemma ResumeCompletesFile(f: File, id: CommitId)
    requires Sound(f) && ValidSize(f.size) && f.upload.Open? && f.status == PENDING && id !in f.commits
    ensures var g := Run(f, ResumeSteps(f, id) + FinishSteps(id));
            && g.status == COMPLETED && g.content == Some(f.size)
            && id in g.commits && g.commits[id] == Finished(Ok(COMPLETED))
  {
    OpenCompletes(f, id);
    FinishCompletes(Run(f, ResumeSteps(f, id)), id);
    RunJoins(f, ResumeSteps(f, id), FinishSteps(id));
  }

  /** In every run, whatever mixture of moments a listing shows, its good parts and the missing
      numbers are exactly 1..total between them. */
  lemma EveryListingPartitions(size: nat, steps: seq<Step>, seen: seq<Part>)
    requires ValidSize(size) && Ascending(seen) && Seen(Run(NewFile(size, true), steps).uploaded, seen)
    ensures var p := PlanFor(size);
            var missing := MissingUpTo(p, seen, Total(p));
            && (forall n: nat :: 1 <= n <= Total(p) ==> (Has(p, seen, n) <==> n !in missing))
            && (forall n: nat :: Has(p, seen, n) || n in missing ==> 1 <= n <= Total(p))
  {
    var p, f := PlanFor(size), Run(NewFile(size, true), steps);
    RunKeeps(NewFile(size, true), steps);
    forall part | part in seen ensures !Stray(p, part) {
      var i :| 0 <= i < |seen| && seen[i] == part;
      assert f.uploaded[seen[i].etag] == part;
    }
    GoodAndMissingPartition(p, seen);
  }

  lemma CompletableReaches(f: File) returns (steps: seq<Step>)
    requires Sound(f) && Completable(f)
    ensures Run(f, steps).status == COMPLETED
  {
    if f.status == COMPLETED {
      steps := [];
    } else if f.upload.Open? {
      var id := FreshId(f.commits.Keys);
      ResumeCompletesFile(f, id);
      steps := ResumeSteps(f, id) + FinishSteps(id);
    } else if f.upload.NotMultipart? {
      var id := FreshId(f.commits.Keys);
      var before := [PutObject(f.size), BeginCommit(id)];
      Two(f, PutObject(f.size), BeginCommit(id));
      FinishCompletes(Run(f, before), id);
      RunJoins(f, before, FinishSteps(id));
      steps := before + FinishSteps(id);
    } else {
      var id :| Underway(f, id);
      if f.commits[id].Updating? {
        steps := [Update(id)];
        Two(f, Update(id), Update(id));
      } else if f.commits[id].Heading? {
        steps := FinishSteps(id);
        FinishCompletes(f, id);
      } else {
        Two(f, Complete(id), Complete(id));
        FinishCompletes(Run(f, [Complete(id)]), id);
        RunJoins(f, [Complete(id)], FinishSteps(id));
        steps := [Complete(id)] + FinishSteps(id);
      }
    }
  }

  /** A file can still become COMPLETED exactly when its upload is not gone or some commit got
      past its listing in time. */
  lemma CompletableIff(f: File)
    requires Sound(f)
    ensures Completable(f) <==> exists steps :: Run(f, steps).status == COMPLETED
  {
    if Completable(f) {
      var steps := CompletableReaches(f);
    } else {
      forall steps ensures Run(f, steps).status == PENDING {
        StuckStays(f, steps);
      }
    }
  }

  /** A retried commit does not survive a crash between assembling and the UPDATE: the object is
      there, whole, yet the file can never be completed. */
  lemma CrashStrands(size: nat) returns (steps: seq<Step>)
    requires ValidSize(size)
    ensures var f := Run(NewFile(size, true), steps); f.content == Some(size) && !Completable(f)
  {
    var f := NewFile(size, true);
    OpenCompletes(f, 0);
    var before := ResumeSteps(f, 0);
    steps := before + [Crash(0)];
    RunJoins(f, before, [Crash(0)]);
    Two(Run(f, before), Crash(0), Crash(0));
  }

  /** What each such retry answers. */
  lemma RetryAfterCrash(f: File, id: CommitId, seen: seq<Part>)
    requires ValidSize(f.size) && f.upload.Gone? && f.status == PENDING && id !in f.commits
    ensures Run(f, [BeginCommit(id), ListParts(id, seen)]) == Fail(f, id, NoSuchUpload)
  {
    Two(f, BeginCommit(id), ListParts(id, seen));
  }

  // ---- the service itself ----

  /** What the client is told to upload. */
  datatype PartInfo = PartInfo(number: nat, length: nat)

  datatype PartsError = NotMultipartUpload | AlreadyCompleted | UploadGone

  datatype Resume = Resume(uploaded: map<nat, Part>, missing: seq<PartInfo>)

  function Numbers(infos: seq<PartInfo>): seq<nat> {
    seq(|infos|, i requires 0 <= i < |infos| => infos[i].number)
  }

  /** `good` holds, by number, the good ones among `parts`. */
  ghost predicate GoodMap(p: Plan, parts: seq<Part>, good: map<nat, Part>) {
    forall n :: n in good <==> Has(p, parts, n)
  }

  ghost predicate Holds(p: Plan, parts: seq<Part>, good: map<nat, Part>) {
    forall n :: n in good ==> good[n] in parts && good[n].number == n && Good(p, good[n])
  }

  lemma HasGrows(p: Plan, parts: seq<Part>, k: nat)
    requires k < |parts|
    ensures forall n :: Has(p, parts[..k + 1], n) <==> Has(p, parts[..k], n) || (n == parts[k].number && Good(p, parts[k]))
  {
    forall n ensures Has(p, parts[..k + 1], n) <==> Has(p, parts[..k], n) || (n == parts[k].number && Good(p, parts[k])) {
      if Has(p, parts[..k], n) {
        var i :| 0 <= i < k && parts[..k][i].number == n && Good(p, parts[..k][i]);
        assert parts[..k + 1][i].number == n;
      }
      if n == parts[k].number && Good(p, parts[k]) {
        assert parts[..k + 1][k].number == n;
      }
      if Has(p, parts[..k + 1], n) {
        var i :| 0 <= i < k + 1 && parts[..k + 1][i].number == n && Good(p, parts[..k + 1][i]);
        assert i < k ==> parts[..k][i].number == n;
      }
    }
  }

  /** The first loop of parts(). */
  method FindGood(p: Plan, listed: seq<Part>) returns (good: map<nat, Part>)
    ensures GoodMap(p, listed, good) && Holds(p, listed, good)
  {
    good := map[];
    for k := 0 to |listed|
      invariant GoodMap(p, listed[..k], good) && Holds(p, listed, good)
    {
      HasGrows(p, listed, k);
      if Good(p, listed[k]) {
        good := good[listed[k].number := listed[k]];
      }
    }
    assert listed[..|listed|] == listed;
  }

  /** The second: the parts to upload, each with the length it must have. */
  method FindMissing(p: Plan, listed: seq<Part>, good: map<nat, Part>) returns (missing: seq<PartInfo>)
    requires PlanOk(p) && Total(p) >= 1 && GoodMap(p, listed, good)
    ensures Numbers(missing) == MissingUpTo(p, listed, Total(p))
    ensures forall i :: 0 <= i < |missing| ==> missing[i].length == PartLength(p.size, p.partSize, missing[i].number)
  {
    hide Total, PartLength, Has;
    missing := [];
    for n := 1 to Total(p) + 1
      invariant Numbers(missing) == MissingUpTo(p, listed, n - 1)
      invariant forall i :: 0 <= i < |missing| ==> missing[i].length == PartLength(p.size, p.partSize, missing[i].number)
    {
      if n !in good {
        var info := PartInfo(n, WholePart(p, n));
        assert Numbers(missing + [info]) == Numbers(missing) + [n];
        missing := missing + [info];
      }
    }
  }

  /** The part is no longer the one that was listed. */
  predicate Replaced(parts: map<nat, Stored>, part: Part) {
    part.number !in parts || parts[part.number].etag != part.etag
  }

  lemma EtagsMean(parts: map<nat, Stored>, have: seq<Part>)
    ensures EtagsMatch(parts, have) <==> !exists part :: part in have && Replaced(parts, part)
  {
    if EtagsMatch(parts, have) {
      forall part | part in have ensures !Replaced(parts, part) {
        var i :| 0 <= i < |have| && have[i] == part;
      }
    } else {
      var i :| 0 <= i < |have| && !(have[i].number in parts && parts[have[i].number].etag == have[i].etag);
      assert have[i] in have && Replaced(parts, have[i]);
    }
  }

  /** A file's row together with what storage holds under its key. */
  class FileRecord {
    const size: nat
    var status: Status
    var upload: Upload
    var content: Option<nat>

    constructor (bytes: nat, multipart: bool)
      ensures Shows(NewFile(bytes, multipart))
    {
      size := bytes;
      status, upload, content := PENDING, if multipart then Open(map[]) else NotMultipart, None;
    }

    predicate Shows(f: File)
      reads this
    {
      f.size == size && f.status == status && f.upload == upload && f.content == content
    }

    /** parts(): what is already stored whole and exactly what is still to be uploaded. */
    method Parts(listed: seq<Part>) returns (r: Result<Resume, PartsError>)
      requires ValidSize(size) && Ascending(listed)
      ensures upload.NotMultipart? ==> r == Err(NotMultipartUpload)
      ensures !upload.NotMultipart? && status != PENDING ==> r == Err(AlreadyCompleted)
      ensures upload.Gone? && status == PENDING ==> r == Err(UploadGone)
      ensures upload.Open? && status == PENDING ==> r.Ok?
      ensures r.Ok? ==>
                var p, infos := PlanFor(size), r.value.missing;
                && GoodMap(p, listed, r.value.uploaded) && Holds(p, listed, r.value.uploaded)
                && Numbers(infos) == MissingUpTo(p, listed, Total(p))
                && forall i :: 0 <= i < |infos| ==> infos[i].length == PartLength(p.size, p.partSize, infos[i].number)
    {
      if upload.NotMultipart? {
        return Err(NotMultipartUpload);
      }
      if status != PENDING {
        return Err(AlreadyCompleted);
      }
      if upload.Gone? {
        return Err(UploadGone);
      }
      var p := PlanFor(size);
      PartsCover(p.size, p.partSize);
      var good := FindGood(p, listed);
      var missing := FindMissing(p, listed, good);
      return Ok(Resume(good, missing));
    }

    /** commit(): with no other commit in between, the five steps one after another. */
    method Commit(listed: seq<Part>, ghost f: File, ghost id: CommitId) returns (r: Result<Status, CommitError>)
      requires Shows(f) && ValidSize(size) && id !in f.commits
      requires Ascending(listed) && Seen(f.uploaded, listed)
      modifies this
      ensures var g := Run(f, CommitSteps(id, listed) + FinishSteps(id));
              Shows(g) && id in g.commits && g.commits[id] == Finished(r)
      ensures old(status) == COMPLETED ==> r == Ok(COMPLETED) && upload == old(upload) && content == old(content)
      ensures r.Ok? ==> status == COMPLETED && (old(status) == COMPLETED || content == Some(size))
      ensures r.Err? ==> status == old(status) && status == PENDING
      ensures old(status) == PENDING && old(upload).Gone? ==> r == Err(NoSuchUpload)
      ensures old(status) == PENDING && old(upload).NotMultipart? ==>
                && content == old(content)
                && r == match content
                        case None => Err(ObjectMissing)
                        case Some(bytes) => if bytes == size then Ok(COMPLETED) else Err(SizeMismatch(bytes))
      ensures old(status) == PENDING && old(upload).Open? ==>
                var p := PlanFor(size);
                var missing := MissingUpTo(p, listed, Total(p));
                var replaced := exists part :: part in GoodParts(p, listed) && Replaced(old(upload).parts, part);
                && (r.Err? && r.error.PartsMissing? <==> missing != [])
                && (r.Err? && r.error.PartsMissing? ==> r.error.numbers == missing)
                && (r == Err(InvalidPart) <==> missing == [] && replaced)
                && (missing == [] && !replaced ==>
                      && upload == Gone && content.Some?
                      && r == if content.value == size then Ok(COMPLETED) else Err(SizeMismatch(content.value)))
    {
      EtagsMean(if upload.Open? then upload.parts else map[], GoodParts(PlanFor(size), listed));
      CommitRun(f, id, listed);
      hide PlanFor, Run, MissingUpTo, GoodParts, Apply, EtagsMatch, Assembled, Seen, Ascending;
      if status == COMPLETED {
        return Ok(COMPLETED);
      }
      if !upload.NotMultipart? {
        if upload.Gone? {
          return Err(NoSuchUpload);
        }
        var p := PlanFor(size);
        var have, missing := GoodParts(p, listed), MissingUpTo(p, listed, Total(p));
        if missing != [] {
          return Err(PartsMissing(missing));
        }
        if !EtagsMatch(upload.parts, have) {
          return Err(InvalidPart);
        }
        upload, content := Gone, Some(Assembled(upload.parts, have));
      }
      if content.None? {
        return Err(ObjectMissing);
      }
      if content.value != size {
        return Err(SizeMismatch(content.value));
      }
      status := COMPLETED;
      return Ok(COMPLETED);
    }
  }

  /** Where HeadObject and the UPDATE leave commit `id`. */
  function Checked(f: File, id: CommitId): File {
    if f.content.None? then Fail(f, id, ObjectMissing)
    else if f.content.value != f.size then Fail(f, id, SizeMismatch(f.content.value))
    else Goto(f.(headMatched := true, status := COMPLETED), id, Finished(Ok(COMPLETED)))
  }

  lemma HeadThenUpdate(f: File, id: CommitId)
    requires ValidSize(f.size) && id in f.commits
    ensures f.commits[id].Heading? ==> Apply(Apply(f, Head(id)), Update(id)) == Checked(f, id)
    ensures f.commits[id].Finished? ==> Apply(Apply(f, Head(id)), Update(id)) == f
  {
  }

  /** Where the first three steps leave it: answered, or about to ask for the object's size. */
  function Gathered(f: File, id: CommitId, listed: seq<Part>): (g: File)
    requires ValidSize(f.size)
    ensures g.size == f.size && id in g.commits && (g.commits[id].Heading? || g.commits[id].Finished?)
  {
    var p := PlanFor(f.size);
    var have, missing := GoodParts(p, listed), MissingUpTo(p, listed, Total(p));
    if f.status == COMPLETED then Goto(f, id, Finished(Ok(COMPLETED)))
    else if f.upload.NotMultipart? then Goto(f, id, Heading)
    else if f.upload.Gone? then Fail(f, id, NoSuchUpload)
    else if missing != [] then Fail(f, id, PartsMissing(missing))
    else if !EtagsMatch(f.upload.parts, have) then Fail(f, id, InvalidPart)
    else Goto(f.(upload := Gone, content := Some(Assembled(f.upload.parts, have))), id, Heading)
  }

  lemma GatheredIs(f: File, id: CommitId, listed: seq<Part>)
    requires ValidSize(f.size) && id !in f.commits && Ascending(listed) && Seen(f.uploaded, listed)
    ensures Apply(Apply(Apply(f, BeginCommit(id)), ListParts(id, listed)), Complete(id)) == Gathered(f, id, listed)
  {
    hide GoodParts, MissingUpTo, EtagsMatch, Assembled, Seen, Ascending, PlanFor, Total;
    var a := Apply(f, BeginCommit(id));
    if f.status == COMPLETED || f.upload.NotMultipart? {
      assert Apply(Apply(a, ListParts(id, listed)), Complete(id)) == a;
    } else {
      assert a == Goto(f, id, Listing);
      var b := Apply(a, ListParts(id, listed));
      assert f.commits[id := Listing][id := b.commits[id]] == f.commits[id := b.commits[id]];
      assert b == Goto(f, id, b.commits[id]);
    }
  }

  lemma CommitRun(f: File, id: CommitId, listed: seq<Part>)
    requires ValidSize(f.size) && id !in f.commits && Ascending(listed) && Seen(f.uploaded, listed)
    ensures var g, h := Run(f, CommitSteps(id, listed) + FinishSteps(id)), Gathered(f, id, listed);
            g == if h.commits[id].Heading? then Checked(h, id) else h
  {
    hide Run, Apply, Gathered, Checked, Seen, Ascending;
    RunJoins(f, CommitSteps(id, listed), FinishSteps(id));
    Three(f, BeginCommit(id), ListParts(id, listed), Complete(id));
    GatheredIs(f, id, listed);
    var h := Gathered(f, id, listed);
    Two(h, Head(id), Update(id));
    HeadThenUpdate(h, id);
  }
}
