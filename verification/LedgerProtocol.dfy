/** Any number of release jobs sharing one ledger. Every job advances one remote
    request at a time, so its snapshot, tag listing and release listing may all be
    stale by the time it writes; writes may be refused, lost or left unheard. */
module LedgerProtocol {
  import opened Text
  import opened VersionPlan
  import opened Ledger

  /** What the ledger file went through, oldest first. */
  datatype Commit = Reserved(key: string, record: Reservation) | Consumed(plan: Plan) | Promoted(plan: Plan)

  datatype Job =
    | Reserving(req: Request)
    | Allocating(req: Request, snap: Snapshot)
    | Drafted(req: Request, snap: Snapshot, plan: Plan)
    | Cleared(req: Request, snap: Snapshot, plan: Plan)
    | Placed(req: Request, snap: Snapshot, plan: Plan)
    | Holds(req: Request, plan: Plan)
    | Publishing(pub: Publication)
    | Verifying(pub: Publication, snap: Snapshot)
    | Verified(pub: Publication, snap: Snapshot)
    | Begun(pub: Publication)
    | Stopped

  datatype World = World(
    branch: bool, file: Option<Blob>, known: set<string>, published: set<string>,
    jobs: map<nat, Job>, log: seq<Commit>)

  datatype Step =
    | StartReserve(id: nat, req: Request)
    | StartPublish(id: nat, pub: Publication)
    | Advance(id: nat, delivery: Delivery)
    | Crash(id: nat)
    | Announce(tag: string)   // somebody pushes a tag or drafts a release
    | Release(tag: string)    // a release becomes public

  /** Tags a begun publication may make public: the plan's own, or the base a promotion copies to. */
  ghost predicate Unlocked(log: seq<Commit>, tag: string) {
    exists i | 0 <= i < |log| ::
      || (log[i].Consumed? && log[i].plan.tag == tag)
      || (log[i].Promoted? && "v" + log[i].plan.base == tag)
  }

  function Moved(w: World, id: nat, job: Job): (w': World) {
    w.(jobs := w.jobs[id := job])
  }

  function Write(w: World, id: nat, previous: Option<Blob>, l: Ledger, commit: Commit, done: Job, d: Delivery): (w': World) {
    var lands := w.branch && w.file == previous && d.stored;
    World(w.branch, Store(w.branch, w.file, previous, l, d), w.known, w.published,
          w.jobs[id := if lands && d.acknowledged then done else Stopped],
          if lands then w.log + [commit] else w.log)
  }

  /** A reservation that has read the ledger: refused, already held, or to be allocated. */
  function AfterRead(w: World, req: Request): (job: Job) {
    if req.run <= 0 then Stopped
    else
      var read := Read(w.branch, w.file);
      if read.Failure? then Stopped
      else
        var retry := Retry(read.value.ledger, req);
        if retry.Failure? then Stopped
        else if retry.value.Some? then Holds(req, retry.value.value)
        else Allocating(req, read.value)
  }

  /** The next remote request of one job. */
  ghost function AdvanceJob(w: World, id: nat, d: Delivery): (w': World)
    requires id in w.jobs
    ensures id in w'.jobs
  {
    match w.jobs[id]
    case Reserving(req) => Moved(w, id, AfterRead(w, req))
    case Allocating(req, snap) =>
      var plan := Draft(snap.ledger, w.known, req);
      Moved(w, id, if plan.None? then Stopped else Drafted(req, snap, plan.value))
    case Drafted(req, snap, plan) =>
      Moved(w, id, if plan.tag in w.known then Stopped else Cleared(req, snap, plan))
    case Cleared(req, snap, plan) =>
      if w.branch then Moved(w, id, Placed(req, snap, plan))
      else Moved(w.(branch := d.stored), id, if d.stored && d.acknowledged then Placed(req, snap, plan) else Stopped)
    case Placed(req, snap, plan) =>
      if req.run <= 0 || plan.build.None? then Moved(w, id, Stopped)
      else Write(w, id, snap.previous, WithReservation(snap.ledger, req, plan),
                 Reserved(Decimal(req.run), Reservation(plan, req.parent)), Holds(req, plan), d)
    case Publishing(pub) =>
      if pub.run <= 0 then Moved(w, id, Stopped)
      else
        var read := Read(w.branch, w.file);
        Moved(w, id, if read.Failure? then Stopped else Verifying(pub, read.value))
    case Verifying(pub, snap) =>
      Moved(w, id, if RefusePublication(snap.ledger, w.published, pub).Some? then Stopped else Verified(pub, snap))
    case Verified(pub, snap) =>
      if pub.plan.build.None? then Moved(w, id, Stopped)
      else Write(w, id, snap.previous, WithFloor(snap.ledger, pub.plan),
                 if pub.promotion then Promoted(pub.plan) else Consumed(pub.plan), Begun(pub), d)
    case _ => w
  }

  lemma OthersStay(w: World, id: nat, d: Delivery)
    requires id in w.jobs
    ensures var v := AdvanceJob(w, id, d); v.jobs == w.jobs[id := v.jobs[id]]
  {
    hide Draft, Read, Retry, RefusePublication, WithReservation;
  }

  ghost function Apply(w: World, step: Step): (w': World) {
    match step
    case StartReserve(id, req) => if id in w.jobs then w else Moved(w, id, Reserving(req))
    case StartPublish(id, pub) => if id in w.jobs then w else Moved(w, id, Publishing(pub))
    case Advance(id, d) => if id in w.jobs then AdvanceJob(w, id, d) else w
    case Crash(id) => if id in w.jobs then Moved(w, id, Stopped) else w
    case Announce(tag) => w.(known := w.known + {tag})
    case Release(tag) =>
      if Unlocked(w.log, tag) then w.(known := w.known + {tag}, published := w.published + {tag}) else w
  }

  ghost function Run(w: World, steps: seq<Step>): (w': World)
    decreases |steps|
  {
    if steps == [] then w else Apply(Run(w, steps[..|steps| - 1]), steps[|steps| - 1])
  }

  /** A repository that has never had a ledger; earlier tags and releases are arbitrary. */
  ghost predicate Initial(w: World) {
    w.file == None && w.log == [] && w.jobs == map[] && w.published <= w.known
  }

  /** What any interleaving of any jobs can lead to. */
  ghost predicate Reachable(v: World) {
    exists w: World, steps: seq<Step> :: Initial(w) && v == Run(w, steps)
  }

  // ---------------------------------------------------------------- invariant

  function Prerelease(plan: Plan): (b: bool) {
    plan.channel != "stable"
  }

  ghost predicate DistinctBuilds(plans: map<string, Reservation>) {
    forall j, k | j in plans && k in plans && j != k :: plans[j].plan.build != plans[k].plan.build
  }

  ghost predicate DistinctTags(plans: map<string, Reservation>) {
    forall j, k | j in plans && k in plans && j != k && Prerelease(plans[j].plan) ::
      plans[j].plan.tag != plans[k].plan.tag
  }

  /** A nightly names the run that reserved it. */
  ghost predicate NightliesNameRuns(plans: map<string, Reservation>) {
    forall k | k in plans && plans[k].plan.channel == "nightly" ::
      plans[k].plan.sequence.Stamp? && |Split(plans[k].plan.sequence.text, '.')| == 3
      && Split(plans[k].plan.sequence.text, '.')[1] == k
  }

  ghost predicate Sound(l: Ledger) {
    Accepted(l) && DistinctBuilds(l.plans) && DistinctTags(l.plans) && NightliesNameRuns(l.plans)
  }

  function LastConsumed(log: seq<Commit>): (n: int) {
    if log == [] then 0
    else
      var last := log[|log| - 1];
      if last.Consumed? && last.plan.build.Some? then last.plan.build.value else LastConsumed(log[..|log| - 1])
  }

  ghost predicate Increasing(log: seq<Commit>) {
    forall i, j | 0 <= i < j < |log| && log[i].Consumed? && log[j].Consumed? ::
      log[i].plan.build.Some? && log[j].plan.build.Some? && log[i].plan.build.value < log[j].plan.build.value
  }

  /** Every promotion copies the release candidate whose number was consumed last. */
  ghost predicate PromotionsKeepFloor(log: seq<Commit>) {
    forall i | 0 <= i < |log| && log[i].Promoted? ::
      log[i].plan.build.Some? && log[i].plan.build.value == LastConsumed(log[..i])
  }

  ghost predicate LogOk(l: Ledger, log: seq<Commit>) {
    && l.floor == LastConsumed(log)
    && Increasing(log)
    && PromotionsKeepFloor(log)
    && (forall i | 0 <= i < |log| && log[i].Consumed? ::
          && log[i].plan.build.Some? && log[i].plan.build.value <= l.floor
          && exists k :: k in l.plans && l.plans[k].plan == log[i].plan)
    && (forall i | 0 <= i < |log| && log[i].Promoted? :: IsBase(log[i].plan.base))
    && (forall i | 0 <= i < |log| && log[i].Reserved? ::
          log[i].key in l.plans && l.plans[log[i].key] == log[i].record)
  }

  ghost predicate PublicOk(l: Ledger, published: set<string>, log: seq<Commit>) {
    forall k | k in l.plans && Prerelease(l.plans[k].plan) && l.plans[k].plan.tag in published ::
      Consumed(l.plans[k].plan) in log
  }

  function Current(w: World): (l: Ledger) {
    if w.file.Some? then w.file.value.ledger else EMPTY
  }

  /** A file is at least as long as its reservations' digests. */
  predicate Weighs(blob: Blob) {
    RESERVATION_BYTES * |blob.ledger.plans| <= blob.size
  }

  ghost predicate Core(w: World) {
    && w.published <= w.known
    && (w.file.Some? ==> w.branch && Weighs(w.file.value))
    && (w.file.None? ==> w.log == [])
    && Sound(Current(w))
    && LogOk(Current(w), w.log)
    && PublicOk(Current(w), w.published, w.log)
  }

  ghost predicate SnapshotOk(snap: Snapshot) {
    && Sound(snap.ledger)
    && snap.ledger == (if snap.previous.Some? then snap.previous.value.ledger else EMPTY)
    && (snap.previous.Some? ==> snap.previous.value.size <= MAX_LEDGER_BYTES)
  }

  /** A drafted plan is fresh in the ledger it was drafted from. */
  ghost predicate DraftOk(req: Request, snap: Snapshot, plan: Plan) {
    && SnapshotOk(snap)
    && req.run > 0
    && Decimal(req.run) !in snap.ledger.plans
    && BoundPlan(plan, req.policy, req.sourceSha)
    && plan.base == req.base && plan.channel == req.channel
    && plan.build == Some(NextNumber(snap.ledger, req.policy))
    && Sound(WithReservation(snap.ledger, req, plan))
  }

  ghost predicate VerifiedOk(pub: Publication, snap: Snapshot, published: set<string>) {
    && SnapshotOk(snap)
    && ValidPlan(pub.plan) && pub.plan.build.Some?
    && (exists k :: k in snap.ledger.plans && snap.ledger.plans[k].plan == pub.plan)
    && (if pub.promotion
        then pub.plan.channel == "rc" && pub.plan.build.value >= snap.ledger.floor && pub.plan.tag in published
        else pub.plan.build.value > snap.ledger.floor)
  }

  ghost predicate JobOk(w: World, job: Job) {
    match job
    case Allocating(req, snap) => SnapshotOk(snap) && req.run > 0 && Decimal(req.run) !in snap.ledger.plans
    case Drafted(req, snap, plan) => DraftOk(req, snap, plan)
    case Cleared(req, snap, plan) => DraftOk(req, snap, plan) && (plan.tag in w.published ==> Unlocked(w.log, plan.tag))
    case Placed(req, snap, plan) => DraftOk(req, snap, plan) && (plan.tag in w.published ==> Unlocked(w.log, plan.tag))
    case Holds(req, plan) =>
      && req.run > 0 && Decimal(req.run) in Current(w).plans
      && Current(w).plans[Decimal(req.run)] == Reservation(plan, req.parent)
      && BoundPlan(plan, req.policy, req.sourceSha) && plan.base == req.base && plan.channel == req.channel
    case Verifying(pub, snap) => SnapshotOk(snap)
    case Verified(pub, snap) => VerifiedOk(pub, snap, w.published)
    case _ => true
  }

  ghost predicate Inv(w: World) {
    Core(w) && forall id | id in w.jobs :: JobOk(w, w.jobs[id])
  }

  /** Nothing committed is ever taken back, and only begun publications become public. */
  ghost predicate Later(w: World, v: World) {
    && (w.branch ==> v.branch)
    && (w.file.Some? ==> v.file.Some?)
    && Current(w).counter <= Current(v).counter
    && Current(w).floor <= Current(v).floor
    && (forall k | k in Current(w).plans :: k in Current(v).plans && Current(v).plans[k] == Current(w).plans[k])
    && w.log <= v.log
    && w.published <= v.published
    && (forall tag | tag in v.published && tag !in w.published :: Unlocked(v.log, tag))
  }

  lemma UnlockedGrows(log: seq<Commit>, longer: seq<Commit>, tag: string)
    requires log <= longer && Unlocked(log, tag)
    ensures Unlocked(longer, tag)
  {
    var i :| 0 <= i < |log| && (|| (log[i].Consumed? && log[i].plan.tag == tag)
                                || (log[i].Promoted? && "v" + log[i].plan.base == tag));
    assert longer[i] == log[i];
  }

  lemma JobStable(w: World, v: World, job: Job)
    requires Later(w, v) && JobOk(w, job)
    ensures JobOk(v, job)
  {
    if (job.Cleared? || job.Placed?) && job.plan.tag in w.published {
      UnlockedGrows(w.log, v.log, job.plan.tag);
    }
  }

  lemma LaterTransitive(a: World, b: World, c: World)
    requires Later(a, b) && Later(b, c)
    ensures Later(a, c)
  {
    forall tag | tag in c.published && tag !in a.published ensures Unlocked(c.log, tag) {
      if tag in b.published {
        UnlockedGrows(b.log, c.log, tag);
      }
    }
  }

  lemma TagsDiffer(l: Ledger, known: set<string>, req: Request, plan: Plan, k: string)
    requires NightliesNameRuns(l.plans) && req.run > 0 && Decimal(req.run) !in l.plans
    requires Draft(l, known, req) == Some(plan) && ValidPlan(plan)
    requires k in l.plans && ValidPlan(l.plans[k].plan)
    requires Prerelease(plan) || Prerelease(l.plans[k].plan)
    ensures l.plans[k].plan.tag != plan.tag
  {
    var other := l.plans[k].plan;
    if (req.channel == "beta" || req.channel == "rc") && SameLine(other, req.base, req.channel) {
      SequenceAbove(l, known, req, k);
    }
    if plan.channel == "nightly" {
      NightlySequence(req, plan);
    }
    if other.tag == plan.tag {
      TagNamesIdentity(other, plan);
    }
  }

  /** A new beta or RC number exceeds every reserved one of its line. */
  lemma SequenceAbove(l: Ledger, known: set<string>, req: Request, k: string)
    requires req.channel == "beta" || req.channel == "rc"
    requires k in l.plans && SameLine(l.plans[k].plan, req.base, req.channel)
    ensures ChooseSequence(l, known, req).Number? && ChooseSequence(l, known, req).n > l.plans[k].plan.sequence.n
  {
    assert l.plans[k].plan.sequence.n as nat in ReservedNumbers(l.plans, req.base, req.channel);
  }

  lemma ListedIsUsed(known: set<string>, base: string, channel: string, n: nat)
    requires n > 0 && "v" + base + "-" + channel + "." + Decimal(n) in known
    ensures n in UsedNumbers(known, base, channel)
  {
    var prefix := "v" + base + "-" + channel + ".";
    assert (prefix + Decimal(n))[|prefix|..] == Decimal(n);
  }

  /** A drafted beta or RC also avoids every tag and release the listing showed. */
  lemma DraftTagIsUnused(l: Ledger, known: set<string>, req: Request, plan: Plan)
    requires Draft(l, known, req) == Some(plan) && (req.channel == "beta" || req.channel == "rc")
    ensures plan.tag !in known
  {
    var prefix := "v" + plan.base + "-" + plan.channel + ".";
    var n: nat := plan.sequence.n;
    assert plan.tag == prefix + Decimal(n);
    if plan.tag in known {
      ListedIsUsed(known, plan.base, plan.channel, n);
    }
  }

  /** A drafted plan passes the reader's checks in the ledger it joins, under a number of its own. */
  lemma DraftIsAccepted(l: Ledger, known: set<string>, req: Request, plan: Plan)
    requires Accepted(l) && req.run > 0 && Decimal(req.run) !in l.plans
    requires Draft(l, known, req) == Some(plan)
    ensures var l' := WithReservation(l, req, plan);
      Accepted(l') && l'.plans == l.plans[Decimal(req.run) := Reservation(plan, req.parent)]
    ensures plan.build.Some? && forall k | k in l.plans :: l.plans[k].plan.build.Some? && l.plans[k].plan.build.value < plan.build.value
    ensures ValidPlan(plan) && forall k | k in l.plans :: ValidPlan(l.plans[k].plan)
    ensures plan.channel == req.channel && plan.sequence == ChooseSequence(l, known, req)
  {
    hide ChooseSequence, ValidPlan;
    assert BoundPlan(plan, req.policy, req.sourceSha);
    BoundIsValid(plan, req.policy, req.sourceSha);
  }

  lemma BoundIsValid(plan: Plan, policy: Policy, sourceSha: string)
    requires BoundPlan(plan, policy, sourceSha)
    ensures ValidPlan(plan)
  {
  }

  /** A drafted plan can join the ledger it was drafted from. */
  lemma DraftIsFresh(l: Ledger, known: set<string>, req: Request, plan: Plan)
    requires Sound(l) && req.run > 0 && Decimal(req.run) !in l.plans
    requires Draft(l, known, req) == Some(plan)
    ensures Sound(WithReservation(l, req, plan))
  {
    var l' := WithReservation(l, req, plan);
    DraftIsAccepted(l, known, req, plan);
    hide Accepted, Draft, BoundPlan, ChooseSequence, WithReservation;
    forall k | k in l.plans && (Prerelease(plan) || Prerelease(l.plans[k].plan))
      ensures l.plans[k].plan.tag != plan.tag
    {
      TagsDiffer(l, known, req, plan, k);
    }
    assert DistinctTags(l'.plans);
    if plan.channel == "nightly" {
      NightlySequence(req, plan);
    }
    assert NightliesNameRuns(l'.plans);
  }

  lemma NightlySequence(req: Request, plan: Plan)
    requires plan.channel == req.channel == "nightly" && ValidPlan(plan) && req.run > 0
    requires plan.sequence == Stamp(req.now + "." + Decimal(req.run) + "." + Decimal(req.attempt))
    ensures |Split(plan.sequence.text, '.')| == 3
    ensures Split(plan.sequence.text, '.')[1] == Decimal(req.run)
  {
    // The accepted stamp has exactly two dots, so its first field is the whole timestamp.
    var tail := Decimal(req.run) + "." + Decimal(req.attempt);
    assert plan.sequence.text == req.now + ['.'] + tail;
    SplitCount(req.now, tail);
    SplitField(Decimal(req.run), Decimal(req.attempt), '.');
    SplitWhole(Decimal(req.attempt), '.');
    if '.' !in req.now {
      SplitField(req.now, tail, '.');
    }
  }

  /** What a nightly of this run, attempt and number can show in one declaration. */
  predicate NightlyShows(item: Declaration, run: nat, attempt: nat, number: int) {
    && item.ecosystem in {"semver", "pep440"}
    && item.value in {"base", "full", "package", "build", "apple-build"}
    && (item.ecosystem == "pep440" ==> attempt < ATTEMPTS && NightlyNumber(run, attempt) <= MAX_PEP440)
    && (item.value == "apple-build" ==> number <= MAX_APPLE_BUILD)
  }

  lemma NightlyProjects(plan: Plan, item: Declaration, now: string, run: nat, attempt: nat)
    requires ValidPlan(plan) && plan.channel == "nightly" && plan.build.Some?
    requires plan.sequence == Stamp(now + "." + Decimal(run) + "." + Decimal(attempt))
    requires Split(plan.sequence.text, '.') == [now, Decimal(run), Decimal(attempt)]
    ensures ProjectedValue(plan, item).Some? <==> NightlyShows(item, run, attempt, plan.build.value)
  {
    hide Identity, AppleText, IsHex, Split;
  }

  /** A well-formed nightly request is always drafted, as long as a number is left and every
      declaration can show it. */
  lemma NightlyDrafts(l: Ledger, known: set<string>, req: Request)
    requires Accepted(l) && req.channel == "nightly" && req.run > 0 && req.attempt > 0
    requires IsBase(req.base) && |req.now| == 14 && AllDigits(req.now)
    requires IsHex(req.sourceSha, 40) && ValidPolicy(req.policy)
    ensures var number := NextNumber(l, req.policy);
      Draft(l, known, req).Some? <==>
        number <= MAX_BUILD && forall item | item in req.policy.files :: NightlyShows(item, req.run, req.attempt, number)
  {
    var number := NextNumber(l, req.policy);
    var stamp := ChooseSequence(l, known, req);
    NightlyStamp(req.now, req.run, req.attempt);
    hide IsNightly, IsBase, IsHex, Accepted, Split;
    if number <= MAX_BUILD {
      var version := Identity(req.base, req.channel, stamp).value;
      var plan := Plan(req.base, version, req.channel, stamp, "v" + version, req.sourceSha, Some(number),
                       req.policy.sha256, req.policy.promotion);
      assert ValidPlan(plan);
      forall item | item in req.policy.files
        ensures ProjectedValue(plan, item).Some? <==> NightlyShows(item, req.run, req.attempt, number)
      {
        NightlyProjects(plan, item, req.now, req.run, req.attempt);
      }
      hide ValidPlan, ProjectedValue, NightlyShows;
    }
  }

  /** Joining with a separator adds up the fields. */
  lemma {:induction false} SplitCount(a: string, b: string)
    ensures |Split(a + ['.'] + b, '.')| == |Split(a, '.')| + |Split(b, '.')|
    ensures '.' in a ==> |Split(a, '.')| >= 2
  {
    if a == "" {
      assert ("" + ['.'] + b)[1..] == b;
    } else {
      SplitCount(a[1..], b);
      assert (a + ['.'] + b)[1..] == a[1..] + ['.'] + b;
      assert a == [a[0]] + a[1..];
    }
  }

  lemma AppendLog(log: seq<Commit>, commit: Commit)
    ensures LastConsumed(log + [commit]) ==
            if commit.Consumed? && commit.plan.build.Some? then commit.plan.build.value else LastConsumed(log)
    ensures log <= log + [commit]
    ensures forall i | 0 <= i <= |log| :: (log + [commit])[..i] == log[..i]
  {
    assert (log + [commit])[..|log|] == log;
  }

  /** A landed reservation keeps the log in step with the ledger. */
  lemma ReservationLands(l: Ledger, log: seq<Commit>, req: Request, plan: Plan)
    requires LogOk(l, log)
    requires req.run > 0 && Decimal(req.run) !in l.plans && plan.build.Some?
    ensures LogOk(WithReservation(l, req, plan), log + [Reserved(Decimal(req.run), Reservation(plan, req.parent))])
  {
    var l' := WithReservation(l, req, plan);
    var commit := Reserved(Decimal(req.run), Reservation(plan, req.parent));
    var log' := log + [commit];
    AppendLog(log, commit);
    forall i | 0 <= i < |log'| && log'[i].Consumed?
      ensures exists k :: k in l'.plans && l'.plans[k].plan == log'[i].plan
    {
      var k :| k in l.plans && l.plans[k].plan == log[i].plan;
      assert l'.plans[k].plan == log'[i].plan;
    }
  }

  /** ... and its tag is not public unless it was consumed. */
  lemma ReservationStaysPrivate(l: Ledger, log: seq<Commit>, published: set<string>, req: Request, plan: Plan)
    requires LogOk(l, log) && PublicOk(l, published, log)
    requires req.run > 0 && Decimal(req.run) !in l.plans && plan.build.Some? && ValidPlan(plan)
    requires DistinctTags(WithReservation(l, req, plan).plans)
    requires plan.tag in published ==> Unlocked(log, plan.tag)
    ensures PublicOk(WithReservation(l, req, plan), published,
                     log + [Reserved(Decimal(req.run), Reservation(plan, req.parent))])
  {
    var l' := WithReservation(l, req, plan);
    assert l'.plans[Decimal(req.run)].plan == plan;
    assert forall k | k in l.plans :: l'.plans[k] == l.plans[k] && k != Decimal(req.run);
    if Prerelease(plan) && plan.tag in published {
      UnlockedNamesPlan(l, log, plan);
    }
  }

  lemma StableTagDiffers(base: string, plan: Plan)
    requires IsBase(base) && ValidPlan(plan) && Prerelease(plan)
    ensures "v" + base != plan.tag
  {
    BaseHasNoDash(base);
    IdentityShape(plan.base, plan.channel, plan.sequence);
    assert ("v" + plan.version)[1 + |plan.base|] == '-';
    assert forall c | c in "v" + base :: c == 'v' || c in base;
  }

  /** A pre-release tag is unlocked only by the consumption of a committed plan with that tag. */
  lemma UnlockedNamesPlan(l: Ledger, log: seq<Commit>, plan: Plan)
    requires LogOk(l, log) && ValidPlan(plan) && Prerelease(plan) && Unlocked(log, plan.tag)
    ensures exists k :: k in l.plans && l.plans[k].plan.tag == plan.tag && Consumed(l.plans[k].plan) in log
  {
    var i :| 0 <= i < |log| && (|| (log[i].Consumed? && log[i].plan.tag == plan.tag)
                                || (log[i].Promoted? && "v" + log[i].plan.base == plan.tag));
    if log[i].Promoted? {
      StableTagDiffers(log[i].plan.base, plan);
    }
    var k :| k in l.plans && l.plans[k].plan == log[i].plan;
    assert Consumed(l.plans[k].plan) == log[i];
  }

  /** A published pre-release of the ledger has been consumed, so the floor has reached it. */
  lemma PublishedWasConsumed(l: Ledger, log: seq<Commit>, published: set<string>, k: string)
    requires LogOk(l, log) && PublicOk(l, published, log)
    requires k in l.plans && Prerelease(l.plans[k].plan) && l.plans[k].plan.tag in published
    ensures l.plans[k].plan.build.Some? && l.plans[k].plan.build.value <= l.floor
  {
    var i :| 0 <= i < |log| && log[i] == Consumed(l.plans[k].plan);
  }

  lemma ConsumptionLands(l: Ledger, log: seq<Commit>, published: set<string>, plan: Plan)
    requires LogOk(l, log) && PublicOk(l, published, log)
    requires plan.build.Some? && plan.build.value > l.floor
    requires exists k :: k in l.plans && l.plans[k].plan == plan
    ensures LogOk(WithFloor(l, plan), log + [Consumed(plan)])
    ensures PublicOk(WithFloor(l, plan), published, log + [Consumed(plan)])
  {
    AppendLog(log, Consumed(plan));
    hide LastConsumed;
    ConsumedInOrder(l, log, plan);
    PromotionsStay(log, Consumed(plan));
    hide Increasing, PromotionsKeepFloor;
  }

  lemma ConsumedInOrder(l: Ledger, log: seq<Commit>, plan: Plan)
    requires LogOk(l, log) && plan.build.Some? && plan.build.value > l.floor
    ensures Increasing(log + [Consumed(plan)])
  {
    hide LastConsumed, PromotionsKeepFloor;
    var longer := log + [Consumed(plan)];
    assert forall i | 0 <= i < |log| :: longer[i] == log[i];
  }

  lemma PromotionsStay(log: seq<Commit>, commit: Commit)
    requires PromotionsKeepFloor(log) && !commit.Promoted?
    ensures PromotionsKeepFloor(log + [commit])
  {
    hide LastConsumed;
    var longer := log + [commit];
    forall i | 0 <= i < |longer| && longer[i].Promoted?
      ensures longer[i].plan.build.Some? && longer[i].plan.build.value == LastConsumed(longer[..i])
    {
      assert longer[..i] == log[..i] && longer[i] == log[i];
    }
  }

  /** A promotion verified on the current ledger finds its number on the floor. */
  lemma PromotionAtFloor(l: Ledger, log: seq<Commit>, published: set<string>, plan: Plan)
    requires LogOk(l, log) && PublicOk(l, published, log)
    requires plan.channel == "rc" && plan.build.Some?
    requires plan.build.value >= l.floor && plan.tag in published
    requires exists k :: k in l.plans && l.plans[k].plan == plan
    ensures plan.build.value == l.floor && WithFloor(l, plan) == l
  {
    var k :| k in l.plans && l.plans[k].plan == plan;
    PublishedWasConsumed(l, log, published, k);
  }

  lemma PromotionLands(l: Ledger, log: seq<Commit>, plan: Plan)
    requires LogOk(l, log)
    requires IsBase(plan.base) && plan.build.Some? && plan.build.value == l.floor
    ensures LogOk(l, log + [Promoted(plan)])
  {
    AppendLog(log, Promoted(plan));
  }

  // ---------------------------------------------------------------- every step

  lemma ReadKeeps(w: World, read: Snapshot)
    requires Core(w) && Read(w.branch, w.file) == Success(read)
    ensures SnapshotOk(read) && read.ledger == Current(w)
  {
  }

  lemma EmptyIsSound()
    ensures Sound(EMPTY) && LogOk(EMPTY, [])
  {
  }

  /** A reservation write: refused unless the file is still the snapshot's. */
  lemma ReserveWriteKeeps(w: World, id: nat, d: Delivery)
    requires Inv(w) && id in w.jobs && w.jobs[id].Placed?
    ensures var v := AdvanceJob(w, id, d); Core(v) && Later(w, v) && JobOk(v, v.jobs[id])
  {
    var Placed(req, snap, plan) := w.jobs[id];
    hide Core, Later, LogOk, PublicOk, Sound, Inv, JobOk, BoundPlan, ValidPlan, WithReservation, Unlocked, AdvanceJob, Encoded;
    PlacedKnows(w, id);
    PlacedWrites(w, id, d);
    var v := AdvanceJob(w, id, d);
    if w.branch && w.file == snap.previous && d.stored {
      ReservationIsCore(w, v, snap.ledger, req, plan, d);
      HeldPlan(v, req, plan);
    } else {
      MovedKeeps(w, id, Stopped);
      assert v == Moved(w, id, Stopped);
      StoppedIsOk(v);
    }
  }

  lemma PlacedWrites(w: World, id: nat, d: Delivery)
    requires id in w.jobs && w.jobs[id].Placed? && w.jobs[id].req.run > 0 && w.jobs[id].plan.build.Some?
    ensures var Placed(req, snap, plan) := w.jobs[id];
      AdvanceJob(w, id, d) == Write(w, id, snap.previous, WithReservation(snap.ledger, req, plan),
                                    Reserved(Decimal(req.run), Reservation(plan, req.parent)), Holds(req, plan), d)
  {
    hide WithReservation, Write;
  }

  lemma StoppedIsOk(w: World)
    ensures JobOk(w, Stopped)
  {
  }

  lemma ReservationIsCore(w: World, v: World, l: Ledger, req: Request, plan: Plan, d: Delivery)
    requires Core(w) && l == Current(w) && req.run > 0 && Decimal(req.run) !in l.plans
    requires plan.build == Some(NextNumber(l, req.policy)) && ValidPlan(plan)
    requires Sound(WithReservation(l, req, plan)) && (plan.tag in w.published ==> Unlocked(w.log, plan.tag))
    requires v.branch && v.file == Some(Encoded(WithReservation(l, req, plan), d.rest))
    requires v.known == w.known && v.published == w.published
    requires v.log == w.log + [Reserved(Decimal(req.run), Reservation(plan, req.parent))]
    ensures Core(v) && Later(w, v)
    ensures Decimal(req.run) in Current(v).plans && Current(v).plans[Decimal(req.run)] == Reservation(plan, req.parent)
  {
    hide LogOk, PublicOk, Accepted, DistinctBuilds, NightliesNameRuns, DistinctTags, ValidPlan, Unlocked;
    ReservationLands(l, w.log, req, plan);
    ReservationStaysPrivate(l, w.log, w.published, req, plan);
    hide Sound;
  }

  /** What the invariant says of a job about to write its reservation. */
  lemma PlacedKnows(w: World, id: nat)
    requires Inv(w) && id in w.jobs && w.jobs[id].Placed?
    ensures var Placed(req, snap, plan) := w.jobs[id];
      && Core(w) && req.run > 0 && Decimal(req.run) !in snap.ledger.plans
      && snap.ledger == (if snap.previous.Some? then snap.previous.value.ledger else EMPTY)
      && plan.build == Some(NextNumber(snap.ledger, req.policy)) && ValidPlan(plan)
      && BoundPlan(plan, req.policy, req.sourceSha) && plan.base == req.base && plan.channel == req.channel
      && Sound(WithReservation(snap.ledger, req, plan)) && DistinctTags(WithReservation(snap.ledger, req, plan).plans)
      && (plan.tag in w.published ==> Unlocked(w.log, plan.tag))
  {
    hide Core, ValidPlan, Accepted, DistinctTags, DistinctBuilds, NightliesNameRuns, WithReservation;
    assert JobOk(w, w.jobs[id]);
    BoundIsValid(w.jobs[id].plan, w.jobs[id].req.policy, w.jobs[id].req.sourceSha);
  }

  lemma HeldPlan(v: World, req: Request, plan: Plan)
    requires BoundPlan(plan, req.policy, req.sourceSha) && plan.base == req.base && plan.channel == req.channel && req.run > 0
    requires Decimal(req.run) in Current(v).plans && Current(v).plans[Decimal(req.run)] == Reservation(plan, req.parent)
    ensures JobOk(v, Stopped) && JobOk(v, Holds(req, plan))
  {
    hide BoundPlan;
  }

  lemma PublishWriteKeeps(w: World, id: nat, d: Delivery)
    requires Inv(w) && id in w.jobs && w.jobs[id].Verified?
    ensures var v := AdvanceJob(w, id, d); Core(v) && Later(w, v) && JobOk(v, v.jobs[id])
  {
    if w.jobs[id].pub.promotion {
      PromoteWriteKeeps(w, id, d);
    } else {
      ConsumeWriteKeeps(w, id, d);
    }
  }

  lemma PromoteWriteKeeps(w: World, id: nat, d: Delivery)
    requires Inv(w) && id in w.jobs && w.jobs[id].Verified? && w.jobs[id].pub.promotion
    ensures var v := AdvanceJob(w, id, d); Core(v) && Later(w, v) && JobOk(v, v.jobs[id])
  {
    var Verified(pub, snap) := w.jobs[id];
    assert JobOk(w, w.jobs[id]);
    var v := AdvanceJob(w, id, d);
    if w.branch && w.file == snap.previous && d.stored {
      assert snap.ledger == Current(w);
      PromotionAtFloor(snap.ledger, w.log, w.published, pub.plan);
      PromotionLands(snap.ledger, w.log, pub.plan);
      assert Current(v) == Current(w);
    }
  }

  lemma FloorIsSound(l: Ledger, plan: Plan)
    requires Sound(l) && plan.build.Some? && plan.build.value > l.floor
    requires exists k :: k in l.plans && l.plans[k].plan == plan
    ensures Sound(WithFloor(l, plan))
  {
  }

  lemma ConsumeWriteKeeps(w: World, id: nat, d: Delivery)
    requires Inv(w) && id in w.jobs && w.jobs[id].Verified? && !w.jobs[id].pub.promotion
    ensures var v := AdvanceJob(w, id, d); Core(v) && Later(w, v) && JobOk(v, v.jobs[id])
  {
    hide Sound, LogOk, PublicOk, ValidPlan;
    var Verified(pub, snap) := w.jobs[id];
    assert JobOk(w, w.jobs[id]);
    var v := AdvanceJob(w, id, d);
    if w.branch && w.file == snap.previous && d.stored {
      assert snap.ledger == Current(w);
      FloorIsSound(snap.ledger, pub.plan);
      ConsumptionLands(snap.ledger, w.log, w.published, pub.plan);
      assert Current(v) == WithFloor(snap.ledger, pub.plan);
    }
  }

  lemma VerifyKeeps(snap: Snapshot, published: set<string>, pub: Publication)
    requires SnapshotOk(snap) && RefusePublication(snap.ledger, published, pub).None?
    ensures VerifiedOk(pub, snap, published)
  {
    if pub.promotion {
      var matching := set key | key in snap.ledger.plans && snap.ledger.plans[key].plan == pub.plan;
      assert matching != {};
      var k :| k in matching;
    }
  }

  lemma MovedKeeps(w: World, id: nat, job: Job)
    requires Core(w)
    ensures Core(Moved(w, id, job)) && Later(w, Moved(w, id, job))
  {
  }

  lemma BranchKeeps(w: World, branch: bool)
    requires Core(w) && (w.branch ==> branch)
    ensures Core(w.(branch := branch)) && Later(w, w.(branch := branch))
  {
  }

  lemma ReservingKeeps(w: World, req: Request)
    requires Core(w) && req.run > 0 && Read(w.branch, w.file).Success?
    ensures var read := Read(w.branch, w.file).value;
            var retry := Retry(read.ledger, req);
            retry.Success? ==> JobOk(w, if retry.value.Some? then Holds(req, retry.value.value) else Allocating(req, read))
  {
    hide Core, SnapshotOk, BoundPlan, Read;
    ReadKeeps(w, Read(w.branch, w.file).value);
  }

  /** Every step but a write only moves its job to the next request. */
  lemma AdvanceKeeps(w: World, id: nat, d: Delivery)
    requires Inv(w) && id in w.jobs
    ensures var v := AdvanceJob(w, id, d); Core(v) && Later(w, v) && JobOk(v, v.jobs[id])
  {
    hide Core, Later, Sound, DraftOk, VerifiedOk, Retry, Draft, RefusePublication;
    var job := w.jobs[id];
    assert JobOk(w, job);
    if job.Placed? {
      ReserveWriteKeeps(w, id, d);
    } else if job.Verified? {
      PublishWriteKeeps(w, id, d);
    } else if job.Cleared? {
      BranchKeeps(w, w.branch || d.stored);
      var v := AdvanceJob(w, id, d);
      MovedKeeps(w.(branch := w.branch || d.stored), id, v.jobs[id]);
      LaterTransitive(w, w.(branch := w.branch || d.stored), v);
    } else {
      QuietKeeps(w, id, d);
    }
  }

  lemma AllocatingKeeps(known: set<string>, req: Request, snap: Snapshot, plan: Plan)
    requires SnapshotOk(snap) && req.run > 0 && Decimal(req.run) !in snap.ledger.plans
    requires Draft(snap.ledger, known, req) == Some(plan)
    ensures DraftOk(req, snap, plan)
  {
    DraftIsFresh(snap.ledger, known, req, plan);
  }

  /** The job a quiet request leads to is as sound as the one it came from. */
  lemma QuietJob(w: World, id: nat, d: Delivery)
    requires Core(w) && id in w.jobs && JobOk(w, w.jobs[id])
    requires !w.jobs[id].Placed? && !w.jobs[id].Verified? && !w.jobs[id].Cleared?
    ensures JobOk(w, AdvanceJob(w, id, d).jobs[id])
  {
    hide Core, Sound, DraftOk, VerifiedOk, Retry, CreatePlan, RefusePublication, WithReservation, Unlocked, Draft, BoundPlan;
    match w.jobs[id]
    case Reserving(req) =>
      if req.run > 0 && Read(w.branch, w.file).Success? {
        ReservingKeeps(w, req);
      }
    case Allocating(req, snap) =>
      if Draft(snap.ledger, w.known, req).Some? {
        AllocatingKeeps(w.known, req, snap, Draft(snap.ledger, w.known, req).value);
      }
    case Publishing(pub) =>
      if Read(w.branch, w.file).Success? {
        ReadKeeps(w, Read(w.branch, w.file).value);
      }
    case Verifying(pub, snap) =>
      if RefusePublication(snap.ledger, w.published, pub).None? {
        VerifyKeeps(snap, w.published, pub);
      }
    case Drafted(req, snap, plan) =>
      assert Core(w);
      PublishedIsKnown(w);
    case _ =>
  }

  lemma PublishedIsKnown(w: World)
    requires Core(w)
    ensures w.published <= w.known
  {
  }

  lemma QuietKeeps(w: World, id: nat, d: Delivery)
    requires Inv(w) && id in w.jobs
    requires !w.jobs[id].Placed? && !w.jobs[id].Verified? && !w.jobs[id].Cleared?
    ensures var v := AdvanceJob(w, id, d); Core(v) && Later(w, v) && JobOk(v, v.jobs[id])
  {
    hide Core, Later, Sound, JobOk, Retry, Draft, RefusePublication, WithReservation;
    assert JobOk(w, w.jobs[id]);
    var v := AdvanceJob(w, id, d);
    QuietJob(w, id, d);
    MovedKeeps(w, id, v.jobs[id]);
    assert v == Moved(w, id, v.jobs[id]);
    JobStable(w, v, v.jobs[id]);
  }

  lemma UnlockedWasConsumed(l: Ledger, log: seq<Commit>, k: string)
    requires Sound(l) && LogOk(l, log) && k in l.plans && Prerelease(l.plans[k].plan)
    requires Unlocked(log, l.plans[k].plan.tag)
    ensures Consumed(l.plans[k].plan) in log
  {
    hide LogOk, Unlocked, ValidPlan, DistinctBuilds, NightliesNameRuns;
    UnlockedNamesPlan(l, log, l.plans[k].plan);
  }

  lemma ReleaseKeeps(w: World, tag: string)
    requires Core(w) && Unlocked(w.log, tag)
    ensures var v := w.(known := w.known + {tag}, published := w.published + {tag}); Core(v) && Later(w, v)
  {
    hide Sound, LogOk, Unlocked;
    var v := w.(known := w.known + {tag}, published := w.published + {tag});
    forall k | k in Current(w).plans && Prerelease(Current(w).plans[k].plan) && Current(w).plans[k].plan.tag == tag
      ensures Consumed(Current(w).plans[k].plan) in w.log
    {
      UnlockedWasConsumed(Current(w), w.log, k);
    }
    assert PublicOk(Current(v), v.published, v.log);
  }

  lemma CoreKeeps(w: World, step: Step)
    requires Inv(w)
    ensures Core(Apply(w, step)) && Later(w, Apply(w, step))
    ensures forall id | id in Apply(w, step).jobs && (id !in w.jobs || Apply(w, step).jobs[id] != w.jobs[id]) ::
              JobOk(Apply(w, step), Apply(w, step).jobs[id])
  {
    hide AdvanceJob, Sound, LogOk, Unlocked;
    match step
    case StartReserve(id, req) => MovedKeeps(w, id, Reserving(req));
    case StartPublish(id, pub) => MovedKeeps(w, id, Publishing(pub));
    case Crash(id) => MovedKeeps(w, id, Stopped);
    case Advance(id, d) =>
      if id in w.jobs {
        AdvanceKeeps(w, id, d);
        OthersStay(w, id, d);
      }
    case Release(tag) =>
      if Unlocked(w.log, tag) {
        ReleaseKeeps(w, tag);
      }
    case Announce(tag) =>
  }

  lemma StepKeeps(w: World, step: Step)
    requires Inv(w)
    ensures Inv(Apply(w, step)) && Later(w, Apply(w, step))
  {
    var v := Apply(w, step);
    CoreKeeps(w, step);
    forall id | id in v.jobs
      ensures JobOk(v, v.jobs[id])
    {
      if id in w.jobs && v.jobs[id] == w.jobs[id] {
        JobStable(w, v, w.jobs[id]);
      }
    }
  }

  // ---------------------------------------------------------------- whole runs

  lemma {:induction false} RunKeeps(w: World, steps: seq<Step>)
    requires Initial(w)
    ensures Inv(Run(w, steps))
    decreases |steps|
  {
    if steps == [] {
      EmptyIsSound();
    } else {
      RunKeeps(w, steps[..|steps| - 1]);
      StepKeeps(Run(w, steps[..|steps| - 1]), steps[|steps| - 1]);
    }
  }

  lemma {:induction false} RunLater(w: World, more: seq<Step>)
    requires Inv(w)
    ensures Inv(Run(w, more)) && Later(w, Run(w, more))
    decreases |more|
  {
    if more != [] {
      var v := Run(w, more[..|more| - 1]);
      RunLater(w, more[..|more| - 1]);
      StepKeeps(v, more[|more| - 1]);
      LaterTransitive(w, v, Run(w, more));
    }
  }

  lemma ReachableKeeps(v: World)
    requires Reachable(v)
    ensures Inv(v)
  {
    hide Inv;
    var w: World, steps: seq<Step> :| Initial(w) && v == Run(w, steps);
    RunKeeps(w, steps);
  }

  /** Every committed ledger passes `read_state`'s own checks; a reader is turned away
      exactly by a branch without its file or by a file over the byte limit. */
  lemma CommittedLedgersPassTheirChecks(v: World)
    requires Reachable(v)
    ensures Accepted(Current(v))
    ensures Read(v.branch, v.file).Failure? <==>
              (v.file.None? && v.branch) || (v.file.Some? && v.file.value.size > MAX_LEDGER_BYTES)
  {
    ReachableKeeps(v);
  }

  /** Counter and floor never fall, and a committed reservation is never changed or lost. */
  lemma NothingIsTakenBack(v: World, more: seq<Step>)
    requires Reachable(v)
    ensures var a, b := Current(v), Current(Run(v, more));
            && a.counter <= b.counter && a.floor <= b.floor
            && forall k | k in a.plans :: k in b.plans && b.plans[k] == a.plans[k]
  {
    ReachableKeeps(v);
    RunLater(v, more);
  }

  /** Committed numbers are pairwise distinct, and whatever was reported as reserved is committed:
      one run always hears the same plan, two runs never share a build number. */
  lemma BuildNumbersAreUnique(v: World, i: nat, j: nat)
    requires Reachable(v)
    requires i in v.jobs && j in v.jobs && v.jobs[i].Holds? && v.jobs[j].Holds?
    ensures DistinctBuilds(Current(v).plans)
    ensures v.jobs[i].req.run == v.jobs[j].req.run <==> v.jobs[i].plan.build == v.jobs[j].plan.build
    ensures v.jobs[i].req.run == v.jobs[j].req.run ==> v.jobs[i].plan == v.jobs[j].plan
  {
    hide Run, Accepted, LogOk, PublicOk, DistinctTags, NightliesNameRuns, BoundPlan;
    ReachableKeeps(v);
    var a, b := v.jobs[i], v.jobs[j];
    assert JobOk(v, a) && JobOk(v, b);
    assert Decimal(a.req.run) in Current(v).plans && Decimal(b.req.run) in Current(v).plans;
    if Decimal(a.req.run) == Decimal(b.req.run) {
      DecimalInjective(a.req.run, b.req.run);
    }
  }

  /** A run that already holds a reservation is answered from the ledger: same plan or refusal, never a write. */
  lemma RetryNeverWrites(v: World, id: nat, d: Delivery)
    requires Reachable(v)
    requires id in v.jobs && v.jobs[id].Reserving? && v.jobs[id].req.run > 0
    requires Decimal(v.jobs[id].req.run) in Current(v).plans
    ensures var u := AdvanceJob(v, id, d);
            var req := v.jobs[id].req;
            var record := Current(v).plans[Decimal(req.run)];
            && u.file == v.file && u.log == v.log
            && (u.jobs[id] == Holds(req, record.plan) || u.jobs[id] == Stopped)
            && (u.jobs[id].Holds? <==>
                  && Read(v.branch, v.file).Success?
                  && BoundPlan(record.plan, req.policy, req.sourceSha)
                  && record.plan.base == req.base && record.plan.channel == req.channel && record.parent == req.parent)
  {
    hide BoundPlan, Draft, ValidPlan, Run;
    ReachableKeeps(v);
    if Read(v.branch, v.file).Success? {
      ReadKeeps(v, Read(v.branch, v.file).value);
    }
  }

  /** Ordinary publication consumes each plan at most once, in strictly increasing order,
      and the floor is always the number consumed last. */
  lemma NumbersAreConsumedInOrder(v: World, i: nat, j: nat)
    requires Reachable(v)
    requires i < j < |v.log| && v.log[i].Consumed? && v.log[j].Consumed?
    ensures v.log[i].plan.build.Some? && v.log[j].plan.build.Some?
    ensures v.log[i].plan.build.value < v.log[j].plan.build.value
    ensures Current(v).floor == LastConsumed(v.log)
  {
    hide Run, Sound, PublicOk, JobOk;
    ReachableKeeps(v);
  }

  /** A byte promotion lands only for the candidate consumed last, and leaves the ledger as it was. */
  lemma PromotionCopiesTheLastConsumed(v: World, id: nat, d: Delivery)
    requires Reachable(v)
    requires id in v.jobs && v.jobs[id].Verified? && v.jobs[id].pub.promotion
    requires |AdvanceJob(v, id, d).log| > |v.log|
    ensures var plan := v.jobs[id].pub.plan;
            && plan.build == Some(LastConsumed(v.log))
            && Consumed(plan) in v.log
            && Current(AdvanceJob(v, id, d)) == Current(v)
  {
    hide Run, Sound, LogOk, Draft, RefusePublication, Retry, ValidPlan;
    ReachableKeeps(v);
    assert JobOk(v, v.jobs[id]);
    var Verified(pub, snap) := v.jobs[id];
    assert snap.ledger == Current(v);
    PromotionAtFloor(snap.ledger, v.log, v.published, pub.plan);
    FloorIsLastConsumed(v);
  }

  lemma FloorIsLastConsumed(w: World)
    requires Core(w)
    ensures Current(w).floor == LastConsumed(w.log)
  {
  }

  /** Beta, RC and nightly tags of the ledger are pairwise distinct, and differ from every stable one. */
  lemma PrereleaseTagsAreUnique(v: World, j: string, k: string)
    requires Reachable(v)
    requires j in Current(v).plans && k in Current(v).plans && j != k && Prerelease(Current(v).plans[j].plan)
    ensures Current(v).plans[j].plan.tag != Current(v).plans[k].plan.tag
  {
    ReachableKeeps(v);
  }

  // ---------------------------------------------------------------- dead ends

  predicate Holding(job: Job, file: Option<Blob>) {
    match job
    case Allocating(_, snap) => snap.previous == file
    case Drafted(_, snap, _) => snap.previous == file
    case Cleared(_, snap, _) => snap.previous == file
    case Placed(_, snap, _) => snap.previous == file
    case Verifying(_, snap) => snap.previous == file
    case Verified(_, snap) => snap.previous == file
    case _ => false
  }

  /** No reader gets in, and nobody who is already in can still swap the current file. */
  ghost predicate Frozen(w: World) {
    && w.branch
    && Read(w.branch, w.file).Failure?
    && forall id | id in w.jobs :: !Holding(w.jobs[id], w.file)
  }

  lemma FrozenJob(w: World, id: nat, d: Delivery)
    requires Frozen(w) && id in w.jobs
    ensures Frozen(AdvanceJob(w, id, d)) && AdvanceJob(w, id, d).file == w.file
  {
    hide Draft, Accepted, RefusePublication, Retry, WithReservation, BoundPlan;
    var v := AdvanceJob(w, id, d);
    assert !Holding(w.jobs[id], w.file);
    assert v.branch && v.file == w.file && !Holding(v.jobs[id], v.file);
  }

  /** A branch whose first write was lost, or a file over the byte limit, stays so for good. */
  lemma {:induction false} FrozenForever(w: World, steps: seq<Step>)
    requires Frozen(w)
    ensures Frozen(Run(w, steps)) && Run(w, steps).branch && Run(w, steps).file == w.file
    ensures Read(Run(w, steps).branch, Run(w, steps).file).Failure?
    decreases |steps|
  {
    if steps != [] {
      FrozenForever(w, steps[..|steps| - 1]);
      var v := Run(w, steps[..|steps| - 1]);
      match steps[|steps| - 1]
      case Advance(id, d) =>
        if id in v.jobs {
          FrozenJob(v, id, d);
        }
      case _ =>
    }
  }

  /** Only reading checks the size, so a file over the limit is final: whoever read before read another file. */
  lemma OversizeFreezes(v: World)
    requires Reachable(v) && v.file.Some? && v.file.value.size > MAX_LEDGER_BYTES
    ensures Frozen(v)
  {
    hide Run, Sound, LogOk, PublicOk, Accepted, BoundPlan, ValidPlan, WithReservation, Unlocked, RefusePublication;
    ReachableKeeps(v);
    forall id | id in v.jobs ensures !Holding(v.jobs[id], v.file) {
      assert JobOk(v, v.jobs[id]);
    }
  }

  /** So no run ever reads a ledger of more than 38,461 reservations. */
  lemma CapacityIsFinite(v: World)
    requires Reachable(v) && |Current(v).plans| > MAX_LEDGER_BYTES / RESERVATION_BYTES
    ensures Frozen(v)
  {
    hide Run, Sound, LogOk, PublicOk, JobOk, Reachable, Frozen;
    ReachableKeeps(v);
    assert v.file.Some? && Weighs(v.file.value);
    OversizeFreezes(v);
  }

  /** One lost write is enough: the first reservation creates the branch, its write fails, and nobody
      reads or reserves again. */
  lemma LostFirstWriteFreezes(w: World, id: nat, d: Delivery, steps: seq<Step>)
    requires w.file == None && id in w.jobs && w.jobs[id].Placed? && w.branch && !d.stored
    requires forall other | other in w.jobs && other != id :: !Holding(w.jobs[other], None)
    ensures var v := Run(AdvanceJob(w, id, d), steps);
      v.branch && v.file == None && Read(v.branch, v.file) == Failure(MissingFromBranch)
  {
    hide Draft, Accepted, RefusePublication, Retry, WithReservation, BoundPlan;
    var v := AdvanceJob(w, id, d);
    assert v.jobs[id] == Stopped;
    FrozenForever(v, steps);
  }

  // ---------------------------------------------------------------- one caller alone

  const PROMPT := Delivery(true, true, 0)

  lemma {:induction false} RunStep(w: World, steps: seq<Step>, step: Step)
    ensures Run(w, steps + [step]) == Apply(Run(w, steps), step)
  {
    assert (steps + [step])[..|steps|] == steps;
  }

  lemma RunNone(w: World)
    ensures Run(w, []) == w
  {
  }

  lemma RunThree(w: World, x: Step, y: Step, z: Step)
    ensures Run(w, [x, y, z]) == Apply(Apply(Apply(w, x), y), z)
  {
    hide Apply, Run;
    RunNone(w);
    assert [x] == [] + [x] && [x, y] == [x] + [y] && [x, y, z] == [x, y] + [z];
    RunStep(w, [], x);
    RunStep(w, [x], y);
    RunStep(w, [x, y], z);
  }

  lemma RunFive(w: World, x: Step, y: Step, z: Step, s: Step, t: Step)
    ensures Run(w, [x, y, z, s, t]) == Apply(Apply(Apply(Apply(Apply(w, x), y), z), s), t)
  {
    hide Apply, Run;
    RunThree(w, x, y, z);
    assert [x, y, z, s] == [x, y, z] + [s] && [x, y, z, s, t] == [x, y, z, s] + [t];
    RunStep(w, [x, y, z], s);
    RunStep(w, [x, y, z, s], t);
  }

  lemma ThreeSteps(w: World, id: nat, a: Delivery, b: Delivery, c: Delivery)
    requires id in w.jobs
    ensures Run(w, [Advance(id, a), Advance(id, b), Advance(id, c)])
      == AdvanceJob(AdvanceJob(AdvanceJob(w, id, a), id, b), id, c)
  {
    hide AdvanceJob, Run;
    RunThree(w, Advance(id, a), Advance(id, b), Advance(id, c));
  }

  lemma FiveSteps(w: World, id: nat, create: Delivery, d: Delivery)
    requires id in w.jobs
    ensures var go := Advance(id, PROMPT);
      Run(w, [go, go, go, Advance(id, create), Advance(id, d)])
      == AdvanceJob(AdvanceJob(AdvanceJob(AdvanceJob(AdvanceJob(w, id, PROMPT), id, PROMPT), id, PROMPT), id, create), id, d)
  {
    hide AdvanceJob, Run;
    var go := Advance(id, PROMPT);
    RunFive(w, go, go, go, Advance(id, create), Advance(id, d));
  }

  /** A job that has finished has no further request. */
  lemma FinishedStays(w: World, id: nat, d: Delivery)
    requires id in w.jobs && (w.jobs[id].Stopped? || w.jobs[id].Holds? || w.jobs[id].Begun?)
    ensures AdvanceJob(w, id, d) == w
  {
  }

  lemma DraftHasNumber(l: Ledger, known: set<string>, req: Request)
    ensures Draft(l, known, req).Some? ==> Draft(l, known, req).value.build.Some?
  {
  }

  /** `v` is `w` after one whole call of job `id` that left and answered `e`. */
  ghost predicate Ended<T>(w: World, id: nat, e: Effect<T>, job: Job, v: World) {
    && v.branch == e.branch && v.file == e.file && v.known == w.known && v.published == w.published
    && v.jobs == w.jobs[id := job]
  }

  function Answered(req: Request, answer: Result<Plan, Refusal>): (job: Job) {
    if answer.Success? then Holds(req, answer.value) else Stopped
  }

  lemma PlacedStep(w: World, id: nat, d: Delivery)
    requires id in w.jobs && w.jobs[id].Placed? && w.branch
    requires w.jobs[id].snap.previous == w.file && w.jobs[id].req.run > 0 && w.jobs[id].plan.build.Some?
    ensures var Placed(req, snap, plan) := w.jobs[id];
      var e := PlaceEffect(true, w.file, snap.ledger, req, plan, d, d);
      Ended(w, id, e, Answered(req, e.answer), AdvanceJob(w, id, d))
  {
    hide WithReservation;
  }

  lemma ClearedSteps(w: World, id: nat, create: Delivery, d: Delivery)
    requires id in w.jobs && w.jobs[id].Cleared?
    requires w.jobs[id].snap.previous == w.file && w.jobs[id].req.run > 0 && w.jobs[id].plan.build.Some?
    ensures var Cleared(req, snap, plan) := w.jobs[id];
      var e := PlaceEffect(w.branch, w.file, snap.ledger, req, plan, create, d);
      Ended(w, id, e, Answered(req, e.answer), AdvanceJob(AdvanceJob(w, id, create), id, d))
  {
    hide WithReservation, Store;
    var v := AdvanceJob(w, id, create);
    if v.jobs[id].Placed? {
      PlacedStep(v, id, d);
    } else {
      FinishedStays(v, id, d);
    }
  }

  ghost function AllocateEffect(w: World, l: Ledger, req: Request, create: Delivery, d: Delivery): (e: Effect<Plan>)
    requires req.run > 0
  {
    DraftHasNumber(l, w.known, req);
    var plan := Draft(l, w.known, req);
    if plan.None? then Effect(w.branch, w.file, Failure(InvalidPlan))
    else if plan.value.tag in w.known then Effect(w.branch, w.file, Failure(TagExists))
    else PlaceEffect(w.branch, w.file, l, req, plan.value, create, d)
  }

  lemma AllocatingSteps(w: World, id: nat, create: Delivery, d: Delivery)
    requires id in w.jobs && w.jobs[id].Allocating? && w.jobs[id].snap.previous == w.file && w.jobs[id].req.run > 0
    ensures var Allocating(req, snap) := w.jobs[id];
      var e := AllocateEffect(w, snap.ledger, req, create, d);
      var v := AdvanceJob(AdvanceJob(w, id, PROMPT), id, PROMPT);
      Ended(w, id, e, Answered(req, e.answer), AdvanceJob(AdvanceJob(v, id, create), id, d))
  {
    hide Draft, PlaceEffect;
    var Allocating(req, snap) := w.jobs[id];
    DraftHasNumber(snap.ledger, w.known, req);
    var a := AdvanceJob(w, id, PROMPT);
    var b := AdvanceJob(a, id, PROMPT);
    if a.jobs[id].Drafted? && b.jobs[id].Cleared? {
      hide AdvanceJob;
      ClearedSteps(b, id, create, d);
    } else {
      if a.jobs[id].Stopped? {
        FinishedStays(a, id, PROMPT);
      }
      FinishedStays(b, id, create);
      FinishedStays(b, id, d);
    }
  }

  lemma ReserveIsAllocate(w: World, req: Request, create: Delivery, d: Delivery)
    ensures var job := AfterRead(w, req);
      var e := ReserveEffect(w.branch, w.file, w.known, req, create, d);
      if job.Allocating? then
        && req.run > 0 && job.req == req && job.snap.previous == w.file
        && e == AllocateEffect(w, job.snap.ledger, req, create, d)
      else e.branch == w.branch && e.file == w.file && job == Answered(req, e.answer)
  {
    hide Draft, PlaceEffect, Accepted, Retry;
  }

  lemma ReservingStep(w: World, id: nat, d: Delivery)
    requires id in w.jobs && w.jobs[id].Reserving?
    ensures AdvanceJob(w, id, d) == Moved(w, id, AfterRead(w, w.jobs[id].req))
  {
  }

  /** Taken without interruption, the steps of a reservation are what `ReservePlan` does. */
  lemma UninterruptedReserve(w: World, id: nat, create: Delivery, d: Delivery)
    requires id in w.jobs && w.jobs[id].Reserving? && (w.file.Some? ==> w.branch)
    ensures var go := Advance(id, PROMPT);
      var e := ReserveEffect(w.branch, w.file, w.known, w.jobs[id].req, create, d);
      Ended(w, id, e, Answered(w.jobs[id].req, e.answer), Run(w, [go, go, go, Advance(id, create), Advance(id, d)]))
  {
    hide AdvanceJob, AfterRead, ReserveEffect, AllocateEffect, Run;
    FiveSteps(w, id, create, d);
    var req := w.jobs[id].req;
    ReserveIsAllocate(w, req, create, d);
    ReservingStep(w, id, PROMPT);
    var v := Moved(w, id, AfterRead(w, req));
    if v.jobs[id].Allocating? {
      AllocatingSteps(v, id, create, d);
      SameAllocation(w, v, v.jobs[id].snap.ledger, req, create, d);
    } else {
      FinishedStays(v, id, PROMPT);
      FinishedStays(v, id, create);
      FinishedStays(v, id, d);
    }
  }

  lemma SameAllocation(w: World, v: World, l: Ledger, req: Request, create: Delivery, d: Delivery)
    requires w.branch == v.branch && w.file == v.file && w.known == v.known && req.run > 0
    ensures AllocateEffect(w, l, req, create, d) == AllocateEffect(v, l, req, create, d)
  {
    hide Draft, PlaceEffect;
  }

  /** The same for the steps of a publication and `BeginPublication`. */
  lemma UninterruptedPublish(w: World, id: nat, d: Delivery)
    requires id in w.jobs && w.jobs[id].Publishing?
    ensures var go := Advance(id, PROMPT);
      var e := PublishEffect(w.branch, w.file, w.published, w.jobs[id].pub, d);
      Ended(w, id, e, if e.answer.Success? then Begun(w.jobs[id].pub) else Stopped, Run(w, [go, go, Advance(id, d)]))
  {
    hide Run, RefusePublication, Accepted, WithFloor;
    ThreeSteps(w, id, PROMPT, PROMPT, d);
    var pub := w.jobs[id].pub;
    var a := AdvanceJob(w, id, PROMPT);
    if a.jobs[id].Verifying? {
      AcceptedHasNumber(a.jobs[id].snap.ledger, w.published, pub);
      var b := AdvanceJob(a, id, PROMPT);
      if b.jobs[id].Stopped? {
        FinishedStays(b, id, d);
      }
    } else {
      FinishedStays(a, id, PROMPT);
      FinishedStays(a, id, d);
    }
  }

  lemma AcceptedHasNumber(l: Ledger, published: set<string>, pub: Publication)
    ensures RefusePublication(l, published, pub).None? ==> pub.plan.build.Some?
  {
  }
}
