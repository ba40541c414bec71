/** The version ledger: one JSON file on a dedicated branch, read and replaced by
    compare-and-swap on its blob identity (scripts/release_state.py).
    A blob SHA identifies its content, so the swap compares contents. */
module Ledger {
  import opened Text
  import opened VersionPlan

  const MAX_LEDGER_BYTES := 4_000_000

  /** What a reservation takes at least in the file: its source (40 hex digits) and its policy
      digest (64 hex digits). */
  const RESERVATION_BYTES := 104

  datatype Parent = Parent(tag: string, manifestSha: string, sourceSha: string, run: int)

  datatype Reservation = Reservation(plan: Plan, parent: Option<Parent>)

  datatype Ledger = Ledger(schema: int, counter: int, floor: int, plans: map<string, Reservation>)

  /** The stored file: its decoded ledger and its length in bytes. */
  datatype Blob = Blob(ledger: Ledger, size: nat)

  /** What `read_state` returns: the ledger and the identity a later write must present. */
  datatype Snapshot = Snapshot(ledger: Ledger, previous: Option<Blob>)

  datatype Request = Request(
    policy: Policy, base: string, channel: string, sourceSha: string,
    run: int, attempt: nat, now: string, parent: Option<Parent>)

  datatype Publication = Publication(plan: Plan, run: int, parent: Option<Parent>, promotion: bool)

  datatype Refusal =
    | MissingFromBranch | TooLarge | BadLedger | InvalidRun | InvalidPlan | DifferentIdentity
    | DifferentParent | TagExists | ReservationDiffers | FloorReached | NewerPublished
    | NotPromotable | NotUnique | BelowFloor | NotPublished | WriteFailed

  const EMPTY := Ledger(1, 0, 0, map[])

  /** The checks `read_state` makes on a decoded ledger. */
  predicate Accepted(l: Ledger) {
    && l.schema == 1
    && 0 <= l.floor <= l.counter
    && (forall key | key in l.plans ::
          && IsPositiveNumeral(key)
          && ValidPlan(l.plans[key].plan)
          && l.plans[key].plan.build.Some?
          && l.plans[key].plan.build.value <= l.counter)
  }

  function Read(branch: bool, file: Option<Blob>): (r: Result<Snapshot, Refusal>) {
    match file
    case None => if branch then Failure(MissingFromBranch) else Success(Snapshot(EMPTY, None))
    case Some(blob) =>
      if blob.size > MAX_LEDGER_BYTES then Failure(TooLarge)
      else if !Accepted(blob.ledger) then Failure(BadLedger)
      else Success(Snapshot(blob.ledger, file))
  }

  /** A run that already holds a reservation gets it back, or is refused; None means allocate. */
  function Retry(l: Ledger, req: Request): (r: Result<Option<Plan>, Refusal>) {
    if req.run <= 0 then Failure(InvalidRun)
    else
      var key := Decimal(req.run);
      if key !in l.plans then Success(None)
      else
        var record := l.plans[key];
        if !BoundPlan(record.plan, req.policy, req.sourceSha) then Failure(InvalidPlan)
        else if record.plan.base != req.base || record.plan.channel != req.channel then Failure(DifferentIdentity)
        else if record.parent != req.parent then Failure(DifferentParent)
        else Success(Some(record.plan))
  }

  /** Sequence numbers a tag listing already uses for one base and channel. */
  function UsedNumbers(known: set<string>, base: string, channel: string): (s: set<nat>) {
    var prefix := "v" + base + "-" + channel + ".";
    set tag | tag in known && prefix <= tag && IsPositiveNumeral(tag[|prefix|..]) :: NumeralValue(tag[|prefix|..])
  }

  predicate SameLine(plan: Plan, base: string, channel: string) {
    plan.base == base && plan.channel == channel && plan.sequence.Number? && plan.sequence.n >= 0
  }

  function ReservedNumbers(plans: map<string, Reservation>, base: string, channel: string): (s: set<nat>) {
    set key | key in plans && SameLine(plans[key].plan, base, channel) :: plans[key].plan.sequence.n as nat
  }

  /** `max(numbers, default=0)`. */
  ghost function Largest(s: set<nat>): (m: nat)
    ensures forall n | n in s :: n <= m
    ensures m == 0 || m in s
  {
    if s == {} then 0
    else
      var n :| n in s;
      var m := Largest(s - {n});
      assert forall k | k in s :: k == n || k in s - {n};
      if n < m then m else n
  }

  lemma {:induction false} LargestIs(s: set<nat>, m: nat)
    requires forall n | n in s :: n <= m
    requires m == 0 || m in s
    ensures Largest(s) == m
  {
  }

  ghost function ChooseSequence(l: Ledger, known: set<string>, req: Request): (s: Sequence) {
    if req.channel == "beta" || req.channel == "rc" then
      var next := Largest(UsedNumbers(known, req.base, req.channel)) + 1;
      var after := Largest(ReservedNumbers(l.plans, req.base, req.channel)) + 1;
      Number(if next < after then after else next)
    else if req.channel == "nightly" && req.run > 0 then
      Stamp(req.now + "." + Decimal(req.run) + "." + Decimal(req.attempt))
    else NoSequence
  }

  function NextNumber(l: Ledger, policy: Policy): (n: int)
    ensures n > l.counter
  {
    (if l.counter < policy.floor then policy.floor else l.counter) + 1
  }

  ghost function Draft(l: Ledger, known: set<string>, req: Request): (plan: Option<Plan>) {
    CreatePlan(req.base, req.channel, ChooseSequence(l, known, req), req.sourceSha, req.policy,
               Some(NextNumber(l, req.policy)))
  }

  function WithReservation(l: Ledger, req: Request, plan: Plan): (l': Ledger)
    requires req.run > 0 && plan.build.Some?
  {
    Ledger(l.schema, plan.build.value, l.floor, l.plans[Decimal(req.run) := Reservation(plan, req.parent)])
  }

  predicate Newer(l: Ledger, published: set<string>, plan: Plan, strict: bool) {
    exists key | key in l.plans ::
      && l.plans[key].plan.tag in published
      && l.plans[key].plan.build.Some? && plan.build.Some?
      && (if strict
          then l.plans[key].plan.tag != plan.tag && l.plans[key].plan.build.value > plan.build.value
          else l.plans[key].plan.build.value >= plan.build.value)
  }

  /** `_verify_reservation`: None means accepted. */
  function RefuseReservation(l: Ledger, published: set<string>, pub: Publication): (r: Option<Refusal>) {
    if !ValidPlan(pub.plan) || pub.plan.build.None? then Some(InvalidPlan)
    else if pub.run <= 0 then Some(InvalidRun)
    else if Decimal(pub.run) !in l.plans || l.plans[Decimal(pub.run)] != Reservation(pub.plan, pub.parent) then
      Some(ReservationDiffers)
    else if pub.plan.build.value <= l.floor then Some(FloorReached)
    else if Newer(l, published, pub.plan, false) then Some(NewerPublished)
    else None
  }

  /** `_verify_promotion_order`: None means accepted. */
  function RefusePromotion(l: Ledger, published: set<string>, plan: Plan): (r: Option<Refusal>) {
    if !ValidPlan(plan) || plan.build.None? then Some(InvalidPlan)
    else if plan.channel != "rc" || plan.promotion != "promote-bytes" then Some(NotPromotable)
    else if |set key | key in l.plans && l.plans[key].plan == plan| != 1 then Some(NotUnique)
    else if plan.build.value < l.floor then Some(BelowFloor)
    else if plan.tag !in published then Some(NotPublished)
    else if Newer(l, published, plan, true) then Some(NewerPublished)
    else None
  }

  function RefusePublication(l: Ledger, published: set<string>, pub: Publication): (r: Option<Refusal>) {
    if pub.run <= 0 then Some(InvalidRun)
    else if pub.promotion then RefusePromotion(l, published, pub.plan)
    else RefuseReservation(l, published, pub)
  }

  function WithFloor(l: Ledger, plan: Plan): (l': Ledger)
    requires plan.build.Some?
  {
    l.(floor := plan.build.value)
  }

  /** How the remote side treats one write: whether it stores it if the swap matches, whether
      the caller hears of it, and how many bytes the ledger takes beyond its reservations' digests. */
  datatype Delivery = Delivery(stored: bool, acknowledged: bool, rest: nat)

  /** What one whole call leaves behind and answers. */
  datatype Effect<T> = Effect(branch: bool, file: Option<Blob>, answer: Result<T, Refusal>)

  function Encoded(l: Ledger, rest: nat): (blob: Blob) {
    Blob(l, RESERVATION_BYTES * |l.plans| + rest)
  }

  function Store(branch: bool, file: Option<Blob>, previous: Option<Blob>, l: Ledger, delivery: Delivery): (f: Option<Blob>) {
    if branch && file == previous && delivery.stored then Some(Encoded(l, delivery.rest)) else file
  }

  /** From a plan whose tag is free: the branch if it is missing, then the write. */
  function PlaceEffect(branch: bool, file: Option<Blob>, l: Ledger, req: Request, plan: Plan,
                       create: Delivery, delivery: Delivery): (e: Effect<Plan>)
    requires req.run > 0 && plan.build.Some?
  {
    if !branch && !(create.stored && create.acknowledged) then Effect(create.stored, file, Failure(WriteFailed))
    else Effect(true, Store(true, file, file, WithReservation(l, req, plan), delivery),
                if delivery.stored && delivery.acknowledged then Success(plan) else Failure(WriteFailed))
  }

  ghost function ReserveEffect(branch: bool, file: Option<Blob>, known: set<string>, req: Request,
                               create: Delivery, delivery: Delivery): (e: Effect<Plan>)
  {
    if req.run <= 0 then Effect(branch, file, Failure(InvalidRun))
    else
      var read := Read(branch, file);
      if read.Failure? then Effect(branch, file, Failure(read.error))
      else
        var l := read.value.ledger;
        var retry := Retry(l, req);
        if retry.Failure? then Effect(branch, file, Failure(retry.error))
        else if retry.value.Some? then Effect(branch, file, Success(retry.value.value))
        else
          var plan := Draft(l, known, req);
          if plan.None? then Effect(branch, file, Failure(InvalidPlan))
          else if plan.value.tag in known then Effect(branch, file, Failure(TagExists))
          else PlaceEffect(branch, file, l, req, plan.value, create, delivery)
  }

  function PublishEffect(branch: bool, file: Option<Blob>, published: set<string>, pub: Publication, delivery: Delivery): (e: Effect<Ledger>) {
    if pub.run <= 0 then Effect(branch, file, Failure(InvalidRun))
    else
      var read := Read(branch, file);
      if read.Failure? then Effect(branch, file, Failure(read.error))
      else
        var refusal := RefusePublication(read.value.ledger, published, pub);
        if refusal.Some? then Effect(branch, file, Failure(refusal.value))
        else
          var l := WithFloor(read.value.ledger, pub.plan);
          Effect(branch, Store(branch, file, file, l, delivery),
                 if branch && delivery.stored && delivery.acknowledged then Success(l) else Failure(WriteFailed))
  }

  /** The repository as one caller sees it between two of its own requests. */
  class Repository {
    var branch: bool
    var file: Option<Blob>
    var known: set<string>
    var published: set<string>

    method ReadState() returns (r: Result<Snapshot, Refusal>)
      ensures r == Read(branch, file)
    {
      match file {
        case None =>
          if branch {
            return Failure(MissingFromBranch);
          }
          return Success(Snapshot(EMPTY, None));
        case Some(blob) =>
          if blob.size > MAX_LEDGER_BYTES {
            return Failure(TooLarge);
          }
          var keys := blob.ledger.plans.Keys;
          if blob.ledger.schema != 1 || !(0 <= blob.ledger.floor <= blob.ledger.counter) {
            return Failure(BadLedger);
          }
          while keys != {}
            invariant keys <= blob.ledger.plans.Keys
            invariant forall key | key in blob.ledger.plans && key !in keys ::
                        && IsPositiveNumeral(key)
                        && ValidPlan(blob.ledger.plans[key].plan)
                        && blob.ledger.plans[key].plan.build.Some?
                        && blob.ledger.plans[key].plan.build.value <= blob.ledger.counter
            decreases |keys|
          {
            var key :| key in keys;
            var plan := blob.ledger.plans[key].plan;
            if !IsPositiveNumeral(key) || !ValidPlan(plan) || plan.build.None? || plan.build.value > blob.ledger.counter {
              return Failure(BadLedger);
            }
            keys := keys - {key};
          }
          return Success(Snapshot(blob.ledger, file));
      }
    }

    /** A stale identity is refused; a matching one may still be lost or go unheard. */
    method WriteState(state: Ledger, previous: Option<Blob>, delivery: Delivery) returns (ok: bool)
      modifies this`file
      ensures file == Store(branch, old(file), previous, state, delivery)
      ensures ok == (branch && old(file) == previous && delivery.stored && delivery.acknowledged)
    {
      ok := false;
      if branch && file == previous && delivery.stored {
        file := Some(Encoded(state, delivery.rest));
        ok := delivery.acknowledged;
      }
    }

    method MaximumUsed(base: string, channel: string) returns (m: nat)
      ensures m == Largest(UsedNumbers(known, base, channel))
    {
      m := 0;
      var prefix := "v" + base + "-" + channel + ".";
      var tags := known;
      ghost var seen: set<nat> := {};
      while tags != {}
        invariant tags <= known
        invariant forall n | n in seen :: n <= m
        invariant m == 0 || m in seen
        invariant seen == UsedNumbers(known - tags, base, channel)
        decreases |tags|
      {
        var tag :| tag in tags;
        assert known - (tags - {tag}) == (known - tags) + {tag};
        if prefix <= tag && IsPositiveNumeral(tag[|prefix|..]) {
          var n := NumeralValue(tag[|prefix|..]);
          seen := seen + {n};
          if m < n {
            m := n;
          }
        }
        tags := tags - {tag};
      }
      assert known - tags == known;
      LargestIs(seen, m);
    }

    static method MaximumReserved(plans: map<string, Reservation>, base: string, channel: string) returns (m: nat)
      ensures m == Largest(ReservedNumbers(plans, base, channel))
    {
      m := 0;
      var keys := plans.Keys;
      ghost var seen: set<nat> := {};
      while keys != {}
        invariant keys <= plans.Keys
        invariant forall n | n in seen :: n <= m
        invariant m == 0 || m in seen
        invariant seen == set key | key in plans && key !in keys && SameLine(plans[key].plan, base, channel)
                                    :: plans[key].plan.sequence.n as nat
        decreases |keys|
      {
        var key :| key in keys;
        if SameLine(plans[key].plan, base, channel) {
          seen := seen + {plans[key].plan.sequence.n as nat};
          if m < plans[key].plan.sequence.n {
            m := plans[key].plan.sequence.n;
          }
        }
        keys := keys - {key};
      }
      assert seen == ReservedNumbers(plans, base, channel);
      LargestIs(seen, m);
    }

    /** The plan a new reservation would freeze. */
    method Allocate(state: Ledger, req: Request) returns (plan: Option<Plan>)
      requires req.run > 0
      ensures plan == Draft(state, known, req)
    {
      hide CreatePlan, Identity;
      var sequence := NoSequence;
      if req.channel == "beta" || req.channel == "rc" {
        var next := MaximumUsed(req.base, req.channel);
        var reserved := MaximumReserved(state.plans, req.base, req.channel);
        sequence := Number(if next < reserved then reserved + 1 else next + 1);
      } else if req.channel == "nightly" {
        sequence := Stamp(req.now + "." + Decimal(req.run) + "." + Decimal(req.attempt));
      }
      plan := CreatePlan(req.base, req.channel, sequence, req.sourceSha, req.policy, Some(NextNumber(state, req.policy)));
    }

    /** `reserve_plan` with no other caller in between. */
    method ReservePlan(req: Request, create: Delivery, delivery: Delivery) returns (r: Result<Plan, Refusal>)
      modifies this`file, this`branch
      ensures Effect(branch, file, r) == ReserveEffect(old(branch), old(file), known, req, create, delivery)
    {
      if req.run <= 0 {
        return Failure(InvalidRun);
      }
      var read := ReadState();
      if read.Failure? {
        return Failure(read.error);
      }
      var state, previous := read.value.ledger, read.value.previous;
      var retry := Retry(state, req);
      if retry.Failure? {
        return Failure(retry.error);
      }
      if retry.value.Some? {
        return Success(retry.value.value);
      }
      var plan := Allocate(state, req);
      if plan.None? {
        return Failure(InvalidPlan);
      }
      if plan.value.tag in known {
        return Failure(TagExists);
      }
      if !branch {
        branch := create.stored;
        if !(create.stored && create.acknowledged) {
          return Failure(WriteFailed);
        }
      }
      state := state.(counter := plan.value.build.value);
      state := state.(plans := state.plans[Decimal(req.run) := Reservation(plan.value, req.parent)]);
      var ok := WriteState(state, previous, delivery);
      r := if ok then Success(plan.value) else Failure(WriteFailed);
    }

    /** `begin_publication` with no other caller in between. */
    method BeginPublication(pub: Publication, delivery: Delivery) returns (r: Result<Ledger, Refusal>)
      modifies this`file
      ensures Effect(branch, file, r) == PublishEffect(branch, old(file), published, pub, delivery)
    {
      if pub.run <= 0 {
        return Failure(InvalidRun);
      }
      var read := ReadState();
      if read.Failure? {
        return Failure(read.error);
      }
      var state, previous := read.value.ledger, read.value.previous;
      var refusal := if pub.promotion then RefusePromotion(state, published, pub.plan)
                     else RefuseReservation(state, published, pub);
      if refusal.Some? {
        return Failure(refusal.value);
      }
      state := state.(floor := pub.plan.build.value);
      var ok := WriteState(state, previous, delivery);
      r := if ok then Success(state) else Failure(WriteFailed);
    }
  }
}
