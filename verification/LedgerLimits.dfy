/** The two ways in which the ledger stops for good do happen: reservations alone grow it past
    the size its reader accepts, and a lost first write leaves a branch without its file. */
module LedgerLimits {
  import opened Text
  import opened VersionPlan
  import opened Ledger
  import opened LedgerProtocol

  const FRESH := World(false, None, {}, {}, map[], [])

  function Letters(n: nat): (s: string)
    ensures |s| == n && forall c | c in s :: c == 'a'
  {
    if n == 0 then "" else "a" + Letters(n - 1)
  }

  const SOURCE := Letters(40)
  const DIGEST := Letters(64)

  const POLICY := Policy(DIGEST, "final-build", 0, [Declaration("base", "semver", "")])

  /** A stable release of 1.0.0 by this run. */
  function Stable(run: nat): (req: Request) {
    Request(POLICY, "1.0.0", "stable", SOURCE, run, 1, "", None)
  }

  lemma PolicyIsValid()
    ensures ValidPolicy(POLICY) && IsHex(SOURCE, 40)
  {
    hide Letters;
  }

  lemma OneIsBase()
    ensures Identity("1.0.0", "stable", NoSequence) == Some("1.0.0")
  {
    SplitField("1", "0.0", '.');
    SplitField("0", "0", '.');
    SplitWhole("0", '.');
    assert "1.0.0" == "1" + ['.'] + "0.0" && "0.0" == "0" + ['.'] + "0";
  }

  /** Such a request is drafted as long as there are build numbers. */
  lemma StableDrafts(l: Ledger, run: nat)
    requires 0 <= l.counter < MAX_BUILD
    ensures Draft(l, {}, Stable(run)).Some?
    ensures var plan := Draft(l, {}, Stable(run)).value; plan.build == Some(l.counter + 1) && plan.tag == "v1.0.0"
  {
    hide CreatePlan;
    assert NextNumber(l, POLICY) == l.counter + 1;
    StableIsCreated(l.counter + 1);
  }

  lemma StableIsCreated(n: int)
    requires 0 < n <= MAX_BUILD
    ensures CreatePlan("1.0.0", "stable", NoSequence, SOURCE, POLICY, Some(n)) == Some(StablePlan(n))
  {
    hide Identity, IsHex, ValidPolicy, Letters, ProjectedValue;
    PolicyIsValid();
    OneIsBase();
    StablePlanShows(n);
    hide ValidPlan;
    assert forall item | item in POLICY.files :: item == POLICY.files[0];
  }

  function StablePlan(n: int): (plan: Plan) {
    Plan("1.0.0", "1.0.0", "stable", NoSequence, "v1.0.0", SOURCE, Some(n), DIGEST, "final-build")
  }

  lemma StablePlanShows(n: int)
    requires 0 < n <= MAX_BUILD
    ensures ValidPlan(StablePlan(n)) && ProjectedValue(StablePlan(n), POLICY.files[0]).Some?
  {
    hide Identity, IsHex, AppleText;
    PolicyIsValid();
    OneIsBase();
  }

  /** A ledger of the first `k` runs, encoded with `rest` bytes beyond its digests. */
  ghost predicate Filled(w: World, k: nat, rest: Ledger -> nat) {
    && Reachable(w) && w.known == {} && (forall id | id in w.jobs :: id < k)
    && Keys(Current(w), k)
    && (if k == 0 then w == FRESH else w.branch && w.file == Some(Encoded(Current(w), rest(Current(w)))))
  }

  lemma {:induction false} RunJoin(w: World, a: seq<Step>, b: seq<Step>)
    ensures Run(w, a + b) == Run(Run(w, a), b)
    decreases |b|
  {
    hide Apply;
    if b == [] {
      assert a + b == a;
    } else {
      var n := |b| - 1;
      RunJoin(w, a, b[..n]);
      assert (a + b)[..|a| + n] == a + b[..n] && (a + b)[|a| + n] == b[n];
    }
  }

  lemma ReachableGoesOn(w: World, steps: seq<Step>)
    requires Reachable(w)
    ensures Reachable(Run(w, steps))
  {
    hide Run, Initial;
    var start: World, before: seq<Step> :| Initial(start) && w == Run(start, before);
    RunJoin(start, before, steps);
  }

  ghost predicate Keys(l: Ledger, k: nat) {
    && l.counter == k && |l.plans| == k
    && forall key | key in l.plans :: AllDigits(key) && 1 <= NumeralValue(key) <= k
  }

  lemma KeysGrow(l: Ledger, req: Request, plan: Plan, k: nat)
    requires Keys(l, k) && req.run == k + 1 && plan.build == Some(k + 1)
    ensures Decimal(req.run) !in l.plans && Keys(WithReservation(l, req, plan), k + 1)
  {
    assert NumeralValue(Decimal(req.run)) == k + 1;
    var l' := WithReservation(l, req, plan);
    assert l'.plans.Keys == l.plans.Keys + {Decimal(req.run)};
  }

  lemma StableIsPlaced(u: World, l: Ledger, k: nat, d: Delivery)
    requires Keys(l, k) && k < MAX_BUILD && u.known == {}
    requires Read(u.branch, u.file) == Success(Snapshot(l, u.file))
    ensures Draft(l, {}, Stable(k + 1)).Some?
    ensures var req := Stable(k + 1);
      var plan := Draft(l, {}, req).value;
      && plan.build == Some(k + 1)
      && ReserveEffect(u.branch, u.file, u.known, req, PROMPT, d) == PlaceEffect(u.branch, u.file, l, req, plan, PROMPT, d)
  {
    StableDrafts(l, k + 1);
    var plan := Draft(l, {}, Stable(k + 1)).value;
    KeysGrow(l, Stable(k + 1), plan, k);
    hide Draft, Read, PlaceEffect, Keys;
  }

  lemma FilledReads(w: World, k: nat, rest: Ledger -> nat)
    requires Filled(w, k, rest) && (w.file.Some? ==> w.file.value.size <= MAX_LEDGER_BYTES)
    ensures Reachable(w) && Keys(Current(w), k) && w.known == {} && k !in w.jobs && (w.file.Some? ==> w.branch)
    ensures Current(w).counter == k && forall id | id in w.jobs :: id < k
    ensures Read(w.branch, w.file) == Success(Snapshot(Current(w), w.file))
  {
    assert Current(w).counter == k;
    hide Reachable, Keys, Accepted;
    CommittedLedgersPassTheirChecks(w);
  }

  function Turns(id: nat, d: Delivery): (steps: seq<Step>) {
    var go := Advance(id, PROMPT);
    [go, go, go, go, Advance(id, d)]
  }

  lemma StartThenTurns(w: World, id: nat, req: Request, d: Delivery)
    requires id !in w.jobs
    ensures Run(w, [StartReserve(id, req)] + Turns(id, d)) == Run(Moved(w, id, Reserving(req)), Turns(id, d))
  {
    RunJoin(w, [StartReserve(id, req)], Turns(id, d));
    hide Run;
    RunStep(w, [], StartReserve(id, req));
    RunNone(w);
    assert [] + [StartReserve(id, req)] == [StartReserve(id, req)];
  }

  /** One undisturbed stable reservation by job `id`, delivered as `d` says. */
  lemma StableRuns(w: World, id: nat, l: Ledger, k: nat, d: Delivery)
    requires Reachable(w) && id !in w.jobs && w.known == {} && (w.file.Some? ==> w.branch)
    requires Keys(l, k) && k < MAX_BUILD && Read(w.branch, w.file) == Success(Snapshot(l, w.file))
    requires Draft(l, {}, Stable(k + 1)).Some? && Draft(l, {}, Stable(k + 1)).value.build.Some?
    ensures var req := Stable(k + 1);
      var v := Run(w, [StartReserve(id, req)] + Turns(id, d));
      var e := PlaceEffect(w.branch, w.file, l, req, Draft(l, {}, req).value, PROMPT, d);
      Reachable(v) && Ended(w, id, e, Answered(req, e.answer), v)
  {
    hide Reachable, Run, Draft, Read, Keys, ReserveEffect, PlaceEffect;
    var req := Stable(k + 1);
    var u := Moved(w, id, Reserving(req));
    StableIsPlaced(u, l, k, d);
    StartThenTurns(w, id, req, d);
    ReachableGoesOn(w, [StartReserve(id, req)] + Turns(id, d));
    UninterruptedReserve(u, id, PROMPT, d);
  }

  lemma FilledNext(w: World, v: World, k: nat, l: Ledger, job: Job, rest: Ledger -> nat)
    requires Reachable(v) && v.branch && v.file == Some(Encoded(l, rest(l))) && v.known == {}
    requires Keys(l, k + 1) && v.jobs == w.jobs[k := job] && forall id | id in w.jobs :: id < k
    ensures Filled(v, k + 1, rest)
  {
    hide Reachable, Keys;
  }

  lemma Delivered(branch: bool, file: Option<Blob>, l: Ledger, req: Request, plan: Plan, d: Delivery)
    requires req.run > 0 && plan.build.Some? && d.stored && d.acknowledged
    ensures PlaceEffect(branch, file, l, req, plan, PROMPT, d)
      == Effect(true, Some(Encoded(WithReservation(l, req, plan), d.rest)), Success(plan))
  {
    hide WithReservation;
  }

  /** A prompt one lands. */
  lemma StableLands(w: World, id: nat, l: Ledger, k: nat, plan: Plan, d: Delivery)
    requires Reachable(w) && id !in w.jobs && w.known == {} && (w.file.Some? ==> w.branch)
    requires Keys(l, k) && k < MAX_BUILD && Read(w.branch, w.file) == Success(Snapshot(l, w.file))
    requires Draft(l, {}, Stable(k + 1)) == Some(plan) && plan.build.Some? && d.stored && d.acknowledged
    ensures var req := Stable(k + 1);
      var v := Run(w, [StartReserve(id, req)] + Turns(id, d));
      && Reachable(v) && v.branch && v.known == {} && v.jobs == w.jobs[id := Holds(req, plan)]
      && v.file == Some(Encoded(WithReservation(l, req, plan), d.rest))
  {
    hide Reachable, Run, Draft, Read, Keys, WithReservation, PlaceEffect;
    StableRuns(w, id, l, k, d);
    Delivered(w.branch, w.file, l, Stable(k + 1), plan, d);
  }

  /** One more run reserves: the next number, under its own key. */
  lemma OneMoreRun(w: World, k: nat, rest: Ledger -> nat) returns (v: World)
    requires Filled(w, k, rest) && k < MAX_BUILD
    requires w.file.Some? ==> w.file.value.size <= MAX_LEDGER_BYTES
    ensures Filled(v, k + 1, rest)
  {
    hide Filled, Reachable, Run, Draft, Read, Keys, WithReservation, Current, Encoded, Turns;
    var req, l := Stable(k + 1), Current(w);
    FilledReads(w, k, rest);
    StableDrafts(l, k + 1);
    var plan := Draft(l, {}, req).value;
    var l' := WithReservation(l, req, plan);
    var d := Delivery(true, true, rest(l'));
    StableLands(w, k, l, k, plan, d);
    KeysGrow(l, req, plan, k);
    v := Run(w, [StartReserve(k, req)] + Turns(k, d));
    FilledNext(w, v, k, l', Holds(req, plan), rest);
  }

  lemma {:induction false} Grows(k: nat, rest: Ledger -> nat) returns (w: World)
    requires k <= 40_000
    ensures Reachable(w)
    ensures Filled(w, k, rest) || (w.file.Some? && w.file.value.size > MAX_LEDGER_BYTES
                                   && w.file == Some(Encoded(Current(w), rest(Current(w)))))
  {
    hide Reachable, Run;
    if k == 0 {
      FreshIsReachable();
      w := FRESH;
    } else {
      w := Grows(k - 1, rest);
      if w.file.None? || w.file.value.size <= MAX_LEDGER_BYTES {
        w := OneMoreRun(w, k - 1, rest);
      }
    }
  }

  lemma FreshIsReachable()
    ensures Reachable(FRESH)
  {
    RunNone(FRESH);
    assert Initial(FRESH);
  }

  /** However the ledger is encoded, reservations alone make some reachable ledger too large to
      read: then nobody reads, reserves or publishes again. */
  lemma LedgersFillUp(rest: Ledger -> nat) returns (w: World)
    ensures Reachable(w) && w.file == Some(Encoded(Current(w), rest(Current(w))))
    ensures w.file.value.size > MAX_LEDGER_BYTES && Frozen(w)
    ensures forall steps :: Run(w, steps).file == w.file && Read(Run(w, steps).branch, Run(w, steps).file).Failure?
  {
    hide Reachable, Run;
    w := Grows(38_462, rest);
    OversizeFreezes(w);
    forall steps ensures Run(w, steps).file == w.file && Read(Run(w, steps).branch, Run(w, steps).file).Failure? {
      FrozenForever(w, steps);
    }
  }

  /** The first run's write is lost after it made the branch: no run ever reserves in this repository. */
  lemma LostFirstWriteHappens() returns (w: World)
    ensures Reachable(w) && w.branch && w.file == None && Frozen(w)
    ensures forall steps :: Run(w, steps).branch && Run(w, steps).file == None
  {
    hide Reachable, Draft;
    var d := Delivery(false, false, 0);
    FreshIsReachable();
    StableDrafts(EMPTY, 1);
    w := Run(FRESH, [StartReserve(0, Stable(1))] + Turns(0, d));
    StableRuns(FRESH, 0, EMPTY, 0, d);
    hide Run;
    assert w.jobs == FRESH.jobs[0 := Stopped];
    forall steps ensures Run(w, steps).branch && Run(w, steps).file == None {
      FrozenForever(w, steps);
    }
  }
}
