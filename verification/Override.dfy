/** The setpoint override protocol (`src-tauri/src/gateway_actions.rs`): a preflight read, one
    POST, then polling for its acknowledgement, all under one deadline. Times are in
    milliseconds; what the gateway answers, and how late, is arbitrary. */
module Override {
  import opened Text

  const DEADLINE := 5000
  const INTERVAL := 100

  datatype Status = Status(value: Option<int>, error: Option<string>, id: Option<string>)

  /** What a snapshot read gives: no snapshot, one without a usable override status, or one with it. */
  datatype Reply = Failed | Unusable | Usable(status: Status)

  datatype Error = Unconfirmed | Inactive | ReadFailed | NoStatus | PostFailed | Rejected(message: string) | Different

  /** The answers: reads, pauses and connection checks by number, and the one POST. */
  datatype Gateway = Gateway(
    read: nat -> (nat, Reply), pause: nat -> nat, active: nat -> bool, post: (nat, bool))

  /** What happened, in order. `reply` is None where the deadline cut the read off. */
  datatype Event =
    | Check(ok: bool)
    | Read(start: nat, end: nat, reply: Option<Reply>)
    | Send(start: nat, end: nat, accepted: Option<bool>)
    | Pause(start: nat, end: nat)

  /** `before_deadline`: not even begun once the deadline has come, and cut off at it. */
  datatype Awaited = NotBegun | CutOff | Done(end: nat)

  function BeforeDeadline(now: nat, deadline: nat, takes: nat): (a: Awaited)
    ensures a.NotBegun? <==> now >= deadline
    ensures a.Done? <==> now < deadline && now + takes <= deadline
    ensures a.Done? ==> a.end == now + takes
  {
    if now >= deadline then NotBegun else if now + takes <= deadline then Done(now + takes) else CutOff
  }

  type Outcome = Result<Status, Error>

  /** What an acknowledgement means once its request id matches. */
  function Verdict(status: Status, value: Option<int>): (r: Outcome) {
    if status.error.Some? then Failure(Rejected(status.error.value))
    else if status.value != value then Failure(Different)
    else Success(status)
  }

  /** The polling loop from its `k`-th read on. */
  function Poll(g: Gateway, value: Option<int>, id: string, deadline: nat, now: nat, k: nat): (r: (Outcome, seq<Event>))
    decreases deadline - now
  {
    var (takes, reply) := g.read(k);
    var a := BeforeDeadline(now, deadline, takes);
    if a.NotBegun? then (Failure(Unconfirmed), [])
    else if a.CutOff? then (Failure(Unconfirmed), [Read(now, deadline, None)])
    else
      var seen := [Read(now, a.end, Some(reply))];
      if reply.Failed? then (Failure(ReadFailed), seen)
      else if !g.active(2 * k + 1) then (Failure(Inactive), seen + [Check(false)])
      else if reply.Unusable? then (Failure(NoStatus), seen + [Check(true)])
      else if reply.status.id == Some(id) then (Verdict(reply.status, value), seen + [Check(true)])
      else
        var p := BeforeDeadline(a.end, deadline, INTERVAL + g.pause(k));
        if p.NotBegun? then (Failure(Unconfirmed), seen + [Check(true)])
        else if p.CutOff? then (Failure(Unconfirmed), seen + [Check(true), Pause(a.end, deadline)])
        else if !g.active(2 * k + 2) then (Failure(Inactive), seen + [Check(true), Pause(a.end, p.end), Check(false)])
        else
          var (r, log) := Poll(g, value, id, deadline, p.end, k + 1);
          (r, seen + [Check(true), Pause(a.end, p.end), Check(true)] + log)
  }

  /** A whole call that starts at time 0. */
  function Run(g: Gateway, value: Option<int>, id: string): (r: (Outcome, seq<Event>)) {
    if !g.active(0) then (Failure(Inactive), [Check(false)])
    else
      var (takes, reply) := g.read(0);
      var a := BeforeDeadline(0, DEADLINE, takes);
      if !a.Done? then (Failure(Unconfirmed), [Check(true), Read(0, DEADLINE, None)])
      else
        var begun := [Check(true), Read(0, a.end, Some(reply))];
        if reply.Failed? then (Failure(ReadFailed), begun)
        else if !g.active(1) then (Failure(Inactive), begun + [Check(false)])
        else if reply.Unusable? then (Failure(NoStatus), begun + [Check(true)])
        else
          var s := BeforeDeadline(a.end, DEADLINE, g.post.0);
          if s.NotBegun? then (Failure(Unconfirmed), begun + [Check(true)])
          else if s.CutOff? then (Failure(Unconfirmed), begun + [Check(true), Send(a.end, DEADLINE, None)])
          else
            var sent := begun + [Check(true), Send(a.end, s.end, Some(g.post.1))];
            if !g.post.1 then (Failure(PostFailed), sent)
            else if !g.active(2) then (Failure(Inactive), sent + [Check(false)])
            else
              var (r, log) := Poll(g, value, id, DEADLINE, s.end, 1);
              (r, sent + [Check(true)] + log)
  }

  method SetOverrideWith(g: Gateway, value: Option<int>, id: string) returns (r: Outcome, log: seq<Event>)
    ensures (r, log) == Run(g, value, id)
  {
    hide Poll, Verdict;
    var now := 0;
    var ok := g.active(0);
    log := [Check(ok)];
    if !ok { return Failure(Inactive), log; }
    var (takes, initial) := g.read(0);
    var a := BeforeDeadline(now, DEADLINE, takes);
    if !a.Done? {
      log := [Check(true), Read(now, DEADLINE, None)];
      return Failure(Unconfirmed), log;
    }
    log := [Check(true), Read(now, a.end, Some(initial))];
    ghost var begun := log;
    now := a.end;
    if initial.Failed? { return Failure(ReadFailed), log; }
    ok := g.active(1);
    log := log + [Check(ok)];
    if !ok { return Failure(Inactive), log; }
    if initial.Unusable? { return Failure(NoStatus), log; }
    var s := BeforeDeadline(now, DEADLINE, g.post.0);
    if s.NotBegun? { return Failure(Unconfirmed), log; }
    if s.CutOff? {
      log := log + [Send(now, DEADLINE, None)];
      assert log == begun + [Check(true), Send(now, DEADLINE, None)];
      return Failure(Unconfirmed), log;
    }
    log := log + [Send(now, s.end, Some(g.post.1))];
    assert log == begun + [Check(true), Send(now, s.end, Some(g.post.1))];
    now := s.end;
    if !g.post.1 { return Failure(PostFailed), log; }
    ok := g.active(2);
    log := log + [Check(ok)];
    if !ok { return Failure(Inactive), log; }
    ghost var whole := Run(g, value, id);
    StartedRun(g, value, id);
    assert log == Begun(g);
    var k := 1;
    while true
      invariant k >= 1
      invariant whole == (Poll(g, value, id, DEADLINE, now, k).0, log + Poll(g, value, id, DEADLINE, now, k).1)
      decreases DEADLINE - now
    {
      PollStep(g, value, id, DEADLINE, now, k, log);
      var (takes, reply) := g.read(k);
      a := BeforeDeadline(now, DEADLINE, takes);
      if a.NotBegun? { return Failure(Unconfirmed), log; }
      if a.CutOff? { return Failure(Unconfirmed), log + [Read(now, DEADLINE, None)]; }
      log := log + [Read(now, a.end, Some(reply))];
      if reply.Failed? { return Failure(ReadFailed), log; }
      ok := g.active(2 * k + 1);
      log := log + [Check(ok)];
      if !ok { return Failure(Inactive), log; }
      if reply.Unusable? { return Failure(NoStatus), log; }
      if reply.status.id == Some(id) { return Verdict(reply.status, value), log; }
      var p := BeforeDeadline(a.end, DEADLINE, INTERVAL + g.pause(k));
      if p.NotBegun? { return Failure(Unconfirmed), log; }
      if p.CutOff? { return Failure(Unconfirmed), log + [Pause(a.end, DEADLINE)]; }
      log := log + [Pause(a.end, p.end)];
      ok := g.active(2 * k + 2);
      log := log + [Check(ok)];
      if !ok { return Failure(Inactive), log; }
      now, k := p.end, k + 1;
    }
  }

  /** One round of the loop, appended to what has been logged. */
  lemma PollStep(g: Gateway, value: Option<int>, id: string, deadline: nat, now: nat, k: nat, log: seq<Event>)
    ensures var (takes, reply) := g.read(k);
      var a := BeforeDeadline(now, deadline, takes);
      var (r, rest) := Poll(g, value, id, deadline, now, k);
      if a.NotBegun? then r == Failure(Unconfirmed) && log + rest == log
      else if a.CutOff? then r == Failure(Unconfirmed) && log + rest == log + [Read(now, deadline, None)]
      else
        var seen := log + [Read(now, a.end, Some(reply))];
        if reply.Failed? then r == Failure(ReadFailed) && log + rest == seen
        else if !g.active(2 * k + 1) then r == Failure(Inactive) && log + rest == seen + [Check(false)]
        else if reply.Unusable? then r == Failure(NoStatus) && log + rest == seen + [Check(true)]
        else if reply.status.id == Some(id) then r == Verdict(reply.status, value) && log + rest == seen + [Check(true)]
        else
          var checked := seen + [Check(true)];
          var p := BeforeDeadline(a.end, deadline, INTERVAL + g.pause(k));
          if p.NotBegun? then r == Failure(Unconfirmed) && log + rest == checked
          else if p.CutOff? then r == Failure(Unconfirmed) && log + rest == checked + [Pause(a.end, deadline)]
          else if !g.active(2 * k + 2) then r == Failure(Inactive) && log + rest == checked + [Pause(a.end, p.end)] + [Check(false)]
          else
            var (r', rest') := Poll(g, value, id, deadline, p.end, k + 1);
            r == r' && log + rest == checked + [Pause(a.end, p.end)] + [Check(true)] + rest'
  {
    hide Verdict;
  }

  // ---------------------------------------------------------------- properties of every run

  function Reads(log: seq<Event>): (n: nat) {
    if log == [] then 0 else (if log[0].Read? then 1 else 0) + Reads(log[1..])
  }

  lemma {:induction false} ReadsJoin(a: seq<Event>, b: seq<Event>)
    ensures Reads(a + b) == Reads(a) + Reads(b)
  {
    if a == [] {
      assert a + b == b;
    } else {
      ReadsJoin(a[1..], b);
      assert (a + b)[1..] == a[1..] + b;
    }
  }

  predicate Within(e: Event, now: nat, deadline: nat) {
    e.Check? || now <= e.start <= e.end <= deadline
  }

  predicate Acknowledges(e: Event, id: string) {
    e.Read? && e.reply.Some? && e.reply.value.Usable? && e.reply.value.status.id == Some(id)
  }

  /** What polling guarantees from any point on: it sends nothing, keeps to the deadline, and
      ends at the first acknowledgement, which alone can make it succeed. */
  ghost predicate Polls(r: Outcome, log: seq<Event>, value: Option<int>, id: string, deadline: nat, now: nat) {
    && (forall i | 0 <= i < |log| :: !log[i].Send? && Within(log[i], now, deadline))
    && (forall i | 0 <= i < |log| :: Acknowledges(log[i], id) ==> i + 2 >= |log|)
    && (Reads(log) > 0 ==> INTERVAL * (Reads(log) - 1) < deadline - now)
    && (r.Success? ==>
      && |log| >= 2 && Acknowledges(log[|log| - 2], id) && log[|log| - 2].reply.value.status == r.value
      && r.value.error.None? && r.value.value == value && log[|log| - 1] == Check(true))
  }

  /** A round that goes on adds a read that does not acknowledge, and takes at least the interval. */
  lemma RoundKeeps(r: Outcome, log: seq<Event>, value: Option<int>, id: string, deadline: nat, now: nat, first: seq<Event>, next: nat)
    requires |first| == 4 && first[0].Read? && !Acknowledges(first[0], id)
    requires first[1].Check? && first[2].Pause? && first[3] == Check(true)
    requires forall i | 0 <= i < 4 :: Within(first[i], now, deadline)
    requires now + INTERVAL <= next <= deadline && Polls(r, log, value, id, deadline, next)
    ensures Polls(r, first + log, value, id, deadline, now)
  {
    var all := first + log;
    ReadsJoin(first, log);
    ReadsOfRound(first);
    forall i | 0 <= i < |all| ensures !all[i].Send? && Within(all[i], now, deadline) && (Acknowledges(all[i], id) ==> i + 2 >= |all|) {
      if i >= 4 { assert all[i] == log[i - 4]; }
    }
  }

  lemma ReadsOfRound(first: seq<Event>)
    requires |first| == 4 && first[0].Read? && first[1].Check? && first[2].Pause? && first[3].Check?
    ensures Reads(first) == 1
  {
    assert first == [first[0]] + [first[1]] + [first[2]] + [first[3]];
    ReadsJoin([first[0]] + [first[1]] + [first[2]], [first[3]]);
    ReadsJoin([first[0]] + [first[1]], [first[2]]);
    ReadsJoin([first[0]], [first[1]]);
  }

  /** A round that ends the loop. */
  lemma LastRound(r: Outcome, log: seq<Event>, value: Option<int>, id: string, deadline: nat, now: nat)
    requires |log| <= 4 && (forall i | 0 <= i < |log| :: !log[i].Send? && Within(log[i], now, deadline))
    requires |log| > 0 ==> log[0].Read? && now < deadline
    requires forall i | 1 <= i < |log| :: !log[i].Read?
    requires |log| > 2 ==> !Acknowledges(log[0], id)
    requires r.Success? ==>
      |log| == 2 && Acknowledges(log[0], id) && log[0].reply.value.status == r.value && r == Verdict(r.value, value) && log[1] == Check(true)
    ensures Polls(r, log, value, id, deadline, now)
  {
    if log != [] {
      assert log == [log[0]] + log[1..];
      ReadsJoin([log[0]], log[1..]);
      NoReads(log[1..]);
    }
  }

  lemma {:induction false} NoReads(log: seq<Event>)
    requires forall i | 0 <= i < |log| :: !log[i].Read?
    ensures Reads(log) == 0
  {
    if log != [] { NoReads(log[1..]); }
  }

  lemma {:induction false} PollingIsSafe(g: Gateway, value: Option<int>, id: string, deadline: nat, now: nat, k: nat)
    ensures var (r, log) := Poll(g, value, id, deadline, now, k);
      Polls(r, log, value, id, deadline, now)
    decreases deadline - now
  {
    hide Polls, Reads;
    var (takes, reply) := g.read(k);
    var a := BeforeDeadline(now, deadline, takes);
    var (r, log) := Poll(g, value, id, deadline, now, k);
    if a.Done? && reply.Usable? && reply.status.id != Some(id) && g.active(2 * k + 1)
      && BeforeDeadline(a.end, deadline, INTERVAL + g.pause(k)).Done? && g.active(2 * k + 2)
    {
      var next := a.end + INTERVAL + g.pause(k);
      PollingIsSafe(g, value, id, deadline, next, k + 1);
      var (r', rest) := Poll(g, value, id, deadline, next, k + 1);
      var first := [Read(now, a.end, Some(reply)), Check(true), Pause(a.end, next), Check(true)];
      assert [Read(now, a.end, Some(reply))] + [Check(true), Pause(a.end, next), Check(true)] == first;
      assert (r, log) == (r', first + rest);
      RoundKeeps(r, rest, value, id, deadline, now, first, next);
    } else {
      LastRound(r, log, value, id, deadline, now);
    }
  }

  /** The call up to the poll: everything that happens when it ends before. */
  predicate Started(g: Gateway) {
    && g.active(0) && g.active(1) && g.active(2)
    && BeforeDeadline(0, DEADLINE, g.read(0).0).Done? && g.read(0).1.Usable?
    && BeforeDeadline(g.read(0).0, DEADLINE, g.post.0).Done? && g.post.1
  }

  function Begun(g: Gateway): (log: seq<Event>) {
    var (takes, reply) := g.read(0);
    [Check(true), Read(0, takes, Some(reply)), Check(true), Send(takes, takes + g.post.0, Some(true)), Check(true)]
  }

  lemma StartedRun(g: Gateway, value: Option<int>, id: string)
    requires Started(g)
    ensures var (r, log) := Poll(g, value, id, DEADLINE, g.read(0).0 + g.post.0, 1);
      Run(g, value, id) == (r, Begun(g) + log)
  {
    hide Poll;
    var (takes, reply) := g.read(0);
    var begun := [Check(true), Read(0, takes, Some(reply))];
    var sent := begun + [Check(true), Send(takes, takes + g.post.0, Some(true))];
    assert sent + [Check(true)] == Begun(g);
  }

  /** On every run: at most one POST, sent only after a usable preflight read on an active
      connection and never repeated; everything ends by the deadline, after at most 50
      acknowledgement reads; success means that the last read, made after an accepted POST,
      acknowledged this request with this value and no error on a connection still active. */
  lemma EveryRunIsSafe(g: Gateway, value: Option<int>, id: string)
    ensures var (r, log) := Run(g, value, id);
      && (forall i | 0 <= i < |log| :: log[i].Send? ==>
        i == 3 && log[0] == Check(true) && log[1].Read? && log[1].reply.Some? && log[1].reply.value.Usable? && log[2] == Check(true))
      && (forall i | 0 <= i < |log| :: Within(log[i], 0, DEADLINE))
      && (|log| > 4 ==> Reads(log[4..]) <= 50)
      && (forall i | 4 <= i < |log| :: Acknowledges(log[i], id) ==> i + 2 >= |log|)
      && (r.Success? ==>
        && |log| >= 7 && log[3].Send? && log[3].accepted == Some(true)
        && Acknowledges(log[|log| - 2], id) && log[|log| - 2].reply.value.status == r.value
        && r.value.error.None? && r.value.value == value && log[|log| - 1] == Check(true))
  {
    hide Poll;
    if Started(g) {
      hide Run;
      StartedRun(g, value, id);
      var next := g.read(0).0 + g.post.0;
      PollingIsSafe(g, value, id, DEADLINE, next, 1);
      var (r, rest) := Poll(g, value, id, DEADLINE, next, 1);
      var log := Begun(g) + rest;
      assert log[4..] == [Check(true)] + rest;
      ReadsJoin([Check(true)], rest);
      forall i | 0 <= i < |log| ensures Within(log[i], 0, DEADLINE) && (i >= 4 ==> !log[i].Send? && (Acknowledges(log[i], id) ==> i + 2 >= |log|)) {
        if i >= 5 { assert log[i] == rest[i - 5]; }
      }
    } else {
      var (r, log) := Run(g, value, id);
      assert |log| <= 5 && r.Failure?;
      if |log| == 5 { NoReads(log[4..]); }
    }
  }
}
