/** The unlock session (`src-tauri/src/auth.rs`) under concurrent logins, biometric prompts,
    settings saves, logouts and checks. Logins, the end of a prompt and saves each run in one
    hold of the configuration gate; logouts and checks do not take it. Times are in seconds. */
module AuthSession {
  import opened Text

  const TTL := 900

  /** The fields `policy_changed` compares; a flag that is absent is not one that is off. The
      plaintext password, which it compares too, is absent from every loaded configuration. */
  datatype Policy = Policy(enabled: Option<bool>, username: Option<string>, verifier: Option<string>, biometric: Option<bool>) {
    /** `auth_enabled.unwrap_or(false)`. */
    predicate Enabled() { enabled == Some(true) }

    /** `biometric_enabled`. */
    predicate Biometric() { Enabled() && biometric == Some(true) }
  }

  /** `policy` is bookkeeping: what the session was granted under. */
  datatype Session = Session(token: string, created: nat, policy: Policy)

  predicate ValidAt(s: Session, now: nat) { now < s.created || now - s.created < TTL }

  /** `session_unlocked_at`: an expired session is dropped when it is looked at. */
  function Looked(s: Option<Session>, now: nat): (r: Option<Session>) {
    if s.Some? && !ValidAt(s.value, now) then None else s
  }

  function Revoked(s: Option<Session>, before: Policy, after: Policy): (r: Option<Session>) {
    if before != after then None else s
  }

  /** A login under the stored policy: None where the credentials are refused. */
  function LoggedInAs(s: Option<Session>, stored: Policy, matches: bool, token: string, now: nat): (r: (Option<Session>, Option<string>)) {
    if !stored.Enabled() then (s, Some("disabled"))
    else if !matches then (s, None)
    else (Some(Session(token, now, stored)), Some(token))
  }

  class Sessions {
    var session: Option<Session>

    constructor ()
      ensures session == None
    {
      session := None;
    }

    method Unlocked(now: nat) returns (live: bool)
      modifies this
      ensures session == Looked(old(session), now) && live == session.Some?
      ensures live ==> ValidAt(session.value, now)
    {
      if session.Some? && !ValidAt(session.value, now) {
        session := None;
      }
      return session.Some?;
    }

    method Start(token: string, now: nat, policy: Policy)
      modifies this
      ensures session == Some(Session(token, now, policy))
    {
      session := Some(Session(token, now, policy));
    }

    /** `login_with_config`, in one hold of the gate. */
    method Login(stored: Policy, matches: bool, token: string, now: nat) returns (answer: Option<string>)
      modifies this
      ensures (session, answer) == LoggedInAs(old(session), stored, matches, token, now)
    {
      if !stored.Enabled() {
        return Some("disabled");
      }
      if !matches {
        return None;
      }
      Start(token, now, stored);
      return Some(token);
    }

    method RevokeIfChanged(before: Policy, after: Policy) returns (notified: bool)
      modifies this
      ensures session == Revoked(old(session), before, after) && notified == (before != after)
    {
      notified := false;
      if before.enabled != after.enabled || before.username != after.username
        || before.verifier != after.verifier || before.biometric != after.biometric
      {
        session := None;
        notified := true;
      }
    }

    method Logout()
      modifies this
      ensures session == None
    {
      session := None;
    }
  }

  // ---------------------------------------------------------------- interleavings

  /** Where one activity stands. All phases but `Idle` and `Prompting` hold the gate. */
  datatype Phase =
    | Idle
    | LoginHeld | LoginReady(policy: Policy)
    | Prompting(policy: Policy) | PromptDone(policy: Policy) | PromptReady(policy: Policy)
    | SaveHeld | SaveChecked(policy: Policy) | SaveReady(policy: Policy) | SaveStored(policy: Policy, next: Policy)

  datatype World = World(now: nat, session: Option<Session>, stored: Policy, gate: Option<nat>, phases: map<nat, Phase>)

  datatype Step =
    | Tick(seconds: nat) | Check | Logout
    | LoginEnter(id: nat) | LoginVerify(id: nat, matches: bool) | LoginGrant(id: nat, token: string)
    | PromptOpen(id: nat) | PromptEnter(id: nat) | PromptCompare(id: nat, accepted: bool) | PromptGrant(id: nat, token: string)
    | SaveEnter(id: nat) | SaveCheck(id: nat) | SaveRecheck(id: nat) | SaveStore(id: nat, next: Policy) | SaveRevoke(id: nat)
    | Abort(id: nat)

  function PhaseOf(w: World, id: nat): (p: Phase) {
    if id in w.phases then w.phases[id] else Idle
  }

  function At(w: World, id: nat, p: Phase): (r: World) { w.(phases := w.phases[id := p]) }

  function Enter(w: World, id: nat, p: Phase): (r: World) { At(w.(gate := Some(id)), id, p) }

  function Leave(w: World, id: nat): (r: World) { At(w.(gate := None), id, Idle) }

  /** `require_session`: nothing to check without authentication, else the session is looked at. */
  function Required(w: World, id: nat, p: Phase): (r: World) {
    if !w.stored.Enabled() then At(w, id, p)
    else
      var seen := w.(session := Looked(w.session, w.now));
      if seen.session.Some? then At(seen, id, p) else Leave(seen, id)
  }

  /** One step; one that is not possible here changes nothing. */
  function Apply(w: World, step: Step): (r: World) {
    match step
    case Tick(seconds) => w.(now := w.now + seconds)
    case Check => w.(session := Looked(w.session, w.now))
    case Logout => w.(session := None)
    case LoginEnter(id) => if PhaseOf(w, id).Idle? && w.gate.None? then Enter(w, id, LoginHeld) else w
    case LoginVerify(id, matches) =>
      if !PhaseOf(w, id).LoginHeld? then w
      else if w.stored.Enabled() && matches then At(w, id, LoginReady(w.stored))
      else Leave(w, id)
    case LoginGrant(id, token) =>
      if !PhaseOf(w, id).LoginReady? then w
      else Leave(w.(session := Some(Session(token, w.now, PhaseOf(w, id).policy))), id)
    case PromptOpen(id) =>
      if PhaseOf(w, id).Idle? && w.stored.Biometric() then At(w, id, Prompting(w.stored)) else w
    case PromptEnter(id) =>
      if PhaseOf(w, id).Prompting? && w.gate.None? then Enter(w, id, PromptDone(PhaseOf(w, id).policy)) else w
    case PromptCompare(id, accepted) =>
      if !PhaseOf(w, id).PromptDone? then w
      else if accepted && PhaseOf(w, id).policy == w.stored then At(w, id, PromptReady(PhaseOf(w, id).policy))
      else Leave(w, id)
    case PromptGrant(id, token) =>
      if !PhaseOf(w, id).PromptReady? then w
      else Leave(w.(session := Some(Session(token, w.now, PhaseOf(w, id).policy))), id)
    case SaveEnter(id) => if PhaseOf(w, id).Idle? && w.gate.None? then Enter(w, id, SaveHeld) else w
    case SaveCheck(id) => if PhaseOf(w, id).SaveHeld? then Required(w, id, SaveChecked(w.stored)) else w
    case SaveRecheck(id) =>
      if PhaseOf(w, id).SaveChecked? then Required(w, id, SaveReady(PhaseOf(w, id).policy)) else w
    case SaveStore(id, next) =>
      if PhaseOf(w, id).SaveReady? then At(w.(stored := next), id, SaveStored(PhaseOf(w, id).policy, next)) else w
    case SaveRevoke(id) =>
      if !PhaseOf(w, id).SaveStored? then w
      else Leave(w.(session := Revoked(w.session, PhaseOf(w, id).policy, PhaseOf(w, id).next)), id)
    case Abort(id) =>
      if PhaseOf(w, id).Prompting? then At(w, id, Idle)
      else if PhaseOf(w, id).Idle? || PhaseOf(w, id).SaveStored? then w
      else Leave(w, id)
  }

  function Run(w: World, steps: seq<Step>): (r: World) {
    if steps == [] then w else Apply(Run(w, steps[..|steps| - 1]), steps[|steps| - 1])
  }

  predicate Initial(w: World) { w.session.None? && w.gate.None? && w.phases == map[] }

  ghost predicate Reachable(w: World) {
    exists start: World, steps: seq<Step> :: Initial(start) && Run(start, steps) == w
  }

  predicate Holding(p: Phase) { !p.Idle? && !p.Prompting? }

  /** What a gate holder knows of the stored policy. */
  predicate Knows(p: Phase, stored: Policy) {
    match p
    case LoginReady(policy) => policy == stored && policy.Enabled()
    case PromptDone(policy) => policy.Enabled()
    case Prompting(policy) => policy.Enabled()
    case PromptReady(policy) => policy == stored && policy.Enabled()
    case SaveChecked(policy) => policy == stored
    case SaveReady(policy) => policy == stored
    case SaveStored(_, next) => next == stored
    case _ => true
  }

  /** The policy the session answers to: the stored one, or while a save has stored its policy
      and not yet revoked, the one before. */
  function Governing(w: World): (p: Policy) {
    if w.gate.Some? && PhaseOf(w, w.gate.value).SaveStored? then PhaseOf(w, w.gate.value).policy else w.stored
  }

  ghost predicate Inv(w: World) {
    && (forall id | id in w.phases :: Holding(w.phases[id]) ==> w.gate == Some(id))
    && (w.gate.Some? ==> Holding(PhaseOf(w, w.gate.value)))
    && (forall id | id in w.phases :: Knows(w.phases[id], w.stored))
    && (w.session.Some? ==>
      w.session.value.created <= w.now && w.session.value.policy.Enabled() && w.session.value.policy == Governing(w))
  }

  predicate Saves(step: Step) {
    step.SaveEnter? || step.SaveCheck? || step.SaveRecheck? || step.SaveStore? || step.SaveRevoke?
  }

  lemma SaveKeeps(w: World, step: Step)
    requires Inv(w) && Saves(step)
    ensures Inv(Apply(w, step))
  {
  }

  lemma StepKeeps(w: World, step: Step)
    requires Inv(w)
    ensures Inv(Apply(w, step))
  {
    if Saves(step) {
      hide Inv, Apply;
      SaveKeeps(w, step);
    }
  }

  lemma {:induction false} RunKeeps(w: World, steps: seq<Step>)
    requires Initial(w)
    ensures Inv(Run(w, steps))
  {
    hide Apply, Inv;
    if steps != [] {
      RunKeeps(w, steps[..|steps| - 1]);
      StepKeeps(Run(w, steps[..|steps| - 1]), steps[|steps| - 1]);
    } else {
      InitialHolds(w);
    }
  }

  lemma InitialHolds(w: World)
    requires Initial(w)
    ensures Inv(w)
  {
  }

  lemma ReachableHolds(w: World)
    requires Reachable(w)
    ensures Inv(w)
  {
    hide Inv, Run, Initial;
    var start: World, steps: seq<Step> :| Initial(start) && Run(start, steps) == w;
    RunKeeps(start, steps);
  }

  /** A save is between storing a policy that differs and revoking. */
  predicate Unrevoked(w: World) {
    && w.gate.Some?
    && PhaseOf(w, w.gate.value).SaveStored?
    && PhaseOf(w, w.gate.value).policy != PhaseOf(w, w.gate.value).next
  }

  /** In every interleaving, a session that a check finds live is younger than the limit, was
      granted with authentication enabled, and was granted under a policy equal to the stored
      one exactly unless a save has stored another one and not revoked yet. */
  lemma LiveSessionsAreCurrent(w: World)
    requires Reachable(w) && Looked(w.session, w.now).Some?
    ensures var s := Looked(w.session, w.now).value;
      && s.created <= w.now < s.created + TTL
      && s.policy.Enabled()
      && (s.policy == w.stored <==> !Unrevoked(w))
  {
    hide Reachable;
    ReachableHolds(w);
  }

  /** When that save ends, no session of the old policy is left. */
  lemma RevocationIsComplete(w: World)
    requires Reachable(w) && Unrevoked(w)
    ensures var after := Apply(w, SaveRevoke(w.gate.value)); after.session.None? && after.gate.None?
  {
    hide Reachable;
    ReachableHolds(w);
  }

  /** The gate has one holder, so a login or prompt that is about to grant does so under the
      policy that is stored at that moment. */
  lemma GrantsAreCurrent(w: World, step: Step)
    requires Reachable(w) && Apply(w, step).session.Some? && Apply(w, step).session != w.session
    ensures var s := Apply(w, step).session.value;
      && s.created == w.now && s.policy == w.stored && w.stored.Enabled() && (step.LoginGrant? || step.PromptGrant?)
      && (step.PromptGrant? ==> PhaseOf(w, step.id).policy == w.stored)
  {
    hide Reachable;
    ReachableHolds(w);
  }

  /** The protocol's steps of one login, taken without interruption, are the method's effect. */
  lemma UninterruptedLogin(w: World, id: nat, matches: bool, token: string)
    requires w.gate.None? && PhaseOf(w, id).Idle?
    ensures var v := Run(w, [LoginEnter(id), LoginVerify(id, matches), LoginGrant(id, token)]);
      && v == World(w.now, LoggedInAs(w.session, w.stored, matches, token, w.now).0, w.stored, None, w.phases[id := Idle])
  {
    hide Run;
    RunThree(w, LoginEnter(id), LoginVerify(id, matches), LoginGrant(id, token));
    var held := Apply(w, LoginEnter(id));
    var verified := Apply(held, LoginVerify(id, matches));
    assert verified.phases == w.phases[id := PhaseOf(verified, id)];
  }

  lemma RunThree(w: World, x: Step, y: Step, z: Step)
    ensures Run(w, [x, y, z]) == Apply(Apply(Apply(w, x), y), z)
  {
    hide Apply;
    assert [x, y, z][..2] == [x, y] && [x, y][..1] == [x] && [x][..0] == [];
    assert Run(w, []) == w;
    assert Run(w, [x]) == Apply(w, x);
    assert Run(w, [x, y]) == Apply(Apply(w, x), y);
  }

  predicate Grants(step: Step) { step.LoginGrant? || step.PromptGrant? }

  /** A logout lasts until the next grant, whatever else happens; no check brings a session back. */
  lemma {:induction false} LogoutLasts(w: World, steps: seq<Step>)
    requires forall i | 0 <= i < |steps| :: !Grants(steps[i])
    ensures Run(Apply(w, Logout), steps).session == None
  {
    hide Apply;
    if steps != [] {
      var n := |steps| - 1;
      LogoutLasts(w, steps[..n]);
      NoneStays(Run(Apply(w, Logout), steps[..n]), steps[n]);
    } else {
      NoneStays(w, Logout);
    }
  }

  lemma NoneStays(w: World, step: Step)
    requires (w.session == None && !Grants(step)) || step == Logout
    ensures Apply(w, step).session == None
  {
  }

  /** The window exists: a check between store and revoke accepts a session of the old policy. */
  lemma OldSessionInTheWindow(old1: Policy, new1: Policy)
    requires old1.Enabled() && old1 != new1
    ensures exists w: World :: Reachable(w) && Unrevoked(w) && w.stored == new1 && Looked(w.session, w.now).Some?
  {
    hide Reachable, Run;
    var w3 := LoggedIn(old1);
    hide Reachable;
    LoginRuns(old1);
    var w4 := Apply(w3, SaveEnter(1));
    var w5 := Apply(w4, SaveCheck(1));
    var w6 := Apply(w5, SaveRecheck(1));
    var w7 := Apply(w6, SaveStore(1, new1));
    assert Unrevoked(w7) && w7.stored == new1 && Looked(w7.session, w7.now).Some?;
    hide Apply, Unrevoked, Looked;
    StepIsReachable(w3, SaveEnter(1));
    StepIsReachable(w4, SaveCheck(1));
    StepIsReachable(w5, SaveRecheck(1));
    StepIsReachable(w6, SaveStore(1, new1));
  }

  /** The world after one login under a policy. */
  function LoggedIn(policy: Policy): (w: World) {
    World(0, Some(Session("t", 0, policy)), policy, None, map[0 := Idle])
  }

  lemma LoginRuns(policy: Policy)
    requires policy.Enabled()
    ensures Reachable(LoggedIn(policy))
  {
    var start := World(0, None, policy, None, map[]);
    StartIsReachable(start);
    hide Reachable;
    var w1 := Apply(start, LoginEnter(0));
    var w2 := Apply(w1, LoginVerify(0, true));
    StepIsReachable(start, LoginEnter(0));
    StepIsReachable(w1, LoginVerify(0, true));
    StepIsReachable(w2, LoginGrant(0, "t"));
    assert Apply(w2, LoginGrant(0, "t")).phases == LoggedIn(policy).phases;
  }

  lemma StartIsReachable(w: World)
    requires Initial(w)
    ensures Reachable(w)
  {
    assert Run(w, []) == w;
  }

  lemma StepIsReachable(w: World, step: Step)
    requires Reachable(w)
    ensures Reachable(Apply(w, step))
  {
    hide Apply, Initial;
    var start: World, steps: seq<Step> :| Initial(start) && Run(start, steps) == w;
    assert (steps + [step])[..|steps|] == steps;
    assert Run(start, steps + [step]) == Apply(w, step);
  }
}
