/** The commands of the unlock session as whole calls: a settings save (`save_config` in
    `src-tauri/src/lib.rs`) with its two session checks and the revocation after it, login, logout
    and check (`src-tauri/src/auth.rs`), over the stored file and under any outcome of its commits. */
module SettingsSave {
  import opened Text
  import A = AuthSession
  import C = ConfigStore

  /** What the authentication policy reads of the settings besides the verifier. */
  datatype Facets = Facets(enabled: Option<bool>, username: Option<string>, blank: bool, biometric: Option<bool>)

  datatype Refusal = Storage(error: C.Error) | Locked | BadPolicy

  /** The draws of one read or write of the file, and how its commit goes. */
  datatype Chance = Chance(draw: C.Draw, commit: C.Commit)

  /** What the three reads and the write of one call meet, and when its two checks happen. */
  datatype Course = Course(first: Chance, second: Chance, third: Chance, last: Chance, salt: nat, early: nat, late: nat)

  /** The process: its cryptography, keys and the reading of its settings. */
  datatype Setup = Setup(x: C.Crypto, key: C.Key, legacy: Option<C.Key>, facets: int -> Facets)

  datatype Outcome = Outcome(file: C.File, session: Option<A.Session>, result: Result<(), Refusal>)

  function PolicyOf(p: Setup, config: C.Config): (policy: A.Policy) {
    var f := p.facets(config.settings);
    A.Policy(f.enabled, f.username, config.verifier, f.biometric)
  }

  /** `validate_policy`. */
  predicate Permitted(p: Setup, config: C.Config) {
    PolicyOf(p, config).Enabled() ==> !p.facets(config.settings).blank && config.verifier.Some?
  }

  function Loaded(p: Setup, file: C.File, chance: Chance): (r: (C.File, Result<C.Config, C.Error>)) {
    var (left, result, _) := C.Load(p.x, file, p.key, p.legacy, chance.draw, chance.commit);
    (left, result)
  }

  /** `require_session`, with the read of the file it begins with. */
  function Require(p: Setup, file: C.File, session: Option<A.Session>, chance: Chance, now: nat): (r: Outcome) {
    var (left, config) := Loaded(p, file, chance);
    if config.Failure? then Outcome(left, session, Failure(Storage(config.error)))
    else if !PolicyOf(p, config.value).Enabled() then Outcome(left, session, Success(()))
    else
      var seen := A.Looked(session, now);
      Outcome(left, seen, if seen.Some? then Success(()) else Failure(Locked))
  }

  /** The write and the revocation that follows it. */
  function Finish(p: Setup, file: C.File, session: Option<A.Session>, before: C.Config, after: C.Config, chance: Chance): (r: Outcome) {
    if !Permitted(p, after) then Outcome(file, session, Failure(BadPolicy))
    else
      var (left, saved) := C.Save(p.x, file, p.key, after, chance.draw, chance.commit);
      if saved.Failure? then Outcome(left, session, Failure(Storage(saved.error)))
      else Outcome(left, A.Revoked(session, PolicyOf(p, before), PolicyOf(p, after)), Success(()))
  }

  function SaveConfig(p: Setup, file: C.File, session: Option<A.Session>, incoming: C.Config, course: Course): (r: Outcome) {
    var (file1, before) := Loaded(p, file, course.first);
    if before.Failure? then Outcome(file1, session, Failure(Storage(before.error)))
    else
      var early := Require(p, file1, session, course.second, course.early);
      if early.result.Failure? then early
      else
        var after := C.PrepareSave(p.x, incoming, before.value, course.salt);
        if after.Failure? then early.(result := Failure(Storage(after.error)))
        else
          var late := Require(p, early.file, early.session, course.third, course.late);
          if late.result.Failure? then late
          else Finish(p, late.file, late.session, before.value, after.value, course.last)
  }

  /** One command of the session: a settings save, a login, a logout or a check. */
  datatype Call =
    | SaveCall(incoming: C.Config, course: Course)
    | LoginCall(matches: bool, token: string, now: nat, chance: Chance)
    | LogoutCall
    | CheckCall(now: nat)

  datatype State = State(file: C.File, session: Option<A.Session>)

  /** What one command leaves, the next one waiting for its end. */
  function Serve(p: Setup, s: State, call: Call): (r: State) {
    match call
    case SaveCall(incoming, course) =>
      var r := SaveConfig(p, s.file, s.session, incoming, course);
      State(r.file, r.session)
    case LoginCall(matches, token, now, chance) =>
      var (left, config) := Loaded(p, s.file, chance);
      State(left, if config.Failure? then s.session
                  else A.LoggedInAs(s.session, PolicyOf(p, config.value), matches, token, now).0)
    case LogoutCall => s.(session := None)
    case CheckCall(now) => s.(session := A.Looked(s.session, now))
  }

  function ServeAll(p: Setup, s: State, calls: seq<Call>): (r: State) {
    if calls == [] then s else Serve(p, ServeAll(p, s, calls[..|calls| - 1]), calls[|calls| - 1])
  }

  class App {
    const setup: Setup
    const store: C.Store
    const sessions: A.Sessions

    ghost predicate Valid()
      reads store
    {
      store.crypto == setup.x
    }

    constructor (p: Setup, file: C.File)
      ensures Valid() && setup == p && store.file == file && sessions.session == None && fresh(store) && fresh(sessions)
    {
      setup := p;
      store := new C.Store(p.x, file);
      sessions := new A.Sessions();
    }

    method RequireSession(chance: Chance, now: nat) returns (r: Result<(), Refusal>)
      requires Valid()
      modifies store, sessions
      ensures Valid() && Outcome(store.file, sessions.session, r) == Require(setup, old(store.file), old(sessions.session), chance, now)
    {
      var config, _ := store.LoadPath(setup.key, setup.legacy, chance.draw, chance.commit);
      if config.Failure? {
        return Failure(Storage(config.error));
      }
      if !PolicyOf(setup, config.value).Enabled() {
        return Success(());
      }
      var live := sessions.Unlocked(now);
      return if live then Success(()) else Failure(Locked);
    }

    method Save(incoming: C.Config, course: Course) returns (r: Result<(), Refusal>)
      requires Valid()
      modifies store, sessions
      ensures Valid()
      ensures Outcome(store.file, sessions.session, r) == SaveConfig(setup, old(store.file), old(sessions.session), incoming, course)
    {
      hide C.Load, C.Save, C.PrepareSave;
      var before, _ := store.LoadPath(setup.key, setup.legacy, course.first.draw, course.first.commit);
      if before.Failure? {
        return Failure(Storage(before.error));
      }
      r := RequireSession(course.second, course.early);
      if r.Failure? {
        return;
      }
      var after := C.PrepareSave(setup.x, incoming, before.value, course.salt);
      if after.Failure? {
        return Failure(Storage(after.error));
      }
      r := RequireSession(course.third, course.late);
      if r.Failure? {
        return;
      }
      if !Permitted(setup, after.value) {
        return Failure(BadPolicy);
      }
      var saved := store.SavePath(setup.key, after.value, course.last.draw, course.last.commit);
      if saved.Failure? {
        return Failure(Storage(saved.error));
      }
      var _ := sessions.RevokeIfChanged(PolicyOf(setup, before.value), PolicyOf(setup, after.value));
      return Success(());
    }

    method Login(matches: bool, token: string, now: nat, chance: Chance) returns (answer: Result<Option<string>, Refusal>)
      requires Valid()
      modifies store, sessions
      ensures Valid()
      ensures State(store.file, sessions.session)
        == Serve(setup, State(old(store.file), old(sessions.session)), LoginCall(matches, token, now, chance))
    {
      var config, _ := store.LoadPath(setup.key, setup.legacy, chance.draw, chance.commit);
      if config.Failure? {
        return Failure(Storage(config.error));
      }
      var granted := sessions.Login(PolicyOf(setup, config.value), matches, token, now);
      return Success(granted);
    }

    method Logout()
      requires Valid()
      modifies sessions
      ensures Valid()
      ensures State(store.file, sessions.session) == Serve(setup, State(old(store.file), old(sessions.session)), LogoutCall)
    {
      sessions.Logout();
    }

    method Check(now: nat) returns (live: bool)
      requires Valid()
      modifies sessions
      ensures Valid()
      ensures State(store.file, sessions.session) == Serve(setup, State(old(store.file), old(sessions.session)), CheckCall(now))
      ensures live == sessions.session.Some?
    {
      live := sessions.Unlocked(now);
    }
  }

  // ---------------------------------------------------------------- sessions and the stored policy

  /** Every read of the file gives this configuration and changes nothing. */
  ghost predicate Settled(p: Setup, file: C.File, config: C.Config) {
    forall draw, commit :: C.Load(p.x, file, p.key, p.legacy, draw, commit) == (file, Success(config), false)
  }

  /** A session answers to the policy that the file holds. */
  ghost predicate Answers(p: Setup, file: C.File, session: Option<A.Session>) {
    session.Some? ==> exists config :: Settled(p, file, config) && session.value.policy == PolicyOf(p, config)
  }

  /** No other writer changed the file between a read and the commit that follows it. */
  predicate Undisturbed(chance: Chance) { !chance.commit.Interfered? }

  lemma SettledIsClean(p: Setup, file: C.File, config: C.Config)
    requires C.Ideal(p.x) && Settled(p, file, config)
    ensures C.Clean(p.x, config)
  {
    hide C.Load, C.Ideal, C.Clean;
    var draw, commit := C.Draw(0, 0), C.Fails;
    assert C.Load(p.x, file, p.key, p.legacy, draw, commit) == (file, Success(config), false);
    C.LoadSettles(p.x, file, p.key, p.legacy, draw, commit, draw, commit);
  }

  /** What a settings save prepares from a clean configuration is clean, and stored as it is. */
  lemma PreparedIsClean(x: C.Crypto, incoming: C.Config, current: C.Config, salt: nat, other: nat)
    requires C.Ideal(x) && C.Clean(x, current) && C.PrepareSave(x, incoming, current, salt).Success?
    ensures var after := C.PrepareSave(x, incoming, current, salt).value;
      C.Clean(x, after) && C.Migrate(x, after, other) == Success((after, false))
  {
  }

  lemma SavedIsSettled(p: Setup, file: C.File, config: C.Config, chance: Chance)
    requires C.Ideal(p.x) && C.Migrate(p.x, config, chance.draw.salt) == Success((config, false))
    requires C.Save(p.x, file, p.key, config, chance.draw, chance.commit).1.Success?
    ensures Settled(p, C.Save(p.x, file, p.key, config, chance.draw, chance.commit).0, config)
  {
    hide C.Load, C.Save, C.Migrate, C.Ideal, C.Envelops;
    var left := C.Save(p.x, file, p.key, config, chance.draw, chance.commit).0;
    forall draw, commit ensures C.Load(p.x, left, p.key, p.legacy, draw, commit) == (left, Success(config), false) {
      C.LoadAfterSave(p.x, file, p.key, config, chance.draw, chance.commit, p.legacy, draw, commit);
    }
  }

  lemma FailedSaveStays(p: Setup, file: C.File, config: C.Config, chance: Chance)
    requires Undisturbed(chance) && C.Save(p.x, file, p.key, config, chance.draw, chance.commit).1.Failure?
    ensures C.Save(p.x, file, p.key, config, chance.draw, chance.commit).0 == file
  {
    hide C.Migrate, C.Encrypt;
  }

  lemma FinishKeeps(p: Setup, file: C.File, session: Option<A.Session>, incoming: C.Config, before: C.Config, salt: nat, chance: Chance)
    requires C.Ideal(p.x) && Settled(p, file, before) && Undisturbed(chance)
    requires C.PrepareSave(p.x, incoming, before, salt).Success?
    requires session.Some? ==> session.value.policy == PolicyOf(p, before)
    ensures var r := Finish(p, file, session, before, C.PrepareSave(p.x, incoming, before, salt).value, chance);
      Answers(p, r.file, r.session)
  {
    hide C.PrepareSave, C.Save, C.Migrate, C.Ideal, C.Clean, Settled;
    SettledIsClean(p, file, before);
    PreparedIsClean(p.x, incoming, before, salt, chance.draw.salt);
    var after := C.PrepareSave(p.x, incoming, before, salt).value;
    if Permitted(p, after) {
      if C.Save(p.x, file, p.key, after, chance.draw, chance.commit).1.Success? {
        SavedIsSettled(p, file, after, chance);
      } else {
        FailedSaveStays(p, file, after, chance);
      }
    }
  }

  lemma SettledRequire(p: Setup, file: C.File, config: C.Config, session: Option<A.Session>, chance: Chance, now: nat)
    requires Settled(p, file, config)
    ensures Loaded(p, file, chance) == (file, Success(config))
    ensures var r := Require(p, file, session, chance, now); r.file == file && (r.session.Some? ==> r.session == session)
  {
    hide C.Load;
  }

  /** A call that finds no session leaves none: it never grants one. */
  lemma NothingGranted(p: Setup, file: C.File, incoming: C.Config, course: Course)
    ensures SaveConfig(p, file, None, incoming, course).session == None
  {
    hide C.Load, C.Save, C.PrepareSave;
  }

  /** A call that was not locked out ends a session exactly when it stored another policy. */
  lemma OnlyChangesRevoke(p: Setup, file: C.File, config: C.Config, session: A.Session, incoming: C.Config, course: Course)
    requires Settled(p, file, config)
    ensures var r := SaveConfig(p, file, Some(session), incoming, course);
      r.result != Failure(Locked) ==>
        (r.session == if r.result.Success? && PolicyOf(p, config) != PolicyOf(p, C.PrepareSave(p.x, incoming, config, course.salt).value)
                      then None else Some(session))
    ensures SaveConfig(p, file, Some(session), incoming, course).result.Success? ==>
      C.PrepareSave(p.x, incoming, config, course.salt).Success?
  {
    hide C.Load, C.Save, C.PrepareSave, Settled, Loaded;
    SettledRequire(p, file, config, Some(session), course.first, course.early);
    SettledRequire(p, file, config, Some(session), course.second, course.early);
    var early := Require(p, file, Some(session), course.second, course.early);
    SettledRequire(p, file, config, early.session, course.third, course.late);
  }

  /** However the commit of a settings save goes, also when it is made but its durability is not
      confirmed, a session that is left answers to the policy the file then holds: revocation
      follows every commit that stored another policy, and a refused save revokes nothing. */
  lemma SessionsFollowTheFile(p: Setup, file: C.File, session: Option<A.Session>, incoming: C.Config, course: Course)
    requires C.Ideal(p.x) && Answers(p, file, session) && Undisturbed(course.last)
    ensures var r := SaveConfig(p, file, session, incoming, course); Answers(p, r.file, r.session)
  {
    hide C.Load, C.Save, C.PrepareSave, C.Ideal, Settled, Finish, Require, Loaded;
    if session.None? {
      NothingGranted(p, file, incoming, course);
    } else {
      var config :| Settled(p, file, config) && session.value.policy == PolicyOf(p, config);
      SettledRequire(p, file, config, session, course.first, course.early);
      SettledRequire(p, file, config, session, course.second, course.early);
      var early := Require(p, file, session, course.second, course.early);
      SettledRequire(p, file, config, early.session, course.third, course.late);
      var late := Require(p, file, early.session, course.third, course.late);
      if C.PrepareSave(p.x, incoming, config, course.salt).Success? {
        FinishKeeps(p, file, late.session, incoming, config, course.salt, course.last);
      }
    }
  }

  /** No other writer interferes with the command's commits. */
  predicate Calm(call: Call) {
    match call
    case SaveCall(_, course) => Undisturbed(course.first) && Undisturbed(course.second) && Undisturbed(course.third) && Undisturbed(course.last)
    case LoginCall(_, _, _, chance) => Undisturbed(chance)
    case _ => true
  }

  /** A load leaves the file of a session alone, and what it leaves reads as what it returned. */
  lemma LoadedAnswers(p: Setup, file: C.File, session: Option<A.Session>, chance: Chance)
    requires C.Ideal(p.x) && Answers(p, file, session) && Undisturbed(chance)
    ensures var (left, config) := Loaded(p, file, chance);
      && Answers(p, left, session)
      && (config.Success? ==> Settled(p, left, config.value))
  {
    hide C.Load, C.Ideal, C.Envelops, C.Clean;
    var (left, config) := Loaded(p, file, chance);
    if session.Some? {
      var was :| Settled(p, file, was) && session.value.policy == PolicyOf(p, was);
      assert C.Load(p.x, file, p.key, p.legacy, chance.draw, chance.commit) == (file, Success(was), false);
    } else if config.Success? {
      forall draw, commit ensures C.Load(p.x, left, p.key, p.legacy, draw, commit) == (left, Success(config.value), false) {
        C.LoadSettles(p.x, file, p.key, p.legacy, chance.draw, chance.commit, draw, commit);
      }
    }
  }

  lemma ServeKeeps(p: Setup, s: State, call: Call)
    requires C.Ideal(p.x) && Answers(p, s.file, s.session) && Calm(call)
    ensures Answers(p, Serve(p, s, call).file, Serve(p, s, call).session)
  {
    hide C.Ideal, SaveConfig, Settled, Loaded;
    match call
    case SaveCall(incoming, course) => SessionsFollowTheFile(p, s.file, s.session, incoming, course);
    case LoginCall(matches, token, now, chance) =>
      LoadedAnswers(p, s.file, s.session, chance);
      var (left, config) := Loaded(p, s.file, chance);
      if config.Success? {
        GrantAnswers(p, left, s.session, config.value, matches, token, now);
      }
    case _ =>
  }

  lemma GrantAnswers(p: Setup, file: C.File, session: Option<A.Session>, config: C.Config, matches: bool, token: string, now: nat)
    requires Answers(p, file, session) && Settled(p, file, config)
    ensures Answers(p, file, A.LoggedInAs(session, PolicyOf(p, config), matches, token, now).0)
  {
    hide Settled;
  }

  /** Over any saves, logins, logouts and checks, a session answers to the policy the file holds,
      whatever the file was at first. */
  lemma {:induction false} SessionsAlwaysFollow(p: Setup, file: C.File, calls: seq<Call>)
    requires C.Ideal(p.x) && forall i | 0 <= i < |calls| :: Calm(calls[i])
    ensures var s := ServeAll(p, State(file, None), calls); Answers(p, s.file, s.session)
  {
    hide C.Ideal, Serve, Calm, Settled;
    if calls != [] {
      var n := |calls| - 1;
      SessionsAlwaysFollow(p, file, calls[..n]);
      ServeKeeps(p, ServeAll(p, State(file, None), calls[..n]), calls[n]);
    }
  }
}
