/** The encrypted configuration file (`src-tauri/src/config_store.rs`) and the password record
    in it (`src-tauri/src/auth_password.rs`). Encryption, password hashing and decoding are
    abstract functions under the laws in `Ideal`. */
module ConfigStore {
  import opened Text

  type Key = int

  /** A configuration: a plaintext password of older versions, its verifier, all other settings. */
  datatype Config = Config(password: Option<string>, verifier: Option<string>, settings: int)

  /** A JSON value of the document: text, or any other value by its identity. */
  datatype Json = Str(s: string) | Value(id: int)

  /** `config.json`: absent, not a JSON object, or its members. */
  datatype File = Missing | Malformed | Document(values: map<string, Json>)

  const CONFIG := "config"
  const FAMILY := "inverter-config:"
  const PREFIX := "inverter-config:v2:"

  /** `seal` and `open` are authenticated encryption under a key and a domain (versioned or
      not), base64 included; `parse` reads a configuration from a plain JSON value; `create`
      makes a verifier with a salt, which `valid` accepts the form of and `matches` compares. */
  datatype Crypto = Crypto(
    seal: (Key, bool, Config, nat) -> string, open: (Key, bool, string) -> Option<Config>, parse: int -> Option<Config>,
    create: (string, nat) -> Option<string>, valid: string -> bool, matches: (string, string) -> bool)

  ghost predicate Ideal(x: Crypto) {
    && (forall k, v, c, n :: x.open(k, v, x.seal(k, v, c, n)) == Some(c))
    && (forall k, v, c, n, l, w :: (l != k || w != v) ==> x.open(l, w, x.seal(k, v, c, n)).None?)
    && (forall k, v, c, n :: ':' !in x.seal(k, v, c, n))
    && (forall p, n :: x.create(p, n).Some? ==> x.valid(x.create(p, n).value) && x.matches(x.create(p, n).value, p))
  }

  datatype Error =
    | BadDocument | UnknownVersion | NotOpened | BadPlain | BadVerifier | NoVerifier | NotSaved | Supplied

  // ---------------------------------------------------------------- the password record

  /** The configuration without its plaintext password, and whether that changed it. */
  function Migrate(x: Crypto, config: Config, salt: nat): (r: Result<(Config, bool), Error>) {
    if config.verifier.Some? then
      if !x.valid(config.verifier.value) then Failure(BadVerifier)
      else Success((config.(password := None), config.password.Some?))
    else if config.password.None? then Success((config, false))
    else if config.password.value == "" then Success((config.(password := None), true))
    else
      var made := x.create(config.password.value, salt);
      if made.None? then Failure(NoVerifier) else Success((config.(password := None, verifier := made), true))
  }

  /** What the settings page saves: the current verifier, unless a new password is given. */
  function PrepareSave(x: Crypto, incoming: Config, current: Config, salt: nat): (r: Result<Config, Error>) {
    if incoming.verifier.Some? then Failure(Supplied)
    else
      var kept := incoming.(password := None, verifier := current.verifier);
      if incoming.password.None? || incoming.password.value == "" then Success(kept)
      else
        var password := incoming.password.value;
        if kept.verifier.Some? && !x.valid(kept.verifier.value) then Failure(BadVerifier)
        else if kept.verifier.Some? && x.matches(kept.verifier.value, password) then Success(kept)
        else
          var made := x.create(password, salt);
          if made.None? then Failure(NoVerifier) else Success(kept.(verifier := made))
  }

  // ---------------------------------------------------------------- envelopes

  function Encrypt(x: Crypto, config: Config, key: Key, nonce: nat): (s: string) {
    if config.verifier.Some? then PREFIX + x.seal(key, true, config, nonce) else x.seal(key, false, config, nonce)
  }

  /** The payload and whether it is a versioned one; other versions are refused. */
  function Payload(encrypted: string): (r: Result<(string, bool), Error>) {
    if PREFIX <= encrypted then Success((encrypted[|PREFIX|..], true))
    else if FAMILY <= encrypted then Failure(UnknownVersion)
    else Success((encrypted, false))
  }

  function Decrypt(x: Crypto, encrypted: string, key: Key): (r: Result<Config, Error>) {
    var p := Payload(encrypted);
    if p.Failure? then Failure(p.error)
    else
      var plain := x.open(key, p.value.1, p.value.0);
      if plain.None? then Failure(NotOpened) else Success(plain.value)
  }

  /** The stored configuration and whether its form has to be brought up to date. */
  function Stored(x: Crypto, value: Json, key: Key, legacy: Option<Key>): (r: Result<(Config, bool), Error>) {
    if value.Value? then
      var plain := x.parse(value.id);
      if plain.None? then Failure(BadPlain) else Success((plain.value, true))
    else
      var p := Payload(value.s);
      if p.Failure? then Failure(p.error)
      else
        var versioned := p.value.1;
        var first := Decrypt(x, value.s, key);
        if first.Success? then Success((first.value, first.value.verifier.Some? && !versioned))
        else if versioned || legacy.None? then Failure(first.error)
        else
          var second := Decrypt(x, value.s, legacy.value);
          if second.Failure? then Failure(first.error) else Success((second.value, true))
  }

  // ---------------------------------------------------------------- loading and saving

  /** How the commit of a new document goes. `Interfered` is what another writer left in the
      file after it was read; the commit then only goes ahead over the content it read. */
  datatype Commit = Fails | Interfered(file: File) | Commits(durable: bool)

  /** Draws of one call. */
  datatype Draw = Draw(salt: nat, nonce: nat)

  function Values(file: File): (m: map<string, Json>) {
    if file.Document? then file.values else map[]
  }

  /** The file after an attempt to commit `next`, and whether it was committed. */
  function Committed(file: File, next: map<string, Json>, commit: Commit): (r: (File, bool)) {
    match commit
    case Fails => (file, false)
    case Interfered(other) => if other == file then (Document(next), true) else (other, false)
    case Commits(_) => (Document(next), true)
  }

  const DEFAULT := Config(None, None, 0)

  /** `load_path_with`: the file left, the result, and whether a save was attempted. */
  function Load(x: Crypto, file: File, key: Key, legacy: Option<Key>, draw: Draw, commit: Commit): (r: (File, Result<Config, Error>, bool)) {
    if file.Malformed? then (file, Failure(BadDocument), false)
    else if CONFIG !in Values(file) then (file, Success(DEFAULT), false)
    else
      var stored := Stored(x, Values(file)[CONFIG], key, legacy);
      if stored.Failure? then (file, Failure(stored.error), false)
      else
        var migrated := Migrate(x, stored.value.0, draw.salt);
        if migrated.Failure? then (file, Failure(migrated.error), false)
        else
          var (config, changed) := migrated.value;
          if stored.value.1 || changed then
            var (left, done) := Committed(file, Values(file)[CONFIG := Str(Encrypt(x, config, key, draw.nonce))], commit);
            (left, if done then Success(config) else Failure(NotSaved), true)
          else (file, Success(config), false)
  }

  /** `save_path_with`: the file left and the result. */
  function Save(x: Crypto, file: File, key: Key, config: Config, draw: Draw, commit: Commit): (r: (File, Result<(), Error>)) {
    if file.Malformed? then (file, Failure(BadDocument))
    else
      var migrated := Migrate(x, config, draw.salt);
      if migrated.Failure? then (file, Failure(migrated.error))
      else
        var (left, done) := Committed(file, Values(file)[CONFIG := Str(Encrypt(x, migrated.value.0, key, draw.nonce))], commit);
        (left, if done then Success(()) else Failure(NotSaved))
  }

  class Store {
    const crypto: Crypto
    var file: File

    constructor (x: Crypto, content: File)
      ensures crypto == x && file == content
    {
      crypto, file := x, content;
    }

    /** Stage and rename, unless the file changed since it was read. */
    method SaveDocument(original: File, next: map<string, Json>, commit: Commit) returns (done: bool)
      requires file == original
      modifies this
      ensures (file, done) == Committed(original, next, commit)
    {
      if commit.Fails? {
        return false;
      }
      if commit.Interfered? {
        file := commit.file;
      }
      if file != original {
        return false;
      }
      file := Document(next);
      return true;
    }

    method LoadPath(key: Key, legacy: Option<Key>, draw: Draw, commit: Commit) returns (r: Result<Config, Error>, ghost tried: bool)
      modifies this
      ensures (file, r, tried) == Load(crypto, old(file), key, legacy, draw, commit)
    {
      tried := false;
      if file.Malformed? {
        return Failure(BadDocument), tried;
      }
      var values := Values(file);
      if CONFIG !in values {
        return Success(DEFAULT), tried;
      }
      var config, changed;
      var value := values[CONFIG];
      if value.Str? {
        var p := Payload(value.s);
        if p.Failure? {
          return Failure(p.error), tried;
        }
        var fallback := if p.value.1 then None else legacy;
        var first := Decrypt(crypto, value.s, key);
        if first.Success? {
          config, changed := first.value, first.value.verifier.Some? && !p.value.1;
        } else if fallback.None? {
          return Failure(first.error), tried;
        } else {
          var second := Decrypt(crypto, value.s, fallback.value);
          if second.Failure? {
            return Failure(first.error), tried;
          }
          config, changed := second.value, true;
        }
      } else {
        var plain := crypto.parse(value.id);
        if plain.None? {
          return Failure(BadPlain), tried;
        }
        config, changed := plain.value, true;
      }
      var migrated := Migrate(crypto, config, draw.salt);
      if migrated.Failure? {
        return Failure(migrated.error), tried;
      }
      config, changed := migrated.value.0, changed || migrated.value.1;
      if changed {
        tried := true;
        var done := SaveDocument(file, values[CONFIG := Str(Encrypt(crypto, config, key, draw.nonce))], commit);
        if !done {
          return Failure(NotSaved), tried;
        }
      }
      return Success(config), tried;
    }

    method SavePath(key: Key, config: Config, draw: Draw, commit: Commit) returns (r: Result<(), Error>)
      modifies this
      ensures (file, r) == Save(crypto, old(file), key, config, draw, commit)
    {
      if file.Malformed? {
        return Failure(BadDocument);
      }
      var migrated := Migrate(crypto, config, draw.salt);
      if migrated.Failure? {
        return Failure(migrated.error);
      }
      var done := SaveDocument(file, Values(file)[CONFIG := Str(Encrypt(crypto, migrated.value.0, key, draw.nonce))], commit);
      return if done then Success(()) else Failure(NotSaved);
    }
  }

  // ---------------------------------------------------------------- properties

  /** A configuration that may be stored: no plaintext password, and any verifier well formed. */
  predicate Clean(x: Crypto, config: Config) {
    config.password.None? && (config.verifier.Some? ==> x.valid(config.verifier.value))
  }

  lemma NotPrefixed(prefix: string, i: nat, s: string)
    requires i < |prefix| && prefix[i] !in s
    ensures !(prefix <= s)
  {
  }

  lemma EncryptedOpens(x: Crypto, config: Config, key: Key, nonce: nat, legacy: Option<Key>)
    requires Ideal(x)
    ensures Stored(x, Str(Encrypt(x, config, key, nonce)), key, legacy) == Success((config, false))
  {
    var s := Encrypt(x, config, key, nonce);
    if config.verifier.Some? {
      assert s[|PREFIX|..] == x.seal(key, true, config, nonce);
    } else {
      NotPrefixed(FAMILY, 15, s);
      NotPrefixed(PREFIX, 15, s);
    }
  }

  lemma MigratedIsClean(x: Crypto, config: Config, salt: nat)
    requires Ideal(x) && Migrate(x, config, salt).Success?
    ensures Clean(x, Migrate(x, config, salt).value.0)
    ensures !Migrate(x, config, salt).value.1 ==> Migrate(x, config, salt).value.0 == config
  {
  }

  /** A file whose configuration entry is a current envelope of `config`, for any later draw. */
  lemma CurrentLoads(x: Crypto, file: File, key: Key, config: Config, nonce: nat, legacy: Option<Key>, draw: Draw, commit: Commit)
    requires Ideal(x) && Clean(x, config) && file.Document?
    requires CONFIG in file.values && file.values[CONFIG] == Str(Encrypt(x, config, key, nonce))
    ensures Load(x, file, key, legacy, draw, commit) == (file, Success(config), false)
  {
    EncryptedOpens(x, config, key, nonce, legacy);
  }

  /** The file's configuration entry is an envelope of `config` under `key`. */
  predicate Envelops(x: Crypto, file: File, key: Key, config: Config) {
    && CONFIG in Values(file)
    && Values(file)[CONFIG].Str?
    && Decrypt(x, Values(file)[CONFIG].s, key) == Success(config)
  }

  lemma StoredAsIs(x: Crypto, value: Json, key: Key, legacy: Option<Key>)
    requires Stored(x, value, key, legacy).Success? && !Stored(x, value, key, legacy).value.1
    ensures value.Str? && Decrypt(x, value.s, key) == Success(Stored(x, value, key, legacy).value.0)
  {
    hide Decrypt, Payload;
  }

  /** After one successful load of any stored form, a later load writes nothing, leaves the file
      as it is and returns the same configuration, whatever it draws and however commits would
      go; the entry left is an envelope of that configuration, without a plaintext password. */
  lemma LoadSettles(x: Crypto, file: File, key: Key, legacy: Option<Key>, draw: Draw, commit: Commit, draw2: Draw, commit2: Commit)
    requires Ideal(x) && Load(x, file, key, legacy, draw, commit).1.Success?
    ensures var (left, r, tried) := Load(x, file, key, legacy, draw, commit);
      && Load(x, left, key, legacy, draw2, commit2) == (left, r, false)
      && Clean(x, r.value) && (!tried ==> left == file)
      && (CONFIG in Values(left) ==> Envelops(x, left, key, r.value))
  {
    hide Stored, Encrypt, Decrypt;
    if !file.Malformed? && CONFIG in Values(file) {
      var (config, changed) := Stored(x, Values(file)[CONFIG], key, legacy).value;
      MigratedIsClean(x, config, draw.salt);
      var (left, r, tried) := Load(x, file, key, legacy, draw, commit);
      if tried {
        CurrentLoads(x, left, key, r.value, draw.nonce, legacy, draw2, commit2);
        EncryptedOpens(x, r.value, key, draw.nonce, legacy);
      }
      StoredAsIs(x, Values(left)[CONFIG], key, legacy);
    }
  }

  /** What was saved is what the next load returns, migrated, without writing again. */
  lemma LoadAfterSave(
      x: Crypto, file: File, key: Key, config: Config, draw: Draw, commit: Commit, legacy: Option<Key>, draw2: Draw, commit2: Commit)
    requires Ideal(x) && Save(x, file, key, config, draw, commit).1.Success?
    ensures var left := Save(x, file, key, config, draw, commit).0;
      && Migrate(x, config, draw.salt).Success?
      && Load(x, left, key, legacy, draw2, commit2) == (left, Success(Migrate(x, config, draw.salt).value.0), false)
      && Envelops(x, left, key, Migrate(x, config, draw.salt).value.0)
  {
    hide Stored, Encrypt, Load, Decrypt;
    MigratedIsClean(x, config, draw.salt);
    var (left, made) := (Save(x, file, key, config, draw, commit).0, Migrate(x, config, draw.salt).value.0);
    CurrentLoads(x, left, key, made, draw.nonce, legacy, draw2, commit2);
    EncryptedOpens(x, made, key, draw.nonce, legacy);
    StoredAsIs(x, Values(left)[CONFIG], key, legacy);
  }

  /** The legacy key never opens an envelope that names a version, and a version this code does
      not know is refused with the file untouched. */
  lemma LegacyKeyOpensNoVersion(x: Crypto, file: File, key: Key, legacy: Option<Key>, draw: Draw, commit: Commit)
    requires CONFIG in Values(file) && Values(file)[CONFIG].Str? && FAMILY <= Values(file)[CONFIG].s
    ensures Load(x, file, key, legacy, draw, commit) == Load(x, file, key, None, draw, commit)
    ensures !(PREFIX <= Values(file)[CONFIG].s) ==> Load(x, file, key, legacy, draw, commit) == (file, Failure(UnknownVersion), false)
  {
    hide Migrate, Encrypt, Committed;
  }

  predicate SameOthers(a: File, b: File) { Values(a) - {CONFIG} == Values(b) - {CONFIG} }

  /** Loading and saving touch no other entry, and a call that fails changes nothing at all,
      unless another writer changed the file meanwhile: then its content stays. */
  lemma OnlyTheConfiguration(x: Crypto, file: File, key: Key, legacy: Option<Key>, config: Config, draw: Draw, commit: Commit)
    ensures var (left, r, _) := Load(x, file, key, legacy, draw, commit);
      if r.Success? then SameOthers(left, file) else left == file || (commit.Interfered? && left == commit.file != file)
    ensures var (left, r) := Save(x, file, key, config, draw, commit);
      if r.Success? then SameOthers(left, file) else left == file || (commit.Interfered? && left == commit.file != file)
  {
    hide Migrate, Encrypt, Stored;
  }

  /** A settings save keeps the verifier unless a password that it does not match is given, and
      then the new one matches; loading it back gives exactly the prepared configuration. */
  lemma SettingsRoundTrip(
      x: Crypto, file: File, key: Key, incoming: Config, current: Config, draw: Draw, commit: Commit, legacy: Option<Key>, draw2: Draw)
    requires Ideal(x) && Clean(x, current) && PrepareSave(x, incoming, current, draw.salt).Success?
    requires Save(x, file, key, PrepareSave(x, incoming, current, draw.salt).value, draw, commit).1.Success?
    ensures var prepared := PrepareSave(x, incoming, current, draw.salt).value;
      var left := Save(x, file, key, prepared, draw, commit).0;
      && Load(x, left, key, legacy, draw2, commit).1 == Success(prepared)
      && prepared == incoming.(password := None, verifier := prepared.verifier)
      && (if incoming.password.Some? && incoming.password.value != "" then
            prepared.verifier.Some? && x.matches(prepared.verifier.value, incoming.password.value)
            && (current.verifier.Some? && x.matches(current.verifier.value, incoming.password.value) ==> prepared.verifier == current.verifier)
          else prepared.verifier == current.verifier)
  {
    hide Load, Save;
    var prepared := PrepareSave(x, incoming, current, draw.salt).value;
    LoadAfterSave(x, file, key, prepared, draw, commit, legacy, draw2, commit);
  }
}
