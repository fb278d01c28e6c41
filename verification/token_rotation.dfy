/** Rotating the bearer token of a running agent. */
module TokenRotation {
  import opened Options
  import opened Text
  import opened TokenStore

  // ---------- the running agent ----------

  class AuthManager {
    var tokenHash: HashText

    constructor (hash: HashText)
      ensures tokenHash == match hash
                           case Sha(token, lower, _) => Sha(token, lower, true)
                           case OtherText(text) => OtherText(TrimSpace(text))
    {
      tokenHash := Trimmed(hash);
    }

    method Verify(token: string) returns (ok: bool)
      ensures ok <==> tokenHash == HashToken(token)
    {
      ok := HashToken(token) == tokenHash;
    }

    method CurrentHash() returns (hash: HashText)
      ensures hash == tokenHash
    {
      hash := tokenHash;
    }

    /** Takes only a SHA-256 hash, and stores it in lower case. */
    method SetTokenHash(hash: HashText) returns (ok: bool)
      modifies this
      ensures ok == (hash.Sha? && hash.trimmed)
      ensures tokenHash == if ok then hash.(lower := true) else old(tokenHash)
    {
      if !hash.Sha? || !hash.trimmed {
        return false;
      }
      tokenHash := hash.(lower := true);
      ok := true;
    }
  }

  datatype Runtime = Runtime(active: HashText, cfg: Config)

  datatype RotationResult = Rotated | StaleToken | RotationFailed(error: UpdateError)

  datatype RotationCourse = RotationCourse(states: seq<Files>, result: RotationResult, runtime: Runtime)

  /** One rotation request: the disk states it goes through and the runtime it leaves. */
  function CourseOfRotation(f: Files, r: Runtime, bearer: string, token: string, plan: Plan): RotationCourse {
    if r.active != HashToken(bearer) then RotationCourse([f], StaleToken, r)
    else
      var update := CourseOfUpdate(f, r.cfg, token, plan);
      if update.result.Updated?
      then RotationCourse(update.states, Rotated, Runtime(HashToken(token), r.cfg.(hash := HashToken(token))))
      else RotationCourse(update.states, RotationFailed(update.result.error), r)
  }

  datatype RevealResult = Revealed(token: string) | Unrecoverable | RevealFailed

  class Server {
    const auth: AuthManager
    const store: Storage
    var config: Config

    constructor (auth: AuthManager, store: Storage, config: Config)
      ensures this.auth == auth && this.store == store && this.config == config
    {
      this.auth := auth;
      this.store := store;
      this.config := config;
    }

    ghost function Now(): Runtime
      reads this, auth
    {
      Runtime(auth.tokenHash, config)
    }

    /** Checks the bearer again inside the rotation lock, updates the store, then the runtime hash. */
    method UpdateToken(bearer: string, token: string, plan: Plan) returns (result: RotationResult)
      requires store.disk.trace == [store.disk.files]
      modifies this`config, auth, store.disk
      ensures RotationCourse(store.disk.trace, result, Now())
           == CourseOfRotation(old(store.disk.files), old(Now()), bearer, token, plan)
      ensures store.disk.files == store.disk.trace[|store.disk.trace| - 1]
      ensures old(auth.tokenHash) != Sha(bearer, true, true) ==>
        result == StaleToken && store.disk.files == old(store.disk.files) && Now() == old(Now())
      ensures old(auth.tokenHash) == Sha(bearer, true, true) && !Acceptable(token) ==>
        result == RotationFailed(InvalidToken) && store.disk.files == old(store.disk.files) && Now() == old(Now())
      ensures old(auth.tokenHash) == Sha(bearer, true, true) && Acceptable(token) && WellFormed(old(store.disk.files))
              && plan.writable && plan.readable && plan.tokenWrite.Done? && plan.configSave.Done? ==>
        && result == Rotated && auth.tokenHash == Sha(token, true, true) && store.disk.files.token == Some(token + "\n")
        && config == Config(Sha(token, true, true), old(config.rest))
        && store.disk.files.config == Some(ConfigFile(config, ""))
    {
      var current := auth.Verify(bearer);
      if !current {
        return StaleToken;
      }
      var copy := new LoadedConfig(config);
      var update := store.Update(copy, token, plan);
      if update.UpdateFailed? {
        return RotationFailed(update.error);
      }
      var ok := auth.SetTokenHash(copy.cfg.hash);
      assert ok;
      config := config.(hash := copy.cfg.hash);
      result := Rotated;
    }

    /** Shows the stored token, but only if it is the one that opens the door. */
    method Reveal() returns (result: RevealResult)
      ensures forall token :: result == Revealed(token) <==>
                ReadToken(store.disk.files) == Found(token) && auth.tokenHash == HashToken(token)
      ensures result.RevealFailed? <==> ReadToken(store.disk.files).Invalid?
    {
      var read := ReadToken(store.disk.files);
      if read.Missing? {
        return Unrecoverable;
      }
      if read.Invalid? {
        return RevealFailed;
      }
      var hash := auth.CurrentHash();
      if HashToken(read.token) != hash {
        return Unrecoverable;
      }
      result := Revealed(read.token);
    }
  }

  function Last(states: seq<Files>): Files
    requires states != []
  {
    states[|states| - 1]
  }

  /** A commit leaves the active hash, the loaded config, the config file and the token file in
      agreement; a refused or failed request changes neither the active hash nor the loaded
      config, and anything but a needed recovery leaves the stored credentials alone too. */
  lemma RotationOutcome(f: Files, r: Runtime, bearer: string, token: string, plan: Plan)
    ensures var c := CourseOfRotation(f, r, bearer, token, plan);
      && (c.result.Rotated? ==>
            && r.active == HashToken(bearer)
            && c.runtime.active == c.runtime.cfg.hash == HashToken(token)
            && ReadToken(Last(c.states)) == Found(token)
            && Last(c.states).config == Some(Saved(c.runtime.cfg)))
      && (!c.result.Rotated? ==> c.runtime == r)
      && (!c.result.Rotated? && c.result != RotationFailed(RecoveryRequired) ==>
            ReadToken(Last(c.states)) == ReadToken(f) && Last(c.states).config == f.config)
      && (r.active != HashToken(bearer) <==> c.result.StaleToken?)
  {
    UpdateIsAllOrNothing(f, r.cfg, token, plan);
  }
}
