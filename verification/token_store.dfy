/** The token file and the config hash: two files updated without a log, with rollback,
    verification and start-up reconciliation. */
module TokenStore {
  import opened Options
  import opened Text

  const MINIMUM_TOKEN_LENGTH := 24
  const MAXIMUM_TOKEN_LENGTH := 4096

  /** A stored hash. SHA-256 is idealised as a constructor, so that equal hashes have equal
      preimages. The text of a hash may be in another letter case, or have spaces around it. */
  datatype HashText = Sha(token: string, lower: bool, trimmed: bool) | OtherText(text: string)

  function HashToken(token: string): HashText {
    Sha(token, true, true)
  }

  /** The text without the spaces around it. */
  function Trimmed(hash: HashText): HashText {
    match hash
    case Sha(_, _, _) => hash.(trimmed := true)
    case OtherText(text) => OtherText(TrimSpace(text))
  }

  datatype Config = Config(hash: HashText, rest: string)

  /** A config file: the settings it holds and how its bytes are laid out. */
  datatype ConfigFile = ConfigFile(cfg: Config, layout: string)

  function Saved(cfg: Config): ConfigFile {
    ConfigFile(cfg, "")
  }

  datatype Files = Files(token: Option<string>, config: Option<ConfigFile>, legacy: Option<string>)

  // ---------- tokens and their file ----------

  /** No surrounding white space, no line break, a bounded length. */
  predicate ValidToken(token: string) {
    && MINIMUM_TOKEN_LENGTH <= |token| <= MAXIMUM_TOKEN_LENGTH
    && !IsSpace(token[0]) && !IsSpace(token[|token| - 1])
    && '\r' !in token && '\n' !in token
  }

  /** Twenty-four to 4096 characters, no white space at either end and no line break. */
  predicate Acceptable(token: string) {
    && 24 <= |token| <= 4096
    && token[0] !in {' ', '\t', '\n', '\r', '\U{000B}', '\U{000C}', '\U{0085}', '\U{00A0}'}
    && token[|token| - 1] !in {' ', '\t', '\n', '\r', '\U{000B}', '\U{000C}', '\U{0085}', '\U{00A0}'}
    && forall i :: 0 <= i < |token| ==> token[i] != '\r' && token[i] != '\n'
  }

  /** A file's text without the newline at its end, if there is one. */
  function Content(text: string): string {
    if text != "" && text[|text| - 1] == '\n' then text[..|text| - 1] else text
  }

  /** There is no token file, or it holds a token. */
  predicate WellFormed(f: Files) {
    f.token.None? || Acceptable(Content(f.token.value))
  }

  lemma AcceptableIsValid(token: string)
    ensures ValidToken(token) <==> Acceptable(token)
  {
  }

  lemma ContentIsTrimmed(text: string)
    ensures TrimNewline(text) == Content(text)
  {
  }

  /** What a token file holds. */
  lemma FileReads(f: Files)
    ensures ReadToken(f) == match f.token
                            case None => Missing
                            case Some(text) => if Acceptable(Content(text)) then Found(Content(text)) else Invalid
    ensures WellFormed(f) <==> !ReadToken(f).Invalid?
  {
    if f.token.Some? {
      ContentIsTrimmed(f.token.value);
      AcceptableIsValid(Content(f.token.value));
    }
  }

  function TrimNewline(text: string): string {
    TrimSuffix(text, "\n")
  }

  datatype TokenRead = Missing | Invalid | Found(token: string)

  function ReadToken(f: Files): TokenRead {
    if f.token.None? then Missing
    else if ValidToken(TrimNewline(f.token.value)) then Found(TrimNewline(f.token.value)) else Invalid
  }

  lemma WrittenTokenReadsBack(f: Files, token: string)
    requires ValidToken(token)
    ensures ReadToken(f.(token := Some(token + "\n"))) == Found(token)
  {
    assert (token + "\n")[..|token|] == token;
  }

  // ---------- writes ----------

  /** An atomic write succeeds, fails without effect, or fails after the rename because the
      directory could not be synced. */
  datatype Fate = Done | Refused | Late

  /** The fates of everything one call may attempt. */
  datatype Plan = Plan(
    writable: bool,      // the write check passes
    readable: bool,      // the old state can be read
    tokenWrite: Fate,
    configSave: Fate,
    restoreConfig: Fate,
    restoreToken: Fate,
    sync: bool)          // the directory syncs and both files can be read again

  class Disk {
    var files: Files
    ghost var trace: seq<Files>  // every state the disk has been in since the call began

    method WriteToken(text: string, fate: Fate) returns (ok: bool)
      modifies this
      ensures ok == fate.Done?
      ensures files == (if fate.Refused? then old(files) else old(files).(token := Some(text)))
      ensures trace == old(trace) + [files]
    {
      if !fate.Refused? {
        files := files.(token := Some(text));
      }
      trace := trace + [files];
      ok := fate.Done?;
    }

    method WriteConfig(c: ConfigFile, fate: Fate) returns (ok: bool)
      modifies this
      ensures ok == fate.Done?
      ensures files == (if fate.Refused? then old(files) else old(files).(config := Some(c)))
      ensures trace == old(trace) + [files]
    {
      if !fate.Refused? {
        files := files.(config := Some(c));
      }
      trace := trace + [files];
      ok := fate.Done?;
    }

    /** Removing a file that is not there is no error. */
    method RemoveToken(fate: Fate) returns (ok: bool)
      modifies this
      ensures ok == (old(files).token.None? || !fate.Refused?)
      ensures files == (if fate.Refused? then old(files) else old(files).(token := None))
      ensures trace == old(trace) + [files]
    {
      ok := files.token.None? || !fate.Refused?;
      if !fate.Refused? {
        files := files.(token := None);
      }
      trace := trace + [files];
    }

    method RemoveConfig(fate: Fate) returns (ok: bool)
      modifies this
      ensures ok == (old(files).config.None? || !fate.Refused?)
      ensures files == (if fate.Refused? then old(files) else old(files).(config := None))
      ensures trace == old(trace) + [files]
    {
      ok := files.config.None? || !fate.Refused?;
      if !fate.Refused? {
        files := files.(config := None);
      }
      trace := trace + [files];
    }

    /** The removal and the directory sync after it. */
    method RemoveLegacy(fate: Fate) returns (ok: bool)
      modifies this
      ensures ok == fate.Done?
      ensures files == (if fate.Refused? then old(files) else old(files).(legacy := None))
      ensures trace == old(trace) + [files]
    {
      if !fate.Refused? {
        files := files.(legacy := None);
      }
      trace := trace + [files];
      ok := fate.Done?;
    }
  }

  /** The loaded configuration, updated in place. */
  class LoadedConfig {
    var cfg: Config

    constructor (cfg: Config)
      ensures this.cfg == cfg
    {
      this.cfg := cfg;
    }
  }

  datatype UpdateError = InvalidToken | NotReady | WriteFailed | RecoveryRequired

  datatype UpdateResult = Updated | UpdateFailed(error: UpdateError)

  // ---------- what an update may leave behind ----------

  /** The disk states of a rollback: the config is restored first, then the token. */
  function Rollback(f: Files, oldConfig: Option<ConfigFile>, previous: TokenRead, plan: Plan): seq<Files> {
    var f1 := if plan.restoreConfig.Refused? then f else f.(config := oldConfig);
    var f2 := if plan.restoreToken.Refused? then f1
              else f1.(token := if previous.Found? then Some(previous.token + "\n") else None);
    [f1, f2]
  }

  /** The rollback is reported clean when no step of it failed and the old state reads back. */
  predicate RolledBack(f: Files, oldConfig: Option<ConfigFile>, previous: TokenRead, plan: Plan) {
    var states := Rollback(f, oldConfig, previous, plan);
    && (plan.restoreConfig.Done? || (oldConfig.None? && (f.config.None? || plan.restoreConfig.Late?)))
    && (plan.restoreToken.Done? || (!previous.Found? && (states[0].token.None? || plan.restoreToken.Late?)))
    && plan.sync
    && states[1].config == oldConfig && ReadToken(states[1]) == previous
  }

  datatype Course = Course(states: seq<Files>, result: UpdateResult)

  function AfterFailure(before: seq<Files>, f: Files, start: Files, plan: Plan): Course {
    Course(before + Rollback(f, start.config, ReadToken(start), plan),
           UpdateFailed(if RolledBack(f, start.config, ReadToken(start), plan) then WriteFailed else RecoveryRequired))
  }

  /** Every disk state of an update, first to last, and its result. */
  function CourseOfUpdate(f: Files, cfg: Config, token: string, plan: Plan): Course {
    if !ValidToken(token) then Course([f], UpdateFailed(InvalidToken))
    else if !plan.writable || !plan.readable || ReadToken(f).Invalid? then Course([f], UpdateFailed(NotReady))
    else
      var f1 := if plan.tokenWrite.Refused? then f else f.(token := Some(token + "\n"));
      if !plan.tokenWrite.Done? then AfterFailure([f, f1], f1, f, plan)
      else
        var f2 := if plan.configSave.Refused? then f1 else f1.(config := Some(Saved(cfg.(hash := HashToken(token)))));
        if !plan.configSave.Done? then AfterFailure([f, f1, f2], f2, f, plan)
        else Course([f, f1, f2], Updated)
  }

  /** Every answer to an update: a token that is not acceptable changes nothing; then the state must be writable,
      readable and well formed; then it depends on the writes, and failed ones are undone if they can be. */
  lemma UpdateAnswers(f: Files, cfg: Config, token: string, plan: Plan)
    ensures var c := CourseOfUpdate(f, cfg, token, plan);
      if !Acceptable(token) then c == Course([f], UpdateFailed(InvalidToken))
      else if !plan.writable || !plan.readable || !WellFormed(f) then c == Course([f], UpdateFailed(NotReady))
      else if plan.tokenWrite.Done? && plan.configSave.Done? then
        && c.result == Updated
        && c.states[|c.states| - 1]
           == f.(token := Some(token + "\n"), config := Some(ConfigFile(Config(Sha(token, true, true), cfg.rest), "")))
      else
        && (c.result == UpdateFailed(WriteFailed) || c.result == UpdateFailed(RecoveryRequired))
        && (plan.restoreConfig.Done? && plan.restoreToken.Done? && plan.sync ==>
              c.result == UpdateFailed(WriteFailed) && c.states[|c.states| - 1].config == f.config)
  {
    AcceptableIsValid(token);
    FileReads(f);
    OldTokenReadsBack(f);
  }

  /** A disk state that an update of `f` to `token` may be cut off in. */
  ghost predicate MidUpdate(f: Files, cfg: Config, token: string, g: Files) {
    && g.legacy == f.legacy
    && (g.config == f.config || g.config == Some(Saved(cfg.(hash := HashToken(token)))))
    && (ReadToken(g) == ReadToken(f) || ReadToken(g) == Found(token))
    && (f.token.Some? ==> g.token.Some?)
  }

  /** The new hash is on disk, but not the token it is the hash of. */
  predicate Stranded(token: string, g: Files) {
    g.config.Some? && g.config.value.cfg.hash == HashToken(token) && ReadToken(g) != Found(token)
  }

  /** Success installs the token and its hash; any error but RecoveryRequired leaves the old
      token value and the old config bytes. RecoveryRequired needs a failed rollback step. */
  lemma UpdateIsAllOrNothing(f: Files, cfg: Config, token: string, plan: Plan)
    ensures var c := CourseOfUpdate(f, cfg, token, plan);
      var last := c.states[|c.states| - 1];
      && (c.result.Updated? ==>
            ReadToken(last) == Found(token) && last.config == Some(Saved(cfg.(hash := HashToken(token)))))
      && (c.result.UpdateFailed? && !c.result.error.RecoveryRequired? ==>
            ReadToken(last) == ReadToken(f) && last.config == f.config)
      && (c.result == UpdateFailed(RecoveryRequired) ==>
            !plan.restoreConfig.Done? || !plan.restoreToken.Done? || !plan.sync)
  {
    if ValidToken(token) {
      WrittenTokenReadsBack(f, token);
      OldTokenReadsBack(f);
    }
  }

  lemma OldTokenReadsBack(f: Files)
    ensures ReadToken(f).Found? ==> ValidToken(ReadToken(f).token)
                                    && TrimNewline(ReadToken(f).token + "\n") == ReadToken(f).token
  {
    if ReadToken(f).Found? {
      WrittenTokenReadsBack(f, ReadToken(f).token);
    }
  }

  /** Whichever writes fail and wherever a crash falls, the token file holds the old or the
      new token and the config is the old or the new one. */
  lemma UpdateCrashPoints(f: Files, cfg: Config, token: string, plan: Plan, k: nat)
    requires k < |CourseOfUpdate(f, cfg, token, plan).states|
    ensures MidUpdate(f, cfg, token, CourseOfUpdate(f, cfg, token, plan).states[k])
  {
    if ValidToken(token) {
      WrittenTokenReadsBack(f, token);
      OldTokenReadsBack(f);
    }
  }

  /** The new hash is ever without the new token exactly when a config saved late could not
      be restored while the token could. */
  lemma StrandedHash(f: Files, cfg: Config, token: string, plan: Plan)
    requires !Stranded(token, f)
    ensures var c := CourseOfUpdate(f, cfg, token, plan);
      (exists k :: 0 <= k < |c.states| && Stranded(token, c.states[k])) <==>
        (ValidToken(token) && plan.writable && plan.readable && !ReadToken(f).Invalid?
         && plan.tokenWrite.Done? && plan.configSave.Late? && plan.restoreConfig.Refused? && !plan.restoreToken.Refused?
         && ReadToken(f) != Found(token))
  {
    var c := CourseOfUpdate(f, cfg, token, plan);
    if ValidToken(token) {
      WrittenTokenReadsBack(f, token);
      OldTokenReadsBack(f);
      if |c.states| == 5 {
        assert Stranded(token, c.states[4]) <==>
               plan.configSave.Late? && plan.restoreConfig.Refused? && !plan.restoreToken.Refused?
               && ReadToken(f) != Found(token);
      }
    }
  }

  // ---------- start-up reconciliation ----------

  /** The fates of what start-up may attempt. */
  datatype StartPlan = StartPlan(
    accessible: bool,    // the directory and the files can be inspected and read
    migrate: Fate,
    retire: Fate,
    secured: bool,       // the token file's mode can be set
    save: Fate)

  const FAULTLESS := StartPlan(true, Done, Done, true, Done)

  datatype StartResult = Active(token: string) | HashOnly | StartFailed

  datatype StartCourse = StartCourse(states: seq<Files>, result: StartResult, cfg: Config)

  /** The stored hash is the token's, whatever its letter case and outer spaces. */
  predicate Matches(hash: HashText, token: string) {
    hash.Sha? && hash.token == token
  }

  /** The token of the old plaintext file, which counts only if its hash is the stored one. */
  function LegacyToken(f: Files, hash: HashText): Option<string> {
    if f.legacy.Some? && ValidToken(TrimNewline(f.legacy.value)) && Matches(hash, TrimNewline(f.legacy.value))
    then Some(TrimNewline(f.legacy.value)) else None
  }

  function Activate(before: seq<Files>, f: Files, cfg: Config, token: string, plan: StartPlan): StartCourse {
    if !plan.secured then StartCourse(before, StartFailed, cfg)
    else if cfg.hash == HashToken(token) then StartCourse(before, Active(token), cfg)
    else
      var updated := cfg.(hash := HashToken(token));
      var f1 := if plan.save.Refused? then f else f.(config := Some(Saved(updated)));
      if plan.save.Done? then StartCourse(before + [f1], Active(token), updated)
      else StartCourse(before + [f1], StartFailed, cfg)
  }

  /** Every disk state of a start-up, its result and the configuration it leaves loaded. */
  function CourseOfStart(f: Files, cfg: Config, plan: StartPlan): StartCourse {
    if !plan.accessible || ReadToken(f).Invalid? then StartCourse([f], StartFailed, cfg)
    else if ReadToken(f).Found? then Activate([f], f, cfg, ReadToken(f).token, plan)
    else if f.legacy.None? then StartCourse([f], HashOnly, cfg)
    else if !ValidToken(TrimNewline(f.legacy.value)) then StartCourse([f], StartFailed, cfg)
    else if !Matches(cfg.hash, TrimNewline(f.legacy.value)) then StartCourse([f], HashOnly, cfg)
    else
      var token := TrimNewline(f.legacy.value);
      var f1 := if plan.migrate.Refused? then f else f.(token := Some(token + "\n"));
      if !plan.migrate.Done? then StartCourse([f, f1], StartFailed, cfg)
      else
        var f2 := if plan.retire.Refused? then f1 else f1.(legacy := None);
        if !plan.retire.Done? then StartCourse([f, f1, f2], StartFailed, cfg)
        else Activate([f, f1, f2], f2, cfg, token, plan)
  }

  /** The token that start-up stands for: the token file's, else a legacy one the hash vouches for. */
  function TokenInForce(f: Files, hash: HashText): TokenRead {
    match ReadToken(f)
    case Missing =>
      (match LegacyToken(f, hash)
       case Some(token) => Found(token)
       case None => Missing)
    case Invalid => Invalid
    case Found(token) => Found(token)
  }

  /** The hash that a successful start makes the active one. */
  function Standing(f: Files): HashText
    requires f.config.Some?
  {
    match TokenInForce(f, f.config.value.cfg.hash)
    case Found(token) => HashToken(token)
    case _ => Trimmed(f.config.value.cfg.hash)
  }

  /** Neither the token file nor, without one, the legacy file is malformed. */
  predicate Startable(f: Files) {
    && !ReadToken(f).Invalid?
    && (ReadToken(f).Missing? && f.legacy.Some? ==> ValidToken(TrimNewline(f.legacy.value)))
  }

  /** A start that activates a token activates the one in force, and leaves it as the token file
      and its hash in the loaded configuration and, if that mirrored the disk, in the config file. */
  lemma StartReconciles(f: Files, cfg: Config, plan: StartPlan)
    requires f.config.Some? && f.config.value.cfg == cfg
    ensures var c := CourseOfStart(f, cfg, plan);
      var last := c.states[|c.states| - 1];
      && last.config.Some? && last.config.value.cfg.rest == cfg.rest && c.cfg.rest == cfg.rest
      && (c.result.Active? ==>
            && TokenInForce(f, cfg.hash) == Found(c.result.token) == ReadToken(last)
            && c.cfg.hash == last.config.value.cfg.hash == HashToken(c.result.token))
      && (c.result.HashOnly? ==> c.states == [f] && c.cfg == cfg && ReadToken(f).Missing?)
  {
    OldTokenReadsBack(f);
    if LegacyToken(f, cfg.hash).Some? {
      WrittenTokenReadsBack(f, LegacyToken(f, cfg.hash).value);
    }
  }

  /** Without faults a start succeeds exactly when the files are well formed, and activates a token
      exactly when there is one in force. */
  lemma StartActivates(f: Files, cfg: Config)
    ensures CourseOfStart(f, cfg, FAULTLESS).result.StartFailed? <==> !Startable(f)
    ensures CourseOfStart(f, cfg, FAULTLESS).result.Active? <==> TokenInForce(f, cfg.hash).Found?
  {
  }

  /** A start without faults: a token file must hold a token, which is activated; else a plaintext one must, and is
      moved there and activated if the stored hash is its own, whatever that hash's spelling; else the hash stands
      alone. A token's hash is saved unless it is stored as it should be. */
  lemma FaultlessStart(f: Files, cfg: Config)
    ensures var c := CourseOfStart(f, cfg, FAULTLESS);
      var last := c.states[|c.states| - 1];
      match f.token
      case Some(text) => StartsWith(c, cfg, f, Content(text))
      case None =>
        match f.legacy
        case None => c == StartCourse([f], HashOnly, cfg)
        case Some(text) =>
          if Acceptable(Content(text)) && !(cfg.hash.Sha? && cfg.hash.token == Content(text))
          then c == StartCourse([f], HashOnly, cfg)
          else StartsWith(c, cfg, f.(token := Some(Content(text) + "\n"), legacy := None), Content(text))
  {
    FileReads(f);
    if f.legacy.Some? {
      ContentIsTrimmed(f.legacy.value);
      AcceptableIsValid(Content(f.legacy.value));
    }
  }

  /** The course ends with this token active on these files, or fails because it is no token. */
  predicate StartsWith(c: StartCourse, cfg: Config, f: Files, token: string) {
    if !Acceptable(token) then c.result == StartFailed && c.cfg == cfg && |c.states| == 1
    else
      && c.result == Active(token) && c.states != []
      && c.cfg == Config(Sha(token, true, true), cfg.rest)
      && c.states[|c.states| - 1] == (if cfg.hash == Sha(token, true, true) then f
                                      else f.(config := Some(ConfigFile(c.cfg, ""))))
  }

  /** A disk state that a start-up from `f` may be cut off in: the token in force is the same,
      a token file never disappears, and the hash on disk is the old one or that token's. */
  ghost predicate MidStart(f: Files, cfg: Config, g: Files) {
    && (f.token.Some? ==> g.token == f.token)
    && (g.token.Some? && f.token.None? ==> ReadToken(g) == TokenInForce(f, cfg.hash) && ReadToken(g).Found?)
    && (g.config == f.config
        || (TokenInForce(f, cfg.hash).Found? && ReadToken(g) == TokenInForce(f, cfg.hash)
            && g.config == Some(Saved(cfg.(hash := HashToken(ReadToken(g).token))))))
    && (g.token.None? ==> g == f)
  }

  lemma StartCrashPoints(f: Files, cfg: Config, plan: StartPlan, k: nat)
    requires k < |CourseOfStart(f, cfg, plan).states|
    ensures MidStart(f, cfg, CourseOfStart(f, cfg, plan).states[k])
  {
    OldTokenReadsBack(f);
    if LegacyToken(f, cfg.hash).Some? {
      WrittenTokenReadsBack(f, LegacyToken(f, cfg.hash).value);
    }
  }

  class Storage {
    const disk: Disk

    constructor (disk: Disk)
      ensures this.disk == disk
    {
      this.disk := disk;
    }

    /** Writes the token, then the config hash; undoes both if either fails. */
    method Update(config: LoadedConfig, token: string, plan: Plan) returns (result: UpdateResult)
      requires disk.trace == [disk.files]
      modifies disk, config
      ensures Course(disk.trace, result) == CourseOfUpdate(old(disk.files), old(config.cfg), token, plan)
      ensures disk.files == disk.trace[|disk.trace| - 1]
      ensures config.cfg == if result.Updated? then old(config.cfg).(hash := HashToken(token)) else old(config.cfg)
      ensures !Acceptable(token) ==> result == UpdateFailed(InvalidToken) && disk.files == old(disk.files)
      ensures Acceptable(token) && WellFormed(old(disk.files)) && plan.writable && plan.readable
              && plan.tokenWrite.Done? && plan.configSave.Done? ==>
        && result == Updated && disk.files.token == Some(token + "\n") && disk.files.legacy == old(disk.files.legacy)
        && config.cfg == Config(Sha(token, true, true), old(config.cfg.rest))
        && disk.files.config == Some(ConfigFile(config.cfg, ""))
    {
      UpdateAnswers(disk.files, config.cfg, token, plan);
      if !ValidToken(token) {
        return UpdateFailed(InvalidToken);
      }
      if !plan.writable || !plan.readable {
        return UpdateFailed(NotReady);
      }
      var previous := ReadToken(disk.files);
      if previous.Invalid? {
        return UpdateFailed(NotReady);
      }
      var oldConfig := disk.files.config;
      var ok := disk.WriteToken(token + "\n", plan.tokenWrite);
      if !ok {
        ok := RestoreState(oldConfig, previous, plan);
        return UpdateFailed(if ok then WriteFailed else RecoveryRequired);
      }
      var updated := config.cfg.(hash := HashToken(token));
      ok := disk.WriteConfig(Saved(updated), plan.configSave);
      if !ok {
        ok := RestoreState(oldConfig, previous, plan);
        return UpdateFailed(if ok then WriteFailed else RecoveryRequired);
      }
      config.cfg := updated;
      result := Updated;
    }

    /** Migrates a legacy token its hash vouches for and brings the config hash in line with
        the token file. */
    method Ensure(config: LoadedConfig, plan: StartPlan) returns (result: StartResult)
      requires disk.trace == [disk.files]
      modifies disk, config
      ensures StartCourse(disk.trace, result, config.cfg)
           == CourseOfStart(old(disk.files), old(config.cfg), plan)
      ensures disk.files == disk.trace[|disk.trace| - 1]
    {
      if !plan.accessible {
        return StartFailed;
      }
      var read := ReadToken(disk.files);
      if read.Invalid? {
        return StartFailed;
      }
      var token: string;
      if read.Found? {
        token := read.token;
      } else {
        if disk.files.legacy.None? {
          return HashOnly;
        }
        token := TrimNewline(disk.files.legacy.value);
        if !ValidToken(token) {
          return StartFailed;
        }
        if !Matches(config.cfg.hash, token) {
          return HashOnly;
        }
        var ok := disk.WriteToken(token + "\n", plan.migrate);
        if !ok {
          return StartFailed;
        }
        ok := disk.RemoveLegacy(plan.retire);
        if !ok {
          return StartFailed;
        }
      }
      if !plan.secured {
        return StartFailed;
      }
      var hash := HashToken(token);
      if config.cfg.hash != hash {
        var updated := config.cfg.(hash := hash);
        var ok := disk.WriteConfig(Saved(updated), plan.save);
        if !ok {
          return StartFailed;
        }
        config.cfg := updated;
      }
      result := Active(token);
    }

    /** Puts the config back first, then the token, then checks what is on disk. */
    method RestoreState(oldConfig: Option<ConfigFile>, previous: TokenRead, plan: Plan) returns (ok: bool)
      requires !previous.Invalid?
      modifies disk
      ensures disk.trace == old(disk.trace) + Rollback(old(disk.files), oldConfig, previous, plan)
      ensures disk.files == Rollback(old(disk.files), oldConfig, previous, plan)[1]
      ensures ok == RolledBack(old(disk.files), oldConfig, previous, plan)
    {
      var failed := false;
      var done: bool;
      if oldConfig.Some? {
        done := disk.WriteConfig(oldConfig.value, plan.restoreConfig);
      } else {
        done := disk.RemoveConfig(plan.restoreConfig);
      }
      failed := failed || !done;
      if previous.Found? {
        done := disk.WriteToken(previous.token + "\n", plan.restoreToken);
      } else {
        done := disk.RemoveToken(plan.restoreToken);
      }
      failed := failed || !done || !plan.sync;
      var verified := disk.files.config == oldConfig && ReadToken(disk.files) == previous;
      ok := !failed && verified;
    }
  }
}
