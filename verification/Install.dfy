/** Installing a configuration: stage, check, promote, restart, and roll back
    or finalize, over a directory whose every operation may fail. */
module Install {
  import opened Basics

  type Bytes = seq<bv8>

  // The files the deployment manages, each in the directory of the active one.
  datatype Path = Active | Candidate(name: nat) | Backup(name: nat)

  type Files = map<Path, Bytes>

  // What a crash at some moment would leave: the files, and what the active
  // file held at each successful restart so far.
  datatype Point = Point(files: Files, restarts: seq<Option<Bytes>>)

  // The present, and every point passed through.
  datatype Disk = Disk(files: Files, restarts: seq<Option<Bytes>>, log: seq<Point>) {
    function Now(): Point { Point(files, restarts) }

    function Active(): Option<Bytes> {
      if Path.Active in files then Some(files[Path.Active]) else None
    }
  }

  // Which calls of one install succeed, and the temporary names the system
  // picks. A failing rename or removal leaves the files alone.
  datatype Env = Env(
    candidate: nat, create: bool, chmod: bool, write: bool, partial: Bytes, sync: bool, close: bool, unstage: bool,
    check: bool, discard: bool,
    stat: bool, backup: nat, reserve: bool, closeBackup: bool, unreserve: bool, saveActive: bool,
    promote: bool, restore: bool,
    restart: bool, removeFailed: bool, putBack: bool, restartOld: bool, finalize: bool
  )

  datatype Stage = Staging | Checking | Promoting | Restarting | RollingBack | Finalizing

  // ---- the operations on files ----

  function Written(d: Disk, path: Path, bytes: Bytes): Disk {
    var files := d.files[path := bytes];
    Disk(files, d.restarts, d.log + [Point(files, d.restarts)])
  }

  function Removed(d: Disk, path: Path, works: bool): Disk {
    if !works || path !in d.files then d
    else Disk(d.files - {path}, d.restarts, d.log + [Point(d.files - {path}, d.restarts)])
  }

  predicate CanRename(d: Disk, from: Path, works: bool) {
    works && from in d.files
  }

  function Renamed(d: Disk, from: Path, to: Path, works: bool): Disk {
    if !CanRename(d, from, works) then d
    else
      var files := (d.files - {from})[to := d.files[from]];
      Disk(files, d.restarts, d.log + [Point(files, d.restarts)])
  }

  function Restarted(d: Disk, works: bool): Disk {
    if !works then d
    else
      var restarts := d.restarts + [d.Active()];
      Disk(d.files, restarts, d.log + [Point(d.files, restarts)])
  }

  // ---- the calls of the deployment ----

  predicate Stages(d: Disk, configuration: Bytes, env: Env) {
    && configuration != [] && env.create && Candidate(env.candidate) !in d.files
    && env.chmod && env.write && env.sync && env.close
  }

  function StageOf(d: Disk, configuration: Bytes, env: Env): Disk {
    var path := Candidate(env.candidate);
    if configuration == [] || !env.create || path in d.files then d
    else
      var created := Written(d, path, []);
      if !env.chmod then Removed(created, path, env.unstage)
      else if !env.write then Removed(Written(created, path, env.partial), path, env.unstage)
      else if !env.sync || !env.close then Removed(Written(created, path, configuration), path, env.unstage)
      else Written(created, path, configuration)
  }

  // Whether the active file, if any, ends up in the backup.
  predicate SavesActive(d: Disk, env: Env) {
    && env.stat
    && (Active in d.files ==>
          env.reserve && Backup(env.backup) !in d.files && env.closeBackup && env.unreserve && env.saveActive)
  }

  function SaveActiveOf(d: Disk, env: Env): Disk {
    var path := Backup(env.backup);
    if !env.stat || Active !in d.files || !env.reserve || path in d.files then d
    else
      var reserved := Removed(Written(d, path, []), path, env.unreserve);
      if !env.closeBackup || !env.unreserve then reserved
      else Renamed(reserved, Active, path, env.saveActive)
  }

  predicate Promotes(d: Disk, path: Path, env: Env) {
    SavesActive(d, env) && CanRename(SaveActiveOf(d, env), path, env.promote)
  }

  function PromoteOf(d: Disk, path: Path, env: Env): Disk {
    var saved := SaveActiveOf(d, env);
    if !SavesActive(d, env) then saved
    else if Promotes(d, path, env) then Renamed(saved, path, Active, env.promote)
    else if Active in d.files then Renamed(saved, Backup(env.backup), Active, env.restore)
    else saved
  }

  predicate RollsBack(d: Disk, backup: Option<Path>, env: Env) {
    env.removeFailed && (backup.Some? ==> CanRename(Removed(d, Active, true), backup.value, env.putBack))
  }

  function RollbackOf(d: Disk, backup: Option<Path>, env: Env): Disk {
    if !env.removeFailed then d
    else if backup.None? then Removed(d, Active, true)
    else Renamed(Removed(d, Active, true), backup.value, Active, env.putBack)
  }

  predicate Finalizes(backup: Option<Path>, env: Env) {
    backup.Some? ==> env.finalize
  }

  function FinalizeOf(d: Disk, backup: Option<Path>, env: Env): Disk {
    if backup.None? then d else Removed(d, backup.value, env.finalize)
  }

  class FileDeployment {
    var files: Files
    ghost var restarts: seq<Option<Bytes>>
    ghost var log: seq<Point>

    ghost function Value(): Disk
      reads this
    {
      Disk(files, restarts, log)
    }

    constructor (files: Files, ghost restarts: seq<Option<Bytes>>)
      ensures Value() == Disk(files, restarts, [Point(files, restarts)])
    {
      this.files, this.restarts, log := files, restarts, [Point(files, restarts)];
    }

    method Write(path: Path, bytes: Bytes)
      modifies this
      ensures Value() == Written(old(Value()), path, bytes)
    {
      files := files[path := bytes];
      log := log + [Point(files, restarts)];
    }

    // Removing a file that is not there succeeds.
    method Remove(path: Path, works: bool) returns (ok: bool)
      modifies this
      ensures ok == works && Value() == Removed(old(Value()), path, works)
    {
      if works && path in files {
        files := files - {path};
        log := log + [Point(files, restarts)];
      }
      return works;
    }

    method Rename(from: Path, to: Path, works: bool) returns (ok: bool)
      modifies this
      ensures ok == CanRename(old(Value()), from, works) && Value() == Renamed(old(Value()), from, to, works)
    {
      ok := works && from in files;
      if ok {
        files := (files - {from})[to := files[from]];
        log := log + [Point(files, restarts)];
      }
    }

    method Stage(configuration: Bytes, env: Env) returns (path: Option<Path>)
      modifies this
      ensures path == if Stages(old(Value()), configuration, env) then Some(Candidate(env.candidate)) else None
      ensures Value() == StageOf(old(Value()), configuration, env)
    {
      if configuration == [] {
        return None;
      }
      var candidate := Candidate(env.candidate);
      if !env.create || candidate in files {
        return None;
      }
      Write(candidate, []);
      if !env.chmod {
        var _ := Remove(candidate, env.unstage);
        return None;
      }
      Write(candidate, if env.write then configuration else env.partial);
      if !env.write || !env.sync || !env.close {
        var _ := Remove(candidate, env.unstage);
        return None;
      }
      return Some(candidate);
    }

    method Discard(path: Path, env: Env)
      modifies this
      ensures Value() == Removed(old(Value()), path, env.discard)
    {
      var _ := Remove(path, env.discard);
    }

    // On success the backup's path, if there was something to back up.
    method Promote(path: Path, env: Env) returns (promotion: Result<Option<Path>, ()>)
      modifies this
      ensures promotion == if !Promotes(old(Value()), path, env) then Err(())
                           else Ok(if Active in old(files) then Some(Backup(env.backup)) else None)
      ensures Value() == PromoteOf(old(Value()), path, env)
    {
      var backup := None;
      if !env.stat {
        return Err(());
      }
      if Active in files {
        var reserved := Backup(env.backup);
        if !env.reserve || reserved in files {
          return Err(());
        }
        Write(reserved, []);
        var cleared := Remove(reserved, env.unreserve);
        if !env.closeBackup || !cleared {
          return Err(());
        }
        var moved := Rename(Active, reserved, env.saveActive);
        if !moved {
          return Err(());
        }
        backup := Some(reserved);
      }
      var promoted := Rename(path, Active, env.promote);
      if !promoted {
        if backup.Some? {
          var _ := Rename(backup.value, Active, env.restore);
        }
        return Err(());
      }
      return Ok(backup);
    }

    method Restart(works: bool)
      modifies this
      ensures Value() == Restarted(old(Value()), works)
    {
      if works {
        restarts := restarts + [Value().Active()];
        log := log + [Point(files, restarts)];
      }
    }

    method Rollback(backup: Option<Path>, env: Env) returns (ok: bool)
      modifies this
      ensures ok == RollsBack(old(Value()), backup, env) && Value() == RollbackOf(old(Value()), backup, env)
    {
      ok := Remove(Active, env.removeFailed);
      if ok && backup.Some? {
        ok := Rename(backup.value, Active, env.putBack);
      }
    }

    method Finalize(backup: Option<Path>, env: Env) returns (ok: bool)
      modifies this
      ensures ok == Finalizes(backup, env) && Value() == FinalizeOf(old(Value()), backup, env)
    {
      if backup.None? {
        return true;
      }
      ok := Remove(backup.value, env.finalize);
    }
  }

  // ---- the install ----

  // Where the install failed, if it did, and the disk it leaves.
  datatype Installation = Installation(disk: Disk, failed: Option<Stage>)

  function InstallOf(d: Disk, configuration: Bytes, env: Env): Installation {
    var staged := StageOf(d, configuration, env);
    var path := Candidate(env.candidate);
    if !Stages(d, configuration, env) then Installation(staged, Some(Staging))
    else if !env.check then Installation(Removed(staged, path, env.discard), Some(Checking))
    else
      var promoted := PromoteOf(staged, path, env);
      if !Promotes(staged, path, env) then Installation(Removed(promoted, path, env.discard), Some(Promoting))
      else ActivateOf(promoted, if Active in d.files then Some(Backup(env.backup)) else None, env)
  }

  function ActivateOf(d: Disk, backup: Option<Path>, env: Env): Installation {
    var restarted := Restarted(d, env.restart);
    if env.restart then
      Installation(FinalizeOf(restarted, backup, env), if Finalizes(backup, env) then None else Some(Finalizing))
    else
      var rolledBack := RollbackOf(d, backup, env);
      if !RollsBack(d, backup, env) || !env.restartOld then Installation(rolledBack, Some(RollingBack))
      else Installation(FinalizeOf(Restarted(rolledBack, true), backup, env), Some(Restarting))
  }

  class Installer {
    const deployment: FileDeployment

    constructor (deployment: FileDeployment)
      ensures this.deployment == deployment
    {
      this.deployment := deployment;
    }

    method Install(configuration: Bytes, env: Env) returns (failed: Option<Stage>)
      modifies deployment
      ensures Installation(deployment.Value(), failed) == InstallOf(old(deployment.Value()), configuration, env)
    {
      if configuration == [] {
        return Some(Staging);
      }
      var staged := deployment.Stage(configuration, env);
      if staged.None? {
        return Some(Staging);
      }
      var path := staged.value;
      if !env.check {
        deployment.Discard(path, env);
        return Some(Checking);
      }
      var promotion := deployment.Promote(path, env);
      if promotion.Err? {
        deployment.Discard(path, env);
        return Some(Promoting);
      }
      var backup := promotion.value;
      deployment.Restart(env.restart);
      if !env.restart {
        var rolledBack := deployment.Rollback(backup, env);
        if !rolledBack {
          return Some(RollingBack);
        }
        deployment.Restart(env.restartOld);
        if !env.restartOld {
          return Some(RollingBack);
        }
        var _ := deployment.Finalize(backup, env);
        return Some(Restarting);
      }
      var finalized := deployment.Finalize(backup, env);
      return if finalized then None else Some(Finalizing);
    }
  }

  // ---- what the returned stage says ----

  // Everything but one leftover temporary file is the same.
  predicate SameBut(files: Files, others: Files, path: Path) {
    files - {path} == others - {path}
  }

  // The active file is moved to a fresh backup, if there is one.
  function BackedUp(files: Files, backup: nat): Files {
    if Active in files then (files - {Active})[Backup(backup) := files[Active]] else files
  }

  lemma StagedShape(d: Disk, configuration: Bytes, env: Env)
    ensures var staged := StageOf(d, configuration, env);
            && staged.restarts == d.restarts && SameBut(staged.files, d.files, Candidate(env.candidate))
            && (Stages(d, configuration, env) ==> staged.files == d.files[Candidate(env.candidate) := configuration])
  {
  }

  lemma SavedShape(d: Disk, env: Env)
    ensures var saved := SaveActiveOf(d, env);
            && saved.restarts == d.restarts
            && (if SavesActive(d, env)
                then
                  && saved.files == BackedUp(d.files, env.backup)
                  && (Active in d.files ==> Backup(env.backup) !in d.files)
                else SameBut(saved.files, d.files, Backup(env.backup)))
  {
    if env.stat && Active in d.files && env.reserve && Backup(env.backup) !in d.files {
      var reserved := Written(d, Backup(env.backup), []);
      assert reserved.files - {Backup(env.backup)} == d.files;
    }
  }

  lemma PromotedShape(d: Disk, candidate: Path, env: Env)
    requires candidate.Candidate? && candidate in d.files
    ensures var promoted := PromoteOf(d, candidate, env);
            && promoted.restarts == d.restarts
            && (if Promotes(d, candidate, env)
                then promoted.files == (BackedUp(d.files, env.backup) - {candidate})[Active := d.files[candidate]]
                else
                  || SameBut(promoted.files, d.files, Backup(env.backup))
                  || (!env.restore && Active in d.files && promoted.files == BackedUp(d.files, env.backup)))
    ensures Promotes(d, candidate, env) && Active in d.files ==> Backup(env.backup) !in d.files
  {
    SavedShape(d, env);
    hide SaveActiveOf, SavesActive;
    var saved := SaveActiveOf(d, env);
    if SavesActive(d, env) && !Promotes(d, candidate, env) && Active in d.files && env.restore {
      assert PromoteOf(d, candidate, env).files == (saved.files - {Backup(env.backup)})[Active := d.files[Active]];
      assert PromoteOf(d, candidate, env).files == d.files;
    }
  }

  lemma ActivatedShape(d: Disk, before: Disk, configuration: Bytes, env: Env)
    requires d.restarts == before.restarts && d.files == BackedUp(before.files, env.backup)[Active := configuration]
    requires Active in before.files ==> Backup(env.backup) !in before.files
    ensures Truthful(before, configuration, env,
                     ActivateOf(d, if Active in before.files then Some(Backup(env.backup)) else None, env))
  {
    var b := Backup(env.backup);
    if Active in before.files {
      assert d.files == before.files[b := before.files[Active]][Active := configuration];
      assert d.files - {b} == before.files[Active := configuration];
      assert (d.files - {Active} - {b})[Active := d.files[b]] == before.files;
    } else {
      assert d.files - {Active} == before.files;
    }
  }

  // What each way to end an install says about the directory and the core.
  predicate Truthful(d: Disk, configuration: Bytes, env: Env, i: Installation) {
    match i.failed
    case None =>
      i.disk.files == d.files[Active := configuration] && i.disk.restarts == d.restarts + [Some(configuration)]
    case Some(Finalizing) =>
      && Active in d.files && Backup(env.backup) !in d.files
      && i.disk.files == d.files[Backup(env.backup) := d.files[Active]][Active := configuration]
      && i.disk.restarts == d.restarts + [Some(configuration)]
    case Some(Staging) => SameBut(i.disk.files, d.files, Candidate(env.candidate)) && i.disk.restarts == d.restarts
    case Some(Checking) => SameBut(i.disk.files, d.files, Candidate(env.candidate)) && i.disk.restarts == d.restarts
    case Some(Restarting) => i.disk.files == d.files && i.disk.restarts == d.restarts + [d.Active()]
    case Some(Promoting) =>
      && i.disk.restarts == d.restarts
      && (i.disk.Active() == d.Active()
          || (!env.restore && Active in d.files && i.disk.Active() == None
              && Backup(env.backup) in i.disk.files && i.disk.files[Backup(env.backup)] == d.files[Active]))
    case Some(RollingBack) =>
      && i.disk.restarts == d.restarts && !env.restart
      && (if !env.removeFailed then i.disk.files == BackedUp(d.files, env.backup)[Active := configuration]
          else if Active in d.files && !env.putBack then i.disk.files == BackedUp(d.files, env.backup)
          else i.disk.files == d.files && !env.restartOld)
  }

  /** The returned stage tells the truth about the files. Success means the new
      bytes are active, the core restarted on them and nothing else changed; a
      failed finalization only leaves the old bytes in the backup besides. After
      a failed stage or check the active file and every backup are as they were;
      after a failed restart the whole directory is, and the core restarted on
      it. A failed promotion restarts nothing and leaves the old file active,
      or in the backup when putting it back failed too. A failed rollback
      restarts nothing either, and leaves the old bytes in the backup, or active
      when only the restart on them failed. */
  lemma StageTellsTheTruth(d: Disk, configuration: Bytes, env: Env)
    ensures Truthful(d, configuration, env, InstallOf(d, configuration, env))
  {
    hide StageOf, PromoteOf, ActivateOf, Promotes;
    var path := Candidate(env.candidate);
    var staged := StageOf(d, configuration, env);
    StagedShape(d, configuration, env);
    if Stages(d, configuration, env) {
      assert staged.files - {path} == d.files;
      if env.check {
        PromotedShape(staged, path, env);
        var promoted := PromoteOf(staged, path, env);
        if Promotes(staged, path, env) {
          assert promoted.files == BackedUp(d.files, env.backup)[Active := configuration];
          ActivatedShape(promoted, d, configuration, env);
        } else if SameBut(promoted.files, staged.files, Backup(env.backup)) {
          assert Active in promoted.files <==> Active in promoted.files - {Backup(env.backup)};
          assert Active in staged.files <==> Active in staged.files - {Backup(env.backup)};
        }
      }
    }
  }

  // ---- at every moment of an install ----

  predicate Holds(files: Files, path: Path, bytes: Bytes) {
    path in files && files[path] == bytes
  }

  // What holds at a point of the install that started on `d`: the previous
  // bytes are active or backed up until a restart on the new ones succeeded,
  // no older backup is touched, and at most one restart succeeded, on what is
  // active then.
  predicate Kept(p: Point, d: Disk, configuration: Bytes, env: Env) {
    && (Active in d.files ==>
          || Holds(p.files, Active, d.files[Active]) || Holds(p.files, Backup(env.backup), d.files[Active])
          || (env.restart && p.restarts == d.restarts + [Some(configuration)]))
    && (forall path: Path :: path.Backup? && path in d.files ==> Holds(p.files, path, d.files[path]))
    && (p.restarts == d.restarts
        || p.restarts == d.restarts + [if Active in p.files then Some(p.files[Active]) else None])
  }

  predicate AllKept(now: Disk, d: Disk, configuration: Bytes, env: Env) {
    && d.log <= now.log && Kept(now.Now(), d, configuration, env)
    && forall i :: |d.log| <= i < |now.log| ==> Kept(now.log[i], d, configuration, env)
  }

  lemma StepKept(x: Disk, y: Disk, d: Disk, configuration: Bytes, env: Env)
    requires AllKept(x, d, configuration, env) && Kept(y.Now(), d, configuration, env)
    requires y == x || y.log == x.log + [y.Now()]
    ensures AllKept(y, d, configuration, env)
  {
    hide Kept;
  }

  lemma CandidateKept(x: Disk, y: Disk, path: Path, d: Disk, configuration: Bytes, env: Env)
    requires path.Candidate? && AllKept(x, d, configuration, env)
    requires (exists bytes :: y == Written(x, path, bytes)) || (exists works :: y == Removed(x, path, works))
    ensures AllKept(y, d, configuration, env)
  {
    StepKept(x, y, d, configuration, env);
  }

  lemma StageKept(d: Disk, configuration: Bytes, env: Env)
    ensures AllKept(StageOf(d, configuration, env), d, configuration, env)
  {
    var path := Candidate(env.candidate);
    if configuration != [] && env.create && path !in d.files {
      var created := Written(d, path, []);
      CandidateKept(d, created, path, d, configuration, env);
      CandidateKept(created, Removed(created, path, env.unstage), path, d, configuration, env);
      var bytes := if env.write then configuration else env.partial;
      var written := Written(created, path, bytes);
      CandidateKept(created, written, path, d, configuration, env);
      CandidateKept(written, Removed(written, path, env.unstage), path, d, configuration, env);
    }
  }

  // The active file and the backups are still those of `d`.
  ghost predicate Untouched(x: Disk, d: Disk) {
    && x.restarts == d.restarts && x.Active() == d.Active()
    && forall path: Path :: path.Backup? ==>
         (path in x.files <==> path in d.files) && (path in d.files ==> x.files[path] == d.files[path])
  }

  lemma SaveKept(x: Disk, d: Disk, configuration: Bytes, env: Env)
    requires AllKept(x, d, configuration, env) && Untouched(x, d)
    ensures AllKept(SaveActiveOf(x, env), d, configuration, env)
  {
    var path := Backup(env.backup);
    if env.stat && Active in x.files && env.reserve && path !in x.files {
      var written := Written(x, path, []);
      StepKept(x, written, d, configuration, env);
      var reserved := Removed(written, path, env.unreserve);
      StepKept(written, reserved, d, configuration, env);
      var saved := Renamed(reserved, Active, path, env.saveActive);
      StepKept(reserved, saved, d, configuration, env);
    }
  }

  lemma PromoteKept(x: Disk, candidate: Path, d: Disk, configuration: Bytes, env: Env)
    requires AllKept(x, d, configuration, env) && Untouched(x, d) && candidate.Candidate? && candidate in x.files
    ensures AllKept(PromoteOf(x, candidate, env), d, configuration, env)
  {
    SaveKept(x, d, configuration, env);
    SavedShape(x, env);
    hide SaveActiveOf, SavesActive;
    var saved := SaveActiveOf(x, env);
    if SavesActive(x, env) {
      if Promotes(x, candidate, env) {
        StepKept(saved, Renamed(saved, candidate, Active, env.promote), d, configuration, env);
      } else if Active in x.files {
        StepKept(saved, Renamed(saved, Backup(env.backup), Active, env.restore), d, configuration, env);
      }
    }
  }

  lemma ActivateKept(x: Disk, d: Disk, configuration: Bytes, env: Env)
    requires AllKept(x, d, configuration, env) && x.restarts == d.restarts && Holds(x.files, Active, configuration)
    requires Active in d.files ==> Backup(env.backup) !in d.files && Holds(x.files, Backup(env.backup), d.files[Active])
    ensures AllKept(ActivateOf(x, if Active in d.files then Some(Backup(env.backup)) else None, env).disk,
                    d, configuration, env)
  {
    var backup := if Active in d.files then Some(Backup(env.backup)) else None;
    if env.restart {
      var restarted := Restarted(x, true);
      StepKept(x, restarted, d, configuration, env);
      StepKept(restarted, FinalizeOf(restarted, backup, env), d, configuration, env);
    } else {
      var removed := Removed(x, Active, env.removeFailed);
      StepKept(x, removed, d, configuration, env);
      var rolledBack := RollbackOf(x, backup, env);
      StepKept(removed, rolledBack, d, configuration, env);
      if RollsBack(x, backup, env) && env.restartOld {
        StepKept(rolledBack, Restarted(rolledBack, true), d, configuration, env);
      }
    }
  }

  /** Whichever operation fails, and wherever a crash cuts the install short:
      the previous configuration is in the active file or in this install's
      backup until a restart on the new one has succeeded. */
  lemma PreviousConfigurationSurvives(d: Disk, configuration: Bytes, env: Env)
    ensures var log := InstallOf(d, configuration, env).disk.log;
            d.log <= log && forall i :: |d.log| <= i < |log| ==> Kept(log[i], d, configuration, env)
    ensures Kept(InstallOf(d, configuration, env).disk.Now(), d, configuration, env)
  {
    var path := Candidate(env.candidate);
    var staged := StageOf(d, configuration, env);
    StageKept(d, configuration, env);
    StagedShape(d, configuration, env);
    hide StageOf, PromoteOf, ActivateOf, Promotes, Kept;
    if Stages(d, configuration, env) {
      CandidateKept(staged, Removed(staged, path, env.discard), path, d, configuration, env);
      if env.check {
        PromoteKept(staged, path, d, configuration, env);
        PromotedShape(staged, path, env);
        var promoted := PromoteOf(staged, path, env);
        CandidateKept(promoted, Removed(promoted, path, env.discard), path, d, configuration, env);
        if Promotes(staged, path, env) {
          ActivateKept(promoted, d, configuration, env);
        }
      }
    }
  }

  // ---- over every run of installs and crashes ----

  // One install, possibly cut short right after its k-th change.
  datatype Attempt = Attempt(configuration: Bytes, env: Env, crash: Option<nat>)

  function Attempted(d: Disk, a: Attempt): Disk {
    var whole := InstallOf(d, a.configuration, a.env).disk;
    if a.crash.None? || |d.log| + a.crash.value >= |whole.log| then whole
    else
      var log := whole.log[..|d.log| + a.crash.value + 1];
      Disk(log[|log| - 1].files, log[|log| - 1].restarts, log)
  }

  function RunOf(d: Disk, attempts: seq<Attempt>): Disk
    decreases |attempts|
  {
    if attempts == [] then d else RunOf(Attempted(d, attempts[0]), attempts[1..])
  }

  // The bytes of the last successful restart are active or in some backup.
  ghost predicate LastGoodIsHeld(restarts: seq<Option<Bytes>>, files: Files) {
    restarts != [] && restarts[|restarts| - 1].Some? ==>
      exists path: Path :: !path.Candidate? && Holds(files, path, restarts[|restarts| - 1].value)
  }

  lemma HeldAt(restarts: seq<Option<Bytes>>, files: Files, path: Path)
    requires restarts != [] && restarts[|restarts| - 1].Some? && !path.Candidate?
    requires Holds(files, path, restarts[|restarts| - 1].value)
    ensures LastGoodIsHeld(restarts, files)
  {
  }

  lemma AttemptHoldsLastGood(d: Disk, a: Attempt)
    requires LastGoodIsHeld(d.restarts, d.files)
    ensures LastGoodIsHeld(Attempted(d, a).restarts, Attempted(d, a).files)
  {
    PreviousConfigurationSurvives(d, a.configuration, a.env);
    hide InstallOf;
    var next := Attempted(d, a);
    assert Kept(next.Now(), d, a.configuration, a.env);
    if next.restarts == d.restarts {
      if next.restarts != [] && next.restarts[|next.restarts| - 1].Some? {
        var good := d.restarts[|d.restarts| - 1].value;
        var path: Path :| !path.Candidate? && Holds(d.files, path, good);
        if path.Active? {
          HeldAt(next.restarts, next.files, if Holds(next.files, Active, good) then Active else Backup(a.env.backup));
        } else {
          HeldAt(next.restarts, next.files, path);
        }
      }
    } else {
      var active := next.Active();
      assert next.restarts == d.restarts + [active];
      assert next.restarts[|next.restarts| - 1] == active;
      if active.Some? {
        HeldAt(next.restarts, next.files, Active);
      }
    }
  }

  /** Over every run of installs, whatever fails and wherever each crashes, the
      last configuration the core restarted on is never lost: it is the active
      file or one of the backups. */
  lemma {:induction false} LastGoodConfigurationIsNeverLost(d: Disk, attempts: seq<Attempt>)
    requires LastGoodIsHeld(d.restarts, d.files)
    ensures LastGoodIsHeld(RunOf(d, attempts).restarts, RunOf(d, attempts).files)
    decreases |attempts|
  {
    hide Attempted, LastGoodIsHeld;
    if attempts != [] {
      AttemptHoldsLastGood(d, attempts[0]);
      LastGoodConfigurationIsNeverLost(Attempted(d, attempts[0]), attempts[1..]);
    }
  }

  // ---- when only the core can refuse ----

  // Every file operation works, under fresh temporary names.
  predicate FilesWork(d: Disk, env: Env) {
    && env.create && Candidate(env.candidate) !in d.files && env.chmod && env.write && env.sync && env.close
    && env.unstage && env.discard && env.stat && env.reserve && Backup(env.backup) !in d.files && env.closeBackup
    && env.unreserve && env.saveActive && env.promote && env.restore && env.removeFailed && env.putBack && env.finalize
  }

  /** On a working disk an install is all or nothing: it succeeds exactly when
      the core accepts and restarts on the configuration, and then only the
      active file changes; otherwise the directory is what it was. */
  lemma InstallIsAllOrNothing(d: Disk, configuration: Bytes, env: Env)
    requires configuration != [] && FilesWork(d, env)
    ensures var i := InstallOf(d, configuration, env);
            && (i.failed == None <==> env.check && env.restart)
            && i.disk.files == if i.failed == None then d.files[Active := configuration] else d.files
  {
    StageTellsTheTruth(d, configuration, env);
    StagedShape(d, configuration, env);
    hide StageOf, PromoteOf, SaveActiveOf;
    var path := Candidate(env.candidate);
    var staged := StageOf(d, configuration, env);
    SavedShape(staged, env);
    PromotedShape(staged, path, env);
    if !env.check {
      assert staged.files - {path} == d.files;
    } else if !env.restart && !env.restartOld {
      var promoted := PromoteOf(staged, path, env);
      assert staged.files - {path} == d.files;
      assert promoted.files == BackedUp(d.files, env.backup)[Active := configuration];
      if Active in d.files {
        assert (promoted.files - {Active} - {Backup(env.backup)})[Active := d.files[Active]] == d.files;
      } else {
        assert promoted.files - {Active} == d.files;
      }
    }
  }

  // ---- the stage names the call that failed ----

  predicate StageWorks(d: Disk, configuration: Bytes, env: Env) {
    && configuration != [] && env.create && Candidate(env.candidate) !in d.files
    && env.chmod && env.write && env.sync && env.close
  }

  // With a file to back up: a fresh backup reserved and freed, then two renames.
  predicate PromoteWorks(d: Disk, env: Env) {
    && env.stat && env.promote
    && (Active in d.files ==>
          && env.reserve && Backup(env.backup) !in d.files && env.closeBackup && env.unreserve && env.saveActive)
  }

  lemma PromotesExactly(d: Disk, configuration: Bytes, env: Env)
    requires StageWorks(d, configuration, env)
    ensures Promotes(StageOf(d, configuration, env), Candidate(env.candidate), env) <==> PromoteWorks(d, env)
  {
    var staged := StageOf(d, configuration, env);
    StagedShape(d, configuration, env);
    SavedShape(staged, env);
    hide StageOf, SaveActiveOf;
  }

  /** The stage reported is that of the first call that failed, and success
      means that none did: a restart failure is reported as such only when the
      old configuration was put back and restarted on, and as a failed rollback
      otherwise. */
  lemma StageNamesTheCall(d: Disk, configuration: Bytes, env: Env)
    ensures var failed := InstallOf(d, configuration, env).failed;
            var ready := StageWorks(d, configuration, env) && env.check && PromoteWorks(d, env);
            var putBack := env.removeFailed && (Active in d.files ==> env.putBack);
            && (failed == Some(Staging) <==> !StageWorks(d, configuration, env))
            && (failed == Some(Checking) <==> StageWorks(d, configuration, env) && !env.check)
            && (failed == Some(Promoting) <==> StageWorks(d, configuration, env) && env.check && !PromoteWorks(d, env))
            && (failed == Some(RollingBack) <==> ready && !env.restart && !(putBack && env.restartOld))
            && (failed == Some(Restarting) <==> ready && !env.restart && putBack && env.restartOld)
            && (failed == Some(Finalizing) <==> ready && env.restart && Active in d.files && !env.finalize)
            && (failed == None <==> ready && env.restart && (Active in d.files ==> env.finalize))
  {
    if StageWorks(d, configuration, env) && env.check {
      var staged, path := StageOf(d, configuration, env), Candidate(env.candidate);
      PromotesExactly(d, configuration, env);
      StagedShape(d, configuration, env);
      PromotedShape(staged, path, env);
      hide StageOf, PromoteOf, Promotes;
      if PromoteWorks(d, env) {
        var promoted := PromoteOf(staged, path, env);
        assert Active in d.files ==> Backup(env.backup) in promoted.files;
      }
    }
  }
}
