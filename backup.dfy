/**
 * auto_backup.php: dump a database into a local directory, make sure the
 * rclone mount holding the destination directory is up (running the mount
 * checker when it is not), and move the dump there; every failure ends the
 * script with exit status 1.
 *
 * As in `Mount`, every OS call of the procedure is an answer of an oracle (`BackupOs`) and the
 * actions the script takes are recorded as a trace of `Step`s.
 */
module Backup {
  import opened Text

  /** The script's configuration block (the credentials are not modelled). */
  datatype BackupConfig = BackupConfig(
    dbName: string,            // $dbName
    localBackupDir: string,    // $localBackupDir
    remoteBackupDir: string,   // $rcloneMountBackupDir
    checkScript: string)       // $rcloneCheckScriptPath

  /** The OS's answers during one run of the script. */
  datatype BackupOs = BackupOs(
    tempDirExists: bool,       // is_dir($localBackupDir)
    mkdirOk: bool,             // mkdir($localBackupDir, 0755, true)
    dumpStatus: int,           // mysqldump ... > local file
    mountDirBefore: bool,      // is_dir($mountDir), before the checker
    checkerStatus: int,        // php check_rclone_mount.php
    mountDirAfter: bool,       // is_dir($mountDir), after the checker
    moveStatus: int)           // mv local final

  /** The actions the script takes, in order. */
  datatype Step =
    | MakeDir(path: string)
    | Dump(database: string, target: string)
    | ProbeDir(path: string)    // is_dir($mountDir)
    | RunChecker(script: string)
    | Settle                   // sleep(5)
    | Move(source: string, destination: string)

  // ---------------------------------------------------------------------------
  // File names
  // ---------------------------------------------------------------------------

  /** `$dbName . '_' . date('Y-m-d_H-i-s') . '.sql'`, with the formatted date passed in. */
  function BackupFileName(dbName: string, timestamp: string): string {
    dbName + "_" + timestamp + ".sql"
  }

  /** `$dir . '/' . $name`. */
  function InDir(dir: string, name: string): string {
    dir + "/" + name
  }

  /** The last component of a path: everything after its last `/`. */
  function BaseName(path: string): (r: string)
    ensures |r| <= |path| && r == path[|path| - |r|..] && '/' !in r
    ensures |r| == |path| || path[|path| - |r| - 1] == '/'
    decreases |path|
  {
    if path == [] || Last(path) == '/' then [] else BaseName(Init(path)) + [Last(path)]
  }

  /** A name put in a directory is that path's last component, whatever the directory. */
  lemma {:induction false} BaseNameInDir(dir: string, name: string)
    requires '/' !in name
    ensures BaseName(InDir(dir, name)) == name
    decreases |name|
  {
    if name == [] {
      assert Last(InDir(dir, name)) == '/';
    } else {
      assert Init(InDir(dir, name)) == InDir(dir, Init(name));
      assert Last(InDir(dir, name)) == Last(name);
      BaseNameInDir(dir, Init(name));
      assert Init(name) + [Last(name)] == name;
    }
  }

  /** Runs at different times write different files. */
  lemma BackupFileNameInjective(dbName: string, t1: string, t2: string)
    requires BackupFileName(dbName, t1) == BackupFileName(dbName, t2)
    ensures t1 == t2
  {
    var n1, n2 := BackupFileName(dbName, t1), BackupFileName(dbName, t2);
    assert |t1| == |t2|;
    assert t1 == n1[|dbName| + 1..|dbName| + 1 + |t1|];
    assert t2 == n2[|dbName| + 1..|dbName| + 1 + |t2|];
  }

  /** The local and the final path name the same file. */
  lemma SameFileName(cfg: BackupConfig, timestamp: string)
    requires '/' !in cfg.dbName && '/' !in timestamp
    ensures var name := BackupFileName(cfg.dbName, timestamp);
      BaseName(InDir(cfg.localBackupDir, name)) == name
      && BaseName(InDir(cfg.remoteBackupDir, name)) == name
  {
    var name := BackupFileName(cfg.dbName, timestamp);
    assert '/' !in name by {
      assert forall i :: 0 <= i < |name| ==> name[i] in cfg.dbName || name[i] in timestamp || name[i] in "_.sql";
    }
    BaseNameInDir(cfg.localBackupDir, name);
    BaseNameInDir(cfg.remoteBackupDir, name);
  }

  // ---------------------------------------------------------------------------
  // ensureRcloneMount
  // ---------------------------------------------------------------------------

  datatype MountCheck = MountCheck(ok: bool, steps: seq<Step>)

  /** The specification of `ensureRcloneMount`. */
  function EnsureMount(mountDir: string, checkScript: string, os: BackupOs): MountCheck {
    if os.mountDirBefore then MountCheck(true, [ProbeDir(mountDir)])
    else MountCheck(os.mountDirAfter, [ProbeDir(mountDir), RunChecker(checkScript), Settle, ProbeDir(mountDir)])
  }

  /**
   * An existing directory is accepted after one probe, without running the
   * checker; otherwise the checker runs exactly once, between two probes of
   * the same directory, and the answer is the second `is_dir`. Its exit
   * status plays no part.
   */
  lemma EnsureMountCases(mountDir: string, checkScript: string, os: BackupOs, checkerStatus: int)
    ensures var e := EnsureMount(mountDir, checkScript, os);
      (os.mountDirBefore ==> e.ok && e.steps == [ProbeDir(mountDir)])
      && (!os.mountDirBefore ==>
            e.ok == os.mountDirAfter && |e.steps| == 4
            && e.steps[0] == e.steps[3] == ProbeDir(mountDir)
            && e.steps[1] == RunChecker(checkScript) && !e.steps[2].RunChecker?)
      && EnsureMount(mountDir, checkScript, os.(checkerStatus := checkerStatus)) == e
  {
  }

  /** ensureRcloneMount, step by step. */
  method EnsureRcloneMount(mountDir: string, checkScript: string, os: BackupOs)
    returns (ok: bool, steps: seq<Step>)
    ensures MountCheck(ok, steps) == EnsureMount(mountDir, checkScript, os)
  {
    steps := [ProbeDir(mountDir)];
    if !os.mountDirBefore {
      steps := steps + [RunChecker(checkScript)];
      steps := steps + [Settle];
      steps := steps + [ProbeDir(mountDir)];
      if !os.mountDirAfter {
        return false, steps;
      }
    }
    return true, steps;
  }

  // ---------------------------------------------------------------------------
  // The script
  // ---------------------------------------------------------------------------

  datatype BackupRun = BackupRun(exitCode: int, steps: seq<Step>)

  /** Whether the temporary directory is there once step 1 is over. */
  predicate TempDirReady(os: BackupOs) {
    os.tempDirExists || os.mkdirOk
  }

  /** The specification of one run of the script: its exit status and its trace. */
  function RunSpec(cfg: BackupConfig, timestamp: string, os: BackupOs): BackupRun {
    var made := if os.tempDirExists then [] else [MakeDir(cfg.localBackupDir)];
    if !TempDirReady(os) then BackupRun(1, made)
    else
      var name := BackupFileName(cfg.dbName, timestamp);
      var local, final := InDir(cfg.localBackupDir, name), InDir(cfg.remoteBackupDir, name);
      var dumped := made + [Dump(cfg.dbName, local)];
      if os.dumpStatus != 0 then BackupRun(1, dumped)
      else
        var e := EnsureMount(cfg.remoteBackupDir, cfg.checkScript, os);
        if !e.ok then BackupRun(1, dumped + e.steps)
        else BackupRun(if os.moveStatus == 0 then 0 else 1, dumped + e.steps + [Move(local, final)])
  }

  /** The top level of auto_backup.php; `exit(1)` ends it early, reaching the end is status 0. */
  method RunBackup(cfg: BackupConfig, timestamp: string, os: BackupOs)
    returns (exitCode: int, steps: seq<Step>)
    ensures BackupRun(exitCode, steps) == RunSpec(cfg, timestamp, os)
  {
    steps := [];
    if !os.tempDirExists {
      steps := steps + [MakeDir(cfg.localBackupDir)];
      if !os.mkdirOk {
        return 1, steps;
      }
    }
    var fileName := BackupFileName(cfg.dbName, timestamp);
    var localPath := InDir(cfg.localBackupDir, fileName);
    var finalPath := InDir(cfg.remoteBackupDir, fileName);
    steps := steps + [Dump(cfg.dbName, localPath)];
    if os.dumpStatus != 0 {
      return 1, steps;
    }
    var mounted, checkSteps := EnsureRcloneMount(cfg.remoteBackupDir, cfg.checkScript, os);
    steps := steps + checkSteps;
    if !mounted {
      return 1, steps;
    }
    steps := steps + [Move(localPath, finalPath)];
    if os.moveStatus != 0 {
      return 1, steps;
    }
    return 0, steps;
  }

  // ---------------------------------------------------------------------------
  // Properties of a run
  // ---------------------------------------------------------------------------

  predicate Dumps(steps: seq<Step>) {
    exists i :: 0 <= i < |steps| && steps[i].Dump?
  }

  predicate Moves(steps: seq<Step>) {
    exists i :: 0 <= i < |steps| && steps[i].Move?
  }

  /** A temporary directory that cannot be made stops the script with status 1 before any dump. */
  lemma EarlyStop(cfg: BackupConfig, timestamp: string, os: BackupOs)
    requires !TempDirReady(os)
    ensures var run := RunSpec(cfg, timestamp, os);
      run.exitCode == 1 && run.steps == [MakeDir(cfg.localBackupDir)] && !Dumps(run.steps)
  {
  }

  /**
   * The move is attempted exactly when the dump succeeded and the mount
   * directory was confirmed; then it is the last action, and the file moves
   * from the local directory to the destination under the same name.
   */
  lemma MoveGating(cfg: BackupConfig, timestamp: string, os: BackupOs)
    ensures var run := RunSpec(cfg, timestamp, os);
      var name := BackupFileName(cfg.dbName, timestamp);
      (Moves(run.steps) <==> TempDirReady(os) && os.dumpStatus == 0 && EnsureMount(cfg.remoteBackupDir, cfg.checkScript, os).ok)
      && (Moves(run.steps) ==>
            Last(run.steps) == Move(InDir(cfg.localBackupDir, name), InDir(cfg.remoteBackupDir, name))
            && (forall i :: 0 <= i < |run.steps| - 1 ==> !run.steps[i].Move?))
  {
    var run := RunSpec(cfg, timestamp, os);
    if TempDirReady(os) && os.dumpStatus == 0 {
      var name := BackupFileName(cfg.dbName, timestamp);
      var made := if os.tempDirExists then [] else [MakeDir(cfg.localBackupDir)];
      var before := made + [Dump(cfg.dbName, InDir(cfg.localBackupDir, name))] + EnsureMount(cfg.remoteBackupDir, cfg.checkScript, os).steps;
      assert forall i :: 0 <= i < |before| ==> !before[i].Move?;
      if EnsureMount(cfg.remoteBackupDir, cfg.checkScript, os).ok {
        assert run.steps == before + [Move(InDir(cfg.localBackupDir, name), InDir(cfg.remoteBackupDir, name))];
        assert run.steps[|run.steps| - 1].Move?;
      } else {
        assert run.steps == before;
      }
    } else {
      assert forall i :: 0 <= i < |run.steps| ==> !run.steps[i].Move?;
    }
  }

  /**
   * The script finishes normally (status 0) exactly when every step
   * succeeded; every failure, whether of the temporary directory, the dump,
   * the mount or the move, ends it with status 1.
   */
  lemma ExitStatus(cfg: BackupConfig, timestamp: string, os: BackupOs)
    ensures var run := RunSpec(cfg, timestamp, os);
      (run.exitCode == 0 || run.exitCode == 1)
      && (run.exitCode == 0 <==>
            TempDirReady(os) && os.dumpStatus == 0 && EnsureMount(cfg.remoteBackupDir, cfg.checkScript, os).ok && os.moveStatus == 0)
  {
  }

  /**
   * The checker script runs only after a successful dump and only when the
   * destination directory is missing, and then once.
   */
  lemma CheckerOnlyWhenNeeded(cfg: BackupConfig, timestamp: string, os: BackupOs)
    ensures var run := RunSpec(cfg, timestamp, os);
      var runs := set i | 0 <= i < |run.steps| && run.steps[i].RunChecker?;
      (|runs| == 1 <==> TempDirReady(os) && os.dumpStatus == 0 && !os.mountDirBefore)
      && |runs| <= 1
  {
    var run := RunSpec(cfg, timestamp, os);
    var runs := set i | 0 <= i < |run.steps| && run.steps[i].RunChecker?;
    var made := if os.tempDirExists then [] else [MakeDir(cfg.localBackupDir)];
    if TempDirReady(os) && os.dumpStatus == 0 && !os.mountDirBefore {
      var name := BackupFileName(cfg.dbName, timestamp);
      var dumped := made + [Dump(cfg.dbName, InDir(cfg.localBackupDir, name))];
      var probe := ProbeDir(cfg.remoteBackupDir);
      assert run.steps[..|dumped| + 4] == dumped + [probe, RunChecker(cfg.checkScript), Settle, probe];
      assert runs == {|dumped| + 1};
    } else if TempDirReady(os) && os.dumpStatus == 0 {
      assert runs == {};
    } else {
      assert runs == {};
    }
  }

  /** The checker's own exit status never changes the run. */
  lemma CheckerStatusIgnored(cfg: BackupConfig, timestamp: string, os: BackupOs, status: int)
    ensures RunSpec(cfg, timestamp, os.(checkerStatus := status)) == RunSpec(cfg, timestamp, os)
  {
  }
}
