/**
 * `checkAndMountRclone` of check_rclone_mount.php: the per-remote reconciler.
 * It makes sure the mount directory exists, probes the mount, and when the
 * mount is not active it kills the rclone processes serving the remote,
 * unmounts a stale mount entry with `sudo umount`, and launches a detached
 * `rclone mount`.
 *
 * Every OS call of the procedure is an answer of the oracle `Os`; the
 * reconciler records the actions it takes as a trace of `Event`s and ends in one `Outcome`.
 * `escapeshellarg` is left uninterpreted: an escaped argument is a `Quoted`
 * piece of a shell word.
 */
module Mount {
  import opened Text

  /** One validated entry of `$remotesToMonitor`. */
  datatype RemoteConfig = RemoteConfig(remoteName: string, mountPoint: string, rcloneLog: string, vfsCacheSize: string)

  /** A piece of a shell word: literal text, or an argument passed through `escapeshellarg`. */
  datatype Piece = Lit(text: string) | Quoted(arg: string)

  type Word = seq<Piece>

  /**
   * The OS's answers during one reconciliation. Exit statuses are those of the
   * commands the source runs through `exec`; 0 means success (for
   * `mountpoint -q`: the path is a mount point).
   */
  datatype Os = Os(
    isDir: bool,              // is_dir($mountPoint)
    mkdirOk: bool,            // mkdir($mountPoint, 0755, true)
    firstProbe: int,          // mountpoint -q, before any clean-up
    pgrepStatus: int,         // pgrep -f <pattern>
    pids: seq<string>,        // the lines pgrep printed
    kill: string -> int,      // sudo kill <pid>
    secondProbe: int,         // mountpoint -q, after the kills
    umountStatus: int,        // sudo umount <mount point>
    launchStatus: int)        // nohup rclone mount ... &

  /** What a mount session is launched with: the parameters of its command line. */
  datatype Session = Session(binary: string, rcloneConfig: string, remoteName: string, mountPoint: string,
                             logFile: string, cacheSize: string)

  /** The actions the reconciler takes, in order. */
  datatype Event =
    | MakeDir(path: string)
    | Probe(path: string)
    | Pgrep(pattern: string)
    | Kill(pid: string, status: int)
    | Settle                  // sleep(2)
    | Umount(path: string)
    | Launch(session: Session) // nohup <LaunchCommand(session)> &

  datatype Outcome = DirFailed | Healthy | TeardownFailed | Activated | ActivationFailed

  datatype Run = Run(outcome: Outcome, trace: seq<Event>)

  /** `rtrim($mountPoint, '/')`: every trailing slash removed. */
  function NormalizeMountPoint(path: string): (r: string)
    ensures r <= path
    ensures r == [] || Last(r) != '/'
    ensures forall i :: |r| <= i < |path| ==> path[i] == '/'
  {
    RTrim(path, {'/'})
  }

  lemma NormalizeIdempotent(path: string)
    ensures NormalizeMountPoint(NormalizeMountPoint(path)) == NormalizeMountPoint(path)
  {
    RTrimIdempotent(path, {'/'});
  }

  /** The text `pgrep -f` looks for: the command line of the remote's mount session. */
  function PgrepPattern(binary: string, remoteName: string): string {
    binary + " mount " + remoteName + ":"
  }

  /** The `rclone mount` invocation, one shell word per element, in the source's order. */
  function SessionWords(s: Session): seq<Word> {
    [ [Lit(s.binary)], [Lit("mount")], [Quoted(s.remoteName + ":")], [Quoted(s.mountPoint)],
      [Lit("--config="), Quoted(s.rcloneConfig)],
      [Lit("--allow-other")],
      [Lit("--vfs-cache-mode")], [Lit("writes")],
      [Lit("--vfs-cache-max-age")], [Lit("24h")],
      [Lit("--vfs-cache-max-size")], [Quoted(s.cacheSize)],
      [Lit("--dir-cache-time")], [Lit("72h")],
      [Lit("--poll-interval")], [Lit("1m")],
      [Lit("--log-file")], [Quoted(s.logFile)],
      [Lit("--log-level")], [Lit("INFO")],
      [Lit("--timeout")], [Lit("1h")],
      [Lit("--retries")], [Lit("3")],
      [Lit("--daemon")] ]
  }

  /** The full launch command: the session wrapped in `nohup … > /dev/null 2>&1 &`. */
  function LaunchCommand(s: Session): seq<Word> {
    [[Lit("nohup")]] + SessionWords(s) + [[Lit(">")], [Lit("/dev/null")], [Lit("2>&1")], [Lit("&")]]
  }

  /** What a word becomes as a process argument once the shell has removed the quoting. */
  function Unquoted(w: Word): string {
    if w == [] then ""
    else (match w[0] case Lit(t) => t case Quoted(a) => a) + Unquoted(w[1..])
  }

  /** The command line `pgrep -f` matches against: the arguments joined by spaces. */
  function CommandLine(words: seq<Word>): string {
    Join(seq(|words|, i requires 0 <= i < |words| => Unquoted(words[i])), " ")
  }

  /**
   * The session the reconciler launches is the one its `pgrep` looks for:
   * the pattern is a prefix of the launched command line.
   */
  lemma PgrepFindsSession(s: Session)
    ensures PgrepPattern(s.binary, s.remoteName) <= CommandLine(SessionWords(s))
  {
    var binary, remoteName := s.binary, s.remoteName;
    var ws := SessionWords(s);
    var args := seq(|ws|, i requires 0 <= i < |ws| => Unquoted(ws[i]));
    assert args[0] == binary && args[1] == "mount" && args[2] == remoteName + ":" by {
      assert Unquoted([Lit(binary)]) == binary + Unquoted([]);
      assert Unquoted([Lit("mount")]) == "mount" + Unquoted([]);
      assert Unquoted([Quoted(remoteName + ":")]) == remoteName + ":" + Unquoted([]);
    }
    var rest := Join(args[3..], " ");
    assert args[1..][1..] == args[2..] && args[2..][1..] == args[3..];
    assert Join(args[2..], " ") == remoteName + ":" + " " + rest;
    assert Join(args[1..], " ") == "mount" + " " + Join(args[2..], " ");
    assert Join(args, " ") == binary + " " + Join(args[1..], " ");
    assert PgrepPattern(binary, remoteName) + " " + rest
        == binary + " " + ("mount" + " " + (remoteName + ":" + " " + rest));
  }

  /**
   * The pattern is specific to its remote: for remote names without a colon,
   * the pattern of one remote is a prefix of another remote's session command
   * line only when the two names are the same.
   */
  lemma PgrepPatternSpecific(binary: string, a: string, b: string, rest: string)
    requires ':' !in a && ':' !in b
    ensures PgrepPattern(binary, a) <= PgrepPattern(binary, b) + rest ==> a == b
  {
    var pa, pb := PgrepPattern(binary, a), PgrepPattern(binary, b) + rest;
    var k := |binary| + 7;
    assert forall i :: 0 <= i < |a| ==> pa[k + i] == a[i];
    assert forall i :: 0 <= i < |b| ==> pb[k + i] == b[i];
    assert |pa| == k + |a| + 1 && pa[k + |a|] == ':';
    assert |pb| >= k + |b| + 1 && pb[k + |b|] == ':';
    if pa <= pb {
      var m := if |a| < |b| then |a| else |b|;
      assert pa[k + m] == pb[k + m];
      assert m == |a| <==> m == |b|;
      assert |a| == |b|;
      assert a == pa[k..k + |a|] == pb[k..k + |b|] == b;
    }
  }

  // ---------------------------------------------------------------------------
  // The reconciler
  // ---------------------------------------------------------------------------

  /** One kill attempt per PID, in order, with the status the OS answered. */
  function KillEvents(pids: seq<string>, kill: string -> int): seq<Event> {
    seq(|pids|, i requires 0 <= i < |pids| => Kill(pids[i], kill(pids[i])))
  }

  /** The mkdir step, taken only when the mount directory is missing. */
  function DirSteps(os: Os, mountPoint: string): seq<Event> {
    if os.isDir then [] else [MakeDir(mountPoint)]
  }

  /** Whether the reconciler gets past the directory check. */
  predicate DirReady(os: Os) {
    os.isDir || os.mkdirOk
  }

  /** Whether it gets past the first probe into the clean-up. */
  predicate NeedsRemount(os: Os) {
    DirReady(os) && os.firstProbe != 0
  }

  /** Whether `pgrep` found processes to kill. */
  predicate FoundProcesses(os: Os) {
    os.pgrepStatus == 0 && |os.pids| > 0
  }

  /** The kills and the settle step taken when `pgrep` found processes. */
  function Killed(os: Os): seq<Event> {
    if FoundProcesses(os) then KillEvents(os.pids, os.kill) + [Settle] else []
  }

  /** The clean-up after an inactive probe: pgrep, the kills, and the second probe. */
  function Cleanup(os: Os, mountPoint: string, pattern: string): seq<Event> {
    [Probe(mountPoint), Pgrep(pattern)] + Killed(os) + [Probe(mountPoint)]
  }

  /** The `sudo umount`, taken when the second probe still sees a mount point and it succeeds. */
  function Unmounted(os: Os, mountPoint: string): seq<Event> {
    if os.secondProbe == 0 then [Umount(mountPoint), Settle] else []
  }

  /** The session the reconciler launches for a remote: its mount point normalised. */
  function SessionOf(rc: RemoteConfig, binary: string, rcloneConfig: string): Session {
    Session(binary, rcloneConfig, rc.remoteName, NormalizeMountPoint(rc.mountPoint), rc.rcloneLog, rc.vfsCacheSize)
  }

  /** The specification of one reconciliation: its outcome and its trace. */
  function Reconcile(rc: RemoteConfig, binary: string, rcloneConfig: string, os: Os): Run {
    var mp := NormalizeMountPoint(rc.mountPoint);
    var dir := DirSteps(os, mp);
    if !DirReady(os) then Run(DirFailed, dir)
    else if os.firstProbe == 0 then Run(Healthy, dir + [Probe(mp)])
    else
      var cleaned := dir + Cleanup(os, mp, PgrepPattern(binary, rc.remoteName));
      if os.secondProbe == 0 && os.umountStatus != 0 then Run(TeardownFailed, cleaned + [Umount(mp)])
      else
        Run(if os.launchStatus == 0 then Activated else ActivationFailed,
            cleaned + Unmounted(os, mp) + [Launch(SessionOf(rc, binary, rcloneConfig))])
  }

  /** The `foreach ($pids as $pid)` loop: one `sudo kill` per PID, failures ignored. */
  method KillAll(pids: seq<string>, kill: string -> int) returns (events: seq<Event>)
    ensures events == KillEvents(pids, kill)
  {
    events := [];
    for i := 0 to |pids|
      invariant events == KillEvents(pids[..i], kill)
    {
      var status := kill(pids[i]);
      assert KillEvents(pids[..i + 1], kill) == KillEvents(pids[..i], kill) + [Kill(pids[i], status)];
      events := events + [Kill(pids[i], status)];
    }
    assert pids[..|pids|] == pids;
  }

  /** checkAndMountRclone, step by step. */
  method CheckAndMountRclone(rc: RemoteConfig, binary: string, rcloneConfig: string, os: Os)
    returns (outcome: Outcome, trace: seq<Event>)
    ensures Run(outcome, trace) == Reconcile(rc, binary, rcloneConfig, os)
  {
    var mountPoint := NormalizeMountPoint(rc.mountPoint);
    ghost var dir := DirSteps(os, mountPoint);
    trace := [];
    if !os.isDir {
      trace := trace + [MakeDir(mountPoint)];
      if !os.mkdirOk {
        outcome := DirFailed;
        return;
      }
    }
    assert trace == dir;
    trace := trace + [Probe(mountPoint)];
    if os.firstProbe == 0 {
      outcome := Healthy;
      return;
    }
    var pattern := PgrepPattern(binary, rc.remoteName);
    trace := trace + [Pgrep(pattern)];
    var killed: seq<Event> := [];
    if os.pgrepStatus == 0 && |os.pids| > 0 {
      var kills := KillAll(os.pids, os.kill);
      killed := kills + [Settle];
      trace := trace + killed;
    }
    assert killed == Killed(os);
    trace := trace + [Probe(mountPoint)];
    ghost var cleaned := dir + Cleanup(os, mountPoint, pattern);
    assert trace == cleaned;
    if os.secondProbe == 0 {
      trace := trace + [Umount(mountPoint)];
      if os.umountStatus != 0 {
        outcome := TeardownFailed;
        return;
      }
      trace := trace + [Settle];
    }
    assert trace == cleaned + Unmounted(os, mountPoint);
    var session := Session(binary, rcloneConfig, rc.remoteName, mountPoint, rc.rcloneLog, rc.vfsCacheSize);
    trace := trace + [Launch(session)];
    outcome := if os.launchStatus == 0 then Activated else ActivationFailed;
  }

  // ---------------------------------------------------------------------------
  // Properties of a reconciliation
  // ---------------------------------------------------------------------------

  /** An event that changes the system beyond the mount directory. */
  predicate Intervenes(e: Event) {
    e.Pgrep? || e.Kill? || e.Settle? || e.Umount? || e.Launch?
  }

  predicate Inert(trace: seq<Event>) {
    forall i :: 0 <= i < |trace| ==> !Intervenes(trace[i])
  }

  predicate Launched(trace: seq<Event>) {
    exists i :: 0 <= i < |trace| && trace[i].Launch?
  }

  /** The directory step decides `DirFailed`, and a failed mkdir stops everything. */
  lemma DirFailureStops(rc: RemoteConfig, binary: string, rcloneConfig: string, os: Os)
    ensures Reconcile(rc, binary, rcloneConfig, os).outcome == DirFailed <==> !DirReady(os)
    ensures !DirReady(os) ==> Reconcile(rc, binary, rcloneConfig, os).trace == [MakeDir(NormalizeMountPoint(rc.mountPoint))]
  {
  }

  /** An active mount is left alone: one probe, then `Healthy`. */
  lemma HealthyIsInert(rc: RemoteConfig, binary: string, rcloneConfig: string, os: Os)
    ensures var run := Reconcile(rc, binary, rcloneConfig, os);
      (run.outcome == Healthy <==> DirReady(os) && os.firstProbe == 0)
      && (run.outcome == Healthy ==>
            Inert(run.trace) && run.trace == DirSteps(os, NormalizeMountPoint(rc.mountPoint)) + [Probe(NormalizeMountPoint(rc.mountPoint))])
  {
  }

  /** The kills: one per found PID, in order, then the settle step; nothing when none was found. */
  lemma KilledShape(os: Os)
    ensures FoundProcesses(os) ==>
      |Killed(os)| == |os.pids| + 1 && Killed(os)[|os.pids|] == Settle
      && forall i :: 0 <= i < |os.pids| ==> Killed(os)[i] == Kill(os.pids[i], os.kill(os.pids[i]))
    ensures !FoundProcesses(os) ==> Killed(os) == []
    ensures forall i :: 0 <= i < |Killed(os)| ==> Killed(os)[i].Kill? || Killed(os)[i].Settle?
  {
  }

  /** The clean-up stage: two steps, the kills, the second probe; it never unmounts or launches. */
  lemma CleanupShape(os: Os, mountPoint: string, pattern: string)
    ensures var c := Cleanup(os, mountPoint, pattern);
      |c| == |Killed(os)| + 3
      && c[0] == Probe(mountPoint) && c[1] == Pgrep(pattern) && c[|c| - 1] == Probe(mountPoint)
      && (forall i :: 0 <= i < |Killed(os)| ==> c[2 + i] == Killed(os)[i])
      && (forall i :: 0 <= i < |c| ==> !c[i].Umount? && !c[i].Launch?)
  {
    var c,K := Cleanup(os, mountPoint, pattern), Killed(os);
    var head := [Probe(mountPoint), Pgrep(pattern)];
    assert c == head + K + [Probe(mountPoint)];
    forall i | 0 <= i < |K|
      ensures c[2 + i] == K[i]
    {
      ConcatAt(head, K, i);
      assert (head + K)[2 + i] == c[2 + i];
    }
    KilledShape(os);
    forall i | 0 <= i < |c|
      ensures !c[i].Umount? && !c[i].Launch?
    {
      if 2 <= i < 2 + |K| {
        assert c[i] == K[i - 2];
      }
    }
  }

  /** Indexing into a concatenation. */
  lemma ConcatAt<T>(a: seq<T>, b: seq<T>, i: int)
    requires 0 <= i < |b|
    ensures (a + b)[|a| + i] == b[i]
  {
  }

  /**
   * After the pgrep every found PID gets one kill, in order and whatever an
   * earlier kill answered, then one settle step; with no PID neither happens,
   * and the second probe comes next.
   */
  lemma KillsEveryPid(rc: RemoteConfig, binary: string, rcloneConfig: string, os: Os)
    requires NeedsRemount(os)
    ensures var mp := NormalizeMountPoint(rc.mountPoint);
      var run := Reconcile(rc, binary, rcloneConfig, os);
      var k := |DirSteps(os, mp)| + 2;
      var n := if FoundProcesses(os) then |os.pids| + 1 else 0;
      |run.trace| > k + n
      && run.trace[..k] == DirSteps(os, mp) + [Probe(mp), Pgrep(PgrepPattern(binary, rc.remoteName))]
      && (FoundProcesses(os) ==>
            (forall i :: 0 <= i < |os.pids| ==> run.trace[k + i] == Kill(os.pids[i], os.kill(os.pids[i])))
            && run.trace[k + |os.pids|] == Settle)
      && run.trace[k + n] == Probe(mp)
  {
    var mp := NormalizeMountPoint(rc.mountPoint);
    var pattern := PgrepPattern(binary, rc.remoteName);
    var dir, c := DirSteps(os, mp), Cleanup(os, mp, pattern);
    var t := Reconcile(rc, binary, rcloneConfig, os).trace;
    var rest := t[|dir + c|..];
    assert t == dir + c + rest;
    CleanupShape(os, mp, pattern);
    KilledShape(os);
    TraceAfterCleanup(dir, c, rest, Killed(os), mp, pattern);
  }

  /** Where the clean-up steps sit in a trace that starts with the directory steps. */
  lemma TraceAfterCleanup(dir: seq<Event>, c: seq<Event>, rest: seq<Event>, K: seq<Event>, mp: string, pattern: string)
    requires |c| == |K| + 3 && c[0] == Probe(mp) && c[1] == Pgrep(pattern) && c[|c| - 1] == Probe(mp)
    requires forall i :: 0 <= i < |K| ==> c[2 + i] == K[i]
    ensures var t := dir + c + rest;
      var k := |dir| + 2;
      |t| > k + |K|
      && t[..k] == dir + [Probe(mp), Pgrep(pattern)]
      && (forall i :: 0 <= i < |K| ==> t[k + i] == K[i])
      && t[k + |K|] == Probe(mp)
  {
    var t := dir + c + rest;
    var k := |dir| + 2;
    assert t[..k] == dir + [Probe(mp), Pgrep(pattern)] by {
      assert t[..k] == (dir + c)[..k];
      assert c[..2] == [Probe(mp), Pgrep(pattern)];
    }
    forall j | 0 <= j < |c|
      ensures t[|dir| + j] == c[j]
    {
      ConcatAt(dir, c, j);
    }
  }

  /** Kill statuses never change where the reconciliation ends. */
  lemma KillFailuresTolerated(rc: RemoteConfig, binary: string, rcloneConfig: string, os: Os, kill: string -> int)
    ensures Reconcile(rc, binary, rcloneConfig, os.(kill := kill)).outcome == Reconcile(rc, binary, rcloneConfig, os).outcome
    ensures |Reconcile(rc, binary, rcloneConfig, os.(kill := kill)).trace| == |Reconcile(rc, binary, rcloneConfig, os).trace|
  {
    assert |Killed(os.(kill := kill))| == |Killed(os)|;
  }

  /**
   * umount is attempted only when the second probe still sees a mount point;
   * when it fails the outcome is `TeardownFailed`, the umount is the last
   * action, and nothing is launched.
   */
  lemma NoLaunchOnStaleMount(rc: RemoteConfig, binary: string, rcloneConfig: string, os: Os)
    ensures var run := Reconcile(rc, binary, rcloneConfig, os);
      ((exists i :: 0 <= i < |run.trace| && run.trace[i].Umount?) <==> NeedsRemount(os) && os.secondProbe == 0)
      && (run.outcome == TeardownFailed <==> NeedsRemount(os) && os.secondProbe == 0 && os.umountStatus != 0)
      && (run.outcome == TeardownFailed ==>
            !Launched(run.trace) && Last(run.trace) == Umount(NormalizeMountPoint(rc.mountPoint)))
  {
    var run := Reconcile(rc, binary, rcloneConfig, os);
    var mp := NormalizeMountPoint(rc.mountPoint);
    if NeedsRemount(os) {
      var cleaned := DirSteps(os, mp) + Cleanup(os, mp, PgrepPattern(binary, rc.remoteName));
      CleanupShape(os, mp, PgrepPattern(binary, rc.remoteName));
      assert forall i :: 0 <= i < |cleaned| ==> !cleaned[i].Umount? && !cleaned[i].Launch?;
      if os.secondProbe == 0 {
        assert run.trace[|cleaned|] == Umount(mp);
      } else {
        assert run.trace == cleaned + [Launch(SessionOf(rc, binary, rcloneConfig))];
      }
    }
  }

  /**
   * Otherwise the session is launched exactly once, as the last action, with
   * the fixed command; the outcome is `Activated` iff the launch exited 0.
   */
  lemma LaunchOutcome(rc: RemoteConfig, binary: string, rcloneConfig: string, os: Os)
    ensures var run := Reconcile(rc, binary, rcloneConfig, os);
      var mp := NormalizeMountPoint(rc.mountPoint);
      (Launched(run.trace) <==> run.outcome == Activated || run.outcome == ActivationFailed)
      && (Launched(run.trace) <==> NeedsRemount(os) && !(os.secondProbe == 0 && os.umountStatus != 0))
      && (Launched(run.trace) ==>
            Last(run.trace) == Launch(Session(binary, rcloneConfig, rc.remoteName, mp, rc.rcloneLog, rc.vfsCacheSize))
            && (forall i :: 0 <= i < |run.trace| - 1 ==> !run.trace[i].Launch?)
            && (run.outcome == Activated <==> os.launchStatus == 0))
  {
    var run := Reconcile(rc, binary, rcloneConfig, os);
    var mp := NormalizeMountPoint(rc.mountPoint);
    if NeedsRemount(os) {
      var cleaned := DirSteps(os, mp) + Cleanup(os, mp, PgrepPattern(binary, rc.remoteName));
      CleanupShape(os, mp, PgrepPattern(binary, rc.remoteName));
      var cleared := cleaned + Unmounted(os, mp);
      assert forall i :: 0 <= i < |cleared| ==> !cleared[i].Launch?;
      if !(os.secondProbe == 0 && os.umountStatus != 0) {
        var session := Session(binary, rcloneConfig, rc.remoteName, mp, rc.rcloneLog, rc.vfsCacheSize);
        assert run.trace == cleared + [Launch(session)];
        LaunchLast(cleared, session);
      } else {
        assert run.trace == cleaned + [Umount(mp)];
        assert forall i :: 0 <= i < |run.trace| ==> !run.trace[i].Launch?;
      }
    } else {
      assert forall i :: 0 <= i < |run.trace| ==> !run.trace[i].Launch?;
    }
  }

  /** A launch appended to a trace without one is the only launch, and the last event. */
  lemma LaunchLast(prefix: seq<Event>, session: Session)
    requires forall i :: 0 <= i < |prefix| ==> !prefix[i].Launch?
    ensures var t := prefix + [Launch(session)];
      Launched(t) && Last(t) == Launch(session) && forall i :: 0 <= i < |t| - 1 ==> !t[i].Launch?
  {
    var t := prefix + [Launch(session)];
    assert t[|t| - 1].Launch?;
  }

  /** The launched command: `nohup`, the session with its fixed options, then the redirections and `&`. */
  lemma LaunchCommandShape(session: Session)
    ensures var c := LaunchCommand(session);
      var s := SessionWords(session);
      |s| == 25 && |c| == 30 && c[0] == [Lit("nohup")] && c[1..26] == s
      && c[26..] == [[Lit(">")], [Lit("/dev/null")], [Lit("2>&1")], [Lit("&")]]
      && s[0] == [Lit(session.binary)] && s[1] == [Lit("mount")]
      && s[2] == [Quoted(session.remoteName + ":")] && s[3] == [Quoted(session.mountPoint)]
      && s[4] == [Lit("--config="), Quoted(session.rcloneConfig)]
      && s[10] == [Lit("--vfs-cache-max-size")] && s[11] == [Quoted(session.cacheSize)]
      && s[16] == [Lit("--log-file")] && s[17] == [Quoted(session.logFile)]
      && s[24] == [Lit("--daemon")]
  {
    var c := LaunchCommand(session);
    var s := SessionWords(session);
    var tail := [[Lit(">")], [Lit("/dev/null")], [Lit("2>&1")], [Lit("&")]];
    assert c == [[Lit("nohup")]] + s + tail;
    assert c[1..26] == s;
    assert c[26..] == tail;
  }

  /** The first scenario: no process, no stale entry, the launch succeeds. */
  lemma ScenarioCleanRemount(kill: string -> int)
    ensures var os := Os(true, true, 1, 1, [], kill, 1, 0, 0);
      var rc := RemoteConfig("drive", "/mnt/drive", "/var/log/rclone_drive.log", "100G");
      var run := Reconcile(rc, "/usr/bin/rclone", "/root/.config/rclone/rclone.conf", os);
      run.outcome == Activated && |run.trace| == 4
      && run.trace[..3] == [Probe("/mnt/drive"), Pgrep("/usr/bin/rclone mount drive:"), Probe("/mnt/drive")]
      && run.trace[3] == Launch(Session("/usr/bin/rclone", "/root/.config/rclone/rclone.conf", "drive", "/mnt/drive",
                                        "/var/log/rclone_drive.log", "100G"))
  {
    RTrimUnique("/mnt/drive", {'/'}, "/mnt/drive");
    assert NormalizeMountPoint("/mnt/drive") == "/mnt/drive";
    assert PgrepPattern("/usr/bin/rclone", "drive") == "/usr/bin/rclone mount drive:";
    var cleaned := [] + [Probe("/mnt/drive"), Pgrep("/usr/bin/rclone mount drive:")] + [] + [Probe("/mnt/drive")];
    assert cleaned == [Probe("/mnt/drive"), Pgrep("/usr/bin/rclone mount drive:"), Probe("/mnt/drive")];
  }

  /** The second scenario: one stuck process and a stale entry that will not unmount. */
  lemma ScenarioStaleMount(kill: string -> int)
    ensures var os := Os(true, true, 1, 0, ["4242"], kill, 0, 32, 0);
      var rc := RemoteConfig("dropbox", "/mnt/dropbox/", "/var/log/rclone_dropbox.log", "50G");
      var run := Reconcile(rc, "/usr/bin/rclone", "/root/.config/rclone/rclone.conf", os);
      run.outcome == TeardownFailed
      && run.trace == [Probe("/mnt/dropbox"), Pgrep("/usr/bin/rclone mount dropbox:"),
                       Kill("4242", kill("4242")), Settle, Probe("/mnt/dropbox"), Umount("/mnt/dropbox")]
  {
    RTrimUnique("/mnt/dropbox/", {'/'}, "/mnt/dropbox");
    assert NormalizeMountPoint("/mnt/dropbox/") == "/mnt/dropbox";
    assert PgrepPattern("/usr/bin/rclone", "dropbox") == "/usr/bin/rclone mount dropbox:";
    assert KillEvents(["4242"], kill) == [Kill("4242", kill("4242"))];
  }
}
