# rclone mount supervisor and database backup, modelled in Dafny

The repository has two PHP scripts, run from cron.

- `check_rclone_mount.php` keeps a list of rclone FUSE mounts alive. For each
  configured remote it makes sure the mount directory exists and probes it with
  `mountpoint -q`. If the mount is not active, it kills the rclone processes
  serving that remote (found with `pgrep -f`), unmounts a stale mount entry
  with `sudo umount`, and launches a detached `rclone mount --daemon`. It writes
  its progress to its own log file, which it trims once it holds 2000 lines other
  than "" and "0".
- `auto_backup.php` dumps a database with `mysqldump` into a temporary local
  directory. It then makes sure the destination inside the rclone mount is
  there, running the mount checker when it is not, and moves the dump into it.
  Every failure ends the script with exit status 1.

The model replaces the OS calls of the procedures (`is_dir`, `mkdir`,
`exec`, `system`) by fields of an oracle value: `Mount.Os` for the
reconciler, `Backup.BackupOs` for the backup script. The other OS calls are
parameters or are not modelled:

- `shell_exec('which rclone')` is the `whichOutput` parameter of
  `Monitor.ResolveBinary`.
- In the rotating log helper, `is_dir`/`mkdir` of the log directory become
  the `dirReady` parameter of `Logs.RotatingLog.LogMessage`. `file_exists`
  and `file_get_contents` become its `readable` parameter and the `content`
  field.
- `file_put_contents` has no oracle: every log write is taken to succeed.

- Each run records the actions it takes as a trace. A reconciliation ends in
  one of `DirFailed | Healthy | TeardownFailed | Activated | ActivationFailed`.
  A backup run ends in an exit status.
- Each imperative procedure is a method: `CheckAndMountRclone` with its PID
  loop `KillAll`, the remotes loop `MonitorAll`, `EnsureRcloneMount` and
  `RunBackup`. Each method is proved equal to a pure specification function
  (`Reconcile`, `ProcessRemote`, `EnsureMount`, `RunSpec`), and the
  properties are lemmas about those functions.
- Both log files are classes holding the file's contents as a `string`. Their
  `LogMessage` methods update that field.
- The clock is a parameter: `date()` becomes a timestamp string passed in.

Modules:

- `Text`: the PHP builtins the scripts rely on, over `string`. These are
  `explode`, `implode`, `array_filter` on strings (which drops `""` and `"0"`),
  `rtrim`, `trim` and the decimal rendering of a count.
- `Logs`: both `logMessage` functions. One is the rotating buffer of the mount
  checker; the other is the append-only log of the backup script.
- `Mount`: `checkAndMountRclone`, together with the mount-point
  normalisation, the `pgrep` pattern and the launch command.
- `Monitor`: the rclone binary lookup, the validation of configured remotes,
  and the main loop.
- `Backup`: `ensureRcloneMount`, the backup file names and the top-level
  flow of `auto_backup.php`.

## Model

| member | source | states |
|---|---|---|
| Text.Explode | check_rclone_mount.php:83 | `explode("\n", …)` always yields at least one piece, and no piece contains a newline |
| Text.JoinExplode | check_rclone_mount.php:83 | imploding the exploded pieces with "\n" gives back the original text |
| Text.Join | check_rclone_mount.php:89 | `implode($sep, …)`: defines the pieces joined with the separator between each two; `Text.JoinExplode` and `Text.ExplodeJoinLines` relate it to `explode` |
| Text.ExplodeJoinLines | check_rclone_mount.php:89 | exploding newline-free lines imploded with "\n" gives back exactly those lines |
| Text.KeepTruthy | check_rclone_mount.php:84 | `array_filter` keeps at most as many elements, and every element kept is truthy (neither "" nor "0") |
| Text.KeepTruthyMembers | check_rclone_mount.php:84 | a string survives `array_filter` iff it was in the list and is truthy |
| Text.KeepTruthyConcat | check_rclone_mount.php:84 | filtering a concatenation is concatenating the filtered parts (order is kept) |
| Text.RTrim | check_rclone_mount.php:100 | `rtrim` yields a prefix that does not end in the character list, and everything cut off is from the list |
| Text.LTrim | check_rclone_mount.php:12 | the left half of `trim`: a suffix that does not start with a listed character, and everything cut off before it is from the list |
| Text.RTrimUnique | check_rclone_mount.php:100 | that contract determines `rtrim`'s result: any prefix with those properties is it |
| Text.Trim | check_rclone_mount.php:12 | `trim`'s result is a contiguous slice of its input that neither starts nor ends with one of " \t\n\r\0\x0B", and everything cut off before and after it is from that list |
| Text.TrimPadded | check_rclone_mount.php:12 | `trim` of a word followed by whitespace is the word |
| Text.NatToString | check_rclone_mount.php:90 | the decimal rendering of a count is non-empty and all digits, and starts with `0` only for zero |
| Text.ParseNatToString | check_rclone_mount.php:90 | reading the rendering back gives the count: the marker's number is exact |
| Logs.EntryLine | check_rclone_mount.php:63 | defines the text of an entry, `timestamp: message`; `Logs.EntryLineTruthy` shows it always counts as a line |
| Logs.Entry | check_rclone_mount.php:63 | defines the entry as written, its text followed by "\n"; `Logs.ExplodeEntry` shows a one-line entry explodes to its line and an empty rest |
| Logs.MarkerLine | check_rclone_mount.php:90 | defines the rotation marker with both counts rendered in decimal; `Logs.MarkerText` spells it out |
| Logs.Lines | check_rclone_mount.php:83-84 | defines the lines the rotation counts, `array_filter(explode("\n", …))`; `Logs.LinesNewlineFree` shows none holds a newline |
| Logs.LineCount | check_rclone_mount.php:85 | defines `$currentLineCount` as the number of those lines |
| Logs.Logged | check_rclone_mount.php:83-93 | defines the file after a call on a readable file: rewritten from the kept lines, the marker and the entry at 2000 lines or more, the old content and the entry below; its properties are the lemmas below |
| Logs.EntryLines | check_rclone_mount.php:63 | defines the lines an entry with any message counts as; `Logs.TwoLineEntry` shows a message with an inner newline counts twice |
| Logs.AppendAnyEntry | check_rclone_mount.php:93 | appending an entry with any message to an empty file, or one ending in "\n", adds exactly the entry's own counted lines |
| Logs.TwoLineEntry | check_rclone_mount.php:63 | the entry `t: a\nb` counts as the two lines `t: a` and `b` |
| Logs.TrimAtThresholdAnyMessage | check_rclone_mount.php:87-93 | at 2000 or more lines, for any message, the new lines are the old filtered lines minus the first 1000, one rotation marker reporting count − 1000, then the entry's own lines |
| Logs.MultiLineMessageExceedsBound | check_rclone_mount.php:87-93 | a log of 1999 lines ending in "\n" holds 2001 lines after a two-line message, so the 2000-line bound needs one-line entries |
| Logs.FilledLogLines | check_rclone_mount.php:83-85 | a log built from `n` one-line entries ends with "\n" and counts exactly `n` lines |
| Logs.BoundExceededExample | check_rclone_mount.php:87-93 | such a 1999-line log exists, and the two-line message takes it to 2001 lines |
| Logs.BelowThresholdAppends | check_rclone_mount.php:83-93 | under 2000 lines other than "" and "0" the new content is the old content followed by exactly `timestamp: message\n`; for a one-line entry the count grows by at most one |
| Logs.AppendEntryLines | check_rclone_mount.php:93 | appending a one-line entry never lowers the line count and adds at most one line; when the file was empty or ended in "\n", the lines become the old lines plus the entry's line |
| Logs.TrimAtThreshold | check_rclone_mount.php:87-93 | for a one-line entry (timestamps and message without "\n"), at 2000 or more lines the new lines are the old filtered lines minus the first 1000, then one rotation marker reporting count − 1000, then the entry as the last line |
| Logs.SizeBound | check_rclone_mount.php:87-93 | for a one-line entry, a log of at most 2000 lines still has at most 2000 lines after a call; at exactly 2000 it drops to 1002 |
| Logs.MarkerText | check_rclone_mount.php:90 | the marker reads `timestamp: LOG ROTATION: Trimmed 1000 lines. Current lines: N` |
| Logs.AppendKeepsLines | auto_backup.php:44 | appending any text to a file never lowers its line count |
| Logs.RotatingLog.LogMessage | check_rclone_mount.php:61-94 | without a log directory nothing is written; if the file cannot be read the entry is appended; otherwise the file becomes the rotated-or-appended content, and for a one-line entry the 2000-line bound is kept |
| Logs.AppendLog.LogMessage | auto_backup.php:42-45 | each call appends exactly `timestamp: message\n` at the end of the backup log and never trims it |
| Mount.NormalizeMountPoint | check_rclone_mount.php:100 | the mount point is a prefix of the configured path, with every trailing `/` removed and nothing else |
| Mount.NormalizeIdempotent | check_rclone_mount.php:100 | normalising twice is normalising once |
| Mount.PgrepPattern | check_rclone_mount.php:127 | defines the text handed to `pgrep -f`: the binary, ` mount `, the remote name and a colon |
| Mount.SessionWords | check_rclone_mount.php:160-172 | defines the words of the `rclone mount` command for a session, with the configured values as quoted pieces |
| Mount.LaunchCommand | check_rclone_mount.php:160-174 | defines the full launch command, `nohup`, the session words, then the redirections and `&`; `Mount.LaunchCommandShape` states its layout |
| Mount.Reconcile | check_rclone_mount.php:98-185 | defines one reconciliation as its stages: the mount directory, the first probe, the clean-up, the unmount, the launch; the lemmas below state what it does |
| Mount.PgrepFindsSession | check_rclone_mount.php:127 | the `pgrep -f` pattern is a prefix of the command line of the session the reconciler launches |
| Mount.PgrepPatternSpecific | check_rclone_mount.php:127 | read as a literal prefix, for remote names without a colon, one remote's pattern is a prefix of another remote's pattern followed by any text only when the names are equal |
| Mount.LaunchCommandShape | check_rclone_mount.php:160-174 | the command is `nohup`, the 25 session words (binary, `mount`, the quoted `remote:` and mount point, the config, then the fixed option list with the configured cache size and log file, ending in `--daemon`) in order, then `> /dev/null 2>&1 &` |
| Mount.KillAll | check_rclone_mount.php:132-139 | the PID loop issues one kill per PID, in order, recording each status |
| Mount.CheckAndMountRclone | check_rclone_mount.php:98-185 | the step-by-step reconciler produces exactly the outcome and trace of `Reconcile` |
| Mount.KilledShape | check_rclone_mount.php:130-143 | with PIDs found, there is one kill per PID followed by one settle step; otherwise neither happens |
| Mount.CleanupShape | check_rclone_mount.php:119-145 | the clean-up stage is probe, pgrep, the kills, second probe, and it never unmounts or launches |
| Mount.DirFailureStops | check_rclone_mount.php:107-113 | the outcome is `DirFailed` iff the directory is missing and cannot be made, and then the mkdir is the only action |
| Mount.HealthyIsInert | check_rclone_mount.php:119-123 | the outcome is `Healthy` iff the first probe reports a mount; then the trace is the directory step and one probe, with no pgrep, kill, umount or launch |
| Mount.KillsEveryPid | check_rclone_mount.php:127-145 | after the pgrep, every found PID gets a kill in order, whatever earlier kills answered, then one settle step; with no PID neither happens; the second probe follows |
| Mount.KillFailuresTolerated | check_rclone_mount.php:132-139 | kill statuses change neither the outcome nor the length of the trace |
| Mount.NoLaunchOnStaleMount | check_rclone_mount.php:145-154 | umount is attempted iff the second probe still reports a mount; the outcome is `TeardownFailed` iff that umount fails, and then the umount is the last action and nothing is launched |
| Mount.LaunchOutcome | check_rclone_mount.php:158-184 | otherwise the session is launched exactly once, as the last action, with the configured parameters and normalised mount point; the outcome is `Activated` iff the launch exits 0 |
| Mount.ScenarioCleanRemount | check_rclone_mount.php:98-184 | an inactive mount with no process and no stale entry gives probe, pgrep, probe, launch and `Activated` |
| Mount.ScenarioStaleMount | check_rclone_mount.php:98-154 | a stuck process and a stale entry that will not unmount give the exact trace ending in the umount, and `TeardownFailed` |
| Monitor.ResolveBinary | check_rclone_mount.php:12-19 | the binary path is truthy and has no surrounding whitespace; it is the trimmed `which` output exactly when that output is truthy, and `/usr/bin/rclone` otherwise |
| Monitor.ResolveFoundPath | check_rclone_mount.php:12 | a path printed by `which` with its newline is used as printed |
| Monitor.ResolveFallback | check_rclone_mount.php:14-19 | no output, blank output and a lone `0` all fall back to `/usr/bin/rclone` |
| Monitor.Validate | check_rclone_mount.php:194-198 | an entry is accepted iff it is an array with all four keys set (present and not null), and then the configuration carries exactly those four values |
| Monitor.ConfigEntry | check_rclone_mount.php:37-43 | defines the configuration entry written for a remote, with its four keys |
| Monitor.ValidateEntry | check_rclone_mount.php:37-43 | validating an entry written in the configuration's form gives back its remote |
| Monitor.DefaultRemoteAccepted | check_rclone_mount.php:37-43 | the default Google Drive entry validates, and its mount point normalises to `/home/GDrive` |
| Monitor.ValidateIgnoresOtherKeys | check_rclone_mount.php:194-198 | keys other than the four never change validation |
| Monitor.ProcessRemote | check_rclone_mount.php:194-207 | defines one iteration of the main loop: invalid entries are skipped, valid ones reconciled |
| Monitor.MonitorAll | check_rclone_mount.php:193-209 | every entry is visited in order; the i-th report is that entry's skip or reconciliation against its own OS answers, so no remote's result affects another |
| Monitor.SkippedIffInvalid | check_rclone_mount.php:194-207 | an entry is skipped exactly when it fails validation |
| Monitor.HealthyPassIsInert | check_rclone_mount.php:193-209 | when a remote's mount directory is there or can be made and its mount is active, its pass is skipped or `Healthy` with an inert trace |
| Backup.BackupFileName | auto_backup.php:94 | defines the backup file name: the database, `_`, the formatted date, `.sql` |
| Backup.InDir | auto_backup.php:95-96 | defines a path inside a directory, `dir/name` |
| Backup.BaseName | auto_backup.php:95-96 | a path's last component is a slash-free suffix directly after a `/` or the start |
| Backup.BaseNameInDir | auto_backup.php:95-96 | the last component of `dir/name` is `name` for a slash-free name |
| Backup.SameFileName | auto_backup.php:94-96 | the local and the final path both end in the same backup file name |
| Backup.BackupFileNameInjective | auto_backup.php:94 | for one database, different timestamps give different file names |
| Backup.EnsureMount | auto_backup.php:57-78 | defines `ensureRcloneMount`'s answer and steps from the two `is_dir` answers |
| Backup.EnsureMountCases | auto_backup.php:57-78 | an existing directory is accepted after one probe, without running the checker; otherwise the checker runs once between two probes of the directory and the answer is the second `is_dir`; the checker's exit status plays no part |
| Backup.EnsureRcloneMount | auto_backup.php:57-78 | the step-by-step function produces exactly the answer and steps of `EnsureMount` |
| Backup.RunSpec | auto_backup.php:84-143 | defines one run of the script as its exit status and steps; the lemmas below state what it does |
| Backup.RunBackup | auto_backup.php:84-143 | the step-by-step script produces exactly the exit status and steps of `RunSpec` |
| Backup.EarlyStop | auto_backup.php:84-91 | a temporary directory that cannot be made ends the run with status 1 before any dump |
| Backup.MoveGating | auto_backup.php:109-125 | the move is attempted iff the dump exited 0 and the mount was confirmed; then it is the last action and moves the local file to the destination under the same name |
| Backup.ExitStatus | auto_backup.php:115-141 | the status is 0 or 1, and 0 iff the directory, the dump, the mount check and the move all succeeded |
| Backup.CheckerOnlyWhenNeeded | auto_backup.php:59-62 | the checker runs at most once: exactly when the dump succeeded and the destination directory was missing |
| Backup.CheckerStatusIgnored | auto_backup.php:62-68 | the checker's own exit status never changes the run |

## Left out

- OS behaviour: what `mountpoint`, `pgrep`, `sudo kill`, `umount`, `rclone`, `mysqldump`, `mv` and the mount checker do is external. Only their exit statuses, and the PIDs that `pgrep` prints, are modelled, as oracle fields.
- `sleep(2)` and `sleep(5)`: each pause is a `Settle` step; its duration is not modelled.
- `date()`: the timestamps are parameters. `Logs.RotatingLog.LogMessage` takes two of them because the source calls `date()` twice (lines 62 and 90). The format `Y-m-d_H-i-s` of the backup file name is not modelled.
- Locking and concurrency: `LOCK_EX`, concurrent writers to a log and overlapping cron runs are not modelled.
- `escapeshellarg`: it is uninterpreted. An escaped argument is a `Quoted` piece of a shell word, and `Mount.CommandLine` reads it back as the argument itself.
- The logging inside `checkAndMountRclone`, `ensureRcloneMount`, the main loop and the backup flow: its wording is not modelled, and neither are the writes to the log file. The rotation marker and the entry format are modelled in `Logs`.
- The `is_writable` warning (check_rclone_mount.php:114-116) only writes a log line; it is not modelled.
- Log writes: every `file_put_contents` (check_rclone_mount.php:78, 89, 90, 93; auto_backup.php:44) is taken to succeed, and the source ignores the `false` it can return. So the model does not capture a failed rewrite at line 89 followed by the appends at lines 90 and 93. That would leave the old content plus a marker that claims a trim.
- The checker's output in the backup log: auto_backup.php:62 runs the checker with its stdout and stderr appended to `$backupLogFile`. The `RunChecker` step does not model that write, so `Logs.AppendLog` holds only the entries of `logMessage`.
- The `error_log` calls are not modelled: they write no file the model has.
- Log-file state: a missing log file is the empty string, which the source treats the same way. A failed read is the `readable` parameter.
- `MAX_LOG_LINES` (line 30) is never used by the source, and is not modelled.
- The database credentials and the `mysqldump` options are not modelled. The `Dump` step records the database and the target file only.
- Configuration values are strings or null. Other PHP types (numbers, nested arrays) are not modelled.
- `Logs.SizeBound`: the 2000-line bound is proved for one-line entries only. The source also logs multi-line text, such as the `umount` output joined with "\n" at check_rclone_mount.php:152, and such an entry can take a log past 2000 lines (`Logs.MultiLineMessageExceedsBound`).
- `Logs.TrimAtThreshold`: it states the entry as the single last line for one-line entries only; `Logs.TrimAtThresholdAnyMessage` gives the lines for any message.
- `Logs.RotatingLog.LogMessage`: its bound on the new line count holds for one-line entries only, as for `Logs.SizeBound`.
- `Mount.PgrepPatternSpecific`: `pgrep -f` treats its pattern as an extended regular expression matched anywhere in a command line, and remote names may contain `.`. The pattern for remote `a.b` then also matches the session of remote `axb`, so reconciling `a.b` can kill `axb`'s processes. The lemma proves specificity only for literal prefix matching.
- `Mount.PgrepFindsSession`: `pgrep -f` matches a regular expression anywhere in the command line. The model proves only that the pattern is a literal prefix of the launched session's command line; regular-expression semantics are not modelled.
- The `$killOutput`/`$umountOutput` accumulation across `exec` calls affects only log text, and is not modelled.
- `Mount.LaunchCommand`: the trace's `Launch` event records the session parameters. The command executed is `LaunchCommand` of that session, so the string `$command` built with `.=` is represented by the word list.
