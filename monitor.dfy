/**
 * The top level of check_rclone_mount.php: locating the rclone binary, and
 * the loop over `$remotesToMonitor` that validates each entry and runs the
 * reconciler of `Mount` on it.
 */
module Monitor {
  import opened Text
  import opened Mount

  /** The path used when `which rclone` finds nothing. */
  const FALLBACK_BINARY: string := "/usr/bin/rclone"

  /**
   * What `trim(shell_exec('which rclone'))` yields; `None` stands for the
   * null `shell_exec` returns when the command prints nothing.
   */
  function WhichFound(whichOutput: Option<string>): string {
    if whichOutput.Some? then Trim(whichOutput.value) else ""
  }

  /** `$rcloneBinary`: the trimmed output of `which`, or the fallback when it is `empty`. */
  function ResolveBinary(whichOutput: Option<string>): (r: string)
    ensures Truthy(r)
    ensures r[0] !in WHITESPACE && Last(r) !in WHITESPACE
    ensures r == WhichFound(whichOutput) || r == FALLBACK_BINARY
    ensures Truthy(WhichFound(whichOutput)) <==> r == WhichFound(whichOutput)
  {
    var found := WhichFound(whichOutput);
    if !Truthy(found) then FALLBACK_BINARY else found
  }

  /** A path that `which` prints, with its newline, is used as it is. */
  lemma ResolveFoundPath(path: string)
    requires Truthy(path) && path[0] !in WHITESPACE && Last(path) !in WHITESPACE
    ensures ResolveBinary(Some(path + "\n")) == path
  {
    TrimPadded(path, "\n");
  }

  /** No output, blank output or a lone `0` all fall back to `/usr/bin/rclone`. */
  lemma ResolveFallback(blank: string)
    requires forall i :: 0 <= i < |blank| ==> blank[i] in WHITESPACE
    ensures ResolveBinary(None) == FALLBACK_BINARY
    ensures ResolveBinary(Some(blank)) == FALLBACK_BINARY
    ensures ResolveBinary(Some("0\n")) == FALLBACK_BINARY
  {
    TrimPadded("0", "\n");
    assert RTrim(blank, WHITESPACE) == [] by {
      RTrimUnique(blank, WHITESPACE, []);
    }
  }

  // ---------------------------------------------------------------------------
  // Validation of one configured remote
  // ---------------------------------------------------------------------------

  /**
   * One element of `$remotesToMonitor` as PHP holds it: either not an array,
   * or an associative array whose values are strings or null.
   */
  datatype RawRemote = NotArray | Assoc(entries: map<string, Option<string>>)

  /** `isset($entries[$key])`: the key is there and its value is not null. */
  predicate IsSet(entries: map<string, Option<string>>, key: string) {
    key in entries && entries[key].Some?
  }

  /** All four keys the reconciler reads are set. */
  predicate Complete(entries: map<string, Option<string>>) {
    IsSet(entries, "remote_name") && IsSet(entries, "mount_point")
    && IsSet(entries, "rclone_log") && IsSet(entries, "vfs_cache_size")
  }

  /** The guard of the main loop: an array with all four keys set, read into a `RemoteConfig`. */
  function Validate(raw: RawRemote): (r: Option<RemoteConfig>)
    ensures r.Some? <==> raw.Assoc? && Complete(raw.entries)
    ensures r.Some? ==>
      Some(r.value.remoteName) == raw.entries["remote_name"]
      && Some(r.value.mountPoint) == raw.entries["mount_point"]
      && Some(r.value.rcloneLog) == raw.entries["rclone_log"]
      && Some(r.value.vfsCacheSize) == raw.entries["vfs_cache_size"]
  {
    if raw.Assoc? && Complete(raw.entries) then
      Some(RemoteConfig(raw.entries["remote_name"].value, raw.entries["mount_point"].value,
                        raw.entries["rclone_log"].value, raw.entries["vfs_cache_size"].value))
    else None
  }

  /** The configuration entry written for a remote, as in the array literal of the source. */
  function ConfigEntry(rc: RemoteConfig): RawRemote {
    Assoc(map["remote_name" := Some(rc.remoteName), "mount_point" := Some(rc.mountPoint),
              "rclone_log" := Some(rc.rcloneLog), "vfs_cache_size" := Some(rc.vfsCacheSize)])
  }

  /** Writing a remote's entry and validating it gives the remote back. */
  lemma ValidateEntry(rc: RemoteConfig)
    ensures Validate(ConfigEntry(rc)) == Some(rc)
  {
  }

  /** The remote configured by default: Google Drive under `/home/GDrive/`. */
  const DEFAULT_REMOTE: RemoteConfig := RemoteConfig("drive", "/home/GDrive/", "/var/log/rclone_gdrive.log", "100G")

  /** The default entry validates, and its session mounts on `/home/GDrive`. */
  lemma DefaultRemoteAccepted()
    ensures Validate(ConfigEntry(DEFAULT_REMOTE)) == Some(DEFAULT_REMOTE)
    ensures NormalizeMountPoint(DEFAULT_REMOTE.mountPoint) == "/home/GDrive"
  {
    ValidateEntry(DEFAULT_REMOTE);
    RTrimUnique("/home/GDrive/", {'/'}, "/home/GDrive");
  }

  /** Keys the reconciler does not read change nothing about validation. */
  lemma ValidateIgnoresOtherKeys(entries: map<string, Option<string>>, key: string, v: Option<string>)
    requires key != "remote_name" && key != "mount_point" && key != "rclone_log" && key != "vfs_cache_size"
    ensures Validate(Assoc(entries[key := v])) == Validate(Assoc(entries))
  {
    var e := entries[key := v];
    assert forall k :: k != key ==> (k in e <==> k in entries) && (k in e ==> e[k] == entries[k]);
  }

  // ---------------------------------------------------------------------------
  // The main loop
  // ---------------------------------------------------------------------------

  /** What the main loop does with one element. */
  datatype Report = Skipped | Reconciled(run: Run)

  /** One iteration: skip an invalid entry, reconcile a valid one. */
  function ProcessRemote(raw: RawRemote, binary: string, rcloneConfig: string, os: Os): Report {
    match Validate(raw)
    case None => Skipped
    case Some(rc) => Reconciled(Reconcile(rc, binary, rcloneConfig, os))
  }

  /**
   * `foreach ($remotesToMonitor as $remote)`: every entry is visited, in
   * order; the `i`-th entry meets the OS answers `os(i)` and its report
   * depends on nothing else, so no remote's failure affects another.
   */
  method MonitorAll(remotes: seq<RawRemote>, binary: string, rcloneConfig: string, os: nat -> Os)
    returns (reports: seq<Report>)
    ensures |reports| == |remotes|
    ensures forall i :: 0 <= i < |remotes| ==> reports[i] == ProcessRemote(remotes[i], binary, rcloneConfig, os(i))
  {
    reports := [];
    for i := 0 to |remotes|
      invariant |reports| == i
      invariant forall j :: 0 <= j < i ==> reports[j] == ProcessRemote(remotes[j], binary, rcloneConfig, os(j))
    {
      var config := Validate(remotes[i]);
      if config.Some? {
        var outcome, trace := CheckAndMountRclone(config.value, binary, rcloneConfig, os(i));
        reports := reports + [Reconciled(Run(outcome, trace))];
      } else {
        reports := reports + [Skipped];
      }
    }
  }

  /** An entry is skipped exactly when it fails validation; a skipped entry takes no action. */
  lemma SkippedIffInvalid(raw: RawRemote, binary: string, rcloneConfig: string, os: Os)
    ensures ProcessRemote(raw, binary, rcloneConfig, os) == Skipped <==> !(raw.Assoc? && Complete(raw.entries))
  {
  }

  /**
   * A pass over remotes whose mounts are all active changes nothing: every
   * valid entry ends `Healthy` with an inert trace.
   */
  lemma HealthyPassIsInert(raw: RawRemote, binary: string, rcloneConfig: string, os: Os)
    requires DirReady(os) && os.firstProbe == 0
    ensures var report := ProcessRemote(raw, binary, rcloneConfig, os);
      report.Skipped? || (report.run.outcome == Healthy && Inert(report.run.trace))
  {
    if Validate(raw).Some? {
      HealthyIsInert(Validate(raw).value, binary, rcloneConfig, os);
    }
  }
}
