/**
 * The two `logMessage` helpers. The mount checker's log (check_rclone_mount.php)
 * is a bounded line buffer: once the file holds TRIM_THRESHOLD lines other than
 * "" and "0", the oldest LINES_TO_TRIM are cut, a rotation marker is written,
 * and then the entry. The backup script's `logMessage` (auto_backup.php) only appends.
 *
 * A log file is modelled by its whole contents as a `string`; a file that does
 * not exist reads as "" (the source treats both alike). The clock is a parameter.
 */
module Logs {
  import opened Text

  const LINES_TO_TRIM: nat := 1000
  const TRIM_THRESHOLD: nat := 2000

  /** The text of one entry, `"$timestamp: $message"`, and the entry as written. */
  function EntryLine(timestamp: string, message: string): string {
    timestamp + ": " + message
  }

  function Entry(timestamp: string, message: string): string {
    EntryLine(timestamp, message) + "\n"
  }

  /** The rotation marker, reporting how many lines were kept. */
  function MarkerLine(timestamp: string, remaining: nat): string {
    timestamp + ": LOG ROTATION: Trimmed " + NatToString(LINES_TO_TRIM) + " lines. Current lines: " + NatToString(remaining)
  }

  /** The lines the rotation logic counts: explode on "\n", then array_filter. */
  function Lines(content: string): seq<string> {
    KeepTruthy(Explode(content))
  }

  function LineCount(content: string): nat {
    |Lines(content)|
  }

  /** The file contents after one successful `logMessage` call on a readable file. */
  function Logged(content: string, timestamp: string, rotationStamp: string, message: string): string {
    var lines := Lines(content);
    if |lines| >= TRIM_THRESHOLD then
      Join(lines[LINES_TO_TRIM..], "\n") + "\n" + MarkerLine(rotationStamp, |lines| - LINES_TO_TRIM) + "\n"
        + Entry(timestamp, message)
    else
      content + Entry(timestamp, message)
  }

  // ---------------------------------------------------------------------------
  // Facts about lines
  // ---------------------------------------------------------------------------

  lemma EntryLineTruthy(timestamp: string, message: string)
    ensures Truthy(EntryLine(timestamp, message))
  {
    assert |EntryLine(timestamp, message)| >= 2;
  }

  lemma MarkerLineFacts(timestamp: string, remaining: nat)
    requires '\n' !in timestamp
    ensures Truthy(MarkerLine(timestamp, remaining))
    ensures '\n' !in MarkerLine(timestamp, remaining)
  {
    var m := MarkerLine(timestamp, remaining);
    assert |m| >= 2;
    var a, b := NatToString(LINES_TO_TRIM), NatToString(remaining);
    assert '\n' !in a && '\n' !in b;
  }

  /** The filtered lines never contain a newline. */
  lemma LinesNewlineFree(content: string)
    ensures forall i :: 0 <= i < |Lines(content)| ==> '\n' !in Lines(content)[i]
  {
    var xs := Explode(content);
    KeepTruthyMembers(xs);
    forall i | 0 <= i < |Lines(content)| ensures '\n' !in Lines(content)[i] {
      var x := Lines(content)[i];
      assert x in xs;
    }
  }

  /** Exploding one entry as written: its line, then the empty rest after "\n". */
  lemma ExplodeEntry(timestamp: string, message: string)
    requires '\n' !in timestamp && '\n' !in message
    ensures Explode(Entry(timestamp, message)) == [EntryLine(timestamp, message), ""]
  {
    var e := EntryLine(timestamp, message);
    assert e + "\n" == e + "\n" + "";
    ExplodeJoin(e, "");
    ExplodeSingle(e);
  }

  /** Appending text to a file never removes one of its lines from the count. */
  lemma AppendKeepsLines(a: string, b: string)
    ensures LineCount(a) <= LineCount(a + b)
  {
    var A, B := Explode(a), Explode(b);
    ExplodeAppend(a, b);
    KeepTruthyConcat(Init(A) + [Last(A) + B[0]], B[1..]);
    KeepTruthyConcat(Init(A), [Last(A) + B[0]]);
    assert A == Init(A) + [Last(A)];
    KeepTruthyConcat(Init(A), [Last(A)]);
    if Truthy(Last(A)) {
      TruthyExtend(Last(A), B[0]);
    }
  }

  /** The lines after an entry is appended: the last piece of the file absorbs the entry. */
  lemma LinesAfterEntry(content: string, timestamp: string, message: string)
    requires '\n' !in timestamp && '\n' !in message
    ensures var X := Explode(content);
      Lines(content + Entry(timestamp, message))
        == KeepTruthy(Init(X)) + [Last(X) + EntryLine(timestamp, message)]
  {
    var X := Explode(content);
    var e := EntryLine(timestamp, message);
    ExplodeEntry(timestamp, message);
    ExplodeAppend(content, Entry(timestamp, message));
    assert Explode(content + Entry(timestamp, message)) == Init(X) + [Last(X) + e] + [""];
    KeepTruthyConcat(Init(X) + [Last(X) + e], [""]);
    KeepTruthyConcat(Init(X), [Last(X) + e]);
    KeepTruthySingle("");
    assert Truthy(Last(X) + e) by {
      assert |Last(X) + e| >= 2;
    }
    KeepTruthySingle(Last(X) + e);
  }

  /** The lines of a file: those of all its pieces but the last, then the last if it counts. */
  lemma LinesSplitLast(content: string)
    ensures var X := Explode(content);
      Lines(content) == KeepTruthy(Init(X)) + (if Truthy(Last(X)) then [Last(X)] else [])
  {
    var X := Explode(content);
    assert X == Init(X) + [Last(X)];
    KeepTruthyConcat(Init(X), [Last(X)]);
    KeepTruthySingle(Last(X));
  }

  /** An empty file, or one ending in a newline, explodes to pieces ending in "". */
  lemma ExplodeEndsEmpty(content: string)
    requires content == [] || Last(content) == '\n'
    ensures Last(Explode(content)) == ""
  {
    if content != [] {
      assert content == Init(content) + "\n" + "";
      ExplodeJoin(Init(content), "");
    }
  }

  /**
   * Appending one entry: at most one line more, and exactly the entry's line
   * more when the file was empty or ended with a newline.
   */
  lemma AppendEntryLines(content: string, timestamp: string, message: string)
    requires '\n' !in timestamp && '\n' !in message
    ensures LineCount(content) <= LineCount(content + Entry(timestamp, message)) <= LineCount(content) + 1
    ensures content == [] || Last(content) == '\n' ==>
      Lines(content + Entry(timestamp, message)) == Lines(content) + [EntryLine(timestamp, message)]
  {
    LinesAfterEntry(content, timestamp, message);
    LinesSplitLast(content);
    if content == [] || Last(content) == '\n' {
      ExplodeEndsEmpty(content);
      var e := EntryLine(timestamp, message);
      assert Last(Explode(content)) + e == e;
    }
  }

  /** The lines of one entry as written, whatever its message holds. */
  function EntryLines(timestamp: string, message: string): seq<string> {
    KeepTruthy(Explode(EntryLine(timestamp, message)))
  }

  /**
   * Appending an entry of any message to a file that is empty or ends with a
   * newline adds the entry's own lines, one per line of the message that counts.
   */
  lemma AppendAnyEntry(content: string, timestamp: string, message: string)
    requires content == [] || Last(content) == '\n'
    ensures Lines(content + Entry(timestamp, message)) == Lines(content) + EntryLines(timestamp, message)
  {
    var e := EntryLine(timestamp, message);
    var E := Explode(e);
    assert e + "\n" == e + "\n" + "";
    ExplodeJoin(e, "");
    ExplodeSingle("");
    assert Explode(Entry(timestamp, message)) == E + [""];
    KeepTruthySingle("");
    if content == [] {
      assert content + Entry(timestamp, message) == Entry(timestamp, message);
      KeepTruthyConcat(E, [""]);
      ExplodeSingle(content);
    } else {
      var c := Init(content);
      var C := Explode(c);
      assert content == c + "\n" + "";
      assert content + Entry(timestamp, message) == c + "\n" + Entry(timestamp, message);
      ExplodeJoin(c, "");
      ExplodeJoin(c, Entry(timestamp, message));
      KeepTruthyConcat(C, [""]);
      KeepTruthyConcat(C, E + [""]);
      KeepTruthyConcat(E, [""]);
    }
  }

  /** A message with one inner newline gives an entry that counts as two lines. */
  lemma TwoLineEntry()
    ensures EntryLines("t", "a\nb") == ["t: a", "b"]
  {
    assert EntryLine("t", "a\nb") == "t: a" + "\n" + "b";
    ExplodeJoin("t: a", "b");
    ExplodeSingle("t: a");
    ExplodeSingle("b");
    KeepTruthyOfTruthy(["t: a", "b"]);
  }

  // ---------------------------------------------------------------------------
  // Properties of the rotating logMessage
  // ---------------------------------------------------------------------------

  /**
   * Below the threshold the entry is appended to the untouched old content;
   * for a one-line entry the count grows by at most one.
   */
  lemma BelowThresholdAppends(content: string, timestamp: string, rotationStamp: string, message: string)
    requires LineCount(content) < TRIM_THRESHOLD
    ensures Logged(content, timestamp, rotationStamp, message) == content + Entry(timestamp, message)
    ensures '\n' !in timestamp && '\n' !in message ==>
      LineCount(content) <= LineCount(Logged(content, timestamp, rotationStamp, message)) <= LineCount(content) + 1
  {
    if '\n' !in timestamp && '\n' !in message {
      AppendEntryLines(content, timestamp, message);
    }
  }

  /** Exploding the marker and the entry that follow the kept lines. */
  lemma ExplodeMarkerEntry(m: string, e: string)
    requires '\n' !in m && '\n' !in e
    ensures Explode(m + "\n" + (e + "\n" + "")) == [m] + ([e] + [""])
  {
    ExplodeJoin(e, "");
    ExplodeSingle(e);
    ExplodeJoin(m, e + "\n" + "");
    ExplodeSingle(m);
  }

  /** Exploding newline-free lines joined up, a newline, and more text. */
  lemma ExplodeAfterLines(kept: seq<string>, rest: string)
    requires |kept| >= 1 && forall i :: 0 <= i < |kept| ==> '\n' !in kept[i]
    ensures Explode(Join(kept, "\n") + "\n" + rest) == kept + Explode(rest)
  {
    ExplodeJoin(Join(kept, "\n"), rest);
    ExplodeJoinLines(kept);
  }

  /** Exploding the rewritten file: kept lines, marker, entry, then the empty rest. */
  lemma ExplodeRotated(kept: seq<string>, m: string, e: string)
    requires |kept| >= 1 && forall i :: 0 <= i < |kept| ==> '\n' !in kept[i]
    requires '\n' !in m && '\n' !in e
    ensures Explode(Join(kept, "\n") + "\n" + m + "\n" + (e + "\n")) == kept + [m] + [e] + [""]
  {
    var j := Join(kept, "\n");
    var rest := m + "\n" + (e + "\n" + "");
    assert e + "\n" + "" == e + "\n";
    assert j + "\n" + m + "\n" + (e + "\n") == j + "\n" + rest;
    ExplodeAfterLines(kept, rest);
    ExplodeMarkerEntry(m, e);
    assert kept + ([m] + ([e] + [""])) == kept + [m] + [e] + [""];
  }

  /** Filtering kept lines, marker, entry and the empty rest leaves all but the rest. */
  lemma KeepRotated(kept: seq<string>, m: string, e: string)
    requires forall i :: 0 <= i < |kept| ==> Truthy(kept[i])
    requires Truthy(m) && Truthy(e)
    ensures KeepTruthy(kept + [m] + [e] + [""]) == kept + [m] + [e]
  {
    var withMarker := kept + [m];
    var withEntry := withMarker + [e];
    assert KeepTruthy(withMarker) == withMarker by {
      KeepTruthyOfTruthy(kept);
      KeepTruthySingle(m);
      KeepTruthyConcat(kept, [m]);
    }
    assert KeepTruthy(withEntry) == withEntry by {
      KeepTruthySingle(e);
      KeepTruthyConcat(withMarker, [e]);
    }
    KeepTruthySingle("");
    KeepTruthyConcat(withEntry, [""]);
    assert KeepTruthy(withEntry + [""]) == withEntry + [];
  }

  /** The lines a rotation keeps are newline-free and count; there is at least one. */
  lemma KeptLines(content: string)
    requires LineCount(content) >= TRIM_THRESHOLD
    ensures var kept := Lines(content)[LINES_TO_TRIM..];
      |kept| >= 1 && forall i :: 0 <= i < |kept| ==> '\n' !in kept[i] && Truthy(kept[i])
  {
    var lines := Lines(content);
    var kept := lines[LINES_TO_TRIM..];
    LinesNewlineFree(content);
    forall i | 0 <= i < |kept| ensures '\n' !in kept[i] && Truthy(kept[i]) {
      assert kept[i] == lines[i + LINES_TO_TRIM];
    }
  }

  /** The lines of a rewritten file: the kept lines, the marker, the entry. */
  lemma LinesOfRotated(kept: seq<string>, m: string, e: string)
    requires |kept| >= 1 && forall i :: 0 <= i < |kept| ==> '\n' !in kept[i] && Truthy(kept[i])
    requires '\n' !in m && '\n' !in e && Truthy(m) && Truthy(e)
    ensures Lines(Join(kept, "\n") + "\n" + m + "\n" + (e + "\n")) == kept + [m] + [e]
  {
    var x := Join(kept, "\n") + "\n" + m + "\n" + (e + "\n");
    ExplodeRotated(kept, m, e);
    assert Explode(x) == kept + [m] + [e] + [""];
    KeepRotated(kept, m, e);
  }

  /**
   * At or above the threshold the new file is: the filtered lines minus the
   * first LINES_TO_TRIM, one marker reporting how many were kept, and the entry
   * as the last line.
   */
  lemma TrimAtThreshold(content: string, timestamp: string, rotationStamp: string, message: string)
    requires LineCount(content) >= TRIM_THRESHOLD
    requires '\n' !in timestamp && '\n' !in rotationStamp && '\n' !in message
    ensures Lines(Logged(content, timestamp, rotationStamp, message))
         == Lines(content)[LINES_TO_TRIM..]
            + [MarkerLine(rotationStamp, LineCount(content) - LINES_TO_TRIM), EntryLine(timestamp, message)]
    ensures LineCount(Logged(content, timestamp, rotationStamp, message)) == LineCount(content) - LINES_TO_TRIM + 2
  {
    var kept := Lines(content)[LINES_TO_TRIM..];
    var m := MarkerLine(rotationStamp, |kept|);
    var e := EntryLine(timestamp, message);
    assert Logged(content, timestamp, rotationStamp, message) == Join(kept, "\n") + "\n" + m + "\n" + (e + "\n");
    KeptLines(content);
    MarkerLineFacts(rotationStamp, |kept|);
    ExplodeSingle(e);
    EntryLineTruthy(timestamp, message);
    LinesOfRotated(kept, m, e);
    assert kept + [m] + [e] == kept + [m, e];
  }


  /**
   * The buffer stays bounded: a log of at most TRIM_THRESHOLD lines still has
   * at most that many after a one-line entry, and a full log drops to 1002.
   */
  lemma SizeBound(content: string, timestamp: string, rotationStamp: string, message: string)
    requires LineCount(content) <= TRIM_THRESHOLD
    requires '\n' !in timestamp && '\n' !in rotationStamp && '\n' !in message
    ensures LineCount(Logged(content, timestamp, rotationStamp, message)) <= TRIM_THRESHOLD
    ensures LineCount(content) == TRIM_THRESHOLD ==>
      LineCount(Logged(content, timestamp, rotationStamp, message)) == 1002
  {
    if LineCount(content) < TRIM_THRESHOLD {
      BelowThresholdAppends(content, timestamp, rotationStamp, message);
    } else {
      TrimAtThreshold(content, timestamp, rotationStamp, message);
    }
  }

  /** Exploding the first part of a rotated file: kept lines, marker, then the empty rest. */
  lemma ExplodeBeforeEntry(kept: seq<string>, m: string)
    requires |kept| >= 1 && forall i :: 0 <= i < |kept| ==> '\n' !in kept[i]
    requires '\n' !in m
    ensures Explode(Join(kept, "\n") + "\n" + m + "\n") == kept + [m] + [""]
  {
    var j := Join(kept, "\n");
    assert j + "\n" + m + "\n" == j + "\n" + (m + "\n" + "");
    ExplodeJoin(m, "");
    ExplodeSingle(m);
    ExplodeAfterLines(kept, m + "\n" + "");
    assert kept + ([m] + [""]) == kept + [m] + [""];
  }

  /** The first part of a rotated file, up to the entry: the kept lines and the marker. */
  lemma LinesBeforeEntry(kept: seq<string>, m: string)
    requires |kept| >= 1 && forall i :: 0 <= i < |kept| ==> '\n' !in kept[i] && Truthy(kept[i])
    requires '\n' !in m && Truthy(m)
    ensures Lines(Join(kept, "\n") + "\n" + m + "\n") == kept + [m]
  {
    ExplodeBeforeEntry(kept, m);
    var withMarker := kept + [m];
    assert KeepTruthy(withMarker) == withMarker by {
      KeepTruthyOfTruthy(kept);
      KeepTruthySingle(m);
      KeepTruthyConcat(kept, [m]);
    }
    KeepTruthySingle("");
    KeepTruthyConcat(withMarker, [""]);
  }

  /**
   * Rotation with a message of any shape: the kept lines, the marker, then
   * every line the entry itself counts as.
   */
  lemma TrimAtThresholdAnyMessage(content: string, timestamp: string, rotationStamp: string, message: string)
    requires LineCount(content) >= TRIM_THRESHOLD
    requires '\n' !in rotationStamp
    ensures Lines(Logged(content, timestamp, rotationStamp, message))
         == Lines(content)[LINES_TO_TRIM..] + [MarkerLine(rotationStamp, LineCount(content) - LINES_TO_TRIM)]
            + EntryLines(timestamp, message)
  {
    var kept := Lines(content)[LINES_TO_TRIM..];
    var m := MarkerLine(rotationStamp, |kept|);
    var before := Join(kept, "\n") + "\n" + m + "\n";
    assert Logged(content, timestamp, rotationStamp, message) == before + Entry(timestamp, message);
    KeptLines(content);
    MarkerLineFacts(rotationStamp, |kept|);
    LinesBeforeEntry(kept, m);
    AppendAnyEntry(before, timestamp, message);
  }

  /**
   * The bound holds only for one-line entries: a log one line short of the
   * threshold that ends with a newline grows past it with a two-line message.
   */
  lemma MultiLineMessageExceedsBound(content: string)
    requires LineCount(content) == TRIM_THRESHOLD - 1
    requires content == [] || Last(content) == '\n'
    ensures LineCount(Logged(content, "t", "r", "a\nb")) == TRIM_THRESHOLD + 1
  {
    assert Logged(content, "t", "r", "a\nb") == content + Entry("t", "a\nb");
    AppendAnyEntry(content, "t", "a\nb");
    TwoLineEntry();
  }

  /** A log of `n` lines, each the entry `x: ` with its newline. */
  function FilledLog(n: nat): string {
    if n == 0 then "" else FilledLog(n - 1) + Entry("x", "")
  }

  /** The entry `x: ` counts as one line. */
  lemma OneLineEntry()
    ensures EntryLines("x", "") == [EntryLine("x", "")]
    ensures Last(Entry("x", "")) == '\n'
  {
    ExplodeSingle(EntryLine("x", ""));
    EntryLineTruthy("x", "");
    KeepTruthySingle(EntryLine("x", ""));
  }

  /** The filled log ends with a newline (or is empty) and has exactly `n` lines. */
  lemma {:induction false} FilledLogLines(n: nat)
    ensures FilledLog(n) == [] || Last(FilledLog(n)) == '\n'
    ensures LineCount(FilledLog(n)) == n
  {
    if n == 0 {
      ExplodeSingle("");
      KeepTruthySingle("");
    } else {
      FilledLogLines(n - 1);
      OneLineEntry();
      AppendAnyEntry(FilledLog(n - 1), "x", "");
    }
  }

  /** The log of the previous lemma exists: 1999 lines, and a two-line message makes 2001. */
  lemma BoundExceededExample()
    ensures LineCount(FilledLog(TRIM_THRESHOLD - 1)) == TRIM_THRESHOLD - 1
    ensures LineCount(Logged(FilledLog(TRIM_THRESHOLD - 1), "t", "r", "a\nb")) == TRIM_THRESHOLD + 1
  {
    FilledLogLines(TRIM_THRESHOLD - 1);
    MultiLineMessageExceedsBound(FilledLog(TRIM_THRESHOLD - 1));
  }

  /** The marker wording, with the trimmed count spelled out. */
  lemma MarkerText(timestamp: string, remaining: nat)
    ensures MarkerLine(timestamp, remaining)
         == timestamp + ": LOG ROTATION: Trimmed 1000 lines. Current lines: " + NatToString(remaining)
  {
    NatToStringExamples();
  }

  // ---------------------------------------------------------------------------
  // The log files
  // ---------------------------------------------------------------------------

  /** check_rclone_mount.php's log file: its contents, rotated as they grow. */
  class RotatingLog {
    var content: string

    constructor (existing: string)
      ensures content == existing
    {
      content := existing;
    }

    /**
     * Writes one entry. `dirReady` is whether the log directory exists or was
     * created; `readable` is whether reading the existing file succeeded.
     */
    method LogMessage(message: string, timestamp: string, rotationStamp: string, dirReady: bool, readable: bool)
      modifies this
      ensures !dirReady ==> content == old(content)
      ensures dirReady && !readable ==> content == old(content) + Entry(timestamp, message)
      ensures dirReady && readable ==> content == Logged(old(content), timestamp, rotationStamp, message)
      ensures dirReady && readable && LineCount(old(content)) <= TRIM_THRESHOLD
              && '\n' !in timestamp && '\n' !in rotationStamp && '\n' !in message
              ==> LineCount(content) <= TRIM_THRESHOLD
    {
      var entry := Entry(timestamp, message);
      if !dirReady {
        return;
      }
      if !readable {
        content := content + entry;
        return;
      }
      ghost var before := content;
      var lines := Lines(content);
      if |lines| >= TRIM_THRESHOLD {
        var kept := lines[LINES_TO_TRIM..];
        content := Join(kept, "\n") + "\n";
        content := content + MarkerLine(rotationStamp, |kept|) + "\n";
      }
      content := content + entry;
      if LineCount(before) <= TRIM_THRESHOLD && '\n' !in timestamp && '\n' !in rotationStamp && '\n' !in message {
        SizeBound(before, timestamp, rotationStamp, message);
      }
    }
  }

  /** auto_backup.php's log file: append only, never trimmed. */
  class AppendLog {
    var content: string

    constructor (existing: string)
      ensures content == existing
    {
      content := existing;
    }

    method LogMessage(message: string, timestamp: string)
      modifies this
      ensures content == old(content) + Entry(timestamp, message)
      ensures LineCount(old(content)) <= LineCount(content)
    {
      AppendKeepsLines(content, Entry(timestamp, message));
      content := content + Entry(timestamp, message);
    }
  }
}
