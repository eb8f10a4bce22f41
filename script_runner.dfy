/**
 * The in-browser Python runner: an editor holding the code, a console
 * holding the output, and two flags for the interpreter being ready and a run
 * being in progress. The interpreter is opaque; a run is the sequence of
 * stdout lines it emits, ending either normally or with an error message.
 */
module ScriptRunner {
  import opened Wrappers

  /** The editor's initial contents. */
  const InitialCode: string := "# Upload a .py file or type code here...\nprint('Hello from Python!')"

  /** The text shown before the error message of a failed run. */
  const TracebackHeader: string := "\nTraceback:\n"

  /** What a completed file read delivers: text, or something that is not a string. */
  datatype ReadResult = TextResult(text: string) | OtherResult

  /** How a run ends: normally, or by raising an error with a message. */
  datatype Outcome = Success | Failure(message: string)

  /** The console after the stdout lines `lines`, starting from an empty console: each line and a newline. */
  function Captured(lines: seq<string>): (r: string)
    ensures |r| >= |lines|
    decreases |lines|
  {
    if lines == [] then ""
    else Captured(lines[..|lines| - 1]) + lines[|lines| - 1] + "\n"
  }

  /** The console at the end of a run that printed `lines` and ended with `outcome`. */
  function Transcript(lines: seq<string>, outcome: Outcome): (r: string)
    ensures Captured(lines) <= r
    ensures |r| == |Captured(lines)| + if outcome.Failure? then |TracebackHeader| + |outcome.message| else 0
    ensures outcome.Success? ==> r == Captured(lines)
    ensures outcome.Failure? ==> r[|Captured(lines)|..] == TracebackHeader + outcome.message
  {
    match outcome
    case Success => Captured(lines)
    case Failure(message) =>
      var c, tail := Captured(lines), TracebackHeader + message;
      assert (c + tail)[|c|..] == tail;
      c + tail
  }

  // ----- The captured output -----

  /** Output captured over two stretches of a run is the two captures, one after the other. */
  lemma {:induction false} CapturedAppend(a: seq<string>, b: seq<string>)
    ensures Captured(a + b) == Captured(a) + Captured(b)
    decreases |b|
  {
    if b == [] {
      assert a + b == a;
    } else {
      var init, last := b[..|b| - 1], b[|b| - 1];
      assert (a + b)[..|a + b| - 1] == a + init;
      CapturedAppend(a, init);
    }
  }

  /** The lines appear in the order they were emitted, each followed by a newline. */
  lemma CapturedInOrder(before: seq<string>, line: string, after: seq<string>)
    ensures Captured(before + [line] + after) == Captured(before) + line + "\n" + Captured(after)
  {
    CapturedAppend(before + [line], after);
    assert (before + [line])[..|before|] == before;
  }

  /** What a run printed so far is always a prefix of what it prints in the end. */
  lemma CapturedPrefix(printed: seq<string>, later: seq<string>)
    ensures Captured(printed) <= Captured(printed + later)
  {
    CapturedAppend(printed, later);
  }

  /** A capture is empty exactly when nothing was printed. */
  lemma CapturedEmpty(lines: seq<string>)
    ensures Captured(lines) == "" <==> lines == []
  {
    if lines != [] {
      assert |Captured(lines)| >= 1;
    }
  }

  /** A failed run shows the captured stdout, then the traceback header, then the message. */
  lemma FailureTranscript(lines: seq<string>, message: string)
    ensures var t := Transcript(lines, Failure(message));
      && Captured(lines) <= t
      && t[|Captured(lines)|..] == TracebackHeader + message
  {
    var c, tail := Captured(lines), TracebackHeader + message;
    assert c + TracebackHeader + message == c + tail;
    assert (c + tail)[|c|..] == tail;
  }

  /** A successful run shows exactly its stdout. */
  lemma SuccessTranscript(lines: seq<string>)
    ensures Transcript(lines, Success) == Captured(lines)
  {
  }

  /**
   * The component's state. `interpreterLoaded` is whether the interpreter
   * reference has been set.
   */
  class PythonRunner {
    var code: string
    var output: string
    var isPyodideReady: bool
    var isRunning: bool
    var interpreterLoaded: bool

    /** Ready is set exactly when the interpreter is loaded, and only a loaded interpreter can be running. */
    predicate Valid()
      reads this
    {
      isPyodideReady == interpreterLoaded && (isRunning ==> interpreterLoaded)
    }

    /** The run button is enabled iff the interpreter is ready and no run is in progress. */
    predicate RunEnabled()
      reads this
      requires Valid()
      ensures RunEnabled() ==> interpreterLoaded && !isRunning
    {
      isPyodideReady && !isRunning
    }

    constructor ()
      ensures Valid()
      ensures code == InitialCode && output == ""
      ensures !isPyodideReady && !isRunning && !interpreterLoaded
    {
      code := InitialCode;
      output := "";
      isPyodideReady := false;
      isRunning := false;
      interpreterLoaded := false;
    }

    /**
     * The script's load callback. A load is attempted only when the loader is
     * present and no interpreter is loaded yet; the state becomes ready only
     * if that load succeeds. A failed load changes nothing.
     */
    method InitPyodide(loaderPresent: bool, loadSucceeds: bool) returns (attempted: bool)
      requires Valid()
      modifies this
      ensures Valid()
      ensures attempted == (loaderPresent && !old(interpreterLoaded))
      ensures interpreterLoaded == (old(interpreterLoaded) || (attempted && loadSucceeds))
      ensures isPyodideReady == interpreterLoaded
      ensures code == old(code) && output == old(output) && isRunning == old(isRunning)
    {
      attempted := loaderPresent && !interpreterLoaded;
      if attempted && loadSucceeds {
        interpreterLoaded := true;
        isPyodideReady := true;
      }
    }

    /**
     * A file selection followed by the completed read: `None` when no file
     * was chosen. Text replaces the code and clears the console; anything
     * else leaves the state as it was.
     */
    method HandleFileUpload(file: Option<ReadResult>)
      requires Valid()
      modifies this
      ensures Valid()
      ensures file.Some? && file.value.TextResult? ==> code == file.value.text && output == ""
      ensures !(file.Some? && file.value.TextResult?) ==> code == old(code) && output == old(output)
      ensures isPyodideReady == old(isPyodideReady) && isRunning == old(isRunning)
      ensures interpreterLoaded == old(interpreterLoaded)
    {
      if file.Some? {
        match file.value
        case TextResult(text) =>
          code := text;
          output := "";
        case OtherResult =>
      }
    }

    /** Typing in the editor. */
    method Edit(text: string)
      requires Valid()
      modifies this
      ensures Valid()
      ensures code == text
      ensures output == old(output) && isPyodideReady == old(isPyodideReady)
      ensures isRunning == old(isRunning) && interpreterLoaded == old(interpreterLoaded)
    {
      code := text;
    }

    /** The clear-console button. */
    method ClearOutput()
      requires Valid()
      modifies this
      ensures Valid()
      ensures output == ""
      ensures code == old(code) && isPyodideReady == old(isPyodideReady)
      ensures isRunning == old(isRunning) && interpreterLoaded == old(interpreterLoaded)
    {
      output := "";
    }

    /** The start of `runCode`: nothing without an interpreter, else mark running and clear the console. */
    method StartRun() returns (started: bool)
      requires Valid()
      modifies this
      ensures Valid()
      ensures started == old(interpreterLoaded)
      ensures started ==> isRunning && output == ""
      ensures !started ==> isRunning == old(isRunning) && output == old(output)
      ensures code == old(code) && isPyodideReady == old(isPyodideReady)
      ensures interpreterLoaded == old(interpreterLoaded)
    {
      started := interpreterLoaded;
      if started {
        isRunning := true;
        output := "";
      }
    }

    /** The stdout callback: one batched message and a newline are appended. */
    method Stdout(msg: string)
      requires Valid()
      modifies this
      ensures Valid()
      ensures output == old(output) + msg + "\n"
      ensures code == old(code) && isPyodideReady == old(isPyodideReady)
      ensures isRunning == old(isRunning) && interpreterLoaded == old(interpreterLoaded)
    {
      output := output + msg + "\n";
    }

    /** The error handler: the traceback header and the message are appended. */
    method Raise(message: string)
      requires Valid()
      modifies this
      ensures Valid()
      ensures output == old(output) + TracebackHeader + message
      ensures code == old(code) && isPyodideReady == old(isPyodideReady)
      ensures isRunning == old(isRunning) && interpreterLoaded == old(interpreterLoaded)
    {
      output := output + TracebackHeader + message;
    }

    /** The `finally` block: the run is over, however it ended. */
    method Finally()
      requires Valid()
      modifies this
      ensures Valid()
      ensures !isRunning
      ensures code == old(code) && output == old(output)
      ensures isPyodideReady == old(isPyodideReady) && interpreterLoaded == old(interpreterLoaded)
    {
      isRunning := false;
    }

    /**
     * One whole `runCode` with no other event in between: the interpreter
     * prints `lines`, then ends with `outcome`. Without an interpreter nothing
     * changes; otherwise the console holds the transcript of the run and the
     * run is over. The code is never touched.
     */
    method RunCode(lines: seq<string>, outcome: Outcome)
      requires Valid()
      modifies this
      ensures Valid()
      ensures !old(interpreterLoaded) ==> output == old(output) && isRunning == old(isRunning)
      ensures old(interpreterLoaded) ==> output == Transcript(lines, outcome) && !isRunning
      ensures code == old(code) && isPyodideReady == old(isPyodideReady)
      ensures interpreterLoaded == old(interpreterLoaded)
    {
      var started := StartRun();
      if started {
        var i := 0;
        while i < |lines|
          invariant 0 <= i <= |lines|
          invariant Valid() && isRunning
          invariant output == Captured(lines[..i])
          invariant code == old(code) && isPyodideReady == old(isPyodideReady)
          invariant interpreterLoaded == old(interpreterLoaded)
        {
          assert lines[..i + 1][..i] == lines[..i];
          Stdout(lines[i]);
          i := i + 1;
        }
        assert lines[..i] == lines;
        if outcome.Failure? {
          Raise(outcome.message);
        }
        Finally();
      }
    }
  }

}
