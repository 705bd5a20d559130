/**
 * checkForFinish.py: the exit status that tells the batch job whether the per-cell driver has
 * finished every longitude. A log file is given as its text, or None when no such file exists.
 */
module CheckForFinish {
  import opened Wrappers
  import opened Text

  /** The search of the loop over the log's lines: whether one of them is exactly "done". */
  function HasDoneLine(lines: seq<string>): (b: bool)
    ensures b <==> exists i :: 0 <= i < |lines| && lines[i] == "done"
  {
    if lines == [] then false
    else if lines[0] == "done" then true
    else
      var b := HasDoneLine(lines[1..]);
      assert forall i :: 0 < i < |lines| ==> lines[i] == lines[1..][i - 1];
      b
  }

  /** The exit status for ./log.txt: 0 without a log, 1 as soon as a line equals "done", 0 otherwise. */
  function ExitCode(log: Option<string>): (code: int)
    ensures code == 0 || code == 1
    ensures code == 1 ==> log.Some? && exists i :: 0 <= i < |Lines(log.value)| && Lines(log.value)[i] == "done"
    ensures log.Some? && (exists i :: 0 <= i < |Lines(log.value)| && Lines(log.value)[i] == "done") ==> code == 1
  {
    if log.None? then 0
    else
      var lines := Lines(log.value);
      if HasDoneLine(lines) then 1 else 0
  }

  predicate EndsWithDoneLine(t: string)
  {
    t == "done" || (|t| >= 5 && t[|t| - 5..] == "\ndone")
  }

  /** Text after a newline ends with a line "done" exactly when the whole text does. */
  lemma EndsWithDoneLineAfterNewline(t: string, k: nat)
    requires k < |t| && t[k] == '\n'
    ensures EndsWithDoneLine(t) <==> EndsWithDoneLine(t[k + 1..])
  {
    NewlineIsNotDone(t, k);
    var rest := t[k + 1..];
    if |rest| >= 5 {
      DoneTailLong(t, k);
    } else if |rest| == 4 {
      DoneTailFour(t, k);
    } else {
      DoneTailShort(t, k);
    }
  }

  /** Text holding a newline is not "done". */
  lemma NewlineIsNotDone(t: string, k: nat)
    requires k < |t| && t[k] == '\n'
    ensures t != "done"
  {
    assert forall q :: 0 <= q < |"done"| ==> "done"[q] != '\n';
  }

  /** More than four characters after the newline: both texts end with the same five. */
  lemma DoneTailLong(t: string, k: nat)
    requires k < |t| && |t| - (k + 1) >= 5
    ensures t[|t| - 5..] == t[k + 1..][|t| - (k + 1) - 5..]
  {
  }

  /** Exactly four characters after the newline: the text ends with the newline and those four. */
  lemma DoneTailFour(t: string, k: nat)
    requires k < |t| && t[k] == '\n' && |t| - (k + 1) == 4
    ensures t[|t| - 5..] == "\n" + t[k + 1..]
  {
  }

  /** Fewer than four characters after the newline: the newline falls inside the last five, not first. */
  lemma DoneTailShort(t: string, k: nat)
    requires k < |t| && t[k] == '\n' && |t| - (k + 1) < 4
    ensures !(|t| >= 5 && t[|t| - 5..] == "\ndone")
    ensures t[k + 1..] != "done" && |t[k + 1..]| < 5
  {
    if |t| >= 5 {
      var j := k - (|t| - 5);
      assert t[|t| - 5..][j] == '\n';
      assert 1 <= j < 5 && "\ndone"[j] != '\n';
    }
  }

  /**
   * Lines keep their "\n", so a line equals "done" only when it is the last one and has none:
   * the log has a line "done" exactly when its text ends with "done" at the start of a line.
   */
  lemma {:induction false} DoneLineIsUnterminated(t: string)
    ensures HasDoneLine(Lines(t)) <==> EndsWithDoneLine(t)
    decreases |t|
  {
    if t != [] {
      var k := FirstNewline(t);
      if k == |t| {
        FirstNewlineIsFirst(t);
        assert Lines(t) == [t];
        assert HasDoneLine([t]) <==> t == "done" by { assert [t][1..] == []; }
        assert |t| >= 5 ==> t[|t| - 5..][0] == t[|t| - 5];
      } else {
        var first, rest := t[..k + 1], t[k + 1..];
        assert Lines(t) == [first] + Lines(rest);
        assert first != "done" by { assert first[k] == '\n'; }
        assert ([first] + Lines(rest))[1..] == Lines(rest);
        DoneLineIsUnterminated(rest);
        EndsWithDoneLineAfterNewline(t, k);
      }
    }
  }
}

/** multiyear/checkForFinish.py: the same exit status, for the log file named by the first argument. */
module MultiyearCheckForFinish {
  import opened Wrappers
  import opened Text
  import CheckForFinish

  /**
   * The exit status for argument list argv (argv[0] is the script) against the files that exist.
   * Without an argument, inputData[0] raises IndexError, and Python exits with status 1.
   */
  function ExitCode(argv: seq<string>, files: map<string, string>): (code: int)
    ensures code == 0 || code == 1
    ensures |argv| < 2 ==> code == 1
    ensures |argv| >= 2 ==>
              (code == 1 <==> argv[1] in files && CheckForFinish.EndsWithDoneLine(files[argv[1]]))
  {
    if |argv| < 2 then 1
    else
      var log := if argv[1] in files then Some(files[argv[1]]) else None;
      CheckForFinish.DoneLineIsUnterminated(if log.Some? then log.value else "");
      CheckForFinish.ExitCode(log)
  }
}
