/** A concrete vocabulary run through lookup and dispatch, and a concrete
    malformed configuration. */
module Scenarios {
  import opened Wrappers
  import opened Text
  import opened Vocabulary
  import opened CommandTable
  import opened Effects
  import opened Protocol
  import opened Dispatcher

  /** The entries of the example configuration `go|go|false` and
      `shutdown|/bin/true|true`. */
  const ConfigWords: seq<Word> := [Word("go", "go", false), Word("shutdown", "/bin/true", true)]

  /** `go` resolves to the first entry, a serial entry whose plan speaks
      before writing `w`, with the port opened and closed around both. */
  lemma GoPlan()
    ensures Lookup(ConfigWords, "go") == Some(ConfigWords[0])
    ensures Plan(ConfigWords[0]) == [Open, Speak("Engine started"), Write("w\n"), Close]
  {
    FirstMatchWins(ConfigWords, 0);
    DriveRows();
    assert Plan(ConfigWords[0]) == [Open] + KeywordActions("go") + [Close];
  }

  /** Saying `go` with nothing failing carries out the whole plan and
      replies with the payload. */
  lemma GoDispatch()
    ensures GetKnownTextOrExecute(ConfigWords, "go", {}) ==
              ("go", [Open, Speak("Engine started"), Write("w\n"), Close])
  {
    GoPlan();
    var plan := [Open, Speak("Engine started"), Write("w\n"), Close];
    assert FaultFree(plan, {});
  }

  /** When the write for `go` raises, the phrase comes back, the speech has
      already been queued and the port is never closed. */
  lemma GoWriteFails()
    ensures GetKnownTextOrExecute(ConfigWords, "go", {Write("w\n")}) ==
              ("go", [Open, Speak("Engine started")])
  {
    var faults := {Write("w\n")};
    var plan := [Open, Speak("Engine started"), Write("w\n"), Close];
    GoPlan();
    assert Perform(plan, faults) == Aborted([Open, Speak("Engine started")], Write("w\n")) by {
      assert Perform(plan[2..], faults) == Aborted([], Write("w\n"));
      assert Perform(plan[1..], faults) == Aborted([Speak("Engine started")], Write("w\n"));
    }
    AbortedRunEchoes(ConfigWords, "go", faults, ConfigWords[0], [Open, Speak("Engine started")], Write("w\n"));
  }

  /** Saying `shutdown` launches the program and reports it. */
  lemma ShutdownDispatch()
    ensures GetKnownTextOrExecute(ConfigWords, "shutdown", {}) ==
              ("you just started : /bin/true", [Launch("/bin/true")])
  {
    FirstMatchWins(ConfigWords, 1);
    ShellLaunch(ConfigWords, "shutdown", {}, ConfigWords[1]);
    assert StartedPrefix + "/bin/true" == "you just started : /bin/true";
  }

  /** Any other phrase is echoed back with no effect. */
  lemma OtherPhraseEchoed()
    ensures GetKnownTextOrExecute(ConfigWords, "hello", {}) == ("hello", [])
  {
    EchoOnMiss(ConfigWords, "hello", {});
  }

  /** A kept line with only two fields aborts the load at that line. */
  lemma TwoFieldLineFails()
    ensures Load(["-- motion", "back|back"]) == Failure(MalformedLine(1))
  {
    var lines := ["-- motion", "back|back"];
    assert Skipped(lines[0]);
    assert !Skipped(lines[1]) by {
      assert lines[1][..2][0] == 'b';
    }
    assert !WellFormed(lines[1]) by {
      assert Occurrences(lines[1], '|') == 1;
    }
  }

  /** A kept line whose phrase is empty fails the load at that line, even
      though it has all three fields. */
  lemma EmptyPhraseFails()
    ensures Load(["|x|false"]) == Failure(EmptyPhrase(0))
  {
    var line := "|x|false";
    assert !Skipped(line) by {
      assert line[..2][0] == '|';
    }
    assert WellFormed(line) && FirstField(line) == "" by {
      assert line == "" + [FieldSeparator] + ("x" + [FieldSeparator] + "false");
      assert Split(line, FieldSeparator) == ["", "x", "false"] by {
        SplitJoin(["", "x", "false"], FieldSeparator);
        assert Join(["", "x", "false"], FieldSeparator) == line;
      }
    }
  }
}
