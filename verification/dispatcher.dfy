/** The dispatcher `getKnownTextOrExecute`: resolves a recognised phrase,
    then either launches the entry's program or runs the serial protocol,
    and turns every failure, a lookup miss included, into echoing the
    phrase back. */
module Dispatcher {
  import opened Wrappers
  import opened Vocabulary
  import opened CommandTable
  import opened Effects
  import opened Protocol

  /** Prefix of the reply for a launched program. */
  const StartedPrefix: string := "you just started : "

  /** Which branch a dispatch took; `getKnownTextOrExecute` folds the last
      two into the same returned string. */
  datatype Response = Unrecognized | Executed(reply: string) | ActionFailed(failed: Event)

  /** A dispatch's structured result and the effects that took place. */
  datatype Outcome = Outcome(response: Response, trace: seq<Event>)

  /** The port is opened first and closed last, and every event in between
      is a write or a speech: no second open, no early close, no launch. */
  predicate PortBracketed(plan: seq<Event>)
  {
    |plan| >= 2 && plan[0] == Open && plan[|plan| - 1] == Close &&
    forall i :: 0 < i < |plan| - 1 ==> plan[i].Write? || plan[i].Speak?
  }

  /** The events the code attempts for an entry: one launch for a shell
      entry; otherwise open, the keyword blocks, close. Either way at most
      one write is planned. */
  function Plan(w: Word): (plan: seq<Event>)
    ensures w.isShellCommand ==> plan == [Launch(w.attachedText)]
    ensures !w.isShellCommand ==>
              PortBracketed(plan) && plan[1..|plan| - 1] == KeywordActions(w.attachedText)
    ensures WriteCount(plan) <= 1
  {
    if w.isShellCommand then [Launch(w.attachedText)]
    else
      var actions := KeywordActions(w.attachedText);
      var plan := [Open] + actions + [Close];
      WriteIffCode(w.attachedText);
      WriteCountAppend([Open], actions);
      WriteCountAppend([Open] + actions, [Close]);
      assert PortBracketed(plan) by {
        forall i | 0 < i < |plan| - 1 ensures plan[i].Write? || plan[i].Speak? {
          assert plan[i] == actions[i - 1];
        }
      }
      assert plan[1..|plan| - 1] == actions;
      plan
  }

  /** Dispatch with the outcome kept apart: unrecognised, executed, or
      failed at a named event. The trace is always a prefix of the plan:
      all of it after a success, and the events before the first raising
      one after a failure. */
  function Dispatch(words: seq<Word>, command: string, faults: set<Event>): (o: Outcome)
    ensures o.response.Unrecognized? <==> !Defines(words, command)
    ensures o.response.Unrecognized? ==> o.trace == []
    ensures Defines(words, command) ==>
              var plan := Plan(Lookup(words, command).value);
              |o.trace| <= |plan| && o.trace == plan[..|o.trace|] &&
              (o.response.Executed? <==> FaultFree(plan, faults)) &&
              (o.response.Executed? ==>
                 o.trace == plan &&
                 o.response.reply == (if Lookup(words, command).value.isShellCommand
                                      then StartedPrefix + Lookup(words, command).value.attachedText
                                      else Lookup(words, command).value.attachedText)) &&
              (o.response.ActionFailed? ==>
                 |o.trace| < |plan| && FaultFree(o.trace, faults) &&
                 o.response.failed == plan[|o.trace|] && o.response.failed in faults)
  {
    match Lookup(words, command)
    case None => Outcome(Unrecognized, [])
    case Some(w) =>
      match Perform(Plan(w), faults)
      case Completed(t) =>
        Outcome(Executed(if w.isShellCommand then StartedPrefix + w.attachedText else w.attachedText), t)
      case Aborted(t, e) => Outcome(ActionFailed(e), t)
  }

  /** `getKnownTextOrExecute`: the returned string and the effects. A miss
      and a failure both return the phrase; a success returns the payload,
      behind the started prefix for a shell entry. */
  function GetKnownTextOrExecute(words: seq<Word>, command: string, faults: set<Event>): (r: (string, seq<Event>))
    ensures !Defines(words, command) ==> r == (command, [])
    ensures Defines(words, command) ==>
              var w := Lookup(words, command).value;
              FaultFree(Plan(w), faults) ==>
                r == (if w.isShellCommand then StartedPrefix + w.attachedText else w.attachedText, Plan(w))
    ensures Defines(words, command) ==>
              var plan := Plan(Lookup(words, command).value);
              !FaultFree(plan, faults) ==>
                r.0 == command && |r.1| < |plan| && r.1 == plan[..|r.1|] &&
                FaultFree(r.1, faults) && plan[|r.1|] in faults
  {
    var o := Dispatch(words, command, faults);
    (if o.response.Executed? then o.response.reply else command, o.trace)
  }

  /** A phrase that is not configured is echoed back and causes no effect. */
  lemma EchoOnMiss(words: seq<Word>, command: string, faults: set<Event>)
    requires forall i :: 0 <= i < |words| ==> words[i].text != command
    ensures GetKnownTextOrExecute(words, command, faults) == (command, [])
  {
  }

  /** Whatever event raises, the phrase is echoed back. */
  lemma EchoOnFailure(words: seq<Word>, command: string, faults: set<Event>, w: Word)
    requires Lookup(words, command) == Some(w)
    requires exists e :: e in Plan(w) && e in faults
    ensures GetKnownTextOrExecute(words, command, faults).0 == command
  {
  }

  /** An aborted run: the phrase comes back with exactly the effects that
      took place before the raising event. */
  lemma AbortedRunEchoes(words: seq<Word>, command: string, faults: set<Event>, w: Word, done: seq<Event>, failed: Event)
    requires Lookup(words, command) == Some(w)
    requires Perform(Plan(w), faults) == Aborted(done, failed)
    ensures GetKnownTextOrExecute(words, command, faults) == (command, done)
  {
  }

  /** A shell entry whose launch succeeds: exactly one launch of the payload,
      no serial or speech event, and the confirmation string. */
  lemma ShellLaunch(words: seq<Word>, command: string, faults: set<Event>, w: Word)
    requires Lookup(words, command) == Some(w) && w.isShellCommand
    requires Launch(w.attachedText) !in faults
    ensures GetKnownTextOrExecute(words, command, faults) == ("you just started : " + w.attachedText, [Launch(w.attachedText)])
  {
  }

  /** A shell entry whose launch fails: the phrase comes back and nothing happened. */
  lemma ShellLaunchFails(words: seq<Word>, command: string, faults: set<Event>, w: Word)
    requires Lookup(words, command) == Some(w) && w.isShellCommand
    requires Launch(w.attachedText) in faults
    ensures GetKnownTextOrExecute(words, command, faults) == (command, [])
  {
  }

  /** A serial entry with no failure: open, the keyword actions, close, and
      the payload as reply. */
  lemma SerialSuccess(words: seq<Word>, command: string, faults: set<Event>, w: Word)
    requires Lookup(words, command) == Some(w) && !w.isShellCommand
    requires Open !in faults && Close !in faults
    requires forall e :: e in KeywordActions(w.attachedText) ==> e !in faults
    ensures GetKnownTextOrExecute(words, command, faults) ==
              (w.attachedText, [Open] + KeywordActions(w.attachedText) + [Close])
  {
    var actions := KeywordActions(w.attachedText);
    var plan := Plan(w);
    assert FaultFree(plan, faults) by {
      forall i | 0 <= i < |plan| ensures plan[i] !in faults {
        if 0 < i < |plan| - 1 {
          assert plan[i] == actions[i - 1];
        }
      }
    }
  }

  /** A serial entry whose port cannot be opened: the phrase comes back and
      nothing happened, not even the speech queued by `go`. */
  lemma OpenFails(words: seq<Word>, command: string, faults: set<Event>, w: Word)
    requires Lookup(words, command) == Some(w) && !w.isShellCommand
    requires Open in faults
    ensures GetKnownTextOrExecute(words, command, faults) == (command, [])
  {
  }

  /** A write that raises leaves the port open: the trace holds the open
      but no close, because nothing closes the port on the exception path. */
  lemma WriteFailureLeavesPortOpen(words: seq<Word>, command: string, faults: set<Event>, w: Word)
    requires Lookup(words, command) == Some(w) && !w.isShellCommand
    requires Open !in faults
    requires Code(w.attachedText).Some? && Write(Line(Code(w.attachedText).value)) in faults
    ensures var r := GetKnownTextOrExecute(words, command, faults);
            r.0 == command && Open in r.1 && Close !in r.1
  {
    var plan := Plan(w);
    SerialPlanShape(w);
    assert !FaultFree(plan, faults);
    var r := GetKnownTextOrExecute(words, command, faults);
    assert |r.1| > 0 by {
      assert plan[|r.1|] in faults;
    }
    assert r.1[0] == Open;
    assert Close !in r.1 by {
      assert forall i :: 0 <= i < |r.1| ==> r.1[i] == plan[i];
    }
  }

  /** The plan of a serial entry whose payload has a code includes the
      write of that code. */
  lemma SerialPlanShape(w: Word)
    requires !w.isShellCommand && Code(w.attachedText).Some?
    ensures Write(Line(Code(w.attachedText).value)) in Plan(w)
  {
    var actions := KeywordActions(w.attachedText);
    var plan := Plan(w);
    WriteIffCode(w.attachedText);
    var k :| 0 <= k < |actions| && actions[k] == Write(Line(Code(w.attachedText).value));
    assert plan[k + 1] == actions[k];
  }

  /** Whatever the configuration, phrase and failures, a dispatch writes to
      the serial port at most once. */
  lemma AtMostOneWrite(words: seq<Word>, command: string, faults: set<Event>)
    ensures WriteCount(GetKnownTextOrExecute(words, command, faults).1) <= 1
  {
    var o := Dispatch(words, command, faults);
    if Defines(words, command) {
      var w := Lookup(words, command).value;
      var plan := Plan(w);
      WriteCountPrefix(plan, |o.trace|);
      assert plan[..|o.trace|] == o.trace;
    }
  }

  /** A shell entry never produces a serial or speech event, whatever fails. */
  lemma ShellTouchesNoPort(words: seq<Word>, command: string, faults: set<Event>, w: Word)
    requires Lookup(words, command) == Some(w) && w.isShellCommand
    ensures forall e :: e in GetKnownTextOrExecute(words, command, faults).1 ==> e == Launch(w.attachedText)
  {
  }
}
