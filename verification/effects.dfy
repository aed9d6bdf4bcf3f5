/** The side effects of a dispatch, as an abstract trace. Each operation
    either takes effect or raises; `faults` names the operations that raise
    when attempted, standing in for the environment (a missing program, a
    busy or absent serial port, an unavailable synthesiser). */
module Effects {

  /** One observable action: starting a process, opening, writing to and
      closing the serial port, and queueing text for speech synthesis. */
  datatype Event = Launch(path: string) | Open | Write(data: string) | Close | Speak(text: string)

  /** The result of attempting a planned sequence of events: either all of
      them took effect, or the attempt stopped at the first one that raised.
      `trace` holds only the events that took effect. */
  datatype Run = Completed(trace: seq<Event>) | Aborted(trace: seq<Event>, failed: Event)

  /** No event of `plan` raises. */
  predicate FaultFree(plan: seq<Event>, faults: set<Event>)
  {
    forall i :: 0 <= i < |plan| ==> plan[i] !in faults
  }

  /** Attempts the events of `plan` in order, stopping at the first event in
      `faults`, as a sequence of statements stops at the first exception
      when there is no `finally` to run. */
  function Perform(plan: seq<Event>, faults: set<Event>): (r: Run)
    ensures r.Completed? <==> FaultFree(plan, faults)
    ensures r.Completed? ==> r.trace == plan
    ensures r.Aborted? ==>
              |r.trace| < |plan| && r.trace == plan[..|r.trace|] &&
              FaultFree(r.trace, faults) &&
              r.failed == plan[|r.trace|] && r.failed in faults
  {
    if |plan| == 0 then Completed([])
    else if plan[0] in faults then Aborted([], plan[0])
    else
      var rest := Perform(plan[1..], faults);
      assert forall i :: 1 <= i < |plan| ==> plan[i] == plan[1..][i - 1];
      match rest
      case Completed(t) => Completed([plan[0]] + t)
      case Aborted(t, e) =>
        assert plan[..|t| + 1] == [plan[0]] + plan[1..][..|t|];
        Aborted([plan[0]] + t, e)
  }

  /** Number of serial writes in a trace. */
  function WriteCount(trace: seq<Event>): nat
  {
    if |trace| == 0 then 0
    else (if trace[0].Write? then 1 else 0) + WriteCount(trace[1..])
  }

  /** Counting writes distributes over concatenation. */
  lemma {:induction false} WriteCountAppend(a: seq<Event>, b: seq<Event>)
    ensures WriteCount(a + b) == WriteCount(a) + WriteCount(b)
    decreases |a|
  {
    if |a| > 0 {
      assert (a + b)[1..] == a[1..] + b;
      WriteCountAppend(a[1..], b);
    } else {
      assert a + b == b;
    }
  }

  /** A prefix never holds more writes than the whole. */
  lemma WriteCountPrefix(s: seq<Event>, n: nat)
    requires n <= |s|
    ensures WriteCount(s[..n]) <= WriteCount(s)
  {
    assert s == s[..n] + s[n..];
    WriteCountAppend(s[..n], s[n..]);
  }
}
