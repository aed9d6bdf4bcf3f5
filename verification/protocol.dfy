/** The motion and utterance protocol run between opening and closing the
    serial port for an entry that is not a shell command: a fixed set of
    payload keywords, each mapped to a one-character code written as a
    line, some paired with spoken feedback. */
module Protocol {
  import opened Wrappers
  import opened Effects

  /** Spoken before the code for `go` is written. */
  const EngineStarted: string := "Engine started"
  /** Spoken after the code for `stop` is written. */
  const EngineStopped: string := "Engine Stopped"
  /** The one payload that is spoken back verbatim and writes nothing. */
  const Acknowledged: string := "Iva do you love me"

  /** The payloads the blocks react to. */
  const Keywords: set<string> := {"go", "back", "left", "right", "stop", "half right", "half left", Acknowledged}

  /** A serial line: the code character followed by a newline. */
  function Line(code: char): (data: string)
    ensures |data| == 2 && data[0] == code && data[1] == '\n'
  {
    [code] + "\n"
  }

  /** The events of one `if (s.Equals(...)) { ... }` block. */
  function When(matched: bool, events: seq<Event>): seq<Event>
  {
    if matched then events else []
  }

  /** The blocks between `port.Open()` and `port.Close()`, in source order.
      They are independent `if` statements, not an `else if` chain, so the
      result is the concatenation of what every block contributes. For
      every payload this is exactly what the keyword table prescribes: no
      two blocks fire for the same payload. */
  function KeywordActions(s: string): (actions: seq<Event>)
    ensures actions == ByTable(s)
  {
    var actions :=
      When(s == "go", [Speak(EngineStarted), Write(Line('w'))]) +
      When(s == "back", [Write(Line('s'))]) +
      When(s == "left", [Write(Line('a'))]) +
      When(s == "right", [Write(Line('d'))]) +
      When(s == "stop", [Write(Line('o')), Speak(EngineStopped)]) +
      When(s == "half right", [Write(Line('e'))]) +
      When(s == "half left", [Write(Line('q'))]) +
      When(s == Acknowledged, [Speak(s)]);
    assert actions == ByTable(s) by {
      if s == "go" {
      } else if s == "back" {
      } else if s == "left" {
      } else if s == "right" {
      } else if s == "stop" {
      } else if s == "half right" {
      } else if s == "half left" {
      } else if s == Acknowledged {
      } else {
        assert RowFor(s).None?;
      }
    }
    actions
  }

  /** One row of the keyword table: the serial code, if any, and what is
      spoken before and after the write. */
  datatype Row = Row(code: Option<char>, before: Option<string>, after: Option<string>)

  /** The keyword table as a reference definition, one row per keyword,
      independent of the statement order of the blocks. */
  function RowFor(s: string): Option<Row>
  {
    match s
    case "go" => Some(Row(Some('w'), Some(EngineStarted), None))
    case "back" => Some(Row(Some('s'), None, None))
    case "left" => Some(Row(Some('a'), None, None))
    case "right" => Some(Row(Some('d'), None, None))
    case "stop" => Some(Row(Some('o'), None, Some(EngineStopped)))
    case "half right" => Some(Row(Some('e'), None, None))
    case "half left" => Some(Row(Some('q'), None, None))
    case "Iva do you love me" => Some(Row(None, Some(Acknowledged), None))
    case _ => None
  }

  function SpeakIf(text: Option<string>): seq<Event>
  {
    match text
    case None => []
    case Some(t) => [Speak(t)]
  }

  function WriteIf(code: Option<char>): seq<Event>
  {
    match code
    case None => []
    case Some(c) => [Write(Line(c))]
  }

  /** What a row prescribes: speech before, at most one write, speech after. */
  function RowActions(row: Row): seq<Event>
  {
    SpeakIf(row.before) + WriteIf(row.code) + SpeakIf(row.after)
  }

  /** The serial code the table assigns to `s`, if any. */
  function Code(s: string): Option<char>
  {
    match RowFor(s)
    case None => None
    case Some(row) => row.code
  }

  /** Payloads that are not keywords produce no action at all. */
  function ByTable(s: string): seq<Event>
  {
    match RowFor(s)
    case None => []
    case Some(row) => RowActions(row)
  }

  /** The driving rows, as written on the wire: `go` announces the engine
      start before its code; `back`, `left` and `right` only write. */
  lemma DriveRows()
    ensures KeywordActions("go") == [Speak("Engine started"), Write("w\n")]
    ensures KeywordActions("back") == [Write("s\n")]
    ensures KeywordActions("left") == [Write("a\n")]
    ensures KeywordActions("right") == [Write("d\n")]
  {
    assert KeywordActions("go") == [Speak("Engine started"), Write("w\n")] by {
      assert RowFor("go") == Some(Row(Some('w'), Some(EngineStarted), None));
      assert Line('w') == "w\n";
    }
    assert KeywordActions("back") == [Write("s\n")] by {
      assert RowFor("back") == Some(Row(Some('s'), None, None));
      assert Line('s') == "s\n";
    }
    assert KeywordActions("left") == [Write("a\n")] by {
      assert RowFor("left") == Some(Row(Some('a'), None, None));
      assert Line('a') == "a\n";
    }
    assert KeywordActions("right") == [Write("d\n")] by {
      assert RowFor("right") == Some(Row(Some('d'), None, None));
      assert Line('d') == "d\n";
    }
  }

  /** The remaining rows: `stop` announces the engine stop after its code,
      the half turns only write, and the acknowledgement is spoken back
      without any write. */
  lemma StopTurnAndAckRows()
    ensures KeywordActions("stop") == [Write("o\n"), Speak("Engine Stopped")]
    ensures KeywordActions("half right") == [Write("e\n")]
    ensures KeywordActions("half left") == [Write("q\n")]
    ensures KeywordActions("Iva do you love me") == [Speak("Iva do you love me")]
  {
    assert KeywordActions("stop") == [Write("o\n"), Speak("Engine Stopped")] by {
      assert RowFor("stop") == Some(Row(Some('o'), None, Some(EngineStopped)));
      assert Line('o') == "o\n";
    }
    assert KeywordActions("half right") == [Write("e\n")] by {
      assert RowFor("half right") == Some(Row(Some('e'), None, None));
      assert Line('e') == "e\n";
    }
    assert KeywordActions("half left") == [Write("q\n")] by {
      assert RowFor("half left") == Some(Row(Some('q'), None, None));
      assert Line('q') == "q\n";
    }
    assert KeywordActions(Acknowledged) == [Speak(Acknowledged)] by {
      assert RowFor(Acknowledged) == Some(Row(None, Some(Acknowledged), None));
    }
  }

  /** A payload outside the keyword set yields no event between open and
      close, and only such a payload does. */
  lemma SilentIffNotKeyword(s: string)
    ensures KeywordActions(s) == [] <==> s !in Keywords
  {
  }

  /** At most one write per payload, and it happens exactly when the table
      gives the payload a code; the written data is that code and a newline.
      The port itself is never opened, closed or used to launch anything here. */
  lemma WriteIffCode(s: string)
    ensures WriteCount(KeywordActions(s)) == (if Code(s).Some? then 1 else 0)
    ensures forall e :: e in KeywordActions(s) && e.Write? ==> Code(s).Some? && e == Write(Line(Code(s).value))
    ensures forall e :: e in KeywordActions(s) ==> e.Write? || e.Speak?
    ensures Code(s).Some? ==> Write(Line(Code(s).value)) in KeywordActions(s)
  {
    if RowFor(s).Some? {
      RowActionsShape(RowFor(s).value);
    }
  }

  /** Any row speaks, writes its code at most once, and does nothing else. */
  lemma RowActionsShape(row: Row)
    ensures WriteCount(RowActions(row)) == (if row.code.Some? then 1 else 0)
    ensures forall e :: e in RowActions(row) && e.Write? ==> row.code.Some? && e == Write(Line(row.code.value))
    ensures forall e :: e in RowActions(row) ==> e.Write? || e.Speak?
    ensures row.code.Some? ==> Write(Line(row.code.value)) in RowActions(row)
  {
    var before, write, after := SpeakIf(row.before), WriteIf(row.code), SpeakIf(row.after);
    if row.code.Some? {
      assert RowActions(row)[|before|] == Write(Line(row.code.value));
    }
    WriteCountAppend(before, write);
    WriteCountAppend(before + write, after);
  }
}
