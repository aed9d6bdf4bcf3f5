/** The vocabulary loader: turns the lines of the configuration file into
    the list of `Word` entries used for lookup and the list of phrases the
    recogniser is told to accept. */
module Vocabulary {
  import opened Wrappers
  import opened Text

  /** Lines starting with this marker are comments. */
  const CommentMarker: string := "--"
  /** Separator between the fields of an entry line. */
  const FieldSeparator: char := '|'
  /** The only third-field value that marks an entry as a shell command. */
  const ShellFlag: string := "true"
  /** Added to the recogniser's choices after every phrase. */
  const Filler: string := "saaaa"

  /** One configured phrase: what is heard, what is attached to it, and
      whether the attachment is a program to launch. */
  datatype Word = Word(text: string, attachedText: string, isShellCommand: bool)

  /** The load is aborted at the first kept line that has fewer than three
      fields, or that has three but an empty phrase; `index` is that line's
      0-based position in the input. */
  datatype LoadError = MalformedLine(index: nat) | EmptyPhrase(index: nat)

  /** What a successful load yields: the entries and the recogniser choices. */
  datatype Loaded = Loaded(words: seq<Word>, choices: seq<string>)

  /** Comment lines and empty lines produce nothing. */
  predicate Skipped(line: string)
  {
    StartsWith(line, CommentMarker) || line == ""
  }

  /** A kept line can be read only if splitting it yields fields 0, 1 and 2,
      that is, only if it holds at least two separators. */
  predicate WellFormed(line: string)
  {
    Occurrences(line, FieldSeparator) >= 2
  }

  /** A kept line the loader gets past: it has three fields, and its phrase
      is not empty, since the recogniser's `Choices.Add` rejects an empty
      phrase. */
  predicate Accepted(line: string)
  {
    WellFormed(line) && FirstField(line) != ""
  }

  /** The lines that are neither comments nor empty, in input order. */
  function Kept(lines: seq<string>): (kept: seq<string>)
    ensures |kept| <= |lines|
    ensures forall x :: x in kept <==> x in lines && !Skipped(x)
    ensures |lines| == 1 ==> kept == (if Skipped(lines[0]) then [] else lines)
  {
    if |lines| == 0 then []
    else (if Skipped(lines[0]) then [] else [lines[0]]) + Kept(lines[1..])
  }

  /** The text of a line before its first separator: the phrase it defines. */
  function FirstField(line: string): string
  {
    Split(line, FieldSeparator)[0]
  }

  /** The entry a well-formed line describes; fields past the third are
      ignored. A line of exactly three fields whose flag is spelled `true`
      or `false` is the line `LineOf` writes for its entry. */
  function WordOf(line: string): (w: Word)
    requires WellFormed(line)
    ensures var f := Split(line, FieldSeparator);
            |f| == 3 && (f[2] == ShellFlag || f[2] == "false") ==> LineOf(w) == line
  {
    var f := Split(line, FieldSeparator);
    var w := Word(FirstField(line), f[1], f[2] == ShellFlag);
    assert |f| == 3 && (f[2] == ShellFlag || f[2] == "false") ==> LineOf(w) == line by {
      if |f| == 3 && (f[2] == ShellFlag || f[2] == "false") {
        assert "false" != ShellFlag by {
          assert |"false"| != |ShellFlag|;
        }
        assert [w.text, w.attachedText, if w.isShellCommand then ShellFlag else "false"] == f;
      }
    }
    w
  }

  /** Fields after the third do not change the entry a line describes. */
  lemma ExtraFieldsIgnored(line: string, extra: string)
    requires WellFormed(line)
    ensures WellFormed(line + [FieldSeparator] + extra)
    ensures WordOf(line + [FieldSeparator] + extra) == WordOf(line)
  {
    SplitAppend(line, extra, FieldSeparator);
  }

  /** The configuration line describing an entry: the inverse of `WordOf`. */
  function LineOf(w: Word): string
  {
    Join([w.text, w.attachedText, if w.isShellCommand then ShellFlag else "false"], FieldSeparator)
  }

  /** An entry that can be written as a line and read back unchanged: its
      phrase and payload hold no separator, and its phrase is not empty and
      does not start with the comment marker. */
  predicate Writable(w: Word)
  {
    FieldSeparator !in w.text && FieldSeparator !in w.attachedText &&
    w.text != "" && !StartsWith(w.text, CommentMarker)
  }

  /** Reading the line written for an entry gives the entry back. */
  lemma LineRoundTrip(w: Word)
    requires Writable(w)
    ensures !Skipped(LineOf(w)) && Accepted(LineOf(w)) && WordOf(LineOf(w)) == w
  {
    var flag := if w.isShellCommand then ShellFlag else "false";
    var fields := [w.text, w.attachedText, flag];
    assert forall i :: 0 <= i < |fields| ==> FieldSeparator !in fields[i];
    SplitJoin(fields, FieldSeparator);
    var line := LineOf(w);
    assert fields[1..][1..] == [flag];
    assert Join(fields[1..], FieldSeparator) == w.attachedText + [FieldSeparator] + flag;
    assert line == w.text + [FieldSeparator] + (w.attachedText + [FieldSeparator] + flag);
    assert line != "";
    assert "false" != ShellFlag by {
      assert |"false"| != |ShellFlag|;
    }
  }

  /** The recogniser's choices: each entry's phrase followed by the filler. */
  function ChoicesOf(words: seq<Word>): (choices: seq<string>)
    ensures |choices| == 2 * |words|
    ensures forall i :: 0 <= i < |words| ==> choices[2 * i] == words[i].text && choices[2 * i + 1] == Filler
  {
    if |words| == 0 then []
    else
      var rest := ChoicesOf(words[1..]);
      var r := [words[0].text, Filler] + rest;
      assert forall i :: 0 <= i < |words| ==> r[2 * i] == words[i].text && r[2 * i + 1] == Filler by {
        forall i | 0 <= i < |words|
          ensures r[2 * i] == words[i].text && r[2 * i + 1] == Filler
        {
          if i > 0 {
            var j := i - 1;
            assert words[1..][j] == words[i];
            assert r[2 * i] == rest[2 * j];
            assert r[2 * i + 1] == rest[2 * j + 1];
          }
        }
      }
      r
  }

  /** Every kept line of `lines` is accepted. */
  predicate AllAccepted(lines: seq<string>)
  {
    forall i :: 0 <= i < |lines| && !Skipped(lines[i]) ==> Accepted(lines[i])
  }

  /** `words` holds one entry per kept line of `lines`, in order, each read
      from its line. */
  predicate EntriesOf(lines: seq<string>, words: seq<Word>)
  {
    var kept := Kept(lines);
    |words| == |kept| &&
    forall k :: 0 <= k < |words| ==> WellFormed(kept[k]) && words[k] == WordOf(kept[k])
  }

  /** Line `i` is the first kept line of `lines` that is not accepted. */
  predicate FirstRejected(lines: seq<string>, i: nat)
  {
    i < |lines| && !Skipped(lines[i]) && !Accepted(lines[i]) &&
    forall j :: 0 <= j < i && !Skipped(lines[j]) ==> Accepted(lines[j])
  }

  /** The entry list for `lines`, or the position of the first kept line
      that is not accepted. */
  function ParseLines(lines: seq<string>): (r: Result<seq<Word>, nat>)
    ensures r.Success? <==> AllAccepted(lines)
    ensures r.Success? ==> EntriesOf(lines, r.value)
    ensures r.Failure? ==> FirstRejected(lines, r.error)
  {
    if |lines| == 0 then Success([])
    else if !Skipped(lines[0]) && !Accepted(lines[0]) then Failure(0)
    else
      var rest := ParseLines(lines[1..]);
      AllAcceptedCons(lines);
      match rest
      case Failure(i) =>
        FirstRejectedCons(lines, i);
        Failure(i + 1)
      case Success(ws) =>
        EntriesCons(lines, ws);
        if Skipped(lines[0]) then Success(ws)
        else Success([WordOf(lines[0])] + ws)
  }

  /** `AllAccepted` looks at the first line, then at the rest. */
  lemma AllAcceptedCons(lines: seq<string>)
    requires |lines| > 0
    ensures AllAccepted(lines) <==> (Skipped(lines[0]) || Accepted(lines[0])) && AllAccepted(lines[1..])
  {
    var rest := lines[1..];
    if AllAccepted(lines) {
      forall i | 0 <= i < |rest| && !Skipped(rest[i]) ensures Accepted(rest[i]) {
        assert rest[i] == lines[i + 1];
      }
    }
    if (Skipped(lines[0]) || Accepted(lines[0])) && AllAccepted(rest) {
      forall i | 0 <= i < |lines| && !Skipped(lines[i]) ensures Accepted(lines[i]) {
        if i > 0 {
          assert lines[i] == rest[i - 1];
        }
      }
    }
  }

  /** The entries of the rest extend to the entries of the whole input. */
  lemma EntriesCons(lines: seq<string>, ws: seq<Word>)
    requires |lines| > 0 && (Skipped(lines[0]) || WellFormed(lines[0]))
    requires EntriesOf(lines[1..], ws)
    ensures Skipped(lines[0]) ==> EntriesOf(lines, ws)
    ensures !Skipped(lines[0]) ==> EntriesOf(lines, [WordOf(lines[0])] + ws)
  {
    var kept, tail := Kept(lines), Kept(lines[1..]);
    if Skipped(lines[0]) {
      assert kept == tail;
    } else {
      assert kept == [lines[0]] + tail;
      var all := [WordOf(lines[0])] + ws;
      forall k | 1 <= k < |all| ensures WellFormed(kept[k]) && all[k] == WordOf(kept[k]) {
        assert kept[k] == tail[k - 1] && all[k] == ws[k - 1];
      }
    }
  }

  /** A first rejected line of the rest, after an acceptable first line, is
      the first rejected line of the whole input. */
  lemma FirstRejectedCons(lines: seq<string>, i: nat)
    requires |lines| > 0 && (Skipped(lines[0]) || Accepted(lines[0]))
    requires FirstRejected(lines[1..], i)
    ensures FirstRejected(lines, i + 1)
  {
    var rest := lines[1..];
    assert lines[i + 1] == rest[i];
    forall j | 0 <= j < i + 1 && !Skipped(lines[j]) ensures Accepted(lines[j]) {
      if j > 0 {
        assert lines[j] == rest[j - 1];
      }
    }
  }

  /** `loadGrammarAndCommands` without the file read and the grammar
      construction: either every kept line yields an entry, in order, with
      its phrase and the filler added to the choices, or the load fails at
      the first kept line that lacks a field or has an empty phrase. */
  function Load(lines: seq<string>): (r: Result<Loaded, LoadError>)
    ensures r.Success? <==> AllAccepted(lines)
    ensures r.Success? ==> EntriesOf(lines, r.value.words)
    ensures r.Success? ==>
              |r.value.choices| == 2 * |r.value.words| &&
              forall k :: 0 <= k < |r.value.words| ==>
                r.value.choices[2 * k] == r.value.words[k].text && r.value.choices[2 * k + 1] == Filler
    ensures r.Failure? ==> FirstRejected(lines, r.error.index)
    ensures r.Failure? ==> (r.error.MalformedLine? <==> !WellFormed(lines[r.error.index]))
  {
    match ParseLines(lines)
    case Success(words) => Success(Loaded(words, ChoicesOf(words)))
    case Failure(i) => Failure(if WellFormed(lines[i]) then EmptyPhrase(i) else MalformedLine(i))
  }

  /** The configuration file written for a list of entries, one line each. */
  function Lines(words: seq<Word>): (lines: seq<string>)
    ensures |lines| == |words|
  {
    if |words| == 0 then [] else [LineOf(words[0])] + Lines(words[1..])
  }

  /** Writing entries out and loading the result gives back the same
      entries, in the same order, with their choices. */
  lemma {:induction false} LoadRoundTrip(words: seq<Word>)
    requires forall i :: 0 <= i < |words| ==> Writable(words[i])
    ensures Load(Lines(words)) == Success(Loaded(words, ChoicesOf(words)))
  {
    ParseLinesRoundTrip(words);
  }

  lemma {:induction false} ParseLinesRoundTrip(words: seq<Word>)
    requires forall i :: 0 <= i < |words| ==> Writable(words[i])
    ensures ParseLines(Lines(words)) == Success(words)
  {
    if |words| > 0 {
      var lines := Lines(words);
      assert lines[0] == LineOf(words[0]);
      assert lines[1..] == Lines(words[1..]);
      ParseLinesRoundTrip(words[1..]);
      LineRoundTrip(words[0]);
      assert ParseLines(lines) == Success([WordOf(lines[0])] + ParseLines(lines[1..]).value);
      assert words == [words[0]] + words[1..];
    }
  }

  /** Each entry of a successful load carries the first three fields of its
      line: a phrase that is never empty, the payload, and a shell flag that
      is set exactly when the third field is `true`, compared
      case-sensitively. */
  lemma EntryFields(lines: seq<string>, k: nat)
    requires AllAccepted(lines)
    requires k < |Kept(lines)|
    ensures Load(lines).Success? && k < |Load(lines).value.words|
    ensures var f := Split(Kept(lines)[k], FieldSeparator);
            var w := Load(lines).value.words[k];
            |f| >= 3 && w.text == f[0] && w.attachedText == f[1] && (w.isShellCommand <==> f[2] == ShellFlag)
    ensures Load(lines).value.words[k].text != ""
  {
    KeptAccepted(lines);
    assert Kept(lines)[k] in Kept(lines);
  }

  /** A single line yields nothing at all, neither an entry nor an error,
      exactly when it is empty or its first two characters are dashes. */
  lemma SkippedIffNoEntry(line: string)
    ensures Load([line]) == Success(Loaded([], [])) <==>
              line == "" || (|line| >= 2 && line[0] == '-' && line[1] == '-')
  {
    var lines := [line];
    assert lines[1..] == [];
    if |line| >= 2 {
      assert line[..2] == CommentMarker <==> line[0] == '-' && line[1] == '-';
    }
    assert ParseLines(lines[1..]) == Success([]);
    if !Skipped(line) && Accepted(line) {
      assert [WordOf(line)] + [] == [WordOf(line)];
      assert ParseLines(lines) == Success([WordOf(line)]);
    }
  }

  /** A line is malformed exactly when it holds fewer than two separators. */
  lemma MalformedIffFewFields(line: string)
    ensures !WellFormed(line) <==> |Split(line, FieldSeparator)| < 3
  {
  }

  /** Keeping lines distributes over concatenation of the input. */
  lemma {:induction false} KeptAppend(a: seq<string>, b: seq<string>)
    ensures Kept(a + b) == Kept(a) + Kept(b)
    decreases |a|
  {
    if |a| == 0 {
      assert a + b == b;
    } else {
      assert (a + b)[1..] == a[1..] + b;
      KeptAppend(a[1..], b);
    }
  }

  /** Every kept line is accepted (three fields, non-empty phrase) exactly
      when every element of the kept list is. */
  lemma KeptAccepted(lines: seq<string>)
    ensures AllAccepted(lines) <==> forall x :: x in Kept(lines) ==> Accepted(x)
  {
    var kept := Kept(lines);
    if AllAccepted(lines) {
      forall x | x in kept ensures Accepted(x) {
        var i :| 0 <= i < |lines| && lines[i] == x;
      }
    }
    if forall x :: x in kept ==> Accepted(x) {
      forall i | 0 <= i < |lines| && !Skipped(lines[i]) ensures Accepted(lines[i]) {
        assert lines[i] in kept;
      }
    }
  }

  /** The entries are determined by the kept lines alone. */
  lemma EntriesDetermined(l1: seq<string>, w1: seq<Word>, l2: seq<string>, w2: seq<Word>)
    requires Kept(l1) == Kept(l2)
    requires EntriesOf(l1, w1) && EntriesOf(l2, w2)
    ensures w1 == w2
  {
  }

  /** Inserting a comment or an empty line anywhere changes neither whether
      the load succeeds nor the entries and choices it yields. */
  lemma SkippedLineIgnored(a: seq<string>, c: string, b: seq<string>)
    requires Skipped(c)
    ensures Load(a + [c] + b).Success? <==> Load(a + b).Success?
    ensures Load(a + b).Success? ==> Load(a + [c] + b).value == Load(a + b).value
  {
    var with := a + [c] + b;
    var without := a + b;
    assert Kept(with) == Kept(without) by {
      KeptAppend(a + [c], b);
      KeptAppend(a, [c]);
      KeptAppend(a, b);
      assert Kept([c]) == [];
    }
    assert AllAccepted(with) <==> AllAccepted(without) by {
      KeptAccepted(with);
      KeptAccepted(without);
    }
    if Load(without).Success? {
      var v, w := Load(without).value, Load(with).value;
      EntriesDetermined(without, v.words, with, w.words);
    }
  }
}
