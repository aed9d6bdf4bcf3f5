# Voice-activated chair: command loading and dispatch

The program listens to a microphone and reacts to a fixed vocabulary of
phrases. At start-up it reads a configuration file. Each line of the file
is either a comment (starting with `--`), an empty line, or an entry
`phrase|payload|flag`. Every entry becomes a `Word`, and the phrase, then
the filler `saaaa`, is added to the recogniser's choices. When a phrase is
recognised, `getKnownTextOrExecute` looks it up: the first entry with that
exact phrase wins.

- A shell entry starts the payload as a program and reports
  `you just started : <payload>`.
- Any other entry opens the serial port and runs eight independent `if`
  blocks on the payload. `go`, `back`, `left`, `right`, `stop`,
  `half right` and `half left` each write a one-character code and a
  newline. `go` and `stop` also speak a confirmation, and
  `Iva do you love me` is spoken back. Then the port is closed and the
  payload is returned.
- Any exception returns the recognised phrase itself. This covers an
  unknown phrase, a program that cannot be started, a port that cannot be
  opened and a failed write.

The model is written in Dafny and split into modules that follow the
program:

- `Text`: `String.Split` on one character, which keeps empty pieces, its
  inverse `Join`, and an ordinal prefix test.
- `Vocabulary`: the loader `loadGrammarAndCommands` as the pure function
  `Load`. It maps the file's lines either to the entries and choices, or
  to the index of the first kept line the loop cannot get past. That line
  either has too few fields, where `parts[1]` or `parts[2]` throws, or has an empty
  phrase, where the recogniser's `Choices.Add` throws. Its inverse is
  `Lines`, which writes a configuration back out.
- `CommandTable`: the `Where(...).First()` lookup. `None` stands for the
  exception `First` raises.
- `Effects`: effects as a trace of events: launch, open, write, close,
  speak. The environment is a set `faults` of events that raise when
  attempted. `Perform` attempts a plan in order and stops at the first
  event that raises. The source has no `finally`, so nothing after that
  event runs.
- `Protocol`: the keyword blocks run between `Open` and `Close`, proved
  equal to a table with one row per keyword.
- `Dispatcher`: `getKnownTextOrExecute` as `GetKnownTextOrExecute`, which
  returns the displayed string and the trace. `Dispatch` returns a
  structured response instead: `Unrecognized`, `Executed(reply)` or
  `ActionFailed(event)`, of which the source returns only a string.
- `Scenarios`: a concrete two-entry configuration, dispatched end to end.

Three consequences of the code are worth stating on their own:

- A write that raises skips `port.Close()`, so the port stays open
  (`WriteFailureLeavesPortOpen`).
- Duplicate phrases are not rejected; the first match wins
  (`FirstMatchWins`, `LoadThenLookup`).
- Lines with more than three fields load; fields after the third are
  ignored (`ExtraFieldsIgnored`).

## Model

| member | source | states |
|---|---|---|
| Text.Split | SpeechToText/MainWindow.xaml.cs:121 | splitting on the separator yields one more piece than there are separators, no piece holds a separator, and re-joining the pieces gives the line back |
| Text.SplitJoin | SpeechToText/MainWindow.xaml.cs:121 | the other round trip: splitting a join of separator-free pieces gives the same pieces, empty ones included |
| Text.SplitAppend | SpeechToText/MainWindow.xaml.cs:121 | splitting text glued with a separator is the concatenation of splitting each side |
| Vocabulary.Kept | SpeechToText/MainWindow.xaml.cs:115-118 | the lines that reach the split are exactly the input lines that neither start with `--` nor are empty; a single line is kept as it is or dropped, and together with `KeptAppend` this fixes the order and the multiplicity of the kept lines |
| Vocabulary.KeptAppend | SpeechToText/MainWindow.xaml.cs:115-118 | the lines kept from two consecutive parts of the file are the lines kept from the first part followed by those kept from the second |
| Vocabulary.ExtraFieldsIgnored | SpeechToText/MainWindow.xaml.cs:121-124 | appending a fourth or further field to a readable line keeps it readable and leaves its entry unchanged, since only `parts[0..2]` are read |
| Vocabulary.LineRoundTrip | SpeechToText/MainWindow.xaml.cs:118-127 | the line written for an entry whose phrase and payload hold no separator, and whose phrase is not empty and does not start with `--`, is kept, accepted, and reads back as the same entry, the shell flag being set exactly for the third field `true` |
| Vocabulary.WordOf | SpeechToText/MainWindow.xaml.cs:121-124 | a line of exactly three fields whose flag is spelled `true` or `false` is the very line written back for the entry read from it, so nothing but the three fields is read |
| Vocabulary.ChoicesOf | SpeechToText/MainWindow.xaml.cs:126-128 | the recogniser receives two choices per entry: the entry's phrase and then `saaaa`, in entry order |
| Vocabulary.ParseLines | SpeechToText/MainWindow.xaml.cs:115-127 | the entries are produced exactly when every kept line has three fields and a non-empty phrase, and then there is one entry per kept line read from it in order; otherwise the result is the position of the first kept line that fails either test |
| Vocabulary.Load | SpeechToText/MainWindow.xaml.cs:109-137 | the load succeeds exactly when every kept line has three fields and a non-empty phrase; on success it yields one entry per kept line, in order, plus the phrase and filler choices for each; on failure it names the first offending line, as a missing field where `parts[1]` or `parts[2]` throws and as an empty phrase where `texts.Add` throws |
| Vocabulary.LoadRoundTrip | SpeechToText/MainWindow.xaml.cs:109-128 | writing a list of entries whose phrases are non-empty, do not start with `--` and, like their payloads, hold no separator, and loading the result gives back the same entries, in the same order, with their choices |
| Vocabulary.EntryFields | SpeechToText/MainWindow.xaml.cs:121-127 | when every kept line is accepted, the load yields an entry for each kept line k, carrying field 0 of that line as its phrase, which is never empty, and field 1 as payload, and it is a shell entry exactly when field 2 is `true` (case-sensitive) |
| Vocabulary.MalformedIffFewFields | SpeechToText/MainWindow.xaml.cs:121-124 | a line lacks a field (is not well formed) exactly when splitting it gives fewer than three fields, the condition on which indexing `parts[1]` or `parts[2]` throws |
| Vocabulary.KeptAccepted | SpeechToText/MainWindow.xaml.cs:115-127 | every kept position is accepted exactly when every kept line is |
| Vocabulary.SkippedLineIgnored | SpeechToText/MainWindow.xaml.cs:118 | inserting a comment or empty line anywhere in the file changes neither whether the load succeeds nor the entries and choices it yields |
| Vocabulary.SkippedIffNoEntry | SpeechToText/MainWindow.xaml.cs:118 | a one-line file yields neither an entry nor an error exactly when the line is empty or starts with two dashes |
| CommandTable.Lookup | SpeechToText/MainWindow.xaml.cs:148 | the lookup misses exactly when no entry has the phrase; a hit is an entry with exactly that phrase, and no earlier entry has it |
| CommandTable.FirstMatchWins | SpeechToText/MainWindow.xaml.cs:148 | an entry preceded by no entry with the same phrase is the one found, whatever duplicates follow it |
| CommandTable.LookupStableUnderAppend | SpeechToText/MainWindow.xaml.cs:148 | entries added after a table never change the entry found for a phrase the table already defines |
| CommandTable.LoadThenLookup | SpeechToText/MainWindow.xaml.cs:148 | when every kept line is accepted, the load succeeds, every loaded phrase is found, and the entry returned is the one read from the earliest kept line with that phrase |
| CommandTable.LoadThenLookupUnique | SpeechToText/MainWindow.xaml.cs:148 | when every kept line is accepted and no two kept lines start with the same field, the load succeeds and looking up the phrase of any kept line returns exactly the entry that line was read into |
| Effects.Perform | SpeechToText/MainWindow.xaml.cs:146-211 | a plan runs to the end exactly when none of its events raises; otherwise the effects that took place are a strict prefix of the plan with no raising event in it, followed by the raising event, and nothing after it runs |
| Protocol.KeywordActions | SpeechToText/MainWindow.xaml.cs:167-201 | the eight independent `if` blocks do exactly what the keyword table prescribes for every payload, so no two blocks fire together |
| Protocol.DriveRows | SpeechToText/MainWindow.xaml.cs:167-184 | `go` speaks `Engine started` and then writes `w\n`; `back`, `left` and `right` write `s\n`, `a\n` and `d\n` alone |
| Protocol.StopTurnAndAckRows | SpeechToText/MainWindow.xaml.cs:185-201 | `stop` writes `o\n` and then speaks `Engine Stopped`; the half turns write `e\n` and `q\n`; `Iva do you love me` is spoken back with no write |
| Protocol.SilentIffNotKeyword | SpeechToText/MainWindow.xaml.cs:167-201 | a payload produces no event between opening and closing the port exactly when it is not one of the eight keywords |
| Protocol.WriteIffCode | SpeechToText/MainWindow.xaml.cs:167-201 | the blocks write once when the payload has a code and never otherwise, and the data written is that code and a newline; they only write and speak |
| Protocol.RowActionsShape | SpeechToText/MainWindow.xaml.cs:167-201 | any table row speaks, writes its code exactly once if it has one and none otherwise, and does nothing else |
| Dispatcher.Plan | SpeechToText/MainWindow.xaml.cs:150-205 | a shell entry plans a single launch of its payload; any other entry opens the port first, closes it last and in between only writes and speaks, so it never opens twice, closes early or launches; every plan holds at most one write |
| Dispatcher.Dispatch | SpeechToText/MainWindow.xaml.cs:144-212 | the response is unrecognised exactly when no entry has the phrase, with no effects; otherwise the action succeeds exactly when no planned event raises, and then the effects are the whole plan and the reply is `you just started : ` and the payload for a shell entry, the payload otherwise; a failure names the first planned event that raised, and the effects are exactly the planned events before it |
| Dispatcher.GetKnownTextOrExecute | SpeechToText/MainWindow.xaml.cs:144-212 | an unknown phrase is echoed with no effects; a known phrase with nothing raising returns `you just started : ` and the payload for a shell entry, the payload otherwise, after its whole plan; a known phrase with a raising event is echoed after exactly the planned events before the first one that raised |
| Dispatcher.EchoOnMiss | SpeechToText/MainWindow.xaml.cs:146-211 | a phrase no entry carries is returned unchanged and causes no effect |
| Dispatcher.EchoOnFailure | SpeechToText/MainWindow.xaml.cs:208-211 | whichever planned event raises, the recognised phrase is returned |
| Dispatcher.AbortedRunEchoes | SpeechToText/MainWindow.xaml.cs:146-211 | when the plan is aborted, the phrase comes back together with exactly the effects that took place before the raising event |
| Dispatcher.ShellLaunch | SpeechToText/MainWindow.xaml.cs:150-156 | a shell entry whose program starts gives exactly one launch of the payload and the reply `you just started : ` followed by the payload |
| Dispatcher.ShellLaunchFails | SpeechToText/MainWindow.xaml.cs:150-156 | a shell entry whose program cannot be started echoes the phrase and leaves no effect |
| Dispatcher.ShellTouchesNoPort | SpeechToText/MainWindow.xaml.cs:150-156 | whatever fails, a shell entry produces no event other than the launch of its payload |
| Dispatcher.SerialSuccess | SpeechToText/MainWindow.xaml.cs:158-205 | a serial entry with nothing raising opens the port, runs its keyword blocks, closes the port and returns the payload |
| Dispatcher.OpenFails | SpeechToText/MainWindow.xaml.cs:164-165 | a serial entry whose port cannot be opened echoes the phrase with no effect, not even the speech of `go` |
| Dispatcher.WriteFailureLeavesPortOpen | SpeechToText/MainWindow.xaml.cs:165-211 | when the single write of a keyword raises after a successful open, the phrase is echoed and the port has been opened but never closed |
| Dispatcher.SerialPlanShape | SpeechToText/MainWindow.xaml.cs:165-203 | the plan of a serial entry whose payload has a code includes the write of that code |
| Dispatcher.AtMostOneWrite | SpeechToText/MainWindow.xaml.cs:144-212 | whatever the configuration, phrase and failures, one dispatch writes to the serial port at most once |
| Scenarios.GoPlan | SpeechToText/MainWindow.xaml.cs:148-203 | in the example configuration, `go` resolves to the first entry, whose plan is open, speak `Engine started`, write `w\n`, close |
| Scenarios.GoDispatch | SpeechToText/MainWindow.xaml.cs:160-205 | dispatching `go` with nothing failing returns `go` after open, speech, write `w\n` and close |
| Scenarios.GoWriteFails | SpeechToText/MainWindow.xaml.cs:165-211 | when writing `w\n` raises, `go` is echoed after the open and the speech, and no close follows |
| Scenarios.ShutdownDispatch | SpeechToText/MainWindow.xaml.cs:150-156 | dispatching `shutdown` launches `/bin/true` and returns `you just started : /bin/true` |
| Scenarios.OtherPhraseEchoed | SpeechToText/MainWindow.xaml.cs:146-211 | a phrase that is not configured comes back unchanged with no effect |
| Scenarios.TwoFieldLineFails | SpeechToText/MainWindow.xaml.cs:118-124 | a comment followed by a line with only two fields, phrase and payload `back`, fails the load at line 1 as a missing field |
| Scenarios.EmptyPhraseFails | SpeechToText/MainWindow.xaml.cs:121-127 | a line with three fields but an empty phrase fails the load at that line as an empty phrase |

## Left out

- Reading the file (line 114): the model starts from its lines. The file name, built from the working directory, is not modelled.
- Building and loading the grammar (lines 130-131): the model yields the list of choices and stops there.
- Creating the recognition engine and choosing its culture (lines 83-104), the constructor that wires the events and shows a message box (lines 46-72), the recognition and audio-level handlers (lines 223-237) and the window events (lines 248-263): UI and engine plumbing with no logic of their own.
- Vocabulary.Load: on failure, the source has already added the earlier entries to the `words` field before the exception is rethrown, and for an empty phrase the entry of the failing line too; a second call would append to the entries already there. The model returns only the error, and a successful load starts from an empty table; the program calls the loader once, from a constructor that catches the error.
- Vocabulary.SkippedIffNoEntry: .NET's `StartsWith(string)` compares using the current culture. It is modelled as an ordinal, character-by-character prefix test, and there is no Unicode normalisation.
- Dispatcher.Dispatch: the constructors of the speech synthesiser (line 161) and of the port object (line 164) are assumed not to raise. If they did, the result would match `OpenFails`: echo with no effect.
- Dispatcher.Dispatch: the port name `COM5` and the 9600 baud rate are not modelled; opening is a single `Open` event.
- Dispatcher.Dispatch: `SpeakAsync` is modelled as a `Speak` event that takes effect when it is queued. Whether the speech is then heard, and its timing relative to the writes, is not modelled.
- The failures of the launched process and of the device after a write succeeds are outside the program and not modelled; a launch or write event either takes effect or raises.
