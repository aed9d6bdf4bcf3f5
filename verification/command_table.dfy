/** The command table lookup: the first entry whose phrase is exactly the
    recognised text, compared case-sensitively character by character. */
module CommandTable {
  import opened Wrappers
  import opened Vocabulary

  /** Some phrase in `words` is exactly `phrase`. */
  predicate Defines(words: seq<Word>, phrase: string)
  {
    exists i :: 0 <= i < |words| && words[i].text == phrase
  }

  /** Position of the first entry whose phrase is `phrase`, searching from `from`. */
  function FirstMatchFrom(words: seq<Word>, phrase: string, from: nat): (r: Option<nat>)
    requires from <= |words|
    ensures r.Some? ==>
              from <= r.value < |words| && words[r.value].text == phrase &&
              forall j :: from <= j < r.value ==> words[j].text != phrase
    ensures r.None? ==> forall j :: from <= j < |words| ==> words[j].text != phrase
    decreases |words| - from
  {
    if from == |words| then None
    else if words[from].text == phrase then Some(from)
    else FirstMatchFrom(words, phrase, from + 1)
  }

  /** `words.Where(c => c.Text == command).First()`, with `None` standing for
      the exception `First` raises on an empty sequence. */
  function Lookup(words: seq<Word>, phrase: string): (r: Option<Word>)
    ensures r.None? <==> !Defines(words, phrase)
    ensures r.Some? ==>
              exists i :: 0 <= i < |words| && words[i] == r.value &&
                          (forall j :: 0 <= j < i ==> words[j].text != phrase)
    ensures r.Some? ==> r.value.text == phrase
  {
    match FirstMatchFrom(words, phrase, 0)
    case None => None
    case Some(i) => Some(words[i])
  }

  /** No two kept lines of a configuration start with the same field. */
  predicate DistinctPhrases(lines: seq<string>)
  {
    var kept := Kept(lines);
    forall a, b :: 0 <= a < b < |kept| ==> FirstField(kept[a]) != FirstField(kept[b])
  }

  /** Duplicates are not rejected: the earliest entry with the phrase wins,
      whatever follows it. */
  lemma FirstMatchWins(words: seq<Word>, i: nat)
    requires i < |words|
    requires forall j :: 0 <= j < i ==> words[j].text != words[i].text
    ensures Lookup(words, words[i].text) == Some(words[i])
  {
    var r := Lookup(words, words[i].text);
    var k :| 0 <= k < |words| && words[k] == r.value && (forall j :: 0 <= j < k ==> words[j].text != words[i].text);
    assert !(k < i) && !(i < k);
  }

  /** Adding entries after the table never changes the result for a phrase
      the table already defines. */
  lemma LookupStableUnderAppend(words: seq<Word>, more: seq<Word>, phrase: string)
    requires Defines(words, phrase)
    ensures Lookup(words + more, phrase) == Lookup(words, phrase)
  {
    var a := Lookup(words, phrase);
    var i :| 0 <= i < |words| && words[i] == a.value && (forall j :: 0 <= j < i ==> words[j].text != phrase);
    var all := words + more;
    assert all[i] == words[i];
    assert forall j :: 0 <= j < i ==> all[j] == words[j];
    FirstMatchWins(all, i);
  }

  /** The entry found for the phrase at position `k` sits at or before `k`. */
  lemma LookupAtOrBefore(words: seq<Word>, k: nat) returns (j: nat)
    requires k < |words|
    ensures j <= k && words[j].text == words[k].text
    ensures forall m :: 0 <= m < j ==> words[m].text != words[k].text
    ensures Lookup(words, words[k].text) == Some(words[j])
  {
    var r := Lookup(words, words[k].text);
    j :| 0 <= j < |words| && words[j] == r.value && (forall m :: 0 <= m < j ==> words[m].text != words[k].text);
  }

  /** Loading followed by lookup: every phrase of a loaded configuration is
      found, and the entry returned is the one built from the earliest kept
      line carrying that phrase, payload and shell flag included. */
  lemma LoadThenLookup(lines: seq<string>, k: nat)
    requires AllAccepted(lines)
    requires k < |Kept(lines)|
    ensures Load(lines).Success?
    ensures var kept := Kept(lines);
            var phrase := WordOf(kept[k]).text;
            exists j :: 0 <= j <= k &&
                        WordOf(kept[j]).text == phrase &&
                        (forall m :: 0 <= m < j ==> WordOf(kept[m]).text != phrase) &&
                        Lookup(Load(lines).value.words, phrase) == Some(WordOf(kept[j]))
  {
    var kept := Kept(lines);
    var words := Load(lines).value.words;
    assert |words| == |kept| && forall m :: 0 <= m < |words| ==> words[m] == WordOf(kept[m]);
    var j := LookupAtOrBefore(words, k);
  }

  /** With no duplicate phrases, lookup after loading returns exactly the
      entry each kept line was parsed into. */
  lemma LoadThenLookupUnique(lines: seq<string>, k: nat)
    requires AllAccepted(lines)
    requires k < |Kept(lines)|
    requires DistinctPhrases(lines)
    ensures Load(lines).Success?
    ensures Lookup(Load(lines).value.words, WordOf(Kept(lines)[k]).text) == Some(WordOf(Kept(lines)[k]))
  {
    var words, kept := Load(lines).value.words, Kept(lines);
    assert EntriesOf(lines, words);
    assert forall j :: 0 <= j < k ==> words[j].text != words[k].text by {
      forall j | 0 <= j < k ensures words[j].text != words[k].text {
        assert words[j].text == FirstField(kept[j]) && words[k].text == FirstField(kept[k]);
      }
    }
    FirstMatchWins(words, k);
  }
}
