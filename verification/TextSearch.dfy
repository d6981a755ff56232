/** `searchForTextInFile` (controllers/collector.go): a value looked up in a text file. */
module TextSearch {
  import opened Text

  /** `bufio.MaxScanTokenSize`: a line this long, without its newline, ends the scan. */
  const MAX_TOKEN := 65536

  function DropCR(line: string): string {
    if line != "" && line[|line| - 1] == '\r' then line[..|line| - 1] else line
  }

  /** The lines `bufio.Scanner` hands out; `line` is the part of the current line read so far. */
  function LinesFrom(content: string, line: string): seq<string>
    decreases |content|
  {
    if content == "" then
      if line == "" || |line| >= MAX_TOKEN then [] else [DropCR(line)]
    else if content[0] == '\n' then
      if |line| >= MAX_TOKEN then [] else [DropCR(line)] + LinesFrom(content[1..], "")
    else LinesFrom(content[1..], line + [content[0]])
  }

  function Lines(content: string): seq<string> {
    LinesFrom(content, "")
  }

  /** The field after the first occurrence of `text` that has a field after it. */
  function FieldAfter(fields: seq<string>, text: string): Option<string> {
    if |fields| < 2 then None
    else if fields[0] == text then Some(fields[1])
    else FieldAfter(fields[1..], text)
  }

  /** What one line answers: ` =` first, then the fields. */
  function Answer(line: string, text: string): Option<string> {
    if ContainsText(line, text + " =") then Some(TrimSpace(AfterEquals(line)))
    else if ContainsText(line, text) then FieldAfter(Fields(line), text)
    else None
  }

  /** Line `i` is the first one that answers. */
  predicate AnswersFirst(lines: seq<string>, text: string, i: nat) {
    i < |lines| && Answer(lines[i], text).Some? && forall j | 0 <= j < i :: Answer(lines[j], text).None?
  }

  /** Field `i` is the first occurrence of `text` that has a field after it. */
  ghost predicate IsArgument(fields: seq<string>, text: string, i: nat) {
    i + 1 < |fields| && fields[i] == text && forall j | 0 <= j < i :: fields[j] != text
  }

  lemma {:induction false} FieldAfterIsNext(fields: seq<string>, text: string)
    ensures forall i: nat | IsArgument(fields, text, i) :: FieldAfter(fields, text) == Some(fields[i + 1])
    ensures (forall i: nat :: !IsArgument(fields, text, i)) ==> FieldAfter(fields, text) == None
  {
    if |fields| >= 2 && fields[0] != text {
      FieldAfterIsNext(fields[1..], text);
      forall i: nat
        ensures IsArgument(fields, text, i) <==> i > 0 && IsArgument(fields[1..], text, i - 1)
      {
        assert i > 0 && i + 1 < |fields| ==> fields[1..][i - 1] == fields[i];
        if i > 0 && IsArgument(fields[1..], text, i - 1) {
          forall j | 0 < j < i
            ensures fields[j] != text
          {
            assert fields[1..][j - 1] == fields[j];
          }
        }
      }
      if forall i: nat :: !IsArgument(fields, text, i) {
        forall i: nat
          ensures !IsArgument(fields[1..], text, i)
        {
          assert !IsArgument(fields, text, i + 1);
        }
      } else {
        var i: nat :| IsArgument(fields, text, i);
        assert fields[1..][i] == fields[i + 1];
      }
    } else if |fields| >= 2 {
      assert IsArgument(fields, text, 0);
    }
  }

  method AnswerLine(line: string, searchText: string) returns (answer: Option<string>)
    ensures answer == Answer(line, searchText)
  {
    if ContainsText(line, searchText + " =") {
      return Some(TrimSpace(AfterEquals(line)));
    }
    if ContainsText(line, searchText) {
      var parts := Fields(line);
      for i := 0 to |parts|
        invariant FieldAfter(parts, searchText) == FieldAfter(parts[i..], searchText)
      {
        assert parts[i..][1..] == parts[i + 1..];
        if parts[i] == searchText && i + 1 < |parts| {
          return Some(parts[i + 1]);
        }
      }
    }
    return None;
  }

  /** The answer of the first line that answers, or an error when no line does. */
  method SearchForTextInFile(fileContent: string, searchText: string) returns (found: Option<string>)
    ensures var lines := Lines(fileContent);
            match found
            case Some(_) => exists i: nat :: AnswersFirst(lines, searchText, i) && found == Answer(lines[i], searchText)
            case None => forall i: nat :: !AnswersFirst(lines, searchText, i)
  {
    hide Answer, Lines;
    var lines := Lines(fileContent);
    for n := 0 to |lines|
      invariant forall j | 0 <= j < n :: Answer(lines[j], searchText).None?
    {
      found := AnswerLine(lines[n], searchText);
      if found.Some? {
        assert AnswersFirst(lines, searchText, n);
        return;
      }
    }
    return None;
  }

  datatype Entry = Entry(key: string, value: string)

  function RenderEntry(e: Entry): string {
    e.key + " = " + e.value
  }

  /** A file of `key = value` lines. */
  function Render(entries: seq<Entry>): string {
    if entries == [] then "" else RenderEntry(entries[0]) + "\n" + Render(entries[1..])
  }

  /** A scanned file of newline-terminated short lines gives those lines back. */
  lemma {:induction false} ScanOneLine(line: string, rest: string, read: string)
    requires '\n' !in line && |read| + |line| < MAX_TOKEN
    ensures LinesFrom(line + "\n" + rest, read) == [DropCR(read + line)] + LinesFrom(rest, "")
    decreases |line|
  {
    var content := line + "\n" + rest;
    if line == "" {
      assert content[1..] == rest;
      assert read + line == read;
    } else {
      assert content[1..] == line[1..] + "\n" + rest;
      assert content[0] == line[0];
      ScanOneLine(line[1..], rest, read + [line[0]]);
      assert read + [line[0]] + line[1..] == read + line;
    }
  }

  predicate Readable(e: Entry) {
    '\n' !in e.key && '\n' !in e.value && |RenderEntry(e)| < MAX_TOKEN
  }

  lemma ScanFirstEntry(entries: seq<Entry>)
    requires entries != [] && Readable(entries[0])
    ensures Lines(Render(entries)) == [DropCR(RenderEntry(entries[0]))] + Lines(Render(entries[1..]))
  {
    var line := RenderEntry(entries[0]);
    assert '\n' !in line;
    ScanOneLine(line, Render(entries[1..]), "");
    assert "" + line == line;
  }

  lemma {:induction false} ScanRendered(entries: seq<Entry>)
    requires forall e | e in entries :: Readable(e)
    ensures |Lines(Render(entries))| == |entries|
    ensures forall i | 0 <= i < |entries| :: Lines(Render(entries))[i] == DropCR(RenderEntry(entries[i]))
  {
    hide RenderEntry, DropCR, Readable;
    if entries != [] {
      assert entries[0] in entries && forall e | e in entries[1..] :: e in entries;
      ScanFirstEntry(entries);
      ScanRendered(entries[1..]);
    }
  }

  lemma NoTrailingCR(e: Entry)
    requires IsTrimmed(e.value)
    ensures DropCR(RenderEntry(e)) == RenderEntry(e)
  {
    var line := RenderEntry(e);
    if e.value != "" {
      assert line[|line| - 1] == e.value[|e.value| - 1];
      assert IsSpace('\r');
    } else {
      assert line[|line| - 1] == ' ';
    }
  }

  /** A line with ` =` behind the text is answered by what follows its first `=`, without the space around it. */
  lemma AssignmentIsTrimmed(name: string, lead: string, value: string, trail: string, text: string)
    requires '=' !in name && IsTrimmed(value) && forall c | c in lead + trail :: IsSpace(c)
    requires ContainsText(name + "=" + (lead + value + trail), text + " =")
    ensures Answer(name + "=" + (lead + value + trail), text) == Some(value)
  {
    EqualsIsUnique(name, lead + value + trail);
    TrimSpaceUndoesPadding(lead, value, trail);
  }

  lemma SuffixLineAnswers(prefix: string, key: string, value: string)
    requires '=' !in prefix + key && IsTrimmed(value)
    ensures Answer(RenderEntry(Entry(prefix + key, value)), key) == Some(value)
  {
    hide IsTrimmed, Answer;
    var line, name := RenderEntry(Entry(prefix + key, value)), prefix + key + " ";
    OccursBetween(prefix, key + " =", " " + value);
    assert line == prefix + (key + " =") + (" " + value);
    assert line == name + "=" + (" " + value + "");
    assert IsSpace(' ') && '=' !in name;
    AssignmentIsTrimmed(name, " ", value, "", key);
  }

  /** A well-formed entry answers for its own key with its value. */
  lemma OwnLineAnswers(e: Entry)
    requires '=' !in e.key && IsTrimmed(e.value)
    ensures Answer(DropCR(RenderEntry(e)), e.key) == Some(e.value)
  {
    NoTrailingCR(e);
    SuffixLineAnswers("", e.key, e.value);
    assert "" + e.key == e.key;
  }

  /**
   * Round trip: looking up the key of entry `j` in the rendered file gives the answer of the first
   * line that answers, and that is entry `j`'s own value when no earlier line answers for the key.
   */
  lemma RoundTrip(entries: seq<Entry>, j: nat)
    requires j < |entries| && forall e | e in entries :: Readable(e)
    requires '=' !in entries[j].key && IsTrimmed(entries[j].value)
    ensures |Lines(Render(entries))| == |entries|
    ensures (forall i | 0 <= i < j :: Answer(Lines(Render(entries))[i], entries[j].key).None?)
        <==> AnswersFirst(Lines(Render(entries)), entries[j].key, j)
    ensures AnswersFirst(Lines(Render(entries)), entries[j].key, j) ==>
              Answer(Lines(Render(entries))[j], entries[j].key) == Some(entries[j].value)
    ensures (forall i | 0 <= i < j :: !ContainsText(RenderEntry(entries[i]), entries[j].key)) ==>
              AnswersFirst(Lines(Render(entries)), entries[j].key, j)
  {
    var key := entries[j].key;
    ScanRendered(entries);
    OwnLineAnswers(entries[j]);
    forall i | 0 <= i < j && !ContainsText(RenderEntry(entries[i]), key)
      ensures Answer(Lines(Render(entries))[i], key).None?
    {
      MissingTextAnswersNothing(RenderEntry(entries[i]), key);
    }
  }

  lemma MissingTextAnswersNothing(line: string, text: string)
    requires !ContainsText(line, text)
    ensures Answer(DropCR(line), text).None?
  {
    var kept := DropCR(line);
    if ContainsText(kept, text + " =") {
      ContainsPrefix(kept, text + " =", text);
    }
    if ContainsText(kept, text) {
      ContainedInPrefix(line, kept, text);
    }
  }

  /** A key that ends an earlier key is answered by that earlier line instead. */
  lemma SuffixKeyShadows(prefix: string, key: string, value: string, own: string)
    requires prefix != "" && '=' !in prefix + key && IsTrimmed(value)
    requires Readable(Entry(prefix + key, value)) && Readable(Entry(key, own))
    ensures var lines := Lines(Render([Entry(prefix + key, value), Entry(key, own)]));
            AnswersFirst(lines, key, 0) && Answer(lines[0], key) == Some(value)
  {
    var entries := [Entry(prefix + key, value), Entry(key, own)];
    ScanRendered(entries);
    SuffixLineAnswers(prefix, key, value);
    assert DropCR(RenderEntry(entries[0])) == RenderEntry(entries[0]) by {
      NoTrailingCR(entries[0]);
    }
  }

  // ---- lines of a file -------------------------------------------------------------------------

  /** Lines with what ends each of them. */
  function Written(lines: seq<string>, ends: seq<string>): string
    requires |lines| == |ends|
  {
    if lines == [] then "" else lines[0] + ends[0] + Written(lines[1..], ends[1..])
  }

  predicate Bare(line: string) {
    line == "" || line[|line| - 1] != '\r'
  }

  /** A line that a scanner gives back behind which there is no more. */
  predicate IsLine(line: string) {
    '\n' !in line && Bare(line) && |line| < 65536
  }

  /** A line that a scanner gives back, and what ends it: short, and with one carriage return at most taken off. */
  predicate Ends(end: string, line: string) {
    && '\n' !in line && |line| + |end| <= 65536
    && ((end == "\n" && Bare(line)) || end == "\r\n")
  }

  lemma ScanEnded(line: string, end: string, rest: string)
    requires Ends(end, line)
    ensures LinesFrom(line + end + rest, "") == [line] + LinesFrom(rest, "")
  {
    var kept := if end == "\n" then line else line + "\r";
    assert line + end + rest == kept + "\n" + rest;
    ScanOneLine(kept, rest, "");
    assert "" + kept == kept && DropCR(kept) == line;
  }

  /** At the end of the file, or in a line that is too long, the scan ends. */
  lemma {:induction false} ScanRest(rest: string, read: string)
    requires '\n' !in rest
    ensures LinesFrom(rest, read) == if read + rest == "" || |read + rest| >= 65536 then [] else [DropCR(read + rest)]
    decreases |rest|
  {
    if rest != "" {
      ScanRest(rest[1..], read + [rest[0]]);
      assert read + [rest[0]] + rest[1..] == read + rest;
    } else {
      assert read + rest == read;
    }
  }

  lemma {:induction false} ScanTooLong(content: string, read: string)
    requires |read| <= 65536 && |content| + |read| >= 65536
    requires forall i | 0 <= i < 65536 - |read| :: content[i] != '\n'
    ensures LinesFrom(content, read) == []
    decreases |content|
  {
    if |read| == 65536 {
      ScanFull(content, read);
    } else {
      ScanTooLong(content[1..], read + [content[0]]);
    }
  }

  lemma {:induction false} ScanFull(content: string, read: string)
    requires |read| >= 65536
    ensures LinesFrom(content, read) == []
    decreases |content|
  {
    if content != "" && content[0] != '\n' {
      ScanFull(content[1..], read + [content[0]]);
    }
  }

  /**
   * The lines of a file are those that were written, however each was ended. A last line need not be
   * ended at all; and from a line of 65536 characters on nothing is read.
   */
  lemma {:induction false} LinesAreThoseWritten(lines: seq<string>, ends: seq<string>, rest: string)
    requires |lines| == |ends| && forall i | 0 <= i < |lines| :: Ends(ends[i], lines[i])
    ensures IsLine(rest) ==> Lines(Written(lines, ends) + rest) == if rest == "" then lines else lines + [rest]
    ensures |rest| >= 65536 && '\n' !in rest[..65536] ==> Lines(Written(lines, ends) + rest) == lines
  {
    if lines == [] {
      assert Written(lines, ends) + rest == rest && "" + rest == rest;
      if IsLine(rest) {
        ScanRest(rest, "");
      } else if |rest| >= 65536 && '\n' !in rest[..65536] {
        assert forall i | 0 <= i < 65536 :: rest[i] == rest[..65536][i];
        ScanTooLong(rest, "");
      }
    } else {
      var later := Written(lines[1..], ends[1..]) + rest;
      LinesAreThoseWritten(lines[1..], ends[1..], rest);
      ScanEnded(lines[0], ends[0], later);
      assert Written(lines, ends) + rest == lines[0] + ends[0] + later;
      assert lines == [lines[0]] + lines[1..];
    }
  }

  // ---- arguments -------------------------------------------------------------------------------

  /** Words with the white space behind each of them. */
  function Spaced(words: seq<string>, gaps: seq<string>): string
    requires |words| == |gaps|
  {
    if words == [] then "" else words[0] + gaps[0] + Spaced(words[1..], gaps[1..])
  }

  /** There is white space between any two words. */
  predicate AreFields(words: seq<string>, gaps: seq<string>) {
    && |gaps| == |words|
    && (forall i | 0 <= i < |words| :: words[i] != "" && forall c | c in words[i] :: !IsSpace(c))
    && (forall i | 0 <= i < |words| :: forall c | c in gaps[i] :: IsSpace(c))
    && (forall i | 0 <= i < |words| - 1 :: gaps[i] != "")
  }

  lemma {:induction false} ReadWord(word: string, rest: string, read: string)
    requires forall c | c in word :: !IsSpace(c)
    ensures FieldsFrom(word + rest, read) == FieldsFrom(rest, read + word)
    decreases |word|
  {
    if word == "" {
      assert word + rest == rest && read + word == read;
    } else {
      assert (word + rest)[1..] == word[1..] + rest && word[0] in word;
      ReadWord(word[1..], rest, read + [word[0]]);
      assert read + [word[0]] + word[1..] == read + word;
    }
  }

  lemma {:induction false} ReadGap(gap: string, rest: string, read: string)
    requires gap != "" && forall c | c in gap :: IsSpace(c)
    ensures FieldsFrom(gap + rest, read) == (if read == "" then [] else [read]) + FieldsFrom(rest, "")
    decreases |gap|
  {
    assert (gap + rest)[1..] == gap[1..] + rest && gap[0] in gap;
    if gap[1..] == "" {
      assert gap[1..] + rest == rest;
    } else {
      ReadGap(gap[1..], rest, "");
    }
  }

  lemma ReadFirstWord(words: seq<string>, gaps: seq<string>)
    requires AreFields(words, gaps) && words != []
    ensures Fields(Spaced(words, gaps)) == [words[0]] + Fields(Spaced(words[1..], gaps[1..]))
  {
    hide IsSpace, Spaced, FieldsFrom;
    var rest := Spaced(words[1..], gaps[1..]);
    SpacedFirst(words, gaps);
    ReadWord(words[0], gaps[0] + rest, "");
    assert "" + words[0] == words[0];
    if gaps[0] != "" {
      ReadGap(gaps[0], rest, words[0]);
    } else {
      assert rest == "" && gaps[0] + rest == "";
      NothingMore(words[0]);
    }
  }

  lemma SpacedFirst(words: seq<string>, gaps: seq<string>)
    requires |gaps| == |words| && words != []
    ensures Spaced(words, gaps) == words[0] + (gaps[0] + Spaced(words[1..], gaps[1..]))
    ensures words[1..] == [] ==> Spaced(words[1..], gaps[1..]) == ""
  {
  }

  lemma NothingMore(read: string)
    requires read != ""
    ensures FieldsFrom("", read) == [read] + FieldsFrom("", "")
  {
  }

  lemma {:induction false} SpacedFields(words: seq<string>, gaps: seq<string>)
    requires AreFields(words, gaps)
    ensures Fields(Spaced(words, gaps)) == words
  {
    hide IsSpace;
    if words != [] {
      SpacedFields(words[1..], gaps[1..]);
      ReadFirstWord(words, gaps);
    }
  }

  /** Splitting gives back the words, whatever white space is between them and in front of the first. */
  lemma FieldsAreTheWords(lead: string, words: seq<string>, gaps: seq<string>)
    requires AreFields(words, gaps) && forall c | c in lead :: IsSpace(c)
    ensures Fields(lead + Spaced(words, gaps)) == words
  {
    SpacedFields(words, gaps);
    if lead != "" {
      ReadGap(lead, Spaced(words, gaps), "");
    } else {
      assert lead + Spaced(words, gaps) == Spaced(words, gaps);
    }
  }

  lemma {:induction false} WordIsHeld(words: seq<string>, gaps: seq<string>, i: nat)
    requires |gaps| == |words| && i < |words|
    ensures ContainsText(Spaced(words, gaps), words[i])
  {
    hide ContainsText;
    var rest := Spaced(words[1..], gaps[1..]);
    if i == 0 {
      OccursBetween("", words[0], gaps[0] + rest);
      assert Spaced(words, gaps) == "" + words[0] + (gaps[0] + rest);
    } else {
      WordIsHeld(words[1..], gaps[1..], i - 1);
      OccursIn(words[0] + gaps[0], rest, words[i]);
    }
  }

  /**
   * Arguments: on a line of words without ` =` behind the text, the text is answered by the word after
   * its first occurrence, if that has one after it, and not at all if it does not occur in front of
   * another word.
   */
  lemma ArgumentIsNextWord(lead: string, words: seq<string>, gaps: seq<string>, text: string)
    requires AreFields(words, gaps) && forall c | c in lead :: IsSpace(c)
    requires !ContainsText(lead + Spaced(words, gaps), text + " =")
    ensures var line := lead + Spaced(words, gaps);
            && (forall i: nat | IsArgument(words, text, i) :: Answer(line, text) == Some(words[i + 1]))
            && ((forall i | 0 <= i < |words| - 1 :: words[i] != text) ==> Answer(line, text) == None)
  {
    var line := lead + Spaced(words, gaps);
    FieldsAreTheWords(lead, words, gaps);
    FieldAfterIsNext(words, text);
    forall i: nat | IsArgument(words, text, i)
      ensures ContainsText(line, text)
    {
      WordIsHeld(words, gaps, i);
      OccursIn(lead, Spaced(words, gaps), text);
    }
  }

  lemma OccursIn(before: string, s: string, text: string)
    requires ContainsText(s, text)
    ensures ContainsText(before + s, text)
  {
    var i: nat :| i <= |s| && OccursAt(s, text, i);
    assert (before + s)[|before| + i..|before| + i + |text|] == s[i..i + |text|];
    assert OccursAt(before + s, text, |before| + i);
  }
}
