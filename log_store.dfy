/** The calculation log `bmi_data.txt` of server.js: `saveDataToFile` appends one
    newline-terminated line per calculation, and the history route reads the file
    back as its non-empty lines, newest first. The file is an in-memory text; whether
    a write succeeds is decided by the environment and passed in. */
module LogStore {
  import opened JsText

  const FileName := "bmi_data.txt"
  const SavedPrefix := "Data saved successfully to "
  const FailedPrefix := "Failed to save data to file: "

  /** The texts one log line is built from: `new Date().toISOString()` and the
      three `toFixed(2)` renderings of weight, height and BMI. */
  datatype Rendered = Rendered(timestamp: string, weight: string, height: string, bmi: string) {
    /** What the log relies on of those renderings: none holds a newline, the
        timestamp starts and the BMI ends with a visible character. */
    predicate Plausible() {
      && timestamp != [] && !IsWhitespace(timestamp[0])
      && bmi != [] && !IsWhitespace(bmi[|bmi| - 1])
      && '\n' !in timestamp && '\n' !in weight && '\n' !in height && '\n' !in bmi
    }
  }

  /** The result `saveDataToFile` returns. */
  datatype SaveResult = SaveResult(success: bool, message: string)

  /** How `fs.appendFileSync` ends: the line is written, or it throws with a message. */
  datatype WriteOutcome = Written | WriteFailed(reason: string)

  /** A line the history route gives back exactly as it was written. */
  predicate WellFormedLine(line: string) {
    line != [] && '\n' !in line && !IsWhitespace(line[0]) && !IsWhitespace(line[|line| - 1])
  }

  function WeightUnit(isMetric: bool): string {
    if isMetric then "kg" else "lbs"
  }

  function HeightUnit(isMetric: bool): string {
    if isMetric then "cm" else "in"
  }

  /** The line `saveDataToFile` appends, without its newline:
      `<timestamp> - Weight: <w> <unit>, Height: <h> <unit>, BMI: <bmi>`. */
  function LogLine(text: Rendered, isMetric: bool): (line: string)
    ensures |text.timestamp| <= |line| && line[..|text.timestamp|] == text.timestamp
    ensures |text.bmi| <= |line| && line[|line| - |text.bmi|..] == text.bmi
  {
    text.timestamp + Fields(text, isMetric) + text.bmi
  }

  /** The part of a log line between the timestamp and the BMI. */
  function Fields(text: Rendered, isMetric: bool): string {
    " - Weight: " + text.weight + " " + WeightUnit(isMetric)
      + ", Height: " + text.height + " " + HeightUnit(isMetric) + ", BMI: "
  }

  /** Plausible renderings make a line the history route gives back unchanged. */
  lemma LogLineWellFormed(text: Rendered, isMetric: bool)
    requires text.Plausible()
    ensures WellFormedLine(LogLine(text, isMetric))
  {
    var fields := Fields(text, isMetric);
    NoNewlineJoin(" - Weight: " + text.weight, " " + WeightUnit(isMetric));
    NoNewlineJoin(" - Weight: " + text.weight + " " + WeightUnit(isMetric), ", Height: " + text.height);
    NoNewlineJoin(" - Weight: " + text.weight + " " + WeightUnit(isMetric) + ", Height: " + text.height,
      " " + HeightUnit(isMetric) + ", BMI: ");
    NoNewlineJoin(text.timestamp, fields);
    NoNewlineJoin(text.timestamp + fields, text.bmi);
  }

  lemma NoNewlineJoin(a: string, b: string)
    requires '\n' !in a && '\n' !in b
    ensures '\n' !in a + b
  {
  }

  /** The file's content after `entries` were appended to an absent or empty file, in order. */
  function Render(entries: seq<string>): string {
    if entries == [] then "" else entries[0] + "\n" + Render(entries[1..])
  }

  /** `data.trim().split('\n').filter(line => line.length > 0)` */
  function Lines(data: string): (lines: seq<string>)
    ensures forall l :: l in lines ==> l != "" && '\n' !in l
  {
    NonEmpty(Split(Trim(data)))
  }

  /** Appending one line adds it, newline-terminated, at the end of the content. */
  lemma {:induction false} RenderSnoc(entries: seq<string>, line: string)
    ensures Render(entries + [line]) == Render(entries) + line + "\n"
  {
    if entries == [] {
      assert [line][1..] == [];
    } else {
      assert (entries + [line])[1..] == entries[1..] + [line];
      RenderSnoc(entries[1..], line);
    }
  }

  /** A non-empty rendering is its lines joined by newlines, plus the final newline. */
  lemma {:induction false} RenderJoins(entries: seq<string>)
    requires entries != []
    ensures Render(entries) == JoinLines(entries) + "\n"
  {
    if |entries| > 1 {
      RenderJoins(entries[1..]);
    } else {
      assert entries[1..] == [];
    }
  }

  /** Joining non-empty lines starts with the first line's first character and
      ends with the last line's last character. */
  lemma {:induction false} JoinLinesEnds(entries: seq<string>)
    requires entries != []
    requires forall i :: 0 <= i < |entries| ==> entries[i] != []
    ensures |JoinLines(entries)| > 0
    ensures JoinLines(entries)[0] == entries[0][0]
    ensures JoinLines(entries)[|JoinLines(entries)| - 1] == Last(entries)[|Last(entries)| - 1]
  {
    if |entries| > 1 {
      JoinLinesEnds(entries[1..]);
      assert Last(entries[1..]) == Last(entries);
    }
  }

  function Last(entries: seq<string>): string
    requires entries != []
  {
    entries[|entries| - 1]
  }

  /** Trimming a non-empty log of well-formed lines removes exactly its final newline. */
  lemma TrimRender(entries: seq<string>)
    requires entries != []
    requires forall e :: e in entries ==> WellFormedLine(e)
    ensures Trim(Render(entries)) == JoinLines(entries)
  {
    var joined := JoinLines(entries);
    forall i | 0 <= i < |entries| ensures entries[i] != [] {
      assert entries[i] in entries;
    }
    JoinLinesEnds(entries);
    assert entries[0] in entries && Last(entries) in entries;
    RenderJoins(entries);
    TrimFinalNewline(joined);
  }

  lemma TrimFinalNewline(text: string)
    requires text != [] && !IsWhitespace(text[0]) && !IsWhitespace(text[|text| - 1])
    ensures Trim(text + "\n") == text
  {
    var data := text + "\n";
    assert TrimStart(data) == data;
    assert data[..|data| - 1] == text;
    assert TrimEnd(data) == TrimEnd(text);
  }

  /** Reading back a log of well-formed lines gives exactly those lines, in file order. */
  lemma LinesOfRender(entries: seq<string>)
    requires forall e :: e in entries ==> WellFormedLine(e)
    ensures Lines(Render(entries)) == entries
  {
    if entries != [] {
      TrimRender(entries);
      SplitJoinLines(entries);
      NonEmptyKeepsNonEmpty(entries);
    } else {
      assert Split("") == [""];
    }
  }

  /** A log holding only whitespace, the empty log included, has no lines. */
  lemma WhitespaceOnlyHasNoLines(data: string)
    requires forall i :: 0 <= i < |data| ==> IsWhitespace(data[i])
    ensures Lines(data) == []
  {
    TrimStartWhitespace(data);
    assert Split("") == [""];
  }

  lemma {:induction false} TrimStartWhitespace(data: string)
    requires forall i :: 0 <= i < |data| ==> IsWhitespace(data[i])
    ensures TrimStart(data) == ""
  {
    if data != [] {
      TrimStartWhitespace(data[1..]);
    }
  }

  /** Appending a well-formed line to a log of well-formed lines: the content grows by
      that line and its newline, and the line read back comes first. */
  lemma Append(entries: seq<string>, line: string)
    requires forall e :: e in entries ==> WellFormedLine(e)
    requires WellFormedLine(line)
    ensures forall e :: e in entries + [line] ==> WellFormedLine(e)
    ensures Render(entries + [line]) == Render(entries) + line + "\n"
    ensures Reversed(Lines(Render(entries + [line]))) == [line] + Reversed(entries)
  {
    RenderSnoc(entries, line);
    LinesOfRender(entries + [line]);
    ReversedSnoc(entries, line);
  }

  /** What the history route reads from a file that may be absent: nothing without a
      file, otherwise its lines newest first. */
  function HistoryOf(present: bool, content: string): (history: seq<string>)
    ensures !present ==> history == []
    ensures forall l :: l in history ==> l != "" && '\n' !in l
  {
    if present then Reversed(Lines(content)) else []
  }

  /** Appending a well-formed line to a file written by appends, absent or not: the
      history read back gains that line at its head. */
  lemma AppendedHistory(present: bool, entries: seq<string>, line: string)
    requires forall e :: e in entries ==> WellFormedLine(e)
    requires WellFormedLine(line)
    requires !present ==> entries == []
    ensures HistoryOf(true, Render(entries) + line + "\n") == [line] + HistoryOf(present, Render(entries))
  {
    Append(entries, line);
    LinesOfRender(entries);
  }

  /** The log file: whether it exists, and its content. `entries` is the list of
      lines appended so far, oldest first. */
  class Log {
    var present: bool
    var content: string
    ghost var entries: seq<string>

    ghost predicate Valid()
      reads this
    {
      && content == Render(entries)
      && (forall e :: e in entries ==> WellFormedLine(e))
      && (!present ==> entries == [])
    }

    /** No log file yet. */
    constructor ()
      ensures Valid() && !present && entries == []
    {
      present := false;
      content := "";
      entries := [];
    }

    /** The history the read route answers with when the file reads without error:
        nothing for an absent file, otherwise its lines newest first. */
    function History(): (history: seq<string>)
      reads this
      ensures !present ==> history == []
      ensures forall l :: l in history ==> l != "" && '\n' !in l
    {
      HistoryOf(present, content)
    }

    /** Of a log written only by `SaveDataToFile`, the history is the appended lines, newest first. */
    lemma HistoryIsNewestFirst()
      requires Valid()
      ensures History() == Reversed(entries)
    {
      LinesOfRender(entries);
    }

    /** Appends one well-formed line and its newline, creating the file if needed. */
    method AppendLine(line: string)
      requires Valid() && WellFormedLine(line)
      modifies this
      ensures Valid() && present
      ensures content == old(content) + line + "\n" && entries == old(entries) + [line]
      ensures History() == [line] + old(History())
    {
      Append(entries, line);
      AppendedHistory(present, entries, line);
      content, present, entries := content + line + "\n", true, entries + [line];
    }

    /** `saveDataToFile`: append one newline-terminated line, creating the file if
        needed; a failed write changes nothing and is reported, not raised. */
    method SaveDataToFile(text: Rendered, isMetric: bool, outcome: WriteOutcome) returns (result: SaveResult)
      requires Valid() && text.Plausible()
      modifies this
      ensures Valid()
      ensures result.success <==> outcome.Written?
      ensures result.message == if outcome.Written? then SavedPrefix + FileName else FailedPrefix + outcome.reason
      ensures outcome.Written? ==> present && content == old(content) + LogLine(text, isMetric) + "\n"
      ensures outcome.Written? ==> entries == old(entries) + [LogLine(text, isMetric)]
      ensures outcome.Written? ==> History() == [LogLine(text, isMetric)] + old(History())
      ensures outcome.WriteFailed? ==> unchanged(this)
    {
      if outcome.Written? {
        LogLineWellFormed(text, isMetric);
        AppendLine(LogLine(text, isMetric));
        result := SaveResult(true, SavedPrefix + FileName);
      } else {
        result := SaveResult(false, FailedPrefix + outcome.reason);
      }
    }
  }
}
