/**
 * Plain text from transcript files: `vttToPlainText`, a line filter over WebVTT text (not a
 * WebVTT parser), and `jsonTranscriptToPlainText`, which picks the text out of a JSON payload.
 */
module TranscriptText {
  import opened Wrappers
  import opened Seqs
  import opened Text

  // ---------------------------------------------------------------------------------------
  // vttToPlainText

  /** The length of the run of `\s` characters at the front of `s`. */
  function WhitespaceRun(s: string): (n: nat)
    ensures n <= |s|
    ensures forall i :: 0 <= i < n ==> IsWhitespace(s[i])
    ensures n < |s| ==> !IsWhitespace(s[n])
  {
    if s != [] && IsWhitespace(s[0]) then 1 + WhitespaceRun(s[1..]) else 0
  }

  /** `\d{2}:\d{2}:\d{2}\.\d{3}` at position `i` of `s`. */
  predicate ClockAt(s: string, i: nat) {
    && i + 12 <= |s|
    && IsAsciiDigit(s[i]) && IsAsciiDigit(s[i + 1]) && s[i + 2] == ':'
    && IsAsciiDigit(s[i + 3]) && IsAsciiDigit(s[i + 4]) && s[i + 5] == ':'
    && IsAsciiDigit(s[i + 6]) && IsAsciiDigit(s[i + 7]) && s[i + 8] == '.'
    && IsAsciiDigit(s[i + 9]) && IsAsciiDigit(s[i + 10]) && IsAsciiDigit(s[i + 11])
  }

  /**
   * `/^\d{2}:\d{2}:\d{2}\.\d{3}\s+-->\s+\d{2}:\d{2}:\d{2}\.\d{3}/`: a cue timing at the start of
   * the line. `-` is no whitespace, so each `\s+` can only match the whole run it starts.
   */
  predicate IsCueTiming(line: string) {
    && ClockAt(line, 0)
    && var a := 12 + WhitespaceRun(line[12..]);
       && a > 12
       && a + 3 <= |line| && line[a..a + 3] == "-->"
       && var b := a + 3 + WhitespaceRun(line[a + 3..]);
          && b > a + 3
          && ClockAt(line, b)
  }

  /** `/^\d+$/`. */
  predicate IsNumberLine(line: string) {
    line != [] && forall i :: 0 <= i < |line| ==> IsAsciiDigit(line[i])
  }

  /** `word` at the start of `line`, ignoring ASCII case, and then a word boundary. */
  predicate StartsWithWord(line: string, word: string) {
    && |word| <= |line|
    && ToAsciiUpper(line[..|word|]) == word
    && (|line| == |word| || !IsWordChar(line[|word|]))
  }

  /** `/^(NOTE|STYLE|REGION)\b/i`. */
  predicate IsBlockHeader(line: string) {
    StartsWithWord(line, "NOTE") || StartsWithWord(line, "STYLE") || StartsWithWord(line, "REGION")
  }

  /** The five filters of `vttToPlainText`, in the source's order, as one test on a trimmed line. */
  predicate KeepVttLine(line: string) {
    && |line| > 0
    && ToAsciiUpper(line) != "WEBVTT"
    && !IsCueTiming(line)
    && !IsNumberLine(line)
    && !IsBlockHeader(line)
  }

  /** The lines `vttToPlainText` keeps, in input order. */
  function VttLines(raw: string): seq<string> {
    Filter(TrimAll(Split(ReplaceCrLf(raw), '\n')), KeepVttLine)
  }

  /** `vttToPlainText`: the kept lines joined by newlines, then trimmed. */
  function VttToPlainText(raw: string): string {
    Trim(Join(VttLines(raw), '\n'))
  }

  /**
   * Every kept line is a trimmed, non-empty input line (after the CRLF rewrite) that is neither
   * the `WEBVTT` header in any case, nor a cue timing, nor a number, nor a NOTE/STYLE/REGION
   * block header; every such input line is kept, and the kept lines keep their input order.
   */
  lemma VttLinesProperties(raw: string)
    ensures forall i :: 0 <= i < |VttLines(raw)| ==>
              KeepVttLine(VttLines(raw)[i]) && IsTrimmed(VttLines(raw)[i]) && '\n' !in VttLines(raw)[i]
    ensures var lines := TrimAll(Split(ReplaceCrLf(raw), '\n'));
      forall i :: 0 <= i < |lines| && KeepVttLine(lines[i]) ==> lines[i] in VttLines(raw)
    ensures IsSubsequence(VttLines(raw), TrimAll(Split(ReplaceCrLf(raw), '\n')))
  {
    var pieces := Split(ReplaceCrLf(raw), '\n');
    var lines := TrimAll(pieces);
    forall i | 0 <= i < |lines| ensures IsTrimmed(lines[i]) && '\n' !in lines[i] {
      TrimKeepsOut(pieces[i], '\n');
    }
    forall i | 0 <= i < |VttLines(raw)| ensures IsTrimmed(VttLines(raw)[i]) && '\n' !in VttLines(raw)[i] {
      var k :| 0 <= k < |lines| && lines[k] == VttLines(raw)[i];
    }
    FilterIsSubsequence(lines, KeepVttLine);
  }

  /**
   * The output is the kept lines joined by newlines (the final trim changes nothing); it is
   * empty exactly when no line is kept, and splitting it at newlines gives the kept lines back.
   */
  lemma VttToPlainTextLines(raw: string)
    ensures VttToPlainText(raw) == Join(VttLines(raw), '\n')
    ensures VttToPlainText(raw) == "" <==> VttLines(raw) == []
    ensures VttLines(raw) != [] ==> Split(VttToPlainText(raw), '\n') == VttLines(raw)
  {
    PlainTextIsJoin(raw);
    if VttLines(raw) != [] {
      KeptLinesShape(raw);
      SplitJoin(VttLines(raw), '\n');
    }
  }

  /** The final trim changes nothing, and the join is empty exactly when no line is kept. */
  lemma PlainTextIsJoin(raw: string)
    ensures VttToPlainText(raw) == Join(VttLines(raw), '\n')
    ensures VttToPlainText(raw) == "" <==> VttLines(raw) == []
  {
    KeptLinesShape(raw);
    JoinTrimmed(VttLines(raw), '\n');
  }

  /** Each kept line is non-empty, trimmed and free of newlines. */
  lemma KeptLinesShape(raw: string)
    ensures forall i :: 0 <= i < |VttLines(raw)| ==>
              VttLines(raw)[i] != "" && IsTrimmed(VttLines(raw)[i]) && '\n' !in VttLines(raw)[i]
  {
    VttLinesProperties(raw);
  }

  /** A line that starts with a non-digit that is not N, S or R (in either case) is no block header, number or cue. */
  lemma PlainStartKept(line: string)
    requires |line| > 0 && !IsAsciiDigit(line[0])
    requires AsciiUpper(line[0]) != 'N' && AsciiUpper(line[0]) != 'S' && AsciiUpper(line[0]) != 'R'
    requires |line| != 6
    ensures KeepVttLine(line)
  {
    assert |ToAsciiUpper(line)| == |line|;
    if |line| >= 4 {
      assert ToAsciiUpper(line[..4])[0] == AsciiUpper(line[0]);
      assert "NOTE"[0] == 'N';
    }
    if |line| >= 5 {
      assert ToAsciiUpper(line[..5])[0] == AsciiUpper(line[0]);
      assert "STYLE"[0] == 'S';
    }
    if |line| >= 6 {
      assert ToAsciiUpper(line[..6])[0] == AsciiUpper(line[0]);
      assert "REGION"[0] == 'R';
    }
  }

  /** The header with text after it (`WEBVTT - x`) is kept: only the bare header is dropped. */
  lemma HeaderWithTitleKept(line: string)
    requires StartsWith(line, "WEBVTT") && |line| > 6
    ensures KeepVttLine(line)
  {
    assert line[0] == line[..6][0] == 'W';
    PlainStartKept(line);
  }

  /** The bare header is dropped in any case. */
  lemma BareHeaderDropped()
    ensures !KeepVttLine("WEBVTT") && !KeepVttLine("webvtt")
  {
    UpperDropped("WEBVTT");
    UpperDropped("webvtt");
  }

  /** A line that upper-cases to the header is dropped. */
  lemma UpperDropped(line: string)
    requires |line| == 6
    requires AsciiUpper(line[0]) == 'W' && AsciiUpper(line[1]) == 'E' && AsciiUpper(line[2]) == 'B'
    requires AsciiUpper(line[3]) == 'V' && AsciiUpper(line[4]) == 'T' && AsciiUpper(line[5]) == 'T'
    ensures !KeepVttLine(line)
  {
    assert ToAsciiUpper(line) == "WEBVTT";
  }

  /** `\d{2}:\d{2}:\d{2}\.\d{3}` as a whole string. */
  predicate IsClock(s: string) {
    |s| == 12 && ClockAt(s, 0)
  }

  /** A cue timing with hours on both sides, `a --> b`, is recognised and dropped. */
  lemma CueWithHoursDropped(a: string, b: string, rest: string)
    requires IsClock(a) && IsClock(b)
    ensures IsCueTiming(a + " --> " + b + rest)
    ensures !KeepVttLine(a + " --> " + b + rest)
  {
    var line := a + " --> " + b + rest;
    ClockShifted([], a, " --> " + b + rest);
    assert line == [] + a + (" --> " + b + rest);
    ClockShifted(a + " --> ", b, rest);
    var tail := line[12..];
    assert tail == " --> " + b + rest;
    assert tail[1..][0] == '-';
    assert WhitespaceRun(tail) == 1;
    assert line[13..16] == "-->";
    var tail2 := line[16..];
    assert tail2 == " " + b + rest;
    assert tail2[1..][0] == b[0];
    assert WhitespaceRun(tail2) == 1;
  }

  /** A clock keeps its shape wherever it is placed in a line. */
  lemma ClockShifted(pre: string, c: string, post: string)
    requires IsClock(c)
    ensures ClockAt(pre + c + post, |pre|)
  {
    var line := pre + c + post;
    forall j | 0 <= j < 12 ensures line[|pre| + j] == c[j] {
    }
  }

  /** `\d{2}:\d{2}\.\d{3}` at the start: a cue time without hours. */
  predicate StartsWithShortClock(line: string) {
    && |line| >= 9
    && IsAsciiDigit(line[0]) && IsAsciiDigit(line[1]) && line[2] == ':'
    && IsAsciiDigit(line[3]) && IsAsciiDigit(line[4]) && line[5] == '.'
    && IsAsciiDigit(line[6]) && IsAsciiDigit(line[7]) && IsAsciiDigit(line[8])
  }

  /** A cue timing without hours, which WebVTT allows, is not recognised and stays in the text. */
  lemma CueWithoutHoursKept(line: string)
    requires StartsWithShortClock(line)
    ensures KeepVttLine(line)
  {
    assert !IsNumberLine(line);
    assert ToAsciiUpper(line)[0] == line[0] && "WEBVTT"[0] == 'W';
    assert ToAsciiUpper(line[..4])[0] == line[0] && "NOTE"[0] == 'N';
    assert ToAsciiUpper(line[..5])[0] == line[0] && "STYLE"[0] == 'S';
    assert ToAsciiUpper(line[..6])[0] == line[0] && "REGION"[0] == 'R';
  }

  /** Block headers are recognised in any case, but only as whole words. */
  lemma BlockHeaderExamples()
    ensures IsBlockHeader("NOTE this is a comment")
    ensures IsBlockHeader("Style")
    ensures !IsBlockHeader("Notebook")
  {
    WordMatches("NOTE this is a comment", "NOTE");
    WordMatches("Style", "STYLE");
    var n := "Notebook";
    WordRunsOn(n, "NOTE");
    FirstLetterDiffers(n, "STYLE");
    FirstLetterDiffers(n, "REGION");
  }

  /** A line whose first letters upper-case to `word`, followed by a non-word character or nothing, starts with it. */
  lemma WordMatches(line: string, word: string)
    requires |word| <= |line| && forall i :: 0 <= i < |word| ==> AsciiUpper(line[i]) == word[i]
    requires |line| == |word| || !IsWordChar(line[|word|])
    ensures StartsWithWord(line, word)
  {
    assert ToAsciiUpper(line[..|word|]) == word;
  }

  /** A word followed by another word character is no match. */
  lemma WordRunsOn(line: string, word: string)
    requires |word| < |line| && IsWordChar(line[|word|])
    ensures !StartsWithWord(line, word)
  {
  }

  /** A line whose first letter differs from the word's (ignoring case) does not start with it. */
  lemma FirstLetterDiffers(line: string, word: string)
    requires 0 < |word| && 0 < |line| && AsciiUpper(line[0]) != word[0]
    ensures !StartsWithWord(line, word)
  {
    if |word| <= |line| {
      assert ToAsciiUpper(line[..|word|])[0] == AsciiUpper(line[0]);
    }
  }

  // ---------------------------------------------------------------------------------------
  // jsonTranscriptToPlainText

  /** A parsed JSON value. */
  datatype Json =
    | JNull
    | JBool(b: bool)
    | JNumber(n: real)
    | JString(s: string)
    | JArray(items: seq<Json>)
    | JObject(fields: map<string, Json>)

  /** `row && typeof row === 'object' ? row.text : null`, kept only when it is a string. */
  function RowText(row: Json): Option<string> {
    if row.JObject? && "text" in row.fields && row.fields["text"].JString? then Some(row.fields["text"].s) else None
  }

  /** The string `text` fields of the rows, in order. */
  function RowTexts(rows: seq<Json>): (r: seq<string>)
    ensures |r| <= |rows|
  {
    if rows == [] then []
    else
      var rest := RowTexts(rows[1..]);
      if RowText(rows[0]).Some? then [RowText(rows[0]).value] + rest else rest
  }

  /** The collected texts are exactly the string `text` fields of the rows. */
  lemma {:induction false} RowTextsMembers(rows: seq<Json>, t: string)
    ensures t in RowTexts(rows) <==> exists i :: 0 <= i < |rows| && RowText(rows[i]) == Some(t)
  {
    if rows != [] {
      RowTextsMembers(rows[1..], t);
      if exists i :: 0 <= i < |rows| && RowText(rows[i]) == Some(t) {
        var i :| 0 <= i < |rows| && RowText(rows[i]) == Some(t);
        if i > 0 {
          assert rows[1..][i - 1] == rows[i];
        }
      }
      if exists i :: 0 <= i < |rows[1..]| && RowText(rows[1..][i]) == Some(t) {
        var i :| 0 <= i < |rows[1..]| && RowText(rows[1..][i]) == Some(t);
        assert rows[i + 1] == rows[1..][i];
      }
    }
  }

  predicate NonEmpty(s: string) {
    s != ""
  }

  /** The trimmed, non-empty texts of the rows. */
  function RowParts(rows: seq<Json>): seq<string> {
    Filter(TrimAll(RowTexts(rows)), NonEmpty)
  }

  /** The array case: the parts joined by newlines and trimmed, or `null` when that is empty. */
  function JoinedRows(rows: seq<Json>): Option<string> {
    var text := Trim(Join(RowParts(rows), '\n'));
    if |text| > 0 then Some(text) else None
  }

  /** A string that is non-blank: `typeof v === 'string' && v.trim()`. */
  predicate HasText(fields: map<string, Json>, key: string) {
    key in fields && fields[key].JString? && Trim(fields[key].s) != ""
  }

  /**
   * `jsonTranscriptToPlainText`: an array of rows; an object's non-blank `transcript`, else its
   * non-blank `text`, else its `segments` array; `null` for everything else.
   */
  function JsonTranscriptToPlainText(payload: Json): (r: Option<string>)
    ensures r.Some? ==> r.value != "" && IsTrimmed(r.value)
    ensures !payload.JArray? && !payload.JObject? ==> r.None?
  {
    match payload
    case JArray(rows) => JoinedRows(rows)
    case JObject(fields) =>
      if HasText(fields, "transcript") then Some(Trim(fields["transcript"].s))
      else if HasText(fields, "text") then Some(Trim(fields["text"].s))
      else if "segments" in fields && fields["segments"].JArray? then JoinedRows(fields["segments"].items)
      else None
    case _ => None
  }

  /** The kept parts are trimmed and non-empty. */
  lemma RowPartsTrimmed(rows: seq<Json>)
    ensures forall i :: 0 <= i < |RowParts(rows)| ==> RowParts(rows)[i] != "" && IsTrimmed(RowParts(rows)[i])
  {
    var trimmed := TrimAll(RowTexts(rows));
    var parts := RowParts(rows);
    forall i | 0 <= i < |parts| ensures parts[i] != "" && IsTrimmed(parts[i]) {
      var k :| 0 <= k < |trimmed| && trimmed[k] == parts[i];
    }
  }

  /** The kept parts are exactly the non-empty trimmed string `text` fields of the rows. */
  lemma RowPartsMembers(rows: seq<Json>, p: string)
    ensures p in RowParts(rows) <==>
              exists i :: 0 <= i < |rows| && RowText(rows[i]).Some? && p == Trim(RowText(rows[i]).value) && p != ""
  {
    var texts := RowTexts(rows);
    var trimmed := TrimAll(texts);
    var parts := RowParts(rows);
    if p in parts {
      var j :| 0 <= j < |parts| && parts[j] == p;
      assert parts[j] in trimmed;
      var k :| 0 <= k < |trimmed| && trimmed[k] == p;
      RowTextsMembers(rows, texts[k]);
      var i :| 0 <= i < |rows| && RowText(rows[i]) == Some(texts[k]);
      assert p == Trim(RowText(rows[i]).value);
    }
    if exists i :: 0 <= i < |rows| && RowText(rows[i]).Some? && p == Trim(RowText(rows[i]).value) && p != "" {
      var i :| 0 <= i < |rows| && RowText(rows[i]).Some? && p == Trim(RowText(rows[i]).value) && p != "";
      var t := RowText(rows[i]).value;
      RowTextsMembers(rows, t);
      var k :| 0 <= k < |texts| && texts[k] == t;
      assert trimmed[k] == p && NonEmpty(trimmed[k]);
    }
  }

  /**
   * An array payload gives `null` exactly when no row has a non-blank string `text`; otherwise
   * it gives those texts, trimmed, joined by newlines, in row order.
   */
  lemma JoinedRowsProperties(rows: seq<Json>)
    ensures JoinedRows(rows).None? <==>
              forall i :: 0 <= i < |rows| ==> RowText(rows[i]).None? || Trim(RowText(rows[i]).value) == ""
    ensures JoinedRows(rows).Some? ==> JoinedRows(rows).value == Join(RowParts(rows), '\n')
  {
    var parts := RowParts(rows);
    RowPartsTrimmed(rows);
    JoinTrimmed(parts, '\n');
    if parts != [] {
      RowPartsMembers(rows, parts[0]);
    } else {
      forall i | 0 <= i < |rows| && RowText(rows[i]).Some? ensures Trim(RowText(rows[i]).value) == "" {
        RowPartsMembers(rows, Trim(RowText(rows[i]).value));
      }
    }
  }

  /**
   * The fields of an object are tried in order: a non-blank `transcript` wins, then a non-blank
   * `text`, then `segments`, read exactly like an array payload.
   */
  lemma ObjectPrecedence(fields: map<string, Json>)
    ensures HasText(fields, "transcript") ==>
              JsonTranscriptToPlainText(JObject(fields)) == Some(Trim(fields["transcript"].s))
    ensures !HasText(fields, "transcript") && HasText(fields, "text") ==>
              JsonTranscriptToPlainText(JObject(fields)) == Some(Trim(fields["text"].s))
    ensures !HasText(fields, "transcript") && !HasText(fields, "text") && "segments" in fields && fields["segments"].JArray? ==>
              JsonTranscriptToPlainText(JObject(fields)) == JsonTranscriptToPlainText(fields["segments"])
    ensures !HasText(fields, "transcript") && !HasText(fields, "text") && !("segments" in fields && fields["segments"].JArray?) ==>
              JsonTranscriptToPlainText(JObject(fields)).None?
  {
  }

  /** The texts of a list of rows with one more row in front. */
  lemma RowTextsCons(row: Json, rows: seq<Json>)
    ensures RowTexts([row] + rows) ==
              if RowText(row).Some? then [RowText(row).value] + RowTexts(rows) else RowTexts(rows)
  {
    assert ([row] + rows)[1..] == rows;
  }

  /** The parts of a list of rows with one more row in front. */
  lemma RowPartsCons(row: Json, rows: seq<Json>)
    ensures RowParts([row] + rows) ==
              if RowText(row).Some? && Trim(RowText(row).value) != "" then [Trim(RowText(row).value)] + RowParts(rows)
              else RowParts(rows)
  {
    RowTextsCons(row, rows);
    if RowText(row).Some? {
      TrimAllCons(RowText(row).value, RowTexts(rows));
      FilterCons(Trim(RowText(row).value), TrimAll(RowTexts(rows)), NonEmpty);
    }
  }

  /** Rows that are not objects, and object rows whose `text` is no string, are skipped. */
  lemma RowWithoutTextSkipped(row: Json, rows: seq<Json>)
    requires RowText(row).None?
    ensures JoinedRows([row] + rows) == JoinedRows(rows)
  {
    RowPartsCons(row, rows);
  }

  /** A row whose text is blank is skipped as well. */
  lemma BlankRowSkipped(row: Json, rows: seq<Json>)
    requires RowText(row).Some? && Trim(RowText(row).value) == ""
    ensures JoinedRows([row] + rows) == JoinedRows(rows)
  {
    RowPartsCons(row, rows);
  }
}
