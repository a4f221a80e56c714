/** How `sendToGemini` (assets/js/app.js) turns the streamed response body
    into the assistant's answer. The body arrives as decoded text chunks;
    each chunk is split into lines, blank lines are dropped, and every line
    that starts with `data: ` carries a JSON event whose first candidate's
    first part may hold a piece of text. `JSON.parse` and the optional
    chaining into the parsed object are not modelled: `parse` stands for
    them and says what a line's payload yields. */
module Streaming {
  import opened JsBuiltins

  /** What parsing the payload of a `data: ` line yields. */
  datatype Payload =
    | Malformed          // JSON.parse throws; the error is logged and the line skipped
    | NoText             // valid JSON without candidates[0].content.parts[0].text
    | Text(text: string) // the text found at that path

  /** A line all of whitespace: exactly the lines whose `trim()` is the
      empty, falsy string (`JsBuiltins.TrimEmptyIffBlank`). */
  predicate IsBlank(line: string)
  {
    forall i :: 0 <= i < |line| ==> IsJsWhitespace(line[i])
  }

  /** The `filter(line => line.trim())` step: the lines that are not blank,
      in their order. */
  function KeepNonBlank(lines: seq<string>): (kept: seq<string>)
    ensures |kept| <= |lines|
    ensures forall k :: 0 <= k < |kept| ==> !IsBlank(kept[k])
  {
    if lines == [] then []
    else
      var last := lines[|lines| - 1];
      KeepNonBlank(lines[..|lines| - 1]) + (if IsBlank(last) then [] else [last])
  }

  /** What one kept line adds to `fullResponse`: the text of a `data: `
      line whose payload has a non-empty text (an empty string is falsy and
      adds nothing), nothing for any other line. */
  function LineText(line: string, parse: string -> Payload): (text: string)
    ensures text != "" ==> StartsWith(line, "data: ") && parse(line[5..]) == Text(text)
    ensures IsBlank(line) ==> text == ""
    ensures StartsWith(line, "data: ") && parse(line[5..]).Text? ==> text == parse(line[5..]).text
  {
    assert StartsWith(line, "data: ") ==> !IsBlank(line) by {
      if StartsWith(line, "data: ") {
        assert line[0] == 'd';
      }
    }
    if StartsWith(line, "data: ") then
      match parse(line[5..])
      case Text(t) => t
      case _ => ""
    else ""
  }

  /** The texts of a run of lines, one per line. */
  function LineTexts(lines: seq<string>, parse: string -> Payload): seq<string>
  {
    seq(|lines|, k requires 0 <= k < |lines| => LineText(lines[k], parse))
  }

  /** The lines of one decoded chunk that the inner loop visits. */
  function ChunkLines(chunk: string): seq<string>
  {
    KeepNonBlank(Split(chunk, '\n'))
  }

  /** The text one chunk contributes: its lines' texts, in order. */
  function ChunkText(chunk: string, parse: string -> Payload): string
  {
    Flat(LineTexts(ChunkLines(chunk), parse))
  }

  /** The texts of a run of chunks, one per chunk. */
  function ChunkTexts(chunks: seq<string>, parse: string -> Payload): seq<string>
  {
    seq(|chunks|, k requires 0 <= k < |chunks| => ChunkText(chunks[k], parse))
  }

  /** The answer a stream of chunks yields: the chunks' texts, in order. */
  function StreamText(chunks: seq<string>, parse: string -> Payload): (answer: string)
    ensures answer == "" <==> forall k :: 0 <= k < |chunks| ==> ChunkText(chunks[k], parse) == ""
  {
    var texts := ChunkTexts(chunks, parse);
    FlatEmpty(texts);
    assert forall k :: 0 <= k < |chunks| ==> texts[k] == ChunkText(chunks[k], parse);
    Flat(texts)
  }

  /** The `while (true)` read loop; `chunks` are the decoded values
      `reader.read()` delivers before it reports `done`. */
  method ReadStream(chunks: seq<string>, parse: string -> Payload) returns (fullResponse: string)
    ensures fullResponse == StreamText(chunks, parse)
  {
    fullResponse := "";
    var i := 0;
    while i < |chunks|
      invariant 0 <= i <= |chunks|
      invariant fullResponse == StreamText(chunks[..i], parse)
    {
      var lines := ChunkLines(chunks[i]);
      fullResponse := ReadLines(fullResponse, lines, parse);
      StreamGrows(chunks, i, parse);
      i := i + 1;
    }
    assert chunks[..|chunks|] == chunks;
  }

  /** The inner `for` over the kept lines of one chunk: each `data: ` line
      whose payload carries a non-empty text appends that text. */
  method ReadLines(before: string, lines: seq<string>, parse: string -> Payload) returns (fullResponse: string)
    ensures fullResponse == before + Flat(LineTexts(lines, parse))
  {
    fullResponse := before;
    for j := 0 to |lines|
      invariant fullResponse == before + Flat(LineTexts(lines[..j], parse))
    {
      var line := lines[j];
      TextsGrow(lines, j, parse);
      AppendAssoc(before, Flat(LineTexts(lines[..j], parse)), LineText(line, parse));
      if StartsWith(line, "data: ") {
        var payload := parse(line[5..]);
        if payload.Text? && payload.text != "" {
          fullResponse := fullResponse + payload.text;
        } else {
          assert LineText(line, parse) == "";
        }
      } else {
        assert LineText(line, parse) == "";
      }
    }
    assert lines[..|lines|] == lines;
  }

  /** One more line adds its text to the texts so far. */
  lemma TextsGrow(lines: seq<string>, j: int, parse: string -> Payload)
    requires 0 <= j < |lines|
    ensures Flat(LineTexts(lines[..j + 1], parse)) == Flat(LineTexts(lines[..j], parse)) + LineText(lines[j], parse)
  {
    assert LineTexts(lines[..j + 1], parse) == LineTexts(lines[..j], parse) + [LineText(lines[j], parse)];
    FlatSnoc(LineTexts(lines[..j], parse), LineText(lines[j], parse));
  }

  /** One more chunk adds its text to the answer so far. */
  lemma StreamGrows(chunks: seq<string>, i: int, parse: string -> Payload)
    requires 0 <= i < |chunks|
    ensures StreamText(chunks[..i + 1], parse) == StreamText(chunks[..i], parse) + ChunkText(chunks[i], parse)
  {
    assert ChunkTexts(chunks[..i + 1], parse) == ChunkTexts(chunks[..i], parse) + [ChunkText(chunks[i], parse)];
    FlatSnoc(ChunkTexts(chunks[..i], parse), ChunkText(chunks[i], parse));
  }

  // ------------------------------------------------------------ properties

  /** The texts of two runs of lines, one after the other. */
  lemma LinesTextAppend(a: seq<string>, b: seq<string>, parse: string -> Payload)
    ensures Flat(LineTexts(a + b, parse)) == Flat(LineTexts(a, parse)) + Flat(LineTexts(b, parse))
  {
    assert LineTexts(a + b, parse) == LineTexts(a, parse) + LineTexts(b, parse);
    FlatAppend(LineTexts(a, parse), LineTexts(b, parse));
  }

  /** A line that is not a `data: ` line, or whose payload is malformed or
      carries no text, is skipped: the answer is as if it were absent. */
  lemma SkippedLine(before: seq<string>, line: string, after: seq<string>, parse: string -> Payload)
    requires !StartsWith(line, "data: ") || !parse(line[5..]).Text?
    ensures Flat(LineTexts(before + [line] + after, parse))
      == Flat(LineTexts(before, parse)) + Flat(LineTexts(after, parse))
  {
    var front, back := LineTexts(before, parse), LineTexts(after, parse);
    assert LineText(line, parse) == "";
    assert LineTexts(before + [line] + after, parse) == front + [""] + back;
    FlatAppend(front + [""], back);
    FlatSnoc(front, "");
  }

  /** A `data: ` line whose payload carries text `t` adds `t` between the
      texts of the lines around it. */
  lemma ContributingLine(before: seq<string>, line: string, after: seq<string>, t: string, parse: string -> Payload)
    requires StartsWith(line, "data: ") && parse(line[5..]) == Text(t)
    ensures Flat(LineTexts(before + [line] + after, parse))
      == Flat(LineTexts(before, parse)) + t + Flat(LineTexts(after, parse))
  {
    var front, back := LineTexts(before, parse), LineTexts(after, parse);
    assert LineTexts(before + [line] + after, parse) == front + [t] + back;
    FlatAppend(front + [t], back);
    FlatSnoc(front, t);
  }

  /** Reading on only extends the answer: the answer for more chunks is the
      answer so far followed by the later chunks' texts. */
  lemma StreamTextAppend(a: seq<string>, b: seq<string>, parse: string -> Payload)
    ensures StreamText(a + b, parse) == StreamText(a, parse) + StreamText(b, parse)
  {
    var whole, front, back := ChunkTexts(a + b, parse), ChunkTexts(a, parse), ChunkTexts(b, parse);
    forall k | 0 <= k < |a + b|
      ensures whole[k] == (front + back)[k]
    {
      if k < |a| {
        assert (a + b)[k] == a[k];
      } else {
        assert (a + b)[k] == b[k - |a|];
      }
    }
    assert whole == front + back;
    FlatAppend(front, back);
  }

  /** The blank-line filter works line by line. */
  lemma {:induction false} KeepNonBlankAppend(a: seq<string>, b: seq<string>)
    ensures KeepNonBlank(a + b) == KeepNonBlank(a) + KeepNonBlank(b)
    decreases |b|
  {
    if b == [] {
      assert a + b == a;
    } else {
      var b', last := b[..|b| - 1], b[|b| - 1];
      assert (a + b)[..|a + b| - 1] == a + b';
      KeepNonBlankAppend(a, b');
      var kept := if IsBlank(last) then [] else [last];
      calc {
        KeepNonBlank(a + b);
        KeepNonBlank(a + b') + kept;
        (KeepNonBlank(a) + KeepNonBlank(b')) + kept;
        KeepNonBlank(a) + (KeepNonBlank(b') + kept);
      }
    }
  }

  /** The filter on one line: it keeps the line exactly when the line is
      not blank. With `KeepNonBlankAppend` this fixes the filter: every
      non-blank line is kept, in order. */
  lemma KeepNonBlankOne(line: string)
    ensures KeepNonBlank([line]) == if IsBlank(line) then [] else [line]
  {
    assert [line][..0] == [];
  }

  /** Dropping the blank lines never changes the answer: a blank line has
      no text. */
  lemma {:induction false} FilterKeepsText(lines: seq<string>, parse: string -> Payload)
    ensures Flat(LineTexts(KeepNonBlank(lines), parse)) == Flat(LineTexts(lines, parse))
    decreases |lines|
  {
    if lines != [] {
      var front, last := lines[..|lines| - 1], lines[|lines| - 1];
      assert lines == front + [last];
      FilterKeepsText(front, parse);
      LinesTextAppend(KeepNonBlank(front), if IsBlank(last) then [] else [last], parse);
      LinesTextAppend(front, [last], parse);
      assert LineTexts([last], parse) == [LineText(last, parse)];
      FlatSingle(LineText(last, parse));
      if IsBlank(last) {
        assert LineTexts([], parse) == [];
      }
    }
  }

  /** Where a chunk ends on a line break, the chunking does not matter: the
      two chunks give the same text as their concatenation read at once. */
  lemma ChunkBoundaryAtLineBreak(first: string, second: string, parse: string -> Payload)
    requires first != [] && first[|first| - 1] == '\n'
    ensures ChunkText(first, parse) + ChunkText(second, parse) == ChunkText(first + second, parse)
  {
    var body := first[..|first| - 1];
    assert first == body + ['\n'];
    assert first + second == body + ['\n'] + second;
    LinesAtLineBreak(body, second);
    LinesTextAppend(ChunkLines(body), ChunkLines(second), parse);
  }

  /** The lines of a chunk body followed by a line break, and of that text
      followed by more text. */
  lemma LinesAtLineBreak(body: string, second: string)
    ensures ChunkLines(body + ['\n']) == ChunkLines(body)
    ensures ChunkLines(body + ['\n'] + second) == ChunkLines(body) + ChunkLines(second)
  {
    var empty: string := [];
    assert body + ['\n'] == body + ['\n'] + empty;
    SplitAround(body, '\n', empty);
    SplitAround(body, '\n', second);
    assert Split(empty, '\n') == [empty];
    assert KeepNonBlank([empty]) == [] by {
      assert [empty][..0] == [];
    }
    KeepNonBlankAppend(Split(body, '\n'), [empty]);
    KeepNonBlankAppend(Split(body, '\n'), Split(second, '\n'));
  }
}
