/**
 * Producer and consumer together: the frames `generate()` writes, read back
 * by the panels' accumulator.
 *
 * The browser's `JSON.parse` is a parameter of the accumulator; the only
 * things required of it here are that it reads the producer's two frame
 * objects back as the strings they encode (`InvertsEncoder`), and, for
 * frames cut between reads, that it refuses the pieces of a content object
 * (`RejectsCutObjects`).  The reference reader `FrameDecode` is shown to
 * satisfy both.
 */
module RoundTrip {
  import opened Wrappers
  import opened Strings
  import opened Json
  import opened Stream
  import opened Server

  /** The JSON reader reads both frame objects back as the strings they encode. */
  ghost predicate InvertsEncoder(decode: string -> Parsed) {
    && (forall s :: decode(ContentJson(s)) == Obj(Some(s), None))
    && (forall s :: decode(ErrorJson(s)) == Obj(None, Some(s)))
  }

  lemma FrameDecodeInvertsEncoder()
    ensures InvertsEncoder(FrameDecode)
  {
    forall s: string
      ensures FrameDecode(ContentJson(s)) == Obj(Some(s), None)
      ensures FrameDecode(ErrorJson(s)) == Obj(None, Some(s))
    {
      FrameDecodeRoundTrip(s);
    }
  }

  /**
   * The JSON reader refuses the pieces of a cut content object: no proper
   * prefix and no proper suffix of one reads as an object.  `JSON.parse`
   * throws on each, since a prefix leaves the object open and a suffix
   * starts inside a string or after the opening brace.
   */
  ghost predicate RejectsCutObjects(decode: string -> Parsed) {
    && (forall s: string, q: nat :: q < |ContentJson(s)| ==> decode(ContentJson(s)[..q]) == Malformed)
    && (forall s: string, k: nat :: 1 <= k <= |ContentJson(s)| ==> decode(ContentJson(s)[k..]) == Malformed)
  }

  lemma FrameDecodeRejectsCutObjects()
    ensures RejectsCutObjects(FrameDecode)
  {
    forall s: string, q: nat | q < |ContentJson(s)|
      ensures FrameDecode(ContentJson(s)[..q]) == Malformed
    {
      ContentPrefixMalformed(s, q);
    }
    forall s: string, k: nat | 1 <= k <= |ContentJson(s)|
      ensures FrameDecode(ContentJson(s)[k..]) == Malformed
    {
      ContentSuffixMalformed(s, k);
    }
  }

  /** The truthy chunks: the ones the accumulator appends. */
  function NonEmpty(cs: seq<string>): (r: seq<string>)
    ensures forall i :: 0 <= i < |r| ==> r[i] != ""
    ensures |r| <= |cs|
  {
    if cs == [] then []
    else (if cs[0] != "" then [cs[0]] else []) + NonEmpty(cs[1..])
  }

  lemma NonEmptySingle(c: string)
    requires c != ""
    ensures NonEmpty([c]) == [c]
  {
    assert [c][1..] == [];
  }

  /** Dropping empty chunks does not change their concatenation. */
  lemma {:induction false} ConcatNonEmpty(cs: seq<string>)
    ensures Concat(NonEmpty(cs)) == Concat(cs)
  {
    if cs != [] {
      ConcatNonEmpty(cs[1..]);
      var head := if cs[0] != "" then [cs[0]] else [];
      ConcatAppend(head, NonEmpty(cs[1..]));
    }
  }

  lemma {:induction false} NonEmptyAppend(a: seq<string>, b: seq<string>)
    ensures NonEmpty(a + b) == NonEmpty(a) + NonEmpty(b)
  {
    if a == [] {
      assert a + b == b;
    } else {
      assert (a + b)[0] == a[0];
      assert (a + b)[1..] == a[1..] + b;
      NonEmptyAppend(a[1..], b);
    }
  }

  /** The lines the client sees for a run of content frames. */
  function FrameLines(chunks: seq<string>): seq<string> {
    if chunks == [] then [] else ["data: " + ContentJson(chunks[0]), ""] + FrameLines(chunks[1..])
  }

  lemma SplitFrameThen(line: string, rest: string)
    requires '\n' !in line
    ensures Split(line + "\n\n" + rest, '\n') == [line, ""] + Split(rest, '\n')
  {
    var tail := "" + ['\n'] + rest;
    assert line + "\n\n" + rest == line + ['\n'] + tail;
    SplitAround(line, tail, '\n');
    SplitAround("", rest, '\n');
    SplitNoSep(line, '\n');
    var r := Split(rest, '\n');
    assert [line] + ([""] + r) == [line, ""] + r;
  }

  /** A body of content frames splits into one `data: ` line and one blank line per frame. */
  lemma {:induction false} SplitContentBody(chunks: seq<string>, rest: string)
    ensures Split(Body(ContentFrames(chunks)) + rest, '\n') == FrameLines(chunks) + Split(rest, '\n')
  {
    if chunks == [] {
      assert Body(ContentFrames(chunks)) + rest == rest;
    } else {
      var line := "data: " + ContentJson(chunks[0]);
      var frames := ContentFrames(chunks);
      assert frames[0] == ContentFrame(chunks[0]);
      assert frames[1..] == ContentFrames(chunks[1..]);
      var tail := Body(ContentFrames(chunks[1..])) + rest;
      assert Body(frames) + rest == line + "\n\n" + tail;
      FrameJsonHasNoNewline(chunks[0]);
      SplitFrameThen(line, tail);
      SplitContentBody(chunks[1..], rest);
    }
  }

  lemma ContentLine(c: string, decode: string -> Parsed)
    requires InvertsEncoder(decode)
    ensures LineContent("data: " + ContentJson(c), decode) == (if c != "" then [c] else [])
    ensures !IsErrorLine("data: " + ContentJson(c), decode)
  {
    StartsWithAppend("data: ", ContentJson(c));
  }

  /** The two lines of one content frame. */
  lemma FramePairRead(c: string, decode: string -> Parsed)
    requires InvertsEncoder(decode)
    ensures LineContents(["data: " + ContentJson(c), ""], decode) == (if c != "" then [c] else [])
    ensures NoErrorLines(["data: " + ContentJson(c), ""], decode)
  {
    var pair := ["data: " + ContentJson(c), ""];
    ContentLine(c, decode);
    assert pair[1..] == [""];
    assert [""][1..] == [];
    assert !StartsWith("", DataPrefix);
  }

  lemma {:induction false} FrameLinesRead(chunks: seq<string>, decode: string -> Parsed)
    requires InvertsEncoder(decode)
    ensures LineContents(FrameLines(chunks), decode) == NonEmpty(chunks)
    ensures NoErrorLines(FrameLines(chunks), decode)
  {
    if chunks != [] {
      var pair := ["data: " + ContentJson(chunks[0]), ""];
      var rest := FrameLines(chunks[1..]);
      assert FrameLines(chunks) == pair + rest;
      FramePairRead(chunks[0], decode);
      FrameLinesRead(chunks[1..], decode);
      LineContentsAppend(pair, rest, decode);
      NoErrorLinesAppend(pair, rest, decode);
    }
  }

  /** From any state, a read of whole content frames appends the non-empty chunks. */
  lemma ContentBodyRead(st: State, chunks: seq<string>, decode: string -> Parsed)
    requires InvertsEncoder(decode)
    ensures ProcessRead(st, Body(ContentFrames(chunks)), decode) == Accumulate(st, NonEmpty(chunks))
  {
    var frameLines := FrameLines(chunks);
    var lines := frameLines + [""];
    SplitContentBody(chunks, "");
    assert Body(ContentFrames(chunks)) + "" == Body(ContentFrames(chunks));
    assert Split("", '\n') == [""];
    FrameLinesRead(chunks, decode);
    LineContentsAppend(frameLines, [""], decode);
    assert LineContents([""], decode) == [] by {
      assert [""][1..] == [];
      assert !StartsWith("", DataPrefix);
    }
    assert NoErrorLines([""], decode) by {
      assert !StartsWith("", DataPrefix);
    }
    NoErrorLinesAppend(frameLines, [""], decode);
    RunLinesNoError(st, lines, decode);
    assert NonEmpty(chunks) + [] == NonEmpty(chunks);
  }

  /**
   * Round trip: a whole response delivered in one read shows, on the client,
   * the concatenation of every chunk the model yielded, and publishes the
   * running prefix once per non-empty chunk.
   */
  lemma WholeResponseRoundTrip(chunks: seq<string>, decode: string -> Parsed)
    requires InvertsEncoder(decode)
    ensures var r := ProcessReads(Start, [Body(Generate(Completion(chunks, None)))], decode);
      && r.acc == Concat(chunks)
      && r.display == Concat(chunks)
      && r.updates == Prefixes("", NonEmpty(chunks))
  {
    var body := Body(Generate(Completion(chunks, None)));
    var ne := NonEmpty(chunks);
    GenerateNoError(chunks);
    ProcessReadsSingle(Start, body, decode);
    ContentBodyRead(Start, chunks, decode);
    AccumulateFromStart(ne);
    ConcatNonEmpty(chunks);
    assert [] + Prefixes("", ne) == Prefixes("", ne);
  }

  lemma GenerateNoError(chunks: seq<string>)
    ensures Generate(Completion(chunks, None)) == ContentFrames(chunks)
  {
    var frames := Generate(Completion(chunks, None));
    assert frames == frames[..|chunks|];
  }

  lemma GenerateWithError(chunks: seq<string>, message: string)
    ensures Body(Generate(Completion(chunks, Some(message)))) == Body(ContentFrames(chunks)) + ErrorFrame(message)
  {
    var frames := Generate(Completion(chunks, Some(message)));
    assert frames == ContentFrames(chunks) + [ErrorFrame(message)];
    ConcatAppend(ContentFrames(chunks), [ErrorFrame(message)]);
    ConcatSingle(ErrorFrame(message));
  }

  lemma SplitErrorFrame(message: string)
    ensures Split(ErrorFrame(message), '\n') == ["data: " + ErrorJson(message), "", ""]
  {
    var errLine := "data: " + ErrorJson(message);
    FrameJsonHasNoNewline(message);
    SplitFrameThen(errLine, "");
    assert ErrorFrame(message) == errLine + "\n\n" + "";
    assert Split("", '\n') == [""];
  }

  lemma SplitErrorBody(chunks: seq<string>, message: string)
    ensures Split(Body(Generate(Completion(chunks, Some(message)))), '\n')
         == FrameLines(chunks) + ["data: " + ErrorJson(message)] + ["", ""]
  {
    GenerateWithError(chunks, message);
    SplitErrorFrame(message);
    SplitContentBody(chunks, ErrorFrame(message));
    var errLine := "data: " + ErrorJson(message);
    SnocRegroup(FrameLines(chunks), errLine, "", "");
  }

  lemma ErrorLineStep(st: State, message: string, decode: string -> Parsed)
    requires InvertsEncoder(decode)
    requires message != ""
    ensures IsErrorLine("data: " + ErrorJson(message), decode)
    ensures StepLine(st, "data: " + ErrorJson(message), decode)
         == LineStep(State(st.acc, message, st.updates + [message]), true)
  {
    StartsWithAppend("data: ", ErrorJson(message));
  }

  /**
   * A read of content frames followed by the error frame appends the
   * non-empty chunks and then shows exactly the error message.
   */
  lemma ErrorBodyRead(st: State, chunks: seq<string>, message: string, decode: string -> Parsed)
    requires InvertsEncoder(decode)
    requires message != ""
    ensures ProcessRead(st, Body(Generate(Completion(chunks, Some(message)))), decode)
         == State(st.acc + Concat(chunks), message, st.updates + Prefixes(st.acc, NonEmpty(chunks)) + [message])
  {
    var errLine := "data: " + ErrorJson(message);
    var pre := FrameLines(chunks);
    SplitErrorBody(chunks, message);
    ErrorLineStep(Accumulate(st, NonEmpty(chunks)), message, decode);
    FrameLinesRead(chunks, decode);
    ErrorLineEndsRead(st, pre, errLine, ["", ""], decode);
    RunLinesErrorAfter(st, pre, errLine, decode);
    ConcatNonEmpty(chunks);
  }

  /**
   * The same when the whole response is one read: the final display is the
   * error message, while `fullResponse` still holds every chunk.
   */
  lemma ErrorResponseRoundTrip(chunks: seq<string>, message: string, decode: string -> Parsed)
    requires InvertsEncoder(decode)
    requires message != ""
    ensures var r := ProcessReads(Start, [Body(Generate(Completion(chunks, Some(message))))], decode);
      && r.display == message
      && r.acc == Concat(chunks)
      && r.updates == Prefixes("", NonEmpty(chunks)) + [message]
  {
    var body := Body(Generate(Completion(chunks, Some(message))));
    ProcessReadsSingle(Start, body, decode);
    ErrorBodyRead(Start, chunks, message, decode);
    assert "" + Concat(chunks) == Concat(chunks);
    assert [] + Prefixes("", NonEmpty(chunks)) == Prefixes("", NonEmpty(chunks));
  }

  /**
   * `fullResponse` is not reset by an error: after a read that ends in an
   * error frame, a content frame in a later read publishes the pre-error
   * text plus the new chunk, overwriting the error.
   */
  lemma NoResetAfterError(a: string, e: string, b: string, decode: string -> Parsed)
    requires InvertsEncoder(decode)
    requires a != "" && e != "" && b != ""
    ensures var first := Body(Generate(Completion([a], Some(e))));
      var second := Body(Generate(Completion([b], None)));
      && ProcessReads(Start, [first], decode).display == e
      && ProcessReads(Start, [first, second], decode) == State(a + b, a + b, [a, e, a + b])
  {
    var first := Body(Generate(Completion([a], Some(e))));
    var second := Body(Generate(Completion([b], None)));
    var mid := State(a, e, [a, e]);
    OneChunkThenError(a, e, decode);
    ProcessReadsSingle(Start, first, decode);
    OneChunkAfter(mid, b, decode);
    ProcessReadsSingle(mid, second, decode);
    ProcessReadsAppend(Start, [first], [second], decode);
    PairAppend(first, second);
    TripleAppend(a, e, a + b);
  }

  lemma OneChunkThenError(a: string, e: string, decode: string -> Parsed)
    requires InvertsEncoder(decode)
    requires a != "" && e != ""
    ensures ProcessRead(Start, Body(Generate(Completion([a], Some(e)))), decode) == State(a, e, [a, e])
  {
    ErrorBodyRead(Start, [a], e, decode);
    ConcatSingle(a);
    NonEmptySingle(a);
    PrefixesSingle("", a);
    assert "" + a == a;
    assert [] + [a] == [a];
    PairAppend(a, e);
  }

  lemma OneChunkAfter(st: State, b: string, decode: string -> Parsed)
    requires InvertsEncoder(decode)
    requires b != ""
    ensures ProcessRead(st, Body(Generate(Completion([b], None))), decode)
         == State(st.acc + b, st.acc + b, st.updates + [st.acc + b])
  {
    GenerateNoError([b]);
    ContentBodyRead(st, [b], decode);
    NonEmptySingle(b);
    ConcatSingle(b);
    PrefixesSingle(st.acc, b);
  }

  /** Bodies of several responses' worth of content frames, one per read. */
  function ContentBodies(parts: seq<seq<string>>): (r: seq<string>)
    ensures |r| == |parts|
  {
    if parts == [] then [] else [Body(ContentFrames(parts[0]))] + ContentBodies(parts[1..])
  }

  function Flatten(parts: seq<seq<string>>): seq<string> {
    if parts == [] then [] else parts[0] + Flatten(parts[1..])
  }

  /**
   * Reads that end on frame boundaries are invisible: the result is that of
   * one read of all the frames.
   */
  lemma {:induction false} FrameAlignedReads(st: State, parts: seq<seq<string>>, decode: string -> Parsed)
    requires InvertsEncoder(decode)
    ensures ProcessReads(st, ContentBodies(parts), decode) == Accumulate(st, NonEmpty(Flatten(parts)))
    decreases |parts|
  {
    if parts == [] {
      assert Prefixes(st.acc, []) == [];
    } else {
      var bodies := ContentBodies(parts);
      var next := Accumulate(st, NonEmpty(parts[0]));
      assert bodies[0] == Body(ContentFrames(parts[0]));
      assert bodies[1..] == ContentBodies(parts[1..]);
      calc {
        ProcessReads(st, bodies, decode);
        { ProcessReadsCons(st, bodies, decode); }
        ProcessReads(ProcessRead(st, bodies[0], decode), bodies[1..], decode);
        { ContentBodyRead(st, parts[0], decode); }
        ProcessReads(next, ContentBodies(parts[1..]), decode);
        { FrameAlignedReads(next, parts[1..], decode); }
        Accumulate(next, NonEmpty(Flatten(parts[1..])));
        { AccumulateAppend(st, NonEmpty(parts[0]), NonEmpty(Flatten(parts[1..]))); }
        Accumulate(st, NonEmpty(parts[0]) + NonEmpty(Flatten(parts[1..])));
        { NonEmptyAppend(parts[0], Flatten(parts[1..])); }
        Accumulate(st, NonEmpty(parts[0] + Flatten(parts[1..])));
      }
    }
  }

  lemma HiFrame()
    ensures ContentFrame("hi") == "data: {\"content\": \"hi\"}\n\n"
  {
    assert Escape("hi") == "hi" by {
      assert EscapeChar('h') == "h" && EscapeChar('i') == "i";
      assert Escape("hi") == EscapeChar('h') + Escape("i");
      assert Escape("i") == EscapeChar('i') + Escape("");
    }
    assert ContentJson("hi") == "{\"content\": \"hi\"}";
  }

  /** The body of a response that yields the single chunk "hi". */
  lemma HiBody()
    ensures Body(Generate(Completion(["hi"], None))) == "data: {\"content\": \"hi\"}\n\n"
  {
    var whole := "data: {\"content\": \"hi\"}\n\n";
    HiFrame();
    assert ContentFrames(["hi"]) == [whole];
    assert Generate(Completion(["hi"], None)) == [whole];
    ConcatSingle(whole);
  }

  /** The frame for the chunk "hi", read whole, shows "hi". */
  lemma WholeFrameShown()
    ensures ProcessReads(Start, ["data: {\"content\": \"hi\"}\n\n"], FrameDecode).display == "hi"
  {
    FrameDecodeInvertsEncoder();
    HiBody();
    WholeResponseRoundTrip(["hi"], FrameDecode);
    assert Concat(["hi"]) == "hi";
  }

  /** Lines that each change nothing leave the state as it was. */
  lemma {:induction false} InertLinesRead(st: State, lines: seq<string>, decode: string -> Parsed)
    requires forall i :: 0 <= i < |lines| ==> IsInert(lines[i], decode)
    ensures RunLines(st, lines, decode) == LineStep(st, false)
    decreases |lines|
  {
    if lines != [] {
      assert IsInert(lines[0], decode);
      assert forall i :: 0 <= i < |lines| - 1 ==> lines[1..][i] == lines[i + 1];
      InertLinesRead(st, lines[1..], decode);
    }
  }

  /** A `data: ` line whose JSON text is not closed changes nothing. */
  lemma UnclosedFrameInert(st: State, p: string)
    requires '\n' !in p && !EndsWith(p, ObjectClose)
    ensures ProcessRead(st, DataPrefix + p, FrameDecode) == st
  {
    var line := DataPrefix + p;
    StartsWithAppend(DataPrefix, p);
    UnclosedIsMalformed(p);
    assert IsInert(line, FrameDecode);
    assert '\n' !in line;
    SplitNoSep(line, '\n');
    InertLinesRead(st, [line], FrameDecode);
  }

  /** A read that is one line and not a `data: ` line changes nothing. */
  lemma PlainReadInert(st: State, read: string, decode: string -> Parsed)
    requires '\n' !in read && !StartsWith(read, DataPrefix)
    ensures ProcessRead(st, read, decode) == st
  {
    SplitNoSep(read, '\n');
    assert IsInert(read, decode);
    InertLinesRead(st, [read], decode);
  }

  /** The `data: ` line of a content frame, without its blank line. */
  function FrameLine(c: string): (line: string)
    ensures ContentFrame(c) == line + "\n\n"
    ensures '\n' !in line
  {
    FrameJsonHasNoNewline(c);
    NotInJoin3('\n', DataPrefix, ContentJson(c), "");
    DataPrefix + ContentJson(c)
  }

  /** The first part of a content frame cut inside its line: no break, and any payload is a prefix of the object. */
  lemma FrameHeadPiece(c: string, k: nat)
    requires 0 < k < |FrameLine(c)|
    ensures '\n' !in ContentFrame(c)[..k]
    ensures StartsWith(ContentFrame(c)[..k], DataPrefix) ==> Payload(ContentFrame(c)[..k]) == ContentJson(c)[..k - |DataPrefix|]
  {
    var line := FrameLine(c);
    TakeOfAppend(line, "\n\n", k);
    NotInTake('\n', line, k);
    if k >= |DataPrefix| {
      DropOfTakeAppend(DataPrefix, ContentJson(c), k);
    }
  }

  /**
   * The first part of a content frame cut before the end of its line
   * changes nothing: it is not a `data: ` line, or its JSON text is a
   * proper prefix of the frame object, which does not read.
   */
  lemma CutFrameHead(st: State, c: string, k: nat, decode: string -> Parsed)
    requires RejectsCutObjects(decode)
    requires 0 < k < |FrameLine(c)|
    ensures ProcessRead(st, ContentFrame(c)[..k], decode) == st
  {
    var h := ContentFrame(c)[..k];
    FrameHeadPiece(c, k);
    if StartsWith(h, DataPrefix) {
      assert decode(ContentJson(c)[..k - |DataPrefix|]) == Malformed;
      SplitNoSep(h, '\n');
      assert IsInert(h, decode);
      InertLinesRead(st, [h], decode);
    } else {
      PlainReadInert(st, h, decode);
    }
  }

  /** The rest of a content frame cut inside its line: a line with no break, then the blank line. */
  lemma FrameTailPiece(c: string, k: nat)
    requires 0 < k < |FrameLine(c)|
    ensures Split(ContentFrame(c)[k..], '\n') == [FrameLine(c)[k..], "", ""]
    ensures StartsWith(FrameLine(c)[k..], DataPrefix) ==> Payload(FrameLine(c)[k..]) == ContentJson(c)[k..]
  {
    var line := FrameLine(c);
    var x := line[k..];
    assert ContentFrame(c)[k..] == x + "\n\n" + "";
    assert '\n' !in x by {
      assert forall i :: 0 <= i < |x| ==> x[i] == line[k + i];
    }
    SplitFrameThen(x, "");
    assert Split("", '\n') == [""];
    TripleAppend(x, "", "");
  }

  /**
   * The rest of a content frame cut before the end of its line changes
   * nothing: what precedes its blank line is no `data: ` line, or one whose
   * JSON text is a proper suffix of the frame object, which does not read.
   */
  lemma CutFrameTail(st: State, c: string, k: nat, decode: string -> Parsed)
    requires RejectsCutObjects(decode)
    requires 0 < k < |FrameLine(c)|
    ensures ProcessRead(st, ContentFrame(c)[k..], decode) == st
  {
    var x := FrameLine(c)[k..];
    FrameTailPiece(c, k);
    if StartsWith(x, DataPrefix) {
      assert decode(ContentJson(c)[k..]) == Malformed;
    }
    assert !StartsWith("", DataPrefix);
    InertLinesRead(st, [x, "", ""], decode);
  }

  /**
   * There is no buffer between reads: a content frame whose two parts
   * arrive in different reads, cut anywhere before the end of its `data: `
   * line, contributes nothing.  (A cut inside the blank line after it
   * leaves the whole line in the first read, which shows it.)
   */
  lemma SplitFrameIsLost(st: State, c: string, k: nat, decode: string -> Parsed)
    requires RejectsCutObjects(decode)
    requires 0 < k < |FrameLine(c)|
    ensures ProcessReads(st, [ContentFrame(c)[..k], ContentFrame(c)[k..]], decode) == st
  {
    var r1, r2 := ContentFrame(c)[..k], ContentFrame(c)[k..];
    CutFrameHead(st, c, k, decode);
    CutFrameTail(st, c, k, decode);
    ProcessReadsCons(st, [r1, r2], decode);
    assert [r1, r2][1..] == [r2];
    ProcessReadsSingle(st, r2, decode);
  }

  /**
   * For contrast, the frame for "hi" read whole shows "hi", and cut after
   * its `h` it shows nothing.
   */
  lemma HiCutIsLost()
    ensures ProcessReads(Start, [ContentFrame("hi")], FrameDecode).display == "hi"
    ensures ProcessReads(Start, [ContentFrame("hi")[..20], ContentFrame("hi")[20..]], FrameDecode) == Start
  {
    HiFrame();
    WholeFrameShown();
    FrameDecodeRejectsCutObjects();
    SplitFrameIsLost(Start, "hi", 20, FrameDecode);
  }
}
