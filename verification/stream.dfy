/**
 * The streamed-frame accumulator every analysis panel runs on the body of a
 * streaming response.
 *
 * Each read is split on `'\n'`; every line starting with `data: ` has its
 * remainder decoded; a truthy `content` is appended to the running
 * `fullResponse` and published, a truthy `error` is published in its place
 * and ends the current read (the `break` leaves only the line loop);
 * undecodable lines are skipped.  There is no buffer carried from one read to
 * the next, and `fullResponse` is never reset.
 *
 * The JSON reader is the parameter `decode`; `Parsed` is what it returns.
 */
module Stream {
  import opened Wrappers
  import opened Strings
  import opened Json

  const DataPrefix: string := "data: "

  /**
   * What the loop keeps: `acc` is `fullResponse`, `display` the value last
   * passed to `setResponse`, `updates` every value passed to it, in order.
   */
  datatype State = State(acc: string, display: string, updates: seq<string>)

  /** The state right after the panel's `setResponse('')`. */
  const Start: State := State("", "", [])

  /** The state after one line, and whether the line loop was left. */
  datatype LineStep = LineStep(state: State, stop: bool)

  /** The remainder of a `data: ` line, handed to the JSON reader. */
  function Payload(line: string): string
    requires StartsWith(line, DataPrefix)
  {
    line[|DataPrefix|..]
  }

  /** The truthy `content` a line contributes, if any. */
  function LineContent(line: string, decode: string -> Parsed): seq<string> {
    if !StartsWith(line, DataPrefix) then []
    else match decode(Payload(line))
      case Obj(content, _) => if Truthy(content) then [content.value] else []
      case Malformed => []
  }

  /** The line carries a truthy `error`, so it ends the read. */
  predicate IsErrorLine(line: string, decode: string -> Parsed) {
    && StartsWith(line, DataPrefix)
    && decode(Payload(line)).Obj?
    && Truthy(decode(Payload(line)).error)
  }

  /** The line changes nothing: not a `data: ` line, undecodable, or with no truthy field. */
  predicate IsInert(line: string, decode: string -> Parsed) {
    LineContent(line, decode) == [] && !IsErrorLine(line, decode)
  }

  /** One pass of the inner `for (const line of lines)` body. */
  function StepLine(st: State, line: string, decode: string -> Parsed): (r: LineStep)
    ensures r.stop <==> IsErrorLine(line, decode)
    ensures r.stop ==> r.state.display == decode(Payload(line)).error.value
    ensures IsInert(line, decode) ==> r == LineStep(st, false)
    ensures r.state.acc == st.acc + Concat(LineContent(line, decode))
    ensures !r.stop && LineContent(line, decode) != [] ==>
              r.state.display == r.state.acc && r.state.updates == st.updates + [r.state.acc]
  {
    if !StartsWith(line, DataPrefix) then LineStep(st, false)
    else match decode(Payload(line))
      case Malformed => LineStep(st, false)
      case Obj(content, error) =>
        var st1 :=
          if Truthy(content) then
            var full := st.acc + content.value;
            State(full, full, st.updates + [full])
          else st;
        if Truthy(error) then LineStep(State(st1.acc, error.value, st1.updates + [error.value]), true)
        else LineStep(st1, false)
  }

  /**
   * The publishing discipline every step keeps: `acc` only grows, earlier
   * publications are kept, the display is the last publication, and a step
   * that publishes nothing changes nothing.
   */
  predicate Extends(st: State, r: State) {
    && StartsWith(r.acc, st.acc)
    && |st.updates| <= |r.updates|
    && r.updates[..|st.updates|] == st.updates
    && (|r.updates| == |st.updates| ==> r == st)
    && (|r.updates| > |st.updates| ==> r.display == r.updates[|r.updates| - 1])
  }

  lemma StepLineExtends(st: State, line: string, decode: string -> Parsed)
    ensures Extends(st, StepLine(st, line, decode).state)
  {
    var r := StepLine(st, line, decode).state;
    StartsWithAppend(st.acc, Concat(LineContent(line, decode)));
    assert r.updates[..|st.updates|] == st.updates;
  }

  lemma ExtendsTransitive(a: State, b: State, c: State)
    requires Extends(a, b) && Extends(b, c)
    ensures Extends(a, c)
  {
    assert c.acc[..|a.acc|] == c.acc[..|b.acc|][..|a.acc|];
    assert c.updates[..|a.updates|] == c.updates[..|b.updates|][..|a.updates|];
  }

  /** The inner line loop over one read's lines, with its `break`. */
  function RunLines(st: State, lines: seq<string>, decode: string -> Parsed): (r: LineStep)
    ensures Extends(st, r.state)
    decreases |lines|
  {
    if lines == [] then LineStep(st, false)
    else
      var step := StepLine(st, lines[0], decode);
      StepLineExtends(st, lines[0], decode);
      if step.stop then step
      else
        var rest := RunLines(step.state, lines[1..], decode);
        ExtendsTransitive(st, step.state, rest.state);
        rest
  }

  /** One read: split on `'\n'` and run the line loop. */
  function ProcessRead(st: State, read: string, decode: string -> Parsed): State {
    RunLines(st, Split(read, '\n'), decode).state
  }

  /** The outer `while (true)` loop over every read of the body. */
  function ProcessReads(st: State, blocks: seq<string>, decode: string -> Parsed): (r: State)
    ensures Extends(st, r)
    decreases |blocks|
  {
    if blocks == [] then st
    else
      var next := ProcessRead(st, blocks[0], decode);
      var r := ProcessReads(next, blocks[1..], decode);
      ExtendsTransitive(st, next, r);
      r
  }

  // ---------------------------------------------------------------------
  // Reference semantics
  // ---------------------------------------------------------------------

  /** The truthy `content` values of a run of lines, in order. */
  function LineContents(lines: seq<string>, decode: string -> Parsed): seq<string> {
    if lines == [] then [] else LineContent(lines[0], decode) + LineContents(lines[1..], decode)
  }

  predicate NoErrorLines(lines: seq<string>, decode: string -> Parsed) {
    forall i :: 0 <= i < |lines| ==> !IsErrorLine(lines[i], decode)
  }

  /** Every line of every read, in order. */
  function AllLines(blocks: seq<string>): seq<string> {
    if blocks == [] then [] else Split(blocks[0], '\n') + AllLines(blocks[1..])
  }

  /** The running prefixes: the k-th is `base` plus the first k + 1 chunks. */
  function Prefixes(base: string, cs: seq<string>): (r: seq<string>) {
    seq(|cs|, k requires 0 <= k < |cs| => base + Concat(cs[..k + 1]))
  }

  lemma PrefixesSingle(base: string, c: string)
    ensures Prefixes(base, [c]) == [base + c]
  {
    assert [c][..1] == [c];
    ConcatSingle(c);
  }

  /**
   * Reference result of appending the chunks `cs` one after another and
   * publishing after each: written without lines, frames or reads.
   */
  function Accumulate(st: State, cs: seq<string>): State {
    State(st.acc + Concat(cs),
          if cs == [] then st.display else st.acc + Concat(cs),
          st.updates + Prefixes(st.acc, cs))
  }

  lemma NoErrorLinesAppend(a: seq<string>, b: seq<string>, decode: string -> Parsed)
    requires NoErrorLines(a, decode) && NoErrorLines(b, decode)
    ensures NoErrorLines(a + b, decode)
  {
    forall i | 0 <= i < |a + b|
      ensures !IsErrorLine((a + b)[i], decode)
    {
      if i < |a| {
        assert (a + b)[i] == a[i];
      } else {
        assert (a + b)[i] == b[i - |a|];
      }
    }
  }

  lemma {:induction false} LineContentsAppend(a: seq<string>, b: seq<string>, decode: string -> Parsed)
    ensures LineContents(a + b, decode) == LineContents(a, decode) + LineContents(b, decode)
    decreases |a|
  {
    if a == [] {
      assert a + b == b;
    } else {
      assert (a + b)[1..] == a[1..] + b;
      LineContentsAppend(a[1..], b, decode);
    }
  }

  lemma PrefixesAppend(base: string, c1: seq<string>, c2: seq<string>)
    ensures Prefixes(base, c1 + c2) == Prefixes(base, c1) + Prefixes(base + Concat(c1), c2)
  {
    var l := Prefixes(base, c1 + c2);
    var r := Prefixes(base, c1) + Prefixes(base + Concat(c1), c2);
    forall k | 0 <= k < |l|
      ensures l[k] == r[k]
    {
      if k < |c1| {
        assert (c1 + c2)[..k + 1] == c1[..k + 1];
      } else {
        var j := k - |c1|;
        assert (c1 + c2)[..k + 1] == c1 + c2[..j + 1];
        ConcatAppend(c1, c2[..j + 1]);
      }
    }
  }

  /** Accumulating two batches of chunks is accumulating their concatenation. */
  lemma AccumulateAppend(st: State, c1: seq<string>, c2: seq<string>)
    ensures Accumulate(Accumulate(st, c1), c2) == Accumulate(st, c1 + c2)
  {
    var a := Accumulate(st, c1);
    var l := Accumulate(a, c2);
    var r := Accumulate(st, c1 + c2);
    ConcatAppend(c1, c2);
    PrefixesAppend(st.acc, c1, c2);
    assert l.acc == r.acc;
    assert l.updates == r.updates;
    if c2 == [] {
      assert c1 + c2 == c1;
    } else {
      assert c1 + c2 != [];
    }
    assert l.display == r.display;
  }

  lemma StepLineNoError(st: State, line: string, decode: string -> Parsed)
    requires !IsErrorLine(line, decode)
    ensures StepLine(st, line, decode) == LineStep(Accumulate(st, LineContent(line, decode)), false)
  {
    var cs := LineContent(line, decode);
    if cs != [] {
      assert Concat(cs[..1]) == cs[0];
    }
  }

  /** Without error lines, the line loop is the reference accumulation. */
  lemma {:induction false} RunLinesNoError(st: State, lines: seq<string>, decode: string -> Parsed)
    requires NoErrorLines(lines, decode)
    ensures RunLines(st, lines, decode) == LineStep(Accumulate(st, LineContents(lines, decode)), false)
    decreases |lines|
  {
    if lines == [] {
      assert Prefixes(st.acc, []) == [];
    } else {
      var c1 := LineContent(lines[0], decode);
      StepLineNoError(st, lines[0], decode);
      RunLinesNoError(Accumulate(st, c1), lines[1..], decode);
      AccumulateAppend(st, c1, LineContents(lines[1..], decode));
    }
  }

  /** Without error lines in any read, the whole stream is the reference accumulation. */
  lemma {:induction false} ProcessReadsNoError(st: State, blocks: seq<string>, decode: string -> Parsed)
    requires NoErrorLines(AllLines(blocks), decode)
    ensures ProcessReads(st, blocks, decode) == Accumulate(st, LineContents(AllLines(blocks), decode))
    decreases |blocks|
  {
    if blocks == [] {
      assert Prefixes(st.acc, []) == [];
    } else {
      var first := Split(blocks[0], '\n');
      var rest := AllLines(blocks[1..]);
      assert AllLines(blocks) == first + rest;
      assert NoErrorLines(first, decode) by {
        forall i | 0 <= i < |first| ensures !IsErrorLine(first[i], decode) {
          assert first[i] == (first + rest)[i];
        }
      }
      assert NoErrorLines(rest, decode) by {
        forall i | 0 <= i < |rest| ensures !IsErrorLine(rest[i], decode) {
          assert rest[i] == (first + rest)[|first| + i];
        }
      }
      RunLinesNoError(st, first, decode);
      var next := Accumulate(st, LineContents(first, decode));
      ProcessReadsNoError(next, blocks[1..], decode);
      AccumulateAppend(st, LineContents(first, decode), LineContents(rest, decode));
      LineContentsAppend(first, rest, decode);
    }
  }

  /**
   * With no error frame anywhere, the final `fullResponse` and display are
   * the in-order concatenation of the truthy `content` values, and the k-th
   * update publishes the first k + 1 of them.
   */
  lemma NoErrorStreamShowsConcatenation(blocks: seq<string>, decode: string -> Parsed)
    requires NoErrorLines(AllLines(blocks), decode)
    ensures var cs := LineContents(AllLines(blocks), decode);
      var r := ProcessReads(Start, blocks, decode);
      && r.acc == Concat(cs)
      && r.display == Concat(cs)
      && |r.updates| == |cs|
      && forall k :: 0 <= k < |cs| ==> r.updates[k] == Concat(cs[..k + 1])
  {
    ProcessReadsNoError(Start, blocks, decode);
    AccumulateFromStart(LineContents(AllLines(blocks), decode));
  }

  lemma AccumulateFromStart(cs: seq<string>)
    ensures var r := Accumulate(Start, cs);
      && r.acc == Concat(cs)
      && r.display == Concat(cs)
      && |r.updates| == |cs|
      && forall k :: 0 <= k < |cs| ==> r.updates[k] == Concat(cs[..k + 1])
  {
    var r := Accumulate(Start, cs);
    var p := Prefixes("", cs);
    assert r.acc == "" + Concat(cs);
    assert r.updates == [] + p;
    assert [] + p == p;
    forall k | 0 <= k < |cs|
      ensures r.updates[k] == Concat(cs[..k + 1])
    {
      assert p[k] == "" + Concat(cs[..k + 1]);
      assert "" + Concat(cs[..k + 1]) == Concat(cs[..k + 1]);
    }
  }

  // ---------------------------------------------------------------------
  // Lines that change nothing, and error lines
  // ---------------------------------------------------------------------

  /** Inserting an inert line anywhere in a read changes nothing. */
  lemma {:induction false} InertLineInvisible(st: State, lines: seq<string>, k: nat, line: string, decode: string -> Parsed)
    requires k <= |lines|
    requires IsInert(line, decode)
    ensures RunLines(st, lines[..k] + [line] + lines[k..], decode) == RunLines(st, lines, decode)
    decreases k
  {
    var with := lines[..k] + [line] + lines[k..];
    if k == 0 {
      assert with == [line] + lines;
      assert with[1..] == lines;
    } else {
      assert with[0] == lines[0];
      assert with[1..] == lines[1..][..k - 1] + [line] + lines[1..][k - 1..];
      var step := StepLine(st, lines[0], decode);
      if !step.stop {
        InertLineInvisible(step.state, lines[1..], k - 1, line, decode);
      }
    }
  }

  /** Once a line of a read carries an error, the rest of that read is ignored. */
  lemma {:induction false} ErrorLineEndsRead(st: State, pre: seq<string>, line: string, post: seq<string>, decode: string -> Parsed)
    requires IsErrorLine(line, decode)
    ensures RunLines(st, pre + [line] + post, decode) == RunLines(st, pre + [line], decode)
    ensures RunLines(st, pre + [line], decode).stop
    decreases |pre|
  {
    if pre == [] {
      assert ([line] + post)[0] == line;
      assert [line][0] == line;
    } else {
      var all := pre + [line] + post;
      assert all[0] == pre[0] && (pre + [line])[0] == pre[0];
      assert all[1..] == pre[1..] + [line] + post;
      assert (pre + [line])[1..] == pre[1..] + [line];
      var step := StepLine(st, pre[0], decode);
      if !step.stop {
        ErrorLineEndsRead(step.state, pre[1..], line, post, decode);
      }
    }
  }

  /**
   * An error line reached without an earlier error line replaces the
   * display with exactly its error string; contents before it, including a
   * `content` carried by the same frame, are still appended to `acc`.
   */
  lemma ErrorLineReplacesDisplay(st: State, pre: seq<string>, line: string, decode: string -> Parsed)
    requires IsErrorLine(line, decode)
    requires NoErrorLines(pre, decode)
    ensures var r := RunLines(st, pre + [line], decode).state;
      && r.display == decode(Payload(line)).error.value
      && r.acc == st.acc + Concat(LineContents(pre + [line], decode))
  {
    RunLinesErrorAfter(st, pre, line, decode);
    ErrorRunAcc(st, pre, line, decode);
  }

  lemma {:induction false} RunLinesErrorAfter(st: State, pre: seq<string>, line: string, decode: string -> Parsed)
    requires IsErrorLine(line, decode)
    requires NoErrorLines(pre, decode)
    ensures RunLines(st, pre + [line], decode) == StepLine(Accumulate(st, LineContents(pre, decode)), line, decode)
    decreases |pre|
  {
    if pre == [] {
      assert pre + [line] == [line];
      assert Prefixes(st.acc, []) == [];
      assert Accumulate(st, []) == st;
    } else {
      var rest := pre[1..];
      assert (pre + [line])[0] == pre[0];
      assert (pre + [line])[1..] == rest + [line];
      StepLineNoError(st, pre[0], decode);
      var c1 := LineContent(pre[0], decode);
      assert NoErrorLines(rest, decode) by {
        assert forall i :: 0 <= i < |rest| ==> rest[i] == pre[i + 1];
      }
      RunLinesErrorAfter(Accumulate(st, c1), rest, line, decode);
      AccumulateAppend(st, c1, LineContents(rest, decode));
    }
  }

  /** What the line loop appends up to and including the error line. */
  lemma ErrorRunAcc(st: State, pre: seq<string>, line: string, decode: string -> Parsed)
    requires IsErrorLine(line, decode)
    requires NoErrorLines(pre, decode)
    ensures RunLines(st, pre + [line], decode).state.acc == st.acc + Concat(LineContents(pre + [line], decode))
  {
    var a, b := LineContents(pre, decode), LineContent(line, decode);
    var mid := Accumulate(st, a);
    RunLinesErrorAfter(st, pre, line, decode);
    assert RunLines(st, pre + [line], decode).state.acc == mid.acc + Concat(b);
    ContentsSnoc(pre, line, decode);
    AppendAssoc(st.acc, Concat(a), Concat(b));
  }

  lemma ContentsSnoc(pre: seq<string>, line: string, decode: string -> Parsed)
    ensures Concat(LineContents(pre + [line], decode))
         == Concat(LineContents(pre, decode)) + Concat(LineContent(line, decode))
  {
    LineContentsAppend(pre, [line], decode);
    assert LineContents([line], decode) == LineContent(line, decode) by {
      assert [line][1..] == [];
    }
    ConcatAppend(LineContents(pre, decode), LineContent(line, decode));
  }

  /** A frame with both fields publishes the appended content, then the error. */
  lemma ContentThenError(st: State, line: string, decode: string -> Parsed)
    requires StartsWith(line, DataPrefix)
    requires decode(Payload(line)).Obj?
    requires Truthy(decode(Payload(line)).content) && Truthy(decode(Payload(line)).error)
    ensures var c := decode(Payload(line)).content.value;
      var e := decode(Payload(line)).error.value;
      StepLine(st, line, decode) == LineStep(State(st.acc + c, e, st.updates + [st.acc + c, e]), true)
  {
  }

  // ---------------------------------------------------------------------
  // Composition over blocks
  // ---------------------------------------------------------------------

  /** Reads are processed one after another from the state the previous one left. */
  lemma {:induction false} ProcessReadsAppend(st: State, a: seq<string>, b: seq<string>, decode: string -> Parsed)
    ensures ProcessReads(st, a + b, decode) == ProcessReads(ProcessReads(st, a, decode), b, decode)
    decreases |a|
  {
    if a == [] {
      assert a + b == b;
    } else {
      assert (a + b)[0] == a[0];
      assert (a + b)[1..] == a[1..] + b;
      ProcessReadsAppend(ProcessRead(st, a[0], decode), a[1..], b, decode);
    }
  }

  lemma ProcessReadsCons(st: State, blocks: seq<string>, decode: string -> Parsed)
    requires blocks != []
    ensures ProcessReads(st, blocks, decode) == ProcessReads(ProcessRead(st, blocks[0], decode), blocks[1..], decode)
  {
  }

  lemma ProcessReadsSingle(st: State, read: string, decode: string -> Parsed)
    ensures ProcessReads(st, [read], decode) == ProcessRead(st, read, decode)
  {
    assert [read][1..] == [];
  }

  /** One more read extends the fold over a prefix of the reads by one step. */
  lemma ProcessReadsPrefixStep(blocks: seq<string>, i: nat, st: State, decode: string -> Parsed)
    requires i < |blocks|
    requires st == ProcessReads(Start, blocks[..i], decode)
    ensures ProcessReads(Start, blocks[..i + 1], decode) == ProcessRead(st, blocks[i], decode)
  {
    var pre, read := blocks[..i], blocks[i];
    TakeSnoc(blocks, i);
    ProcessReadsAppend(Start, pre, [read], decode);
    ProcessReadsSingle(st, read, decode);
  }

  lemma {:induction false} RunLinesSnoc(st: State, lines: seq<string>, line: string, decode: string -> Parsed)
    ensures var r := RunLines(st, lines, decode);
      RunLines(st, lines + [line], decode) == if r.stop then r else StepLine(r.state, line, decode)
    decreases |lines|
  {
    if lines == [] {
      assert [] + [line] == [line];
    } else {
      assert (lines + [line])[0] == lines[0];
      assert (lines + [line])[1..] == lines[1..] + [line];
      var step := StepLine(st, lines[0], decode);
      if !step.stop {
        RunLinesSnoc(step.state, lines[1..], line, decode);
      }
    }
  }

  lemma {:induction false} RunLinesStopped(st: State, a: seq<string>, b: seq<string>, decode: string -> Parsed)
    requires RunLines(st, a, decode).stop
    ensures RunLines(st, a + b, decode) == RunLines(st, a, decode)
    decreases |a|
  {
    assert a != [];
    assert (a + b)[0] == a[0];
    assert (a + b)[1..] == a[1..] + b;
    var step := StepLine(st, a[0], decode);
    if !step.stop {
      RunLinesStopped(step.state, a[1..], b, decode);
    }
  }

  /** The inner `for (const line of lines)` loop over one read, with its `break`. */
  /** One more line extends the line loop over a prefix of the lines by one step. */
  lemma RunLinesPrefixStep(st: State, lines: seq<string>, j: nat, cur: State, decode: string -> Parsed)
    requires j < |lines|
    requires RunLines(st, lines[..j], decode) == LineStep(cur, false)
    ensures RunLines(st, lines[..j + 1], decode) == StepLine(cur, lines[j], decode)
  {
    var pre, line := lines[..j], lines[j];
    TakeSnoc(lines, j);
    RunLinesSnoc(st, pre, line, decode);
  }

  /** A line loop that stops within a prefix of the lines stops there on all of them. */
  lemma RunLinesStopAt(st: State, lines: seq<string>, j: nat, decode: string -> Parsed)
    requires j <= |lines|
    requires RunLines(st, lines[..j], decode).stop
    ensures RunLines(st, lines, decode) == RunLines(st, lines[..j], decode)
  {
    var pre, post := lines[..j], lines[j..];
    TakeDrop(lines, j);
    RunLinesStopped(st, pre, post, decode);
  }

  method ConsumeRead(st: State, read: string, decode: string -> Parsed) returns (next: State)
    ensures next == ProcessRead(st, read, decode)
  {
    var lines := Split(read, '\n');
    next := st;
    var j := 0;
    while j < |lines|
      invariant 0 <= j <= |lines|
      invariant RunLines(st, lines[..j], decode) == LineStep(next, false)
    {
      var step := StepLine(next, lines[j], decode);
      RunLinesPrefixStep(st, lines, j, next, decode);
      next := step.state;
      if step.stop {
        RunLinesStopAt(st, lines, j + 1, decode);
        return;
      }
      j := j + 1;
    }
    assert lines[..j] == lines;
  }

  /**
   * The panel's read loop as written: an outer loop over reads, each split
   * into lines and consumed by `ConsumeRead`.  It computes exactly the fold
   * `ProcessReads`.
   */
  method ConsumeStream(blocks: seq<string>, decode: string -> Parsed)
    returns (fullResponse: string, shown: string, published: seq<string>)
    ensures State(fullResponse, shown, published) == ProcessReads(Start, blocks, decode)
  {
    var st := Start;
    var i := 0;
    while i < |blocks|
      invariant 0 <= i <= |blocks|
      invariant st == ProcessReads(Start, blocks[..i], decode)
    {
      var next := ConsumeRead(st, blocks[i], decode);
      ProcessReadsPrefixStep(blocks, i, st, decode);
      st := next;
      i := i + 1;
    }
    assert blocks[..i] == blocks;
    fullResponse := st.acc;
    shown := st.display;
    published := st.updates;
  }
}
