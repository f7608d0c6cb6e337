/**
  Routing of the input text to the engine (bin/utils.js `processText`,
  `processFile`, `processStdin`). The engine's `execute` is a parameter, the
  lint checker is an opaque effect, and file-system facts are inputs.
 */
module InputRouter {
  import opened Wrappers
  import opened JsValues
  import opened Preferences

  /** Observable effects of routing, in the order they happen. */
  datatype Event =
    | LintRun(text: string, prefs: Prefs)           // `lint.process(text, prefs)`
    | Write(text: string)                           // `process.stdout.write(text)`
    | Callback(error: bool, message: Option<string>) // `callback(error, data)`
    | Done                                          // `callback()` with no arguments

  /** One hand-off of text to the engine: linting or transforming. */
  predicate IsDispatch(e: Event) {
    e.LintRun? || e.Write?
  }

  /** The dispatcher: lint mode runs the lint checker, otherwise the engine's output is written verbatim. */
  function ProcessText(text: string, prefs: Prefs, execute: (string, Prefs) -> string): (r: seq<Event>)
    ensures |r| == 1 && IsDispatch(r[0])
    ensures r[0].LintRun? <==> IsSet(prefs.lint)
    ensures r[0].LintRun? ==> r[0].text == text && r[0].prefs == prefs
    ensures r[0].Write? ==> r[0].text == execute(text, prefs)
  {
    if IsSet(prefs.lint) then [LintRun(text, prefs)] else [Write(execute(text, prefs))]
  }

  /**
    File mode. `isRegularFile` stands for `existsSync && isFile`, `decoded` is
    the file's text when its bytes are well-formed UTF-8 and `None` otherwise.
   */
  function ProcessFile(prefs: Prefs, isRegularFile: bool, decoded: Option<string>,
                       execute: (string, Prefs) -> string): (r: seq<Event>)
    ensures |r| == 2
    // the success callback always comes last, even after an error callback
    ensures r[1] == Callback(false, None)
    // the engine sees the text exactly when the file exists, is regular and is UTF-8
    ensures IsDispatch(r[0]) <==> isRegularFile && decoded.Some?
    ensures isRegularFile && decoded.Some? ==> r[..1] == ProcessText(decoded.value, prefs, execute)
    // otherwise a single error callback names the file
    ensures !isRegularFile ==> r[0] == Callback(true, Some(ShowString(prefs.filename) + ": no such file."))
    ensures isRegularFile && decoded.None? ==> r[0] == Callback(true, Some(ShowString(prefs.filename) + ": is not UTF-8."))
  {
    var file := ShowString(prefs.filename);
    var first :=
      if isRegularFile then
        match decoded
        case Some(text) => ProcessText(text, prefs, execute)
        case None => [Callback(true, Some(file + ": is not UTF-8."))]
      else [Callback(true, Some(file + ": no such file."))];
    first + [Callback(false, None)]
  }

  /** The text a read contributes to the accumulator: a `null` read contributes nothing. */
  function ChunkText(chunk: Option<string>): string {
    if chunk.Some? then chunk.value else ""
  }

  /** The in-order concatenation of all non-null chunks. */
  function Concat(chunks: seq<Option<string>>): string {
    if |chunks| == 0 then "" else ChunkText(chunks[0]) + Concat(chunks[1..])
  }

  /**
    The stream handlers: each `readable` event appends its chunk to the text
    read so far and produces no effect; `end` dispatches the whole text once
    and then calls back.
   */
  function StdinFrom(text: string, chunks: seq<Option<string>>, prefs: Prefs,
                     execute: (string, Prefs) -> string): (r: seq<Event>)
    ensures r == ProcessText(text + Concat(chunks), prefs, execute) + [Done]
    decreases |chunks|
  {
    if |chunks| == 0 then
      assert text + Concat(chunks) == text;
      ProcessText(text, prefs, execute) + [Done]
    else
      assert text + Concat(chunks) == (text + ChunkText(chunks[0])) + Concat(chunks[1..]);
      StdinFrom(text + ChunkText(chunks[0]), chunks[1..], prefs, execute)
  }

  /** Standard-input mode: the engine sees the concatenation of the chunks, once, after the last one. */
  function ProcessStdin(prefs: Prefs, chunks: seq<Option<string>>, execute: (string, Prefs) -> string): (r: seq<Event>)
    ensures |r| == 2 && r[1] == Done && IsDispatch(r[0])
    ensures r == ProcessText(Concat(chunks), prefs, execute) + [Done]
  {
    assert "" + Concat(chunks) == Concat(chunks);
    StdinFrom("", chunks, prefs, execute)
  }

  /** Concatenation distributes over appending chunk sequences. */
  lemma {:induction false} ConcatAppend(a: seq<Option<string>>, b: seq<Option<string>>)
    ensures Concat(a + b) == Concat(a) + Concat(b)
    decreases |a|
  {
    if |a| == 0 {
      assert a + b == b;
    } else {
      assert (a + b)[1..] == a[1..] + b;
      ConcatAppend(a[1..], b);
    }
  }

  lemma ConcatCons(c: Option<string>, rest: seq<Option<string>>)
    ensures Concat([c] + rest) == ChunkText(c) + Concat(rest)
  {
  }

  /** Cutting one chunk into two at any point does not change the accumulated text. */
  lemma ConcatRechunk(chunks: seq<Option<string>>, i: nat, x: string, y: string)
    requires i < |chunks| && chunks[i] == Some(x + y)
    ensures Concat(chunks[..i] + [Some(x), Some(y)] + chunks[i + 1..]) == Concat(chunks)
  {
    var before, after := chunks[..i], chunks[i + 1..];
    var split := [Some(x)] + ([Some(y)] + after);
    var rechunked := chunks[..i] + [Some(x), Some(y)] + chunks[i + 1..];
    assert rechunked == before + split;
    assert chunks == before + ([Some(x + y)] + after);
    calc {
      Concat(rechunked);
      Concat(before + split);
      { ConcatAppend(before, split); }
      Concat(before) + Concat(split);
      { ConcatCons(Some(x), [Some(y)] + after); ConcatCons(Some(y), after); }
      Concat(before) + (x + (y + Concat(after)));
      { assert x + (y + Concat(after)) == (x + y) + Concat(after); }
      Concat(before) + ((x + y) + Concat(after));
      { ConcatCons(Some(x + y), after); }
      Concat(before) + Concat([Some(x + y)] + after);
      { ConcatAppend(before, [Some(x + y)] + after); }
      Concat(chunks);
    }
  }

  /** Cutting one chunk into two at any point does not change what the engine sees. */
  lemma Rechunk(chunks: seq<Option<string>>, i: nat, x: string, y: string,
                prefs: Prefs, execute: (string, Prefs) -> string)
    requires i < |chunks| && chunks[i] == Some(x + y)
    ensures ProcessStdin(prefs, chunks[..i] + [Some(x), Some(y)] + chunks[i + 1..], execute)
         == ProcessStdin(prefs, chunks, execute)
  {
    ConcatRechunk(chunks, i, x, y);
  }

  /** A `null` read anywhere in the stream adds nothing to the accumulated text. */
  lemma ConcatNullChunk(chunks: seq<Option<string>>, i: nat)
    requires i <= |chunks|
    ensures Concat(chunks[..i] + [None] + chunks[i..]) == Concat(chunks)
  {
    var before, after := chunks[..i], chunks[i..];
    var padded := chunks[..i] + [None] + chunks[i..];
    assert padded == before + ([None] + after);
    assert chunks == before + after;
    calc {
      Concat(padded);
      Concat(before + ([None] + after));
      { ConcatAppend(before, [None] + after); }
      Concat(before) + Concat([None] + after);
      { ConcatCons(None, after); assert ChunkText(None) + Concat(after) == Concat(after); }
      Concat(before) + Concat(after);
      { ConcatAppend(before, after); }
      Concat(chunks);
    }
  }

  /** A `null` read anywhere in the stream has no effect. */
  lemma NullChunkIgnored(chunks: seq<Option<string>>, i: nat,
                         prefs: Prefs, execute: (string, Prefs) -> string)
    requires i <= |chunks|
    ensures ProcessStdin(prefs, chunks[..i] + [None] + chunks[i..], execute)
         == ProcessStdin(prefs, chunks, execute)
  {
    ConcatNullChunk(chunks, i);
  }

  /** Two streams carrying the same text produce the same effects, however they are chunked. */
  lemma ChunkingIndependent(c1: seq<Option<string>>, c2: seq<Option<string>>,
                            prefs: Prefs, execute: (string, Prefs) -> string)
    requires Concat(c1) == Concat(c2)
    ensures ProcessStdin(prefs, c1, execute) == ProcessStdin(prefs, c2, execute)
  {
  }
}
