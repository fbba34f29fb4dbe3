/**
 * The stylesheet transform (src/transform/styles.ts): SASS compilation,
 * optional PostCSS post-processing, optional `<style>` snippet wrapping, and
 * the write-then-enqueue step that hands the result to the request queue.
 *
 * The SASS compiler (`renderSync`), the PostCSS processor and the loader of
 * the PostCSS configuration are foreign code: they appear as function values
 * passed in. The file system, the request queue and the logger are one
 * `Host` object that records, in order, every effect they observe.
 */
module Styles {
  import opened Wrappers
  import opened Bytes
  import Base64
  import Utf8

  /** The type tag the file classifier gives a file; only SASS and CSS are told apart here. */
  datatype FileType = Sass | Css | OtherType

  /** One stylesheet entry of the configuration (IStyle); its watch tester is not used here. */
  datatype StyleConfig = StyleConfig(
    input: string,
    output: string,
    snippet: bool,
    nodeModules: string,
    includes: seq<string>)

  /** The descriptor of a stylesheet (IFile<IStyle>): its tag, remote key, output path and entry. */
  datatype StyleFile = StyleFile(fileType: FileType, key: string, output: string, config: StyleConfig)

  /** An exception thrown by a foreign callee. */
  datatype Error = Error(message: string)

  /** A warning reported by PostCSS. */
  datatype Warning = Warning(text: string)

  // ---------------------------------------------------------------------------
  // Snippet wrapping

  const StyleOpen: string := "<style>"
  const StyleClose: string := "</style>"
  /** The UTF-8 bytes of `<style>` and `</style>`. */
  const StyleOpenBytes: seq<byte> := [60, 115, 116, 121, 108, 101, 62]
  const StyleCloseBytes: seq<byte> := [60, 47, 115, 116, 121, 108, 101, 62]

  /** The UTF-8 bytes of the two tags are their ASCII codes. */
  lemma StyleTagBytes()
    ensures Utf8.Encode(StyleOpen) == StyleOpenBytes
    ensures Utf8.Encode(StyleClose) == StyleCloseBytes
  {
    Utf8.EncodeAsciiCodes(StyleOpen, StyleOpenBytes);
    Utf8.EncodeAsciiCodes(StyleClose, StyleCloseBytes);
  }

  lemma WrappedBytes(css: string)
    ensures Utf8.Encode(StyleOpen + css + StyleClose) == StyleOpenBytes + Utf8.Encode(css) + StyleCloseBytes
  {
    Utf8.EncodeAppend(StyleOpen + css, StyleClose);
    Utf8.EncodeAppend(StyleOpen, css);
    StyleTagBytes();
  }

  /**
   * The buffer of the CSS text, wrapped in a style element only when the
   * entry is an inline snippet; the bytes decode back to exactly that text.
   */
  function Snippet(isSnippet: bool, css: string): (r: seq<byte>)
    ensures isSnippet ==> r == StyleOpenBytes + Utf8.Encode(css) + StyleCloseBytes
    ensures !isSnippet ==> r == Utf8.Encode(css)
    ensures Utf8.Decode(r) == Some(if isSnippet then StyleOpen + css + StyleClose else css)
  {
    var text := if isSnippet then StyleOpen + css + StyleClose else css;
    WrappedBytes(css);
    Utf8.DecodeEncode(text);
    Utf8.Encode(text)
  }

  // ---------------------------------------------------------------------------
  // SASS compilation

  /** What a custom importer returns to redirect an import: the file to load instead. */
  datatype ImportTarget = ImportTarget(file: string)

  /** Character code of `~`. */
  const Tilde: int := 126

  /**
   * The custom import resolver: a tilde-prefixed specifier is redirected,
   * anything else (the empty specifier included) is left to the compiler's
   * own resolution (`None`).
   */
  function Importer(nodeModules: string, url: string): (r: Option<ImportTarget>)
    ensures r.Some? <==> |url| > 0 && url[0] as int == Tilde
    ensures r.Some? ==> r.value.file == url[1..] + nodeModules
  {
    if |url| > 0 && url[0] as int == Tilde then Some(ImportTarget(url[1..] + nodeModules)) else None
  }

  /**
   * As written, the redirect puts the node_modules path after the package
   * path: `~foo/partial` with `node_modules/` becomes `foo/partialnode_modules/`,
   * which does not lie under node_modules at all.
   */
  lemma ImporterMisplacesTarget()
    ensures Importer("node_modules/", "~foo/partial") == Some(ImportTarget("foo/partialnode_modules/"))
    ensures !("node_modules/" <= Importer("node_modules/", "~foo/partial").value.file)
  {
    var r := Importer("node_modules/", "~foo/partial");
    assert "~foo/partial"[0] as int == Tilde;
    assert "~foo/partial"[1..] == "foo/partial";
    assert "foo/partial" + "node_modules/" == "foo/partialnode_modules/";
    assert r.value.file[0] == 'f';
  }

  /**
   * The resolver as intended: a tilde-prefixed specifier resolves to the
   * package path inside the configured node_modules directory; anything
   * else is still left to the compiler's own resolution.
   */
  function NodeModulesImporter(nodeModules: string, url: string): (r: Option<ImportTarget>)
    ensures r.Some? <==> |url| > 0 && url[0] as int == Tilde
    ensures r.Some? ==> nodeModules + "/" <= r.value.file
    ensures r.Some? ==> r.value.file[|nodeModules| + 1..] == url[1..]
  {
    if |url| > 0 && url[0] as int == Tilde then Some(ImportTarget(nodeModules + "/" + url[1..])) else None
  }

  /** The options handed to the SASS compiler. */
  datatype SassOptions = SassOptions(
    data: string,
    outFile: string,
    file: string,
    includePaths: seq<string>,
    outputStyle: string,
    indentedSyntax: bool,
    omitSourceMapUrl: bool,
    sourceMapContents: bool,
    sourceMap: bool,
    importer: string -> Option<ImportTarget>)

  /** The compiler's options for one stylesheet entry and its source text. */
  function SassOptionsFor(config: StyleConfig, data: string): (o: SassOptions)
    ensures o.data == data && o.outFile == config.output && o.file == config.input
    ensures o.includePaths == config.includes
    ensures o.outputStyle == "compressed" && !o.indentedSyntax
    ensures o.omitSourceMapUrl && o.sourceMapContents && o.sourceMap
    ensures forall url :: o.importer(url) == Importer(config.nodeModules, url)
  {
    SassOptions(data, config.output, config.input, config.includes, "compressed",
                false, true, true, true, url => Importer(config.nodeModules, url))
  }

  /** The compiler's result: CSS text and its source map. */
  datatype Rendered = Rendered(css: string, sourceMap: string)

  /** `renderSync`: compiles or throws. */
  type Renderer = SassOptions -> Result<Rendered, Error>

  /** Input of the post-processor: CSS text, an optional previous source map and the target path. */
  datatype Compiled = Compiled(css: string, sourceMap: Option<string>, to: string)

  /** Runs the compiler on one stylesheet; its result is addressed to the entry's output path. */
  function RunSass(render: Renderer, config: StyleConfig, data: string): (r: Result<Compiled, Error>)
    ensures var out := render(SassOptionsFor(config, data));
      && (r.Success? <==> out.Success?)
      && (r.Success? ==> r.value.css == out.value.css && r.value.sourceMap == Some(out.value.sourceMap)
                         && r.value.to == config.output)
      && (r.Failure? ==> r.error == out.error)
  {
    match render(SassOptionsFor(config, data))
    case Failure(e) => Failure(e)
    case Success(out) => Success(Compiled(out.css, Some(out.sourceMap), config.output))
  }

  // ---------------------------------------------------------------------------
  // PostCSS

  datatype MapOptions = MapOptions(prev: string, inline: bool)

  /** The options handed to the PostCSS processor; `from` is always undefined. */
  datatype ProcessOptions = ProcessOptions(from: Option<string>, to: string, mapOptions: Option<MapOptions>)

  /** What the processor returns: the CSS text and its warnings. */
  datatype Processed = Processed(css: string, warnings: seq<Warning>)

  /** A loaded PostCSS processor: `process` transforms or rejects. */
  datatype Processor = Processor(process: (string, ProcessOptions) -> Result<Processed, Error>)

  /**
   * The processor's options: a previous map is passed on, not inlined, only
   * when there is one that JavaScript counts as true (a non-empty string).
   */
  function ProcessOptionsFor(c: Compiled): (o: ProcessOptions)
    ensures o.from == None && o.to == c.to
    ensures o.mapOptions.Some? <==> c.sourceMap.Some? && c.sourceMap.value != ""
    ensures o.mapOptions.Some? ==> o.mapOptions.value.prev == c.sourceMap.value && !o.mapOptions.value.inline
  {
    ProcessOptions(None, c.to, if c.sourceMap.Some? && c.sourceMap.value != "" then Some(MapOptions(c.sourceMap.value, false)) else None)
  }

  // ---------------------------------------------------------------------------
  // Effects and the request shape

  datatype Asset = Asset(key: string, attachment: string)
  datatype RequestData = RequestData(asset: Asset)
  datatype Request = Request(httpMethod: string, data: RequestData)

  /** The upload request for an asset: a `put` carrying the base64 text of its bytes. */
  function PutAsset(key: string, bytes: seq<byte>): (r: Request)
    ensures r.httpMethod == "put" && r.data.asset.key == key
    ensures forall text :: Base64.Decode(text) == Some(bytes) <==> text == r.data.asset.attachment
  {
    Base64.Canonical(bytes);
    Request("put", RequestData(Asset(key, Base64.Encode(bytes))))
  }

  /** One observable effect: a file written, a request queued, a line logged. */
  datatype Effect =
    | Wrote(path: string, bytes: seq<byte>)
    | Queued(request: Request)
    | LoggedError(error: Error)
    | LoggedWarning(warning: Warning)

  /** The requests a trace queued, in order. */
  function Requests(t: seq<Effect>): seq<Request> {
    if |t| == 0 then []
    else (if t[0].Queued? then [t[0].request] else []) + Requests(t[1..])
  }

  /** The files a trace wrote, in order. */
  function Writes(t: seq<Effect>): seq<(string, seq<byte>)> {
    if |t| == 0 then []
    else (if t[0].Wrote? then [(t[0].path, t[0].bytes)] else []) + Writes(t[1..])
  }

  lemma {:induction false} RequestsAppend(a: seq<Effect>, b: seq<Effect>)
    ensures Requests(a + b) == Requests(a) + Requests(b)
    decreases |a|
  {
    if |a| == 0 {
      assert a + b == b;
    } else {
      var ab := a + b;
      assert ab[0] == a[0] && ab[1..] == a[1..] + b;
      var head := if a[0].Queued? then [a[0].request] else [];
      assert Requests(ab) == head + Requests(a[1..] + b);
      RequestsAppend(a[1..], b);
      assert Requests(a) == head + Requests(a[1..]);
    }
  }

  lemma {:induction false} WritesAppend(a: seq<Effect>, b: seq<Effect>)
    ensures Writes(a + b) == Writes(a) + Writes(b)
    decreases |a|
  {
    if |a| == 0 {
      assert a + b == b;
    } else {
      var ab := a + b;
      assert ab[0] == a[0] && ab[1..] == a[1..] + b;
      var head := if a[0].Wrote? then [(a[0].path, a[0].bytes)] else [];
      assert Writes(ab) == head + Writes(a[1..] + b);
      WritesAppend(a[1..], b);
      assert Writes(a) == head + Writes(a[1..]);
    }
  }

  /** The log lines for a list of warnings, in order. */
  function Warned(ws: seq<Warning>): (t: seq<Effect>)
    ensures |t| == |ws|
    ensures forall i :: 0 <= i < |ws| ==> t[i] == LoggedWarning(ws[i])
    decreases |ws|
  {
    if |ws| == 0 then [] else Warned(ws[..|ws| - 1]) + [LoggedWarning(ws[|ws| - 1])]
  }

  /** Logging warnings writes no file and queues no request. */
  lemma {:induction false} WarnedIsQuiet(ws: seq<Warning>)
    ensures Requests(Warned(ws)) == [] && Writes(Warned(ws)) == []
    decreases |ws|
  {
    if |ws| > 0 {
      var init := ws[..|ws| - 1];
      WarnedIsQuiet(init);
      RequestsAppend(Warned(init), [LoggedWarning(ws[|ws| - 1])]);
      WritesAppend(Warned(init), [LoggedWarning(ws[|ws| - 1])]);
    }
  }

  /**
   * The file system, the request queue and the logger as one environment.
   * `writeFailures` says which output paths `writeFile` rejects and with
   * what; `queueFailure` is what `request.queue` throws, if anything.
   */
  class Host {
    var trace: seq<Effect>
    const writeFailures: map<string, Error>
    const queueFailure: Option<Error>

    constructor(writeFailures: map<string, Error>, queueFailure: Option<Error>)
      ensures trace == []
      ensures this.writeFailures == writeFailures && this.queueFailure == queueFailure
    {
      trace := [];
      this.writeFailures := writeFailures;
      this.queueFailure := queueFailure;
    }

    /** `writeFile`: records the write, or rejects. */
    method WriteFile(path: string, bytes: seq<byte>) returns (err: Option<Error>)
      modifies this
      ensures err == (if path in writeFailures then Some(writeFailures[path]) else None)
      ensures trace == old(trace) + (if err.None? then [Wrote(path, bytes)] else [])
    {
      if path in writeFailures {
        err := Some(writeFailures[path]);
      } else {
        err := None;
        trace := trace + [Wrote(path, bytes)];
      }
    }

    /** `request.queue`: accepts the request, or throws. */
    method Queue(r: Request) returns (err: Option<Error>)
      modifies this
      ensures err == queueFailure
      ensures trace == old(trace) + (if err.None? then [Queued(r)] else [])
    {
      err := queueFailure;
      if err.None? {
        trace := trace + [Queued(r)];
      }
    }

    /** `log.error` */
    method LogError(e: Error)
      modifies this
      ensures trace == old(trace) + [LoggedError(e)]
    {
      trace := trace + [LoggedError(e)];
    }

    /** `log.warn` */
    method LogWarn(w: Warning)
      modifies this
      ensures trace == old(trace) + [LoggedWarning(w)]
    {
      trace := trace + [LoggedWarning(w)];
    }
  }

  // ---------------------------------------------------------------------------
  // Write then enqueue

  /**
   * The effects of the generated writer: the bytes are written to the
   * output path, then one `put` request is queued; a failure of either step
   * is logged and ends the step.
   */
  function WriteEffects(file: StyleFile, css: seq<byte>, writeFailures: map<string, Error>,
                        queueFailure: Option<Error>): (t: seq<Effect>)
    ensures 1 <= |t| <= 2
    ensures t[0] == (if file.output in writeFailures then LoggedError(writeFailures[file.output])
                     else Wrote(file.output, css))
    ensures forall i :: 0 <= i < |t| ==> !t[i].LoggedWarning?
  {
    if file.output in writeFailures then [LoggedError(writeFailures[file.output])]
    else if queueFailure.Some? then [Wrote(file.output, css), LoggedError(queueFailure.value)]
    else [Wrote(file.output, css), Queued(PutAsset(file.key, css))]
  }

  /**
   * The writer's guarantees: at most one write and one request; the request
   * is issued iff neither step fails, always right after the write of the
   * same bytes, and its attachment decodes to exactly those bytes; every
   * failure is logged.
   */
  lemma WriteThenQueue(file: StyleFile, css: seq<byte>, writeFailures: map<string, Error>,
                       queueFailure: Option<Error>)
    ensures var t := WriteEffects(file, css, writeFailures, queueFailure);
      && Writes(t) == (if file.output in writeFailures then [] else [(file.output, css)])
      && |Requests(t)| == (if file.output !in writeFailures && queueFailure.None? then 1 else 0)
      && (forall i :: 0 <= i < |t| && t[i].Queued? ==>
            i > 0 && t[i - 1] == Wrote(file.output, css)
            && t[i].request.httpMethod == "put" && t[i].request.data.asset.key == file.key
            && Base64.Decode(t[i].request.data.asset.attachment) == Some(css))
      && ((exists i :: 0 <= i < |t| && t[i].LoggedError?) <==>
            (file.output in writeFailures || queueFailure.Some?))
  {
    var t := WriteEffects(file, css, writeFailures, queueFailure);
    if file.output in writeFailures {
      assert t[0].LoggedError?;
    } else if queueFailure.Some? {
      assert t == [Wrote(file.output, css)] + [LoggedError(queueFailure.value)];
      RequestsAppend([Wrote(file.output, css)], [LoggedError(queueFailure.value)]);
      WritesAppend([Wrote(file.output, css)], [LoggedError(queueFailure.value)]);
      assert t[1].LoggedError?;
    } else {
      assert t == [Wrote(file.output, css)] + [Queued(PutAsset(file.key, css))];
      RequestsAppend([Wrote(file.output, css)], [Queued(PutAsset(file.key, css))]);
      WritesAppend([Wrote(file.output, css)], [Queued(PutAsset(file.key, css))]);
    }
  }

  /** The requests and writes of the writer, as lists. */
  lemma WriteRequests(file: StyleFile, css: seq<byte>, writeFailures: map<string, Error>,
                      queueFailure: Option<Error>)
    ensures var t := WriteEffects(file, css, writeFailures, queueFailure);
      && Requests(t) == (if file.output !in writeFailures && queueFailure.None? then [PutAsset(file.key, css)] else [])
      && Writes(t) == (if file.output !in writeFailures then [(file.output, css)] else [])
  {
    if file.output !in writeFailures && queueFailure.None? {
      RequestsAppend([Wrote(file.output, css)], [Queued(PutAsset(file.key, css))]);
      WritesAppend([Wrote(file.output, css)], [Queued(PutAsset(file.key, css))]);
    } else if file.output !in writeFailures {
      RequestsAppend([Wrote(file.output, css)], [LoggedError(queueFailure.value)]);
      WritesAppend([Wrote(file.output, css)], [LoggedError(queueFailure.value)]);
    }
  }

  /** The writer `write(request, file)` returns, applied to a buffer (its map argument is unused). */
  method Write(host: Host, file: StyleFile, css: seq<byte>)
    modifies host
    ensures host.trace == old(host.trace) + WriteEffects(file, css, host.writeFailures, host.queueFailure)
  {
    var err := host.WriteFile(file.output, css);
    if err.Some? {
      host.LogError(err.value);
      return;
    }
    err := host.Queue(PutAsset(file.key, css));
    if err.Some? {
      host.LogError(err.value);
    }
  }

  // ---------------------------------------------------------------------------
  // Stage selection

  /**
   * The CSS text `compile` emits before wrapping, with the warnings logged on
   * the way, following the branches of the source: SASS is compiled and then
   * post-processed if a processor is loaded; plain CSS is post-processed if
   * one is loaded; anything else passes through.
   */
  function CompileText(file: StyleFile, data: string, render: Renderer, postcss: Option<Processor>)
    : (r: Result<Processed, Error>)
    ensures file.fileType == OtherType || (file.fileType == Css && postcss.None?) ==> r == Success(Processed(data, []))
    ensures r.Failure? ==> file.fileType == Sass || postcss.Some?
    ensures r.Success? && |r.value.warnings| > 0 ==> postcss.Some?
  {
    if file.fileType == Sass then
      match RunSass(render, file.config, data)
      case Failure(e) => Failure(e)
      case Success(compiled) =>
        if postcss.None? then Success(Processed(compiled.css, []))
        else postcss.value.process(compiled.css, ProcessOptionsFor(compiled))
    else if postcss.Some? && file.fileType == Css then
      postcss.value.process(data, ProcessOptionsFor(Compiled(data, None, file.output)))
    else Success(Processed(data, []))
  }

  /** Which stages run for a file: the decision table of `compile`. */
  datatype Plan = Plan(compileSass: bool, postprocess: bool)

  function PlanFor(t: FileType, hasProcessor: bool): (p: Plan)
    ensures p.compileSass <==> t == Sass
    ensures p.postprocess <==> hasProcessor && (t == Sass || t == Css)
  {
    Plan(t == Sass, hasProcessor && t != OtherType)
  }

  /** Reference pipeline: run the planned stages one after the other. */
  function RunPlan(p: Plan, file: StyleFile, data: string, render: Renderer, postcss: Option<Processor>)
    : Result<Processed, Error>
    requires p.postprocess ==> postcss.Some?
  {
    var stage1 := if p.compileSass then RunSass(render, file.config, data)
                  else Success(Compiled(data, None, file.output));
    match stage1
    case Failure(e) => Failure(e)
    case Success(c) =>
      if p.postprocess then postcss.value.process(c.css, ProcessOptionsFor(c))
      else Success(Processed(c.css, []))
  }

  /** The branches of `compile` are exactly the planned stages run in sequence. */
  lemma CompileFollowsPlan(file: StyleFile, data: string, render: Renderer, postcss: Option<Processor>)
    ensures CompileText(file, data, render, postcss)
         == RunPlan(PlanFor(file.fileType, postcss.Some?), file, data, render, postcss)
  {
  }

  /** SASS without a processor: the compiler's CSS, unchanged; a compiler error is the result. */
  lemma SassWithoutProcessor(file: StyleFile, data: string, render: Renderer)
    requires file.fileType == Sass
    ensures var out := render(SassOptionsFor(file.config, data));
      CompileText(file, data, render, None)
        == if out.Success? then Success(Processed(out.value.css, [])) else Failure(out.error)
  {
  }

  /** SASS with a processor: the processor runs on the compiler's CSS with its map as `prev`. */
  lemma SassWithProcessor(file: StyleFile, data: string, render: Renderer, p: Processor)
    requires file.fileType == Sass
    ensures var out := render(SassOptionsFor(file.config, data));
      CompileText(file, data, render, Some(p))
        == if out.Success? then
             p.process(out.value.css, ProcessOptions(None, file.config.output,
               if out.value.sourceMap != "" then Some(MapOptions(out.value.sourceMap, false)) else None))
           else Failure(out.error)
  {
  }

  /** Plain CSS with a processor: the raw input is processed without a previous map. */
  lemma CssWithProcessor(file: StyleFile, data: string, render: Renderer, p: Processor)
    requires file.fileType == Css
    ensures CompileText(file, data, render, Some(p)) == p.process(data, ProcessOptions(None, file.output, None))
  {
  }

  /** Plain CSS without a processor, and every other type: the input passes through. */
  lemma PassThrough(file: StyleFile, data: string, render: Renderer, postcss: Option<Processor>)
    requires file.fileType == OtherType || (file.fileType == Css && postcss.None?)
    ensures CompileText(file, data, render, postcss) == Success(Processed(data, []))
  {
  }

  /**
   * Everything one `compile` call does: on success the warnings are logged,
   * then the writer runs once on the wrapped text; on failure nothing happens.
   */
  function CompileEffects(file: StyleFile, data: string, render: Renderer, postcss: Option<Processor>,
                          writeFailures: map<string, Error>, queueFailure: Option<Error>): seq<Effect>
  {
    match CompileText(file, data, render, postcss)
    case Failure(_) => []
    case Success(p) => Warned(p.warnings) + WriteEffects(file, Snippet(file.config.snippet, p.css), writeFailures, queueFailure)
  }

  /**
   * A failing `compile` has no effect at all; a succeeding one logs its
   * warnings first and then starts the writer, whose first effect is the
   * write of the wrapped text (or the logged write error).
   */
  lemma CompileEffectsShape(file: StyleFile, data: string, render: Renderer, postcss: Option<Processor>,
                            writeFailures: map<string, Error>, queueFailure: Option<Error>)
    ensures var t := CompileEffects(file, data, render, postcss, writeFailures, queueFailure);
      && (CompileText(file, data, render, postcss).Failure? <==> t == [])
      && var text := CompileText(file, data, render, postcss);
         text.Success? ==>
           (&& |t| > |text.value.warnings|
            && t[..|text.value.warnings|] == Warned(text.value.warnings)
            && t[|text.value.warnings|] == (if file.output in writeFailures then LoggedError(writeFailures[file.output])
                                            else Wrote(file.output, Snippet(file.config.snippet, text.value.css))))
  {
    var text := CompileText(file, data, render, postcss);
    if text.Success? {
      var ws := text.value.warnings;
      var w := WriteEffects(file, Snippet(file.config.snippet, text.value.css), writeFailures, queueFailure);
      assert (Warned(ws) + w)[..|ws|] == Warned(ws);
      assert (Warned(ws) + w)[|ws|] == w[0];
    }
  }

  /**
   * What reaches the queue: at most one request; exactly one iff the
   * transform, the write and the enqueue all succeed; and its attachment
   * decodes, as base64 and then as UTF-8, to the emitted CSS, wrapped in a
   * style element exactly when the entry is a snippet. Warnings never stop
   * the write.
   */
  lemma CompileDelivers(file: StyleFile, data: string, render: Renderer, postcss: Option<Processor>,
                        writeFailures: map<string, Error>, queueFailure: Option<Error>)
    ensures var t := CompileEffects(file, data, render, postcss, writeFailures, queueFailure);
      var text := CompileText(file, data, render, postcss);
      && |Requests(t)| <= 1
      && (|Requests(t)| == 1 <==> text.Success? && file.output !in writeFailures && queueFailure.None?)
      && |Writes(t)| == (if text.Success? && file.output !in writeFailures then 1 else 0)
      && (forall r :: r in Requests(t) ==>
            r.httpMethod == "put" && r.data.asset.key == file.key
            && var bytes := Base64.Decode(r.data.asset.attachment);
               bytes.Some? && Utf8.Decode(bytes.value)
                 == Some(if file.config.snippet then StyleOpen + text.value.css + StyleClose else text.value.css))
  {
    var t := CompileEffects(file, data, render, postcss, writeFailures, queueFailure);
    var text := CompileText(file, data, render, postcss);
    if text.Success? {
      var css := Snippet(file.config.snippet, text.value.css);
      var w := WriteEffects(file, css, writeFailures, queueFailure);
      WarnedIsQuiet(text.value.warnings);
      RequestsAppend(Warned(text.value.warnings), w);
      WritesAppend(Warned(text.value.warnings), w);
      assert Requests(t) == Requests(w) && Writes(t) == Writes(w);
      WriteRequests(file, css, writeFailures, queueFailure);
    }
  }

  /**
   * The stylesheet transform's state: the PostCSS processor, `None` until a
   * configuration is loaded.
   */
  class StyleTransform {
    var postcss: Option<Processor>

    constructor()
      ensures postcss == None
    {
      postcss := None;
    }

    /**
     * `processer`: loads the processor for the configuration at `path`. When
     * loading throws, the exception propagates and the processor is kept.
     */
    method Processer(path: string, load: string -> Result<Processor, Error>) returns (r: Result<(), Error>)
      modifies this
      ensures r.Success? <==> load(path).Success?
      ensures r.Failure? ==> r.error == load(path).error
      ensures postcss == if load(path).Success? then Some(load(path).value) else old(postcss)
    {
      var loaded := load(path);
      if loaded.Failure? {
        return Failure(loaded.error);
      }
      postcss := Some(loaded.value);
      return Success(());
    }

    /**
     * `postprocess`: runs the processor; its warnings are logged one by one,
     * in order, and never turned into a failure. A rejection propagates.
     */
    method Postprocess(c: Compiled, host: Host) returns (r: Result<string, Error>)
      requires postcss.Some?
      modifies host
      ensures var out := postcss.value.process(c.css, ProcessOptionsFor(c));
        && (r.Success? <==> out.Success?)
        && (out.Success? ==> r.value == out.value.css && host.trace == old(host.trace) + Warned(out.value.warnings))
        && (out.Failure? ==> r.error == out.error && host.trace == old(host.trace))
    {
      var out := postcss.value.process(c.css, ProcessOptionsFor(c));
      if out.Failure? {
        return Failure(out.error);
      }
      var ws := out.value.warnings;
      var i := 0;
      while i < |ws|
        invariant 0 <= i <= |ws|
        invariant host.trace == old(host.trace) + Warned(ws[..i])
      {
        host.LogWarn(ws[i]);
        assert ws[..i + 1][..i] == ws[..i];
        i := i + 1;
      }
      assert ws[..i] == ws;
      return Success(out.value.css);
    }

    /**
     * The stage selection of `compile`: the text it emits before wrapping.
     * Warnings of a successful post-processing are logged; a compiler or
     * processor failure leaves the trace as it was.
     */
    method Stages(file: StyleFile, data: string, render: Renderer, host: Host) returns (r: Result<string, Error>)
      modifies host
      ensures var text := CompileText(file, data, render, postcss);
        && (r.Success? <==> text.Success?)
        && (r.Failure? ==> r.error == text.error && host.trace == old(host.trace))
        && (r.Success? ==> r.value == text.value.css && host.trace == old(host.trace) + Warned(text.value.warnings))
    {
      if file.fileType == Sass {
        var compiled := RunSass(render, file.config, data);
        if compiled.Failure? {
          return Failure(compiled.error);
        }
        if postcss.None? {
          return Success(compiled.value.css);
        }
        r := Postprocess(compiled.value, host);
      } else if postcss.Some? && file.fileType == Css {
        r := Postprocess(Compiled(data, None, file.output), host);
      } else {
        r := Success(data);
      }
    }

    /**
     * `compile`: selects the stages for the file, wraps the result and hands
     * it to the writer exactly once; a compiler or processor failure rejects
     * the call before anything is written.
     */
    method Compile(file: StyleFile, data: string, render: Renderer, host: Host) returns (r: Result<(), Error>)
      modifies host
      ensures var text := CompileText(file, data, render, postcss);
        && (r.Success? <==> text.Success?)
        && (r.Failure? ==> r.error == text.error)
      ensures host.trace == old(host.trace)
        + CompileEffects(file, data, render, postcss, host.writeFailures, host.queueFailure)
    {
      var css := Stages(file, data, render, host);
      if css.Failure? {
        return Failure(css.error);
      }
      var bytes := Snippet(file.config.snippet, css.value);
      Write(host, file, bytes);
      return Success(());
    }
  }
}
