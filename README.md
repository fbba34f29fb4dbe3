# Stylesheet transform and watch handler of syncify, in Dafny

This project models two pieces of syncify, a theme-development tool that watches a source tree,
transforms changed files and uploads the results to a store.

- **The stylesheet transform** (`src/transform/styles.ts`). SASS input is compiled and then
  post-processed only when a PostCSS processor is loaded. Plain CSS is post-processed only when a
  processor is loaded. Anything else passes through. The text is then wrapped in
  `<style>…</style>` when the entry is an inline snippet. The bytes are written to the output
  path, and then exactly one `put` request carrying their base64 text is queued. A failure of the
  write or the enqueue is logged, and no request is queued.
- **The watch handler** (`src/sync/watch.ts`). Each file-system event's path is classified once.
  When the classifier returns a descriptor, the transform is then called once, with `Update` for
  `change`/`add` and `Delete` for every other event name. When the classifier throws, the
  handler's promise rejects and the transform is not called for that event.

Files:

- `wrappers.dfy`: `Option` (JavaScript `null`/`undefined`) and `Result` (a thrown exception or a
  rejected promise).
- `bytes.dfy`: the `byte` type (0 to 255) shared by the encoders.
- `base64.dfy`: the standard base64 alphabet with padding (section 4 of RFC 4648), as
  `Buffer#toString('base64')` produces it. It includes a strict reference decoder, which also
  refuses non-zero pad bits, and the round trip in both directions.
- `utf8.dfy`: UTF-8, the encoding `Buffer.from(string)` uses. It includes a strict reference
  decoder and the round trip.
- `styles.dfy`: module `Styles`. The pure stages are functions. The module-level `postcss`
  variable is the field of class `StyleTransform`, which `Processer` assigns and `Compile` reads.
  The file system, the request object and the logger form one class `Host`, which records every
  effect in one ordered `trace`. Its `writeFailures` says which paths `writeFile` rejects, and
  `queueFailure` says whether `request.queue` throws.
- `watch.dfy`: module `Watch`. Class `Watcher` holds the classifier built once at start-up and the
  ordered log of the handler's calls (`Parsed`, then `Transformed`). The classifier returns a
  `Result`, so that a throwing classifier is part of the model.

Foreign code appears as function values passed in:

- `renderSync` is `Renderer`.
- `postcss.process` is `Processor.process`.
- `require('postcss')(require(path))` is the `load` argument of `Processer`.
- `parseFile(config.paths, config.output)` is the `parseFile` argument of the `Watcher`
  constructor.

The dispatcher `transforms(...)` is only observed: its calls are recorded.

## Model

| member | source | states |
|---|---|---|
| `Styles.Snippet` | src/transform/styles.ts:19-23 | with `snippet` set, the buffer is the bytes of `<style>`, the UTF-8 of the CSS, then the bytes of `</style>`; otherwise it is exactly the UTF-8 of the CSS; either way it decodes back to exactly the (wrapped) text |
| `Styles.WrappedBytes` | src/transform/styles.ts:21 | encoding `"<style>" + css + "</style>"` gives the fixed tag bytes around the CSS's own encoding |
| `Styles.Importer` | src/transform/styles.ts:37-41 | the resolver as written redirects iff the specifier's first character code is 126 (`~`); the target is the specifier without its first character followed by `node_modules`; otherwise `None` (default resolution), the empty specifier included |
| `Styles.ImporterMisplacesTarget` | src/transform/styles.ts:39 | as written, `~foo/partial` with `node_modules/` resolves to `foo/partialnode_modules/`, which does not start with `node_modules/` |
| `Styles.NodeModulesImporter` | src/transform/styles.ts:37-41 | the corrected resolver redirects under exactly the same condition; its target starts with `node_modules` plus a separator and continues with the stripped specifier |
| `Styles.SassOptionsFor` | src/transform/styles.ts:27-41 | the compiler gets the source text, `outFile` = entry output, `file` = entry input, the include paths, compressed output, indented syntax off, source map on with contents and no URL comment, and the tilde resolver as written (`Importer`) for the entry's `node_modules` |
| `Styles.RunSass` | src/transform/styles.ts:25-49 | `sass` succeeds iff `renderSync` on the entry's options succeeds; then its CSS is the compiler's CSS, its map is the compiler's map and `to` is the entry's output; otherwise the compiler's error propagates |
| `Styles.ProcessOptionsFor` | src/transform/styles.ts:56-65 | `from` undefined, `to` from the input; a previous map `{prev: map, inline: false}` iff the map exists and is non-empty (JavaScript truthiness), `null` otherwise |
| `Styles.PutAsset` | src/transform/styles.ts:81-89 | the request is a `put` whose asset key is the file's key; a text decodes (base64) to the given bytes iff it is the attachment, so the attachment is exactly the canonical base64 text of the bytes |
| `Styles.Warned` | src/transform/styles.ts:67 | one warning log line per PostCSS warning, in order |
| `Styles.WarnedIsQuiet` | src/transform/styles.ts:67 | logging warnings writes no file and queues no request |
| `Styles.WriteThenQueue` | src/transform/styles.ts:73-98 | the writer writes the bytes to `file.output` at most once; it queues exactly one request iff neither the write nor the enqueue throws; a queued request immediately follows the write of the same bytes, is a `put` for `file.key`, and its attachment decodes to those bytes; an error is logged iff a step throws |
| `Styles.WriteEffects` | src/transform/styles.ts:73-98 | the writer has one or two effects and logs no warning; the first is the write of the bytes to `file.output`, or the logged error when `writeFile` rejects |
| `Styles.WriteRequests` | src/transform/styles.ts:73-98 | the writer queues exactly `[put for the file's key with these bytes]` iff the write and the enqueue both succeed, and nothing otherwise; it writes exactly `(file.output, bytes)` iff `writeFile` succeeds |
| `Styles.Write` | src/transform/styles.ts:73-98 | the new trace is the old one followed by the writer's effects (write, then queue; a failure logged instead) |
| `Styles.Host.WriteFile` | src/transform/styles.ts:79 | `writeFile` records the write, or rejects with the configured error and records nothing |
| `Styles.Host.Queue` | src/transform/styles.ts:81-89 | `request.queue` records the request, or throws the configured error and records nothing |
| `Styles.Host.LogError` | src/transform/styles.ts:93 | appends one error log line |
| `Styles.Host.LogWarn` | src/transform/styles.ts:67 | appends one warning log line |
| `Styles.PlanFor` | src/transform/styles.ts:114-145 | the decision table: SASS compilation runs iff the type is SASS; post-processing runs iff a processor is loaded and the type is SASS or CSS |
| `Styles.CompileText` | src/transform/styles.ts:114-145 | a type other than SASS and CSS, or CSS with no processor loaded, passes the input through with no warnings; a failure comes only from SASS compilation or from a loaded processor; warnings come only from a loaded processor |
| `Styles.CompileEffectsShape` | src/transform/styles.ts:114-145 | `compile` has no effect at all iff its stages fail; otherwise it logs the warnings first, in order, and its next effect is the write of the wrapped emitted text to the output (or the logged write error) |
| `Styles.CompileFollowsPlan` | src/transform/styles.ts:114-145 | the branches of `compile` give exactly the result of running the planned stages in sequence |
| `Styles.SassWithoutProcessor` | src/transform/styles.ts:118-125 | SASS with no processor: the emitted CSS is the compiler's output unchanged, with no warnings; a compiler error is the result |
| `Styles.SassWithProcessor` | src/transform/styles.ts:118-125 | SASS with a processor: the result is the processor run on the compiler's CSS, with `to` = the entry's output and the compiler's map as `prev` |
| `Styles.CssWithProcessor` | src/transform/styles.ts:129-140 | CSS with a processor: the raw input is processed with `to` = the file's output and no map |
| `Styles.PassThrough` | src/transform/styles.ts:129-143 | CSS without a processor, and any other type: the input passes through unchanged |
| `Styles.CompileDelivers` | src/transform/styles.ts:114-145 | one `compile` queues at most one request; exactly one iff the stages, the write and the enqueue all succeed; it writes once iff the stages and the write succeed; the attachment decodes (base64, then UTF-8) to the emitted CSS, wrapped in `<style>` exactly when the entry is a snippet; warnings never prevent the write |
| `Styles.StyleTransform.constructor` | src/transform/styles.ts:14 | no processor is loaded initially |
| `Styles.StyleTransform.Processer` | src/transform/styles.ts:105-109 | the loaded processor replaces the field; if loading throws, that same error propagates and the field keeps its old value |
| `Styles.StyleTransform.Postprocess` | src/transform/styles.ts:56-71 | the result is the processor's CSS; its warnings are logged in order and never turn into a failure; a rejection propagates with nothing logged |
| `Styles.StyleTransform.Stages` | src/transform/styles.ts:116-143 | the text `compile` emits before wrapping is the one the stage table selects; a compiler or processor failure is returned with nothing logged; on success the processor's warnings are logged in order |
| `Styles.StyleTransform.Compile` | src/transform/styles.ts:114-145 | fails iff the compiler or the processor fails (with that error, before anything is written); the new trace is the old one plus the warnings, then exactly one run of the writer on the wrapped emitted text |
| `Base64.CharOf` | src/transform/styles.ts:86 | every 6-bit value maps to an alphabet character, and `IndexOf` gives the value back |
| `Base64.Encode` | src/transform/styles.ts:86 | the base64 text is 4 characters per started group of 3 bytes and uses only the alphabet and `=` |
| `Base64.DecodeEncode` | src/transform/styles.ts:86 | decoding the base64 text of any bytes gives exactly those bytes |
| `Base64.EncodeDecode` | src/transform/styles.ts:86 | every text the decoder accepts is the encoding of the bytes it decodes to |
| `Base64.Canonical` | src/transform/styles.ts:86 | a text decodes to given bytes iff it is their encoding: each byte sequence has exactly one base64 text |
| `Base64.RejectsNonzeroPadBits` | src/transform/styles.ts:86 | texts whose padded last group has non-zero unused bits (`Zh==`, `Zm9=`) are refused |
| `Base64.KnownAnswers` | src/transform/styles.ts:86 | test vectors of section 10 of RFC 4648: `f`, `fo`, `foo` encode to `Zg==`, `Zm8=`, `Zm9v` |
| `Utf8.EncodeChar` | src/transform/styles.ts:21 | a scalar value encodes to 1-4 bytes; to a single byte equal to its code iff it is below 0x80; every byte after the first is a continuation byte |
| `Utf8.Encode` | src/transform/styles.ts:21 | a string of n characters encodes to between n and 4n bytes |
| `Utf8.EncodeAppend` | src/transform/styles.ts:21 | encoding a concatenation is concatenating the encodings |
| `Utf8.EncodeAscii` | src/transform/styles.ts:21 | ASCII text encodes to its own character codes, one byte each |
| `Utf8.DecodeEncode` | src/transform/styles.ts:21 | decoding the UTF-8 of any string gives exactly that string |
| `Utf8.KnownAnswers` | src/transform/styles.ts:21 | known answers: `A`, `é`, `€` and U+1F600 encode to their 1-, 2-, 3- and 4-byte forms of RFC 3629 |
| `Watch.KindOf` | src/sync/watch.ts:30 | the kind is `Update` iff the event name is `change` or `add`; every other name (`unlink`, `addDir`, `unlinkDir`, …) gives `Delete` |
| `Watch.StepsExtend` | src/sync/watch.ts:27-34 | one more event adds exactly one classifier call, on its path; it adds one transform call, with the derived kind and the descriptor, iff the classifier returns, and none when it throws |
| `Watch.OneParsePerEvent` | src/sync/watch.ts:29 | over any run of events, the classifier is called exactly once per event, in event order, on the event's path, whether or not it throws |
| `Watch.UnclassifiedNotTransformed` | src/sync/watch.ts:29-32 | an event whose path the classifier rejects adds no transform call |
| `Watch.StepsShape` | src/sync/watch.ts:27-34 | when every path classifies, event i is handled by calls 2i and 2i+1: first the classifier on its path, then the transform with the derived kind and that descriptor |
| `Watch.OneTransformPerEvent` | src/sync/watch.ts:29-32 | when every path classifies, the transform is called exactly once per event, in event order, with (kind, descriptor) |
| `Watch.Watcher.constructor` | src/sync/watch.ts:11-14 | the classifier is built once, from the configured paths and output directory, and is shared by every later event |
| `Watch.Watcher.OnEvent` | src/sync/watch.ts:27-34 | the handler appends the classifier call on the path; if the classifier throws it stops there (the promise rejects), otherwise it appends the transform call with the kind and the descriptor |
| `Watch.Watcher.OnEvents` | src/sync/watch.ts:27-34 | handling a stream appends the calls for each event, in order |

## Left out

- The chokidar subscription is I/O and timing: its options, polling intervals, `*.map` ignore and working directory are not modelled (src/sync/watch.ts:15-25).
- Ordering across events is not modelled. The handler is `async` and the emitter does not await it, so events are not serialised by this code. The model handles them one after another and claims nothing about interleaving.
- `transforms` is recorded as calls, not executed: the dispatcher it builds is not part of this model.
- `parseFile` is foreign code: the classifier it builds is a function value that returns a descriptor or throws. Which paths it accepts is not part of this model.
- The rejected promise of a handler whose classifier throws is not followed further: the emitter does not await it.
- The request queue behind `request.queue` (per-destination ordering, retries) is not part of this model. The queue either accepts the request or throws synchronously.
- A rejection of the promise that `request.queue` returns is not modelled. The source returns that promise without `await` inside the `try`, so such a rejection bypasses the `catch` and reaches `compile`'s caller.
- SASS compilation and PostCSS plugins are foreign libraries: they are function values.
- Loading the PostCSS configuration module is foreign code: it is a function value.
- The formatting of warnings by `parse.postcss` is not modelled: a warning is logged as it is.
- The log line's format is not modelled.
- `Styles.Host`: the file system, the `request` object and the logger are one object, so that their relative order is visible in one trace. The contents of files on disk are not kept, only the writes.
- JavaScript strings may hold lone UTF-16 surrogates, which `Buffer.from` replaces with U+FFFD. Dafny strings hold only Unicode scalar values, so that case does not arise in the model.
- `compile`'s `request` argument is the `Host`, and the curried writer `write(request, file)` is the method `Write`. Its unused map argument is dropped.

## Findings

| source | as written | input that shows it | evidently intended | confidence | as-written member | corrected member |
|---|---|---|---|---|---|---|
| src/transform/styles.ts:39 | the redirect target is `url.slice(1) + config.node_modules`, so the package path comes first and the node_modules directory is appended after it | specifier `~foo/partial` with `node_modules` = `node_modules/` gives `foo/partialnode_modules/` | the package path inside node_modules, `node_modules` + separator + `foo/partial`, which is what the option's description says (a path used to rewrite `~` paths) | high; not executed | `Styles.ImporterMisplacesTarget` | `Styles.NodeModulesImporter` |

The compiler options (`Styles.SassOptionsFor`) carry the resolver as written, `Styles.Importer`, so the transform behaves as the source does. `Styles.NodeModulesImporter` is the corrected resolver, with its intended property proved on its own.
