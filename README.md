# Nexus local engine: a verified Dafny model

This project models the data-handling core of the Nexus desktop back end
(`src-tauri/src/lib.rs`). That back end is the local engine behind an AI canvas
application. The model covers five pieces:

- **text helpers**: `normalize_text`, `safe_slice`, `value_string`, `clamp_i64`, and the
  tokenizer (`is_cjk`, `tokenize`);
- **asset cache naming**: `sanitize_extension`, `extension_from_content_type`, the extension
  fallback and the `{kind}-{sha256}.{ext}` file name, inside `cache_remote_image` and
  `cache_remote_media`;
- **upstream-input resolver**: `graph_collect_upstream_inputs`;
- **context assembler**: `estimate_chars`, `compact_lines` and the three-tier
  `build_chat_messages`;
- **canvas persistence**: the snapshot store, and the debouncing `canvas_save_worker`,
  modelled as a state machine over the events "message", "timeout" and "disconnected".

Files, one module each:

| file | module | contents |
|---|---|---|
| `wrappers.dfy` | `Wrappers` | `Option`, `Result`, `Unit` |
| `json_value.dfy` | `JsonValue` | `serde_json::Value` and the string field lookup |
| `text.dfy` | `Text` | whitespace, `trim`, `normalize_text`, UTF-8 length, `safe_slice`, `value_string`, `clamp_i64` |
| `tokenizer.dfy` | `Tokenizer` | `is_cjk`, `tokenize` |
| `asset_cache.dfy` | `AssetCache` | extension rules, file names, the image and media cache operations |
| `graph_resolver.dfy` | `GraphResolver` | `graph_collect_upstream_inputs` |
| `context_assembler.dfy` | `ContextAssembler` | limits, `estimate_chars`, `compact_lines`, `build_chat_messages` |
| `canvas_persistence.dfy` | `CanvasPersistence` | the store (a class) and the save worker (a class) |

How the model is shaped:

- The loops of the source are kept as methods with `while` loops. Most are proved equal to
  a reference function, and the promised properties are proved about that function:
  - `Text.SafeSlice` against `Slice`;
  - `Tokenizer.Tokenize` against `Lex`;
  - `ContextAssembler.CompactLines` against `Pack`;
  - `ContextAssembler.BuildChatMessages` against `Tier1`/`Tier2`/`Minimal`;
  - `AssetCache.StreamMedia` against `StreamEnd`;
  - the worker against `Next`/`After`.
- `GraphResolver.CollectUpstreamInputs` is not proved equal to a reference function. Its
  result is characterised instead:
  - every block satisfies `TextOk`/`ImageOk`;
  - no source id appears twice in a list;
  - every qualifying source appears.

  The order of the blocks is left open, and so are the sink a block names and the edge its
  role comes from (see "## Left out").
- Lengths follow the source:
  - `.len()` is the UTF-8 byte length, modelled exactly by `Text.Utf8Len` (1 to 4 bytes per
    code point);
  - `.chars().count()` and `.chars().take(n)` count code points (`|s|`, `Text.Take`).
- `trim` strips the Unicode White_Space characters, which are listed in `Text.IsWhitespace`.

## Model

| member | source | states |
|---|---|---|
| JsonValue.StringField | src-tauri/src/lib.rs:284-287 | the lookup `v.get(key).and_then(as_str)` yields a string exactly when the value is an object holding a string under `key` |
| Text.AsciiLower | src-tauri/src/lib.rs:108 | ASCII lower-casing keeps the length, maps each character pointwise and leaves no upper-case ASCII letter |
| Text.AsciiLowerIdempotent | src-tauri/src/lib.rs:108 | lower-casing twice is lower-casing once |
| Text.LeadingBlanksRun | src-tauri/src/lib.rs:262 | the leading run that `trim` drops is all whitespace and stops at the first non-blank character |
| Text.TrailingBlanksRun | src-tauri/src/lib.rs:262 | the trailing run that `trim` drops is all whitespace and stops at the last non-blank character |
| Text.TrimEnds | src-tauri/src/lib.rs:262 | trimmed text neither starts nor ends with whitespace |
| Text.TrimShape | src-tauri/src/lib.rs:262 | `trim` keeps one contiguous run of the input, and everything it drops is whitespace |
| Text.TrimBlank | src-tauri/src/lib.rs:95-97 | `s.trim().is_empty()` holds exactly when `s` is whitespace only |
| Text.TrimUntouched | src-tauri/src/lib.rs:262 | a string with non-blank ends is its own trim |
| Text.TrimIdempotent | src-tauri/src/lib.rs:262 | trimming twice is trimming once |
| Text.ReplaceCrlfDropsOnlyCr | src-tauri/src/lib.rs:262 | `replace("\r\n", "\n")` removes only carriage returns, and leaves CR-free text unchanged |
| Text.NormalizeEnds | src-tauri/src/lib.rs:261-263 | normalised text neither starts nor ends with whitespace |
| Text.NormalizeBlank | src-tauri/src/lib.rs:261-263 | whitespace-only text (the empty string included) normalises to "" |
| Text.NormalizeFixpoint | src-tauri/src/lib.rs:261-263 | normalised text without carriage returns normalises to itself |
| Text.NormalizeNotIdempotent | src-tauri/src/lib.rs:261-263 | normalisation is not idempotent: "a\r\r\nb" gives "a\r\nb", which gives "a\nb" |
| Text.Utf8Len | src-tauri/src/lib.rs:491 | the UTF-8 length of a string is between its character count and four times that |
| Text.Utf8LenConcat | src-tauri/src/lib.rs:491 | UTF-8 length adds up over concatenation |
| Text.Utf8LenAscii | src-tauri/src/lib.rs:491 | ASCII text has one byte per character |
| Text.Take | src-tauri/src/lib.rs:541 | `chars().take(n)` is the prefix of `min(n, len)` characters |
| Text.SafeSlice | src-tauri/src/lib.rs:265-282 | "" for empty normalised text; the normalised text itself when it has at most `maxChars` characters; otherwise its first `maxChars` characters followed by '…' |
| Text.SliceBounds | src-tauri/src/lib.rs:265-282 | the slice has at most `maxChars + 1` characters, at most one more than the normalised text, and is empty exactly when the normalised text is |
| Text.ValueString | src-tauri/src/lib.rs:284-287 | "" when the field is absent or not a string, otherwise the normalised string, which then has non-blank ends |
| Text.Clamp | src-tauri/src/lib.rs:486-488 | `n.max(lo).min(hi)` is at most `hi`, at least `lo` when `lo <= hi`, `n` inside the range, `lo` below it, and `hi` above it or when the range is empty |
| Tokenizer.ConcatAppend | src-tauri/src/lib.rs:293-324 | joining tokens distributes over concatenated token lists |
| Tokenizer.LexTokens | src-tauri/src/lib.rs:293-324 | on lower-cased text, every token is a single CJK character or a non-empty run of lower-case ASCII letters and digits |
| Tokenizer.LexConcat | src-tauri/src/lib.rs:293-324 | the tokens, joined, are exactly the CJK and ASCII-alphanumeric characters of the input, in input order |
| Tokenizer.LexNoTokenChars | src-tauri/src/lib.rs:293-324 | text with no CJK or ASCII-alphanumeric character gives no tokens |
| Tokenizer.LexAtCjk | src-tauri/src/lib.rs:300-310 | a CJK character splits the text: the tokens before it, the character itself, then the tokens after it |
| Tokenizer.SplitIsLex | src-tauri/src/lib.rs:302-306 | `buf.split(non-alnum)` with the empty parts dropped is the word tokenisation of the buffer |
| Tokenizer.PushParts | src-tauri/src/lib.rs:302-307 | the part-pushing loop appends the buffer's word tokens to the token list |
| Tokenizer.Scan | src-tauri/src/lib.rs:299-323 | the character loop with its buffer produces the reference tokenisation |
| Tokenizer.Tokenize | src-tauri/src/lib.rs:293-324 | no tokens for blank input; every token is a CJK character or an ASCII-alphanumeric run; the tokens joined are the token characters of the lower-cased normalised text, in order |
| Tokenizer.TokenizeFacts | src-tauri/src/lib.rs:293-324 | the same three promises, stated of the reference tokenisation |
| AssetCache.TrimLeadingDots | src-tauri/src/lib.rs:108 | `trim_start_matches('.')` removes a prefix of dots only and leaves no leading dot |
| AssetCache.SanitizeExtension | src-tauri/src/lib.rs:107-116 | `Some` exactly when the trimmed, dot-stripped, lower-cased candidate has 2 to 6 ASCII alphanumerics, and then it is that candidate |
| AssetCache.SanitizeIdempotent | src-tauri/src/lib.rs:107-116 | sanitising a sanitised extension gives it back |
| AssetCache.CleanIsFixed | src-tauri/src/lib.rs:107-116 | a clean extension is unchanged by trim, dot stripping and lower-casing |
| AssetCache.SanitizeIgnoresDotAndBlanks | src-tauri/src/lib.rs:107-116 | " .e " sanitises to `e` for every clean extension `e` |
| AssetCache.SanitizeClean | src-tauri/src/lib.rs:107-116 | any input whose candidate is a clean extension sanitises to it |
| AssetCache.ExtensionFromUrl | src-tauri/src/lib.rs:118-122 | an extension read off the URL path is always clean |
| AssetCache.FirstPrefixMatch | src-tauri/src/lib.rs:125-156 | the first table entry whose prefix starts the content type, and none before it matches; `None` when none matches |
| AssetCache.ExtensionFromContentType | src-tauri/src/lib.rs:124-159 | `None` without a content type; otherwise the extension of the first prefix in the source's order that starts the lower-cased type, and always clean |
| AssetCache.TableIsClean | src-tauri/src/lib.rs:125-156 | every extension in the content-type table is clean |
| AssetCache.ContentTypeCaseInsensitive | src-tauri/src/lib.rs:125 | the content-type match ignores ASCII case |
| AssetCache.ContentTypeIgnoresParameters | src-tauri/src/lib.rs:124-159 | a listed media type followed by anything (such as "; charset=...") resolves to that type's own extension |
| AssetCache.NoShadow | src-tauri/src/lib.rs:126-156 | no prefix the chain tests first can match a later listed type, whatever follows the later type |
| AssetCache.FirstPrefixMatchIs | src-tauri/src/lib.rs:126-156 | the `if`/`else if` chain picks entry `i` when it matches and no earlier entry does |
| AssetCache.ChooseExtension | src-tauri/src/lib.rs:723-725 | the URL extension, else the content type's, else the kind's default ("png" for images, "bin" for media as at lines 791-793), and always clean |
| AssetCache.CacheFileName | src-tauri/src/lib.rs:688-691 | the name format `{kind}-{digest}.{ext}`, whose length is that of its parts plus the two separators (that equal names come from equal parts is `AssetCache.CacheFileNameInjective`) |
| AssetCache.CacheFileNameInjective | src-tauri/src/lib.rs:681-691 | with hex digests, equal file names come from equal kinds, digests and extensions |
| AssetCache.CachedPath | src-tauri/src/lib.rs:690-695 | a fast-path hit is an existing file named after the URL's own extension |
| AssetCache.CacheRemoteImage | src-tauri/src/lib.rs:664-733 | inline URLs come back unchanged with no request; a fast-path hit returns the existing file with no request; otherwise the request is sent; a failed send or broken body gives `Transport`, a non-2xx status `HttpStatus(status)`, an intact body over 50 MiB `TooLarge`, and every error leaves the cache unchanged; a miss with an intact 2xx body of at most 50 MiB succeeds, adds exactly the file `image-{digest}.{fallback ext}` and returns it; conversely a success after a request always had such a body |
| AssetCache.ImageSecondCallHits | src-tauri/src/lib.rs:690-732 | after a successful call for a URL with an extension, the same call returns the same path with no request |
| AssetCache.ExtensionlessUrlAlwaysFetches | src-tauri/src/lib.rs:690-708 | a non-inline URL without a path extension sends the request every time |
| AssetCache.StoredNameIsHit | src-tauri/src/lib.rs:690-726 | under a URL extension, the name the fallback chain stores is the name the fast path finds |
| AssetCache.StreamEndCases | src-tauri/src/lib.rs:800-809 | streaming ends with success, `TooLarge` or `Transport`; it succeeds only on an intact body within 300 MiB; an intact body fails only by passing 300 MiB, exactly when its size does |
| AssetCache.StreamMedia | src-tauri/src/lib.rs:800-813 | the streaming loop ends as `StreamEnd` says: on success the target is kept; past 300 MiB the partial file is removed; a broken chunk leaves it behind |
| AssetCache.CacheRemoteMedia | src-tauri/src/lib.rs:736-815 | inline URLs pass through; a fast-path hit returns without a request; otherwise the request is sent; a failed send gives `Transport` and a non-2xx status `HttpStatus(status)`, both leaving the cache unchanged; after a 2xx status an existing `media-{digest}.{fallback ext}` is returned untouched; otherwise the stream decides, as `StreamEnd` says, and an intact body over 300 MiB gives `TooLarge` and leaves no file; the cache changes by at most that one file |
| GraphResolver.BlockFieldDefaults | src-tauri/src/lib.rs:403-423 | labels default to "文本节点" and "参考图", the role to "input_reference"; a `data:` URL becomes "", any other is `safe_slice(url, 240)` |
| GraphResolver.NodeIndex | src-tauri/src/lib.rs:351-356 | the node map holds exactly the nodes with non-blank ids, each under its own id |
| GraphResolver.NodeIndexLastWins | src-tauri/src/lib.rs:351-356 | for duplicate ids the last node in the input wins |
| GraphResolver.EdgesInto | src-tauri/src/lib.rs:361-369 | the incoming list of a node holds exactly the valid edges that target it |
| GraphResolver.EdgesFrom | src-tauri/src/lib.rs:361-369 | the outgoing list of a node holds exactly the valid edges that leave it |
| GraphResolver.IndexNodes | src-tauri/src/lib.rs:351-356 | the node-indexing loop builds the node map |
| GraphResolver.IndexEdges | src-tauri/src/lib.rs:361-369 | the edge-indexing loop builds incoming and outgoing lists equal to the reference ones, in input order |
| GraphResolver.FindSinks | src-tauri/src/lib.rs:371-380 | the config targets are exactly the `imageConfig`/`videoConfig` nodes the focus node points at |
| GraphResolver.MakeTextBlock | src-tauri/src/lib.rs:403-408 | a text block carries the source id, the label with its default, `safe_slice(content, 520)` and the config id |
| GraphResolver.MakeImageBlock | src-tauri/src/lib.rs:417-423 | an image block carries the source id, the label and role with their defaults, the URL rule and the config id |
| GraphResolver.VisitEdge | src-tauri/src/lib.rs:389-426 | visiting one incoming edge keeps every block valid and ids distinct, and afterwards its source is collected if it qualifies |
| GraphResolver.CollectFromSink | src-tauri/src/lib.rs:387-427 | after one config node, every qualifying source of its incoming edges is collected |
| GraphResolver.Completeness | src-tauri/src/lib.rs:387-427 | once every sink is processed, every qualifying source of every sink is collected |
| GraphResolver.CollectUpstreamInputs | src-tauri/src/lib.rs:345-431 | empty result for a blank or unknown focus; every block is valid (source type, default fields, target a sink, the focus never a text source, empty content skipped); no id twice per list; every qualifying source appears |
| ContextAssembler.ResolveLimit | src-tauri/src/lib.rs:525-530 | a value of at most 0 takes the default; others are clamped into the range |
| ContextAssembler.ResolveLimits | src-tauri/src/lib.rs:524-530 | each limit lies in its range (and is at least 1); no config gives the defaults 12000/16/6/1200/1200/600 |
| ContextAssembler.SmallBudgetRaised | src-tauri/src/lib.rs:525 | a positive `maxChars` below 2000 is raised to 2000 |
| ContextAssembler.EstimateCharsConcat | src-tauri/src/lib.rs:490-492 | the size estimate adds up over concatenated lists |
| ContextAssembler.EstimateCharsSuffix | src-tauri/src/lib.rs:490-492 | dropping a prefix of messages never increases the estimate |
| ContextAssembler.NormalizedLines | src-tauri/src/lib.rs:497-501 | the candidate lines are non-empty and no more than the input lines |
| ContextAssembler.NormalizedLinesFrom | src-tauri/src/lib.rs:497-501 | each candidate line is the normalisation of some input line |
| ContextAssembler.PackSpec | src-tauri/src/lib.rs:494-509 | the kept lines are a prefix of the candidates, their byte total is within the budget, and packing stops only at the end or at a line that would overflow |
| ContextAssembler.JoinLen | src-tauri/src/lib.rs:508 | the joined text is the kept lines plus one newline byte between each two |
| ContextAssembler.JoinEmpty | src-tauri/src/lib.rs:508 | the joined text is empty exactly when no line is kept |
| ContextAssembler.CompactLines | src-tauri/src/lib.rs:494-509 | the packing loop with its early `break` returns the join of the greedy packing |
| ContextAssembler.CompactedSpec | src-tauri/src/lib.rs:494-509 | `compact_lines` returns the joined prefix of non-empty normalised lines that fits the budget, stops at the first overflow, and is empty only if nothing fits |
| ContextAssembler.MemoryLinesShape | src-tauri/src/lib.rs:547-554 | at most one bullet per memory item, each "- " followed by 1 to 260 characters |
| ContextAssembler.MemorySnippets | src-tauri/src/lib.rs:546-554 | the memory loop yields the bullets of the first `maxMemoryItems` items |
| ContextAssembler.Filtered | src-tauri/src/lib.rs:573-576 | the kept turns come from the conversation and all have a non-empty, non-system role and non-empty normalised content |
| ContextAssembler.History | src-tauri/src/lib.rs:577-580 | the history window has `min(n, kept turns)` messages |
| ContextAssembler.HistoryIsLastTurns | src-tauri/src/lib.rs:572-580 | the history window is the last `n` kept turns, in order, each with role kept and content normalised |
| ContextAssembler.PushHistory | src-tauri/src/lib.rs:578-580 | the history loop appends the rendered kept turns from the window start |
| ContextAssembler.PushMemory | src-tauri/src/lib.rs:545-562 | the memory push appends the memory block |
| ContextAssembler.PushSummary | src-tauri/src/lib.rs:537-543 | the summary push appends the summary message under its heading, cut to the cap, when the summary is non-empty and the cap positive |
| ContextAssembler.PushCanvas | src-tauri/src/lib.rs:564-570 | the canvas push appends the canvas message under its heading, cut to the cap, when the canvas is non-empty and the cap positive |
| ContextAssembler.PushTier1Context | src-tauri/src/lib.rs:537-570 | the first attempt appends the summary, the memory block and the canvas as the tier-1 definition says |
| ContextAssembler.PushTier2Context | src-tauri/src/lib.rs:596-607 | the second attempt appends the summary cut to `min(maxSummaryChars, 360)` and the canvas cut to 360 characters |
| ContextAssembler.PushTail | src-tauri/src/lib.rs:577-582 | the tail appends the history window and then the untouched user turn |
| ContextAssembler.TiersFrame | src-tauri/src/lib.rs:532-623 | every tier ends with the user turn `normalize_text(user_text)` and starts with the system prompt when there is one |
| ContextAssembler.MinimalIsSmallest | src-tauri/src/lib.rs:616-622 | the minimal list is never larger than either tier |
| ContextAssembler.Tier2CanExceedTier1 | src-tauri/src/lib.rs:602-606 | with no summary, memory or history, a canvas longer than a canvas limit below 360 makes tier 2 larger than tier 1 |
| ContextAssembler.Tier2ExceedsTier1Example | src-tauri/src/lib.rs:564-606 | with `maxCanvasChars` 100 and a canvas of 1000 letters, tier 2 is larger than tier 1 |
| ContextAssembler.BuildTier1 | src-tauri/src/lib.rs:532-582 | the pushes of the first attempt build tier 1 |
| ContextAssembler.BuildTier2 | src-tauri/src/lib.rs:590-611 | the pushes of the second attempt (history halved, clamped into [2, maxHistory]) build tier 2 |
| ContextAssembler.BuildMinimal | src-tauri/src/lib.rs:616-622 | the last resort builds system prompt plus user turn |
| ContextAssembler.BuildChatMessages | src-tauri/src/lib.rs:512-623 | tier 1 if its estimate is within `maxChars`, else tier 2 if within, else the minimal list whatever its size; the last message is always the user turn |
| CanvasPersistence.AfterAppend | src-tauri/src/lib.rs:65-82 | running two event sequences one after the other is running their concatenation |
| CanvasPersistence.BurstCoalesces | src-tauri/src/lib.rs:67-70 | a burst of messages for one project leaves only the last snapshot pending, and writes nothing |
| CanvasPersistence.BurstThenIdle | src-tauri/src/lib.rs:65-82 | after a burst and one timeout step, the files hold the earlier pending entries and the project's last snapshot, nothing stays pending and the worker still runs (that this is exactly one write is `CanvasPersistence.BurstThenIdleLog`) |
| CanvasPersistence.SaveThenLoad | src-tauri/src/lib.rs:65-82 | a message then a timeout leaves that snapshot in the project's file |
| CanvasPersistence.IdleTimeoutWritesNothing | src-tauri/src/lib.rs:76-78 | a timeout with nothing pending changes nothing |
| CanvasPersistence.StoppedStays | src-tauri/src/lib.rs:72 | once the loop has stopped, further events change nothing |
| CanvasPersistence.DisconnectFlushesAndStops | src-tauri/src/lib.rs:72-91 | disconnection flushes the pending map once and stops the worker |
| CanvasPersistence.ValidatedRunWritesAll | src-tauri/src/lib.rs:61-92 | when every enqueued id is non-blank, the pending map holds only writable entries, so each flush writes every entry |
| CanvasPersistence.WrittenIdsMember | src-tauri/src/lib.rs:80-82 | an id is in the write log's set exactly when some write carries it |
| CanvasPersistence.CanvasStore.Load | src-tauri/src/lib.rs:627-644 | nothing for a blank id or a missing file, otherwise the stored snapshot |
| CanvasPersistence.CanvasStore.Save | src-tauri/src/lib.rs:94-105 | a blank id is refused with "projectId 不能为空" and changes nothing; otherwise the whole snapshot replaces the project's file, is logged once, and loads back |
| CanvasPersistence.CanvasStore.Delete | src-tauri/src/lib.rs:647-661 | always `Ok`; a blank id does nothing; otherwise the file is gone and loads as nothing |
| CanvasPersistence.FlushDone | src-tauri/src/lib.rs:80-82 | a finished flush has written every writable entry of the batch exactly once |
| CanvasPersistence.SaveWorker.Receive | src-tauri/src/lib.rs:67-70 | a message overwrites the project's pending entry |
| CanvasPersistence.SaveWorker.Flush | src-tauri/src/lib.rs:79-82 | the flush loop adds the writable entries of the batch to the store, writing each exactly once with its value, and only appends to the log |
| CanvasPersistence.SaveWorker.Handle | src-tauri/src/lib.rs:64-82 | one event moves the worker as the state machine says; a message writes nothing; a timeout or a disconnection writes each writable pending entry (non-blank id) exactly once, with its value, and drops the entries with blank ids |
| CanvasPersistence.SaveWorker.Run | src-tauri/src/lib.rs:61-92 | the loop over events ends in the state machine's final state, and the writes it appends are exactly the flushes of that run (`Flushes`), one segment per flush, each writing that batch's accepted entries once with their values |
| CanvasPersistence.WritesEachLength | src-tauri/src/lib.rs:79-82 | a flush appends exactly as many writes as the batch has entries with non-blank ids |
| CanvasPersistence.FlushesAppend | src-tauri/src/lib.rs:65-91 | the batches flushed by two event sequences in turn are those of the first followed by those of the second |
| CanvasPersistence.LogStep | src-tauri/src/lib.rs:65-82 | one more loop turn extends the run's log by nothing for a message and by one flush segment for a timeout or a disconnection |
| CanvasPersistence.RunStop | src-tauri/src/lib.rs:72-91 | once the loop has stopped, the remaining events add no flush and no write |
| CanvasPersistence.LogOfNonBlank | src-tauri/src/lib.rs:94-97 | no write in a run's log carries a blank project id |
| CanvasPersistence.BurstFlushesNothing | src-tauri/src/lib.rs:67-70 | a burst of messages flushes no batch |
| CanvasPersistence.BurstThenIdleFlushes | src-tauri/src/lib.rs:65-82 | a burst for one project from an empty pending map, then a timeout, flushes exactly one batch: that project's last snapshot |
| CanvasPersistence.WritesOne | src-tauri/src/lib.rs:79-82 | flushing a one-entry batch with a non-blank id is exactly one write of that entry |
| CanvasPersistence.BurstThenIdleLog | src-tauri/src/lib.rs:61-92 | debouncing, for the log: any number of saves for one project, from an empty pending map, followed by silence give exactly one file write, of the last snapshot |
| CanvasPersistence.SaveWorker.Enqueue | src-tauri/src/lib.rs:170-179 | a blank id is refused with "projectId 不能为空", a stopped worker with "画布保存队列已关闭"; otherwise the message is taken in |

## Left out

- `search_memory` and `score_match` (lib.rs:326-343, 434-484): f32 arithmetic, `sqrt` and
  the wall clock. Only the tokenizer they use is modelled.
- The memory items' `importance` and `updatedAt`: only the retriever reads them, so
  the model keeps only the content.
- `compress_json_lz4_base64` and `decompress_json_lz4_base64`: wrappers over the lz4, base64
  and serde libraries.
- `log_frontend` and `run`: logging and application wiring.
- HTTP: the request, its timeout and headers become a `Response` value given to the cache
  operations. The status and body become fields of that value, and a failed send is a case.
- The filesystem:
  - the cache directory is a set of file names;
  - `create_dir_all`, the temporary file, `rename` and the `AppHandle` path lookups are left out;
  - writes and reads always succeed.
- SHA-256: the hex digest is a function parameter. The canvas store is keyed by project id,
  which takes the hash of the id to be collision-free.
- URL parsing in `extension_from_url`: it becomes a parameter holding the extension of the
  parsed URL path.
- `serde_json::to_vec`/`from_slice`: taken to round-trip, so the store holds snapshot
  values.
- Threads, the channel, `OnceLock` and the 650 ms `recv_timeout`: they become the event
  sequence `Msg | Timeout | Disconnected`.
  - The model does not capture the race between two writers.
  - It treats the worker's loop and the enqueuing side as one object.
  - A send fails exactly when the worker has stopped.
- HashMap iteration order in the flush: it is a nondeterministic choice. The contracts hold
  for any order.
- GraphResolver.CollectUpstreamInputs: the contracts state membership, validity and
  uniqueness. They leave three things open:
  - the order of the blocks, which follows the order of the edges through the index lists;
  - which config node a block names, which in the code is the first one that reaches it;
  - which edge a block's role comes from.
- Tokenizer.Tokenize: `to_lowercase` is modelled as ASCII lower-casing (`Text.AsciiLower`).
  Unicode case mapping, including mappings that change the length, is not modelled.
- Integers: `i64`/`usize`/`u64` are unbounded `int`/`nat`. The sizes involved stay far from
  the bounds, and `clamp_i64` results are cast back to `usize` only when non-negative.
- Error messages other than the two project-id strings are abstract cases (`Transport`,
  `HttpStatus`, `TooLarge`), not the source's formatted strings.

## Notes on the code

Places where the behaviour of the code differs from the natural reading of its design.
The model follows the code in each:

- **Small budgets.** A positive `maxChars` below 2000 is clamped up to 2000
  (`ContextAssembler.SmallBudgetRaised`). A configured `maxChars` of 50 therefore acts as
  2000, and the tier choice is made against 2000.
- **Sizes are bytes.** The size budget is the sum of `.len()`, which counts UTF-8 bytes, not
  characters. A CJK character counts three.
- **Zero limits never occur.** Every limit of at most 0 takes its default before clamping,
  so all limits are at least 1 (`ContextAssembler.ResolveLimits`). The lower bound 0 in some
  clamp ranges is never reached, and the `> 0` guards always hold.
- **Extension-less URLs skip the fast path.** The cache hit check only uses the URL's own
  extension. A URL without one is fetched again on every call, even though its file exists
  (`AssetCache.ExtensionlessUrlAlwaysFetches`). A URL with one hits from the second call on
  (`AssetCache.ImageSecondCallHits`).
- **`normalize_text` is not idempotent.** `replace("\r\n", "\n")` is one left-to-right pass,
  so "\r\r\n" becomes "\r\n" (`Text.NormalizeNotIdempotent`). Normalised text without carriage
  returns is stable (`Text.NormalizeFixpoint`).
- **Tier 2 can be larger than tier 1.** Tier 2 cuts the canvas to 360 characters even when
  `maxCanvasChars` is smaller, so tier 2 is not always smaller than tier 1
  (`ContextAssembler.Tier2CanExceedTier1`, with a concrete case in
  `ContextAssembler.Tier2ExceedsTier1Example`). `ContextAssembler.MinimalIsSmallest` states
  the ordering that does hold.
- **The project-id check is repeated in the worker.** `enqueue_save_project_canvas` refuses
  blank ids, and the worker's save refuses them again. `CanvasPersistence.ValidatedRunWritesAll`
  shows that, with enqueuing as the only producer, every pending entry is written.
