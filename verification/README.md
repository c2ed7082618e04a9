# updatesparser, modelled in Dafny

`updatesparser` reads an `updateinfo.xml` feed, a list of `<update>` records as
published by RPM repositories, and writes a changelog. Each update is streamed
out of the XML and decoded. Its `date` attribute is Unix seconds and its
reference `href`s are URLs. The update is then filtered by type, by an issued-date
window and by a package allow-list. Each update that survives is rendered right
away through a text template (`header`, a `body` per update, a `join` between
consecutive bodies, `footer`), or it is buffered and written at the end as one
JSON array.

This project models that pipeline:

| file | module | what it holds |
|---|---|---|
| `wrappers.dfy` | `Wrappers` | `Option` and `Result` |
| `strconv.dfy` | `Strconv` | Go's `strconv.ParseInt(s, 10, 64)` and `FormatInt(n, 10)`, with their round trip |
| `strings.dfy` | `Strings` | `strings.TrimSpace`, the first `|` field of `strings.Split`, `bufio.ScanLines` |
| `json.dfy` | `Json` | the JSON value tree and `omitempty` members |
| `types.dfy` | `Types` | the `Update`, `Reference`, `Package` and `Issued` records, the date codec, the decoding of one `<update>` and its JSON projection |
| `times.dfy` | `Times` | the part of Go's `time.Time` the filter uses: `time.Unix`, `Time.Unix`, `Before`, `After` |
| `errors.dfy` | `Errors` | the errors the pipeline returns, one constructor per origin |
| `filter.dfy` | `Filter` | the filter configuration and its options, `parseTime`, `readPackagesFile`, and the keep/drop predicate |
| `parser.dfy` | `Parser` | `Parse`: the streaming decode–filter–handle loop |
| `output.dfy` | `Output` | the output configuration, its options, and the template-versus-JSON choice |
| `render.dfy` | `Render` | `ParseToOutput`: both strategies and the close-error rule; `ParseFileToOutput` |
| `scenarios.dfy` | `Scenarios` | concrete runs of the pipeline on small inputs |

The main choices:

- **Token stream.** The XML tokenizer is replaced by a sequence of `Item`s: an
  `<update>` element with its raw attribute texts, an `<update>` element holding
  malformed XML, any other token, or a tokenizer failure.
- **Custom attribute decoders.** `date.UnmarshalXMLAttr` and the reference-list
  decoding run inside the model. URL parsing is a parameter: the parser returns
  `None` to reject an `href`, or `Some` with the URL's canonical text.
- **Handler.** A handler is a function `(S, Update) -> Step<S>`. What it did
  before failing stays in its state.
- **Template execution.** It is modelled as the list of sections written, in
  order. Whether a section fails is a parameter of the sink. So are the
  outcomes of marshalling and writing the JSON document and of closing the
  output file.
- **Time.** An update's date is kept as its Unix seconds. The filter bounds
  are Go times: whole seconds since January 1 of year 1, held in an int64,
  plus nanoseconds. `time.Unix(ts, 0)` adds 62135596800 seconds in int64
  arithmetic, so it wraps for the last 62135596800 seconds of the int64 range.
  The filter compares times the way Go does, so the wrap is part of the model.
  The default `beforeDate` (`time.Now()` plus 100 years) is a parameter of
  `NewFilterConfig`.

The central theorem is `Parser.ParseIsDecodeFilterApply`. It shows that the
streaming loop equals three separate stages:

1. decode up to the first decode error;
2. keep the admitted updates, in input order;
3. run the handler over them until its first error.

The lemmas about handler order, the error abort, the template sections and the
JSON buffer are stated against those stages.

## Model

| member | source | states |
|---|---|---|
| `Strconv.ParseInt` | updatesparser/pkg/types/updateinfo.go:63 | succeeds exactly on an optionally signed, non-empty digit string whose value lies in int64, returning that value; an in-form literal out of range is a range error |
| `Strconv.ParseUint` | updatesparser/pkg/parser/parser.go:356 | the unsigned digit scan succeeds exactly on a non-empty digit string of value at most 2^64-1 and returns that value; digits beyond that are a range error |
| `Strconv.ScanUintCorrect` | updatesparser/pkg/parser/parser.go:356 | the left-to-right digit loop with its overflow check accepts exactly the digit strings at most 2^64-1 and computes their value |
| `Strconv.FormatInt` | updatesparser/pkg/types/updateinfo.go:55 | the text is a decimal literal denoting `n` and never begins with `+` |
| `Strconv.FormatIntRoundTrip` | updatesparser/pkg/types/updateinfo.go:53-71 | parsing the formatted text of any int64 gives it back |
| `Strconv.ParseIntFormatCanonical` | updatesparser/pkg/types/updateinfo.go:53-71 | re-formatting a parsed date attribute reproduces the text exactly when it had no `+`, no leading zeros and no `-0` |
| `Strconv.FormatUintUnique` | updatesparser/pkg/types/updateinfo.go:55 | a digit string without leading zeros is the formatted text of its own value |
| `Times.Wrap64` | updatesparser/pkg/types/updateinfo.go:67 | the result is an int64 congruent to the input modulo 2^64, and is the input itself when that is an int64 |
| `Times.Unix` | updatesparser/pkg/types/updateinfo.go:67 | `time.Unix(ts, 0)` has no nanoseconds and int64 seconds: `ts + 62135596800` below the wrap, that minus 2^64 above it |
| `Times.UnixRoundTrip` | updatesparser/pkg/types/updateinfo.go:53-71 | `Time.Unix` (`UnixSeconds`) gives back the seconds `time.Unix` was given, wrap or no wrap, so the JSON date is the attribute's value |
| `Times.AfterIsConverse` | updatesparser/pkg/parser/parser.go:229 | `After` is `Before` with its arguments swapped, and no time is before or after itself |
| `Times.UnixOrder` | updatesparser/pkg/parser/parser.go:229 | below the wrap, `Before` and `After` on two `time.Unix` times compare their seconds |
| `Times.UnixWraps` | updatesparser/pkg/parser/parser.go:229 | past the wrap the order breaks: the time of the largest int64 second is before that of 1700000000 |
| `Strings.TrimSpace` | updatesparser/pkg/parser/parser.go:340 | the result is the input with leading and trailing white space removed: it neither starts nor ends with a space, and it is empty exactly when the line was all white space |
| `Strings.FirstField` | updatesparser/pkg/parser/parser.go:340-341 | the result is the longest prefix without `|`; it is the whole string or is followed by `|` |
| `Strings.ScanLines` | updatesparser/pkg/parser/parser.go:336-338 | no line holds a newline |
| `Strings.ScanLinesCount` | updatesparser/pkg/parser/parser.go:336-342 | there is one line per newline, plus one for unterminated trailing text |
| `Strings.ScanLinesUnlines` | updatesparser/pkg/parser/parser.go:336-342 | for newline-terminated text without carriage returns, joining the lines back with newlines restores the file |
| `Json.Lookup` | updatesparser/pkg/types/updateinfo.go:32-44 | the lookup finds a member exactly when one has that key, and the value found belongs to such a member |
| `Json.LookupAppend` | updatesparser/pkg/types/updateinfo.go:32-44 | a key in a concatenation of member lists is found in the first part that has it |
| `Json.OmitEmpty` | updatesparser/pkg/types/updateinfo.go:34-38 | a string field tagged `omitempty` yields its key exactly when it is non-empty, and no other key |
| `Json.OmitEmptyList` | updatesparser/pkg/types/updateinfo.go:41-43 | a slice field tagged `omitempty` yields its key exactly when it is non-empty, and no other key |
| `Types.DecodeDate` | updatesparser/pkg/types/updateinfo.go:62-71 | the attribute decodes exactly when it is a base-10 int64 literal, to that many seconds; otherwise it fails with a date error carrying the text |
| `Types.DecodeReferences` | updatesparser/pkg/types/updateinfo.go:88-95 | decoding succeeds exactly when every `href` parses; the references keep their count, order and fields; a failure names the first rejected `href` |
| `Types.DecodeUpdate` | updatesparser/pkg/types/updateinfo.go:32-51 | an element decodes exactly when its date (if any) is an int64 literal and every `href` parses; the date is checked first; each reference is its parsed `href` with its id, title and type; all other fields and the package list are copied unchanged and in order |
| `Types.MarshalIssued` | updatesparser/pkg/types/updateinfo.go:53-56 | the JSON date is a quoted run of digits and minus signs |
| `Types.IssuedRoundTrip` | updatesparser/pkg/types/updateinfo.go:53-71 | the text between the quotes decodes back, as a `date` attribute, to the stored seconds |
| `Types.UpdatesJson` | updatesparser/pkg/parser/parser.go:299 | the JSON document is an array holding each buffered update's object, in buffer order |
| `Types.UpdateJsonFields` | updatesparser/pkg/types/updateinfo.go:32-44 | the value under each key of an update's JSON object (`UpdateJson`): the five strings only when non-empty, the date always, the two lists only when non-empty, and no other key |
| `Types.PackageJsonFields` | updatesparser/pkg/types/updateinfo.go:101-108 | the value under each key of a package's JSON object (`PackageJson`): the four strings only when non-empty, and no other key |
| `Types.ReferenceJsonFields` | updatesparser/pkg/types/updateinfo.go:75-81 | the value under each key of a reference's JSON object (`ReferenceJson`): `href` always, because it is a struct; id, title and type only when non-empty; no other key |
| `Types.JsonHidesInternalFields` | updatesparser/pkg/types/updateinfo.go:35-39 | `status`, the top-level `release` and a package's `filename` never appear in JSON |
| `Types.JsonListsKeepOrder` | updatesparser/pkg/types/updateinfo.go:41-43 | the references and packages arrays appear exactly when non-empty and list every element in record order |
| `Filter.ParseTime` | updatesparser/pkg/parser/parser.go:350-364 | with an empty format, succeeds exactly on an int64 literal and returns the time `time.Unix` makes of it; a failure is a date error carrying the text; with a format, the layout parser's time or its error |
| `Filter.ReadPackagesFile` | updatesparser/pkg/parser/parser.go:323-348 | an empty path gives the empty list; otherwise a read failure is a packages error, and on success there is one entry per line, namely the trimmed line up to its first `|` |
| `Filter.PackageLineRule` | updatesparser/pkg/parser/parser.go:339-341 | a blank line contributes `""`; a line without `|` contributes its trimmed text |
| `Filter.ApplyFilterOpt` | updatesparser/pkg/parser/parser.go:75-126 | the format and type options always succeed and set their field to the value given; a time option succeeds exactly when `parseTime` does, under the format set so far, and stores its time or returns its error; a packages option succeeds exactly when the file reads and stores its entries; each option sets only its own field |
| `Filter.ApplyFilterOpts` | updatesparser/pkg/parser/parser.go:133-138 | a list of format, type and empty-path packages options always succeeds; a field that no option names (date format, either bound, type, allow-list) keeps its value |
| `Filter.NewFilterConfig` | updatesparser/pkg/parser/parser.go:128-140 | no options give the defaults (`afterDate` the epoch as `time.Unix(0, 0)`, `beforeDate` the given default, no date format, no type, empty allow-list), and a field no option names keeps its default |
| `Filter.ApplyFilterOptsAppend` | updatesparser/pkg/parser/parser.go:133-138 | running two option lists in turn is running their concatenation, stopping at the first failure |
| `Filter.FirstFailingOption` | updatesparser/pkg/parser/parser.go:133-138 | the first option that fails decides the error returned |
| `Filter.LastUpdateTypeWins` | updatesparser/pkg/parser/parser.go:121-126 | a later update-type option overwrites earlier ones and cannot fail |
| `Filter.BeforeTimeWithoutFormat` | updatesparser/pkg/parser/parser.go:84-93 | with no date-format option before it, a before-time option reads Unix seconds: it succeeds exactly on an int64 literal and sets the time `time.Unix` makes of it |
| `Filter.AnyListed` | updatesparser/pkg/parser/parser.go:230-236 | true exactly when some package's name is in the allow-list |
| `Filter.KeepIffAdmits` | updatesparser/pkg/parser/parser.go:222-238 | the code's chain of checks (`Keep`) is exactly the conjunction of the type, date-present, strict window and package rules, the window being compared on the times `time.Unix` makes, wrap-around included |
| `Filter.BoundsAreExcluded` | updatesparser/pkg/parser/parser.go:229 | an update whose time equals either bound is dropped |
| `Filter.WindowOfUnixBounds` | updatesparser/pkg/parser/parser.go:229 | with both bounds set from Unix seconds and nothing in the wrapping range, the window is the open interval between the two numbers |
| `Filter.LargestUpperBoundDrops` | updatesparser/pkg/parser/parser.go:229 | a `beforeDate` of 9223372036854775807 seconds wraps to a time before 2023, so an update dated 1700000000 is dropped |
| `Filter.PackageListRule` | updatesparser/pkg/parser/parser.go:230-238 | with a non-empty allow-list an update without packages is dropped; with an empty one only the type and window rules remain |
| `Parser.Parse` | updatesparser/pkg/parser/parser.go:205-250 | every update handed to the handler satisfies all four filter rules, so it has a date whose time, as Go orders times, lies strictly between the bounds; the handler is called at most once per item |
| `Parser.Decoded` | updatesparser/pkg/parser/parser.go:215-221 | every decoded date is an int64 |
| `Parser.Kept` | updatesparser/pkg/parser/parser.go:222-238 | every kept update is admitted, every admitted update is kept, and nothing is kept more often than it occurs |
| `Parser.KeptSingle` | updatesparser/pkg/parser/parser.go:222-238 | a single update is kept exactly when the rules admit it |
| `Parser.KeptAppend` | updatesparser/pkg/parser/parser.go:207-247 | filtering preserves input order: a concatenation is filtered part by part |
| `Parser.Apply` | updatesparser/pkg/parser/parser.go:239-242 | the handler sees a prefix of its input, all of it when nothing fails, and at least one update when something fails |
| `Parser.ParseIsDecodeFilterApply` | updatesparser/pkg/parser/parser.go:205-250 | the streaming loop equals decoding, then filtering, then handling; a handler error wins over a later decode error |
| `Parser.ParseHandlesKept` | updatesparser/pkg/parser/parser.go:205-250 | a run without error met no decode error and handled exactly the admitted updates, in input order |
| `Parser.ParseHandlesPrefixOfKept` | updatesparser/pkg/parser/parser.go:205-250 | whatever the outcome, the handler saw an input-ordered prefix of the admitted updates |
| `Parser.ApplyStopsAtFirstFailure` | updatesparser/pkg/parser/parser.go:239-242 | when the handler fails on the k-th update, that failure is returned and nothing after it is handled |
| `Parser.ParseStopsAtHandlerError` | updatesparser/pkg/parser/parser.go:239-242 | `Parse` returns the handler's error on the k-th admitted update, and that update is the last one handled |
| `Parser.DecodedAppend` | updatesparser/pkg/parser/parser.go:207-221 | decoding a stream in two parts reads the second part only when the first ends without error |
| `Parser.DecodeErrorEndsStream` | updatesparser/pkg/parser/parser.go:219-221 | an element that fails to decode ends the decode stage with its error, and nothing after it is decoded |
| `Parser.MalformedElementEndsStream` | updatesparser/pkg/parser/parser.go:219-221 | an `<update>` holding malformed XML ends the decode stage with a decoding-element error, and nothing after it is decoded |
| `Render.Emit` | updatesparser/pkg/parser/parser.go:265-287 | a section executed successfully is appended to the output; a failed one leaves the output as it was and returns the sink's message as a write error |
| `Render.TemplateStep` | updatesparser/pkg/parser/parser.go:269-282 | the template handler (`TemplateHandler`) only extends the output, and only with a `join` or the body of its update |
| `Render.RenderTemplate` | updatesparser/pkg/parser/parser.go:263-287 | on success the output is header, the kept updates' bodies joined, and footer; an error means no footer was written; any output starts with the header |
| `Render.TemplateApplyOutcome` | updatesparser/pkg/parser/parser.go:269-282 | after the header, the handler keeps the header first and never writes a footer; without error the output is header then the joined bodies |
| `Render.TemplateRunShape` | updatesparser/pkg/parser/parser.go:264-282 | the `first` flag puts a `join` exactly between consecutive bodies |
| `Render.JoinedCounts` | updatesparser/pkg/parser/parser.go:269-282 | N bodies carry N-1 joins (none for N of 0 or 1) and 2N-1 sections in all |
| `Render.JoinedShape` | updatesparser/pkg/parser/parser.go:269-282 | bodies sit at even positions in input order and joins at odd positions |
| `Render.BodiesOfJoined` | updatesparser/pkg/parser/parser.go:276 | the bodies written are the updates handled, in order |
| `Render.FramedCounts` | updatesparser/pkg/parser/parser.go:265-287 | between header and footer: one header, one footer, N-1 joins, and the N bodies in order |
| `Render.TemplateSectionCounts` | updatesparser/pkg/parser/parser.go:263-287 | a successful template run writes one header and one footer, N-1 joins for N kept updates and their bodies in order; with none, just header and footer |
| `Render.TemplateFailsOnlyOnDecode` | updatesparser/pkg/parser/parser.go:263-287 | with a sink that never fails, the template strategy fails exactly with the decode stage's error |
| `Render.TemplateNeverFails` | updatesparser/pkg/parser/parser.go:269-282 | the template handler cannot fail when section execution cannot |
| `Render.BufferIsHandled` | updatesparser/pkg/parser/parser.go:289-293 | the JSON handler (`BufferHandler`) never fails, and the buffer ends up holding exactly the updates handed to it, in order |
| `Render.BufferParseOutcome` | updatesparser/pkg/parser/parser.go:289-297 | `Parse` with the buffering handler buffers exactly the kept updates and returns only the decode stage's error |
| `Render.RenderJson` | updatesparser/pkg/parser/parser.go:289-305 | buffered updates are admitted and so carry dates; without a decode error the buffer is the kept updates; a decode error is returned with nothing marshalled; a marshal failure is returned with nothing written; otherwise the document is the kept updates' JSON array and the outcome is the write's |
| `Render.RunStrategy` | updatesparser/pkg/parser/parser.go:262-306 | JSON writes no template sections and a template writes no document; on success the output is the JSON array or the framed sections of the kept updates |
| `Render.ParseToOutput` | updatesparser/pkg/parser/parser.go:252-261 | closing the output file comes last: its error surfaces only when the strategy succeeded, and without an output file the strategy's outcome is returned unchanged |
| `Render.ParseFileToOutputAsWritten` | updatesparser/pkg/parser/parser.go:308-321 | an input file that cannot be opened yields no error and no output; otherwise the run, then the input close whose error surfaces only after success |
| `Render.ParseFileToOutput` | updatesparser/pkg/parser/parser.go:308-321 | corrected: an open failure is returned as an open error on the path; success means the file opened and closed cleanly and the whole input decoded |
| `Render.OpenFailureLooksLikeSuccess` | updatesparser/pkg/parser/parser.go:309-312 | the same open failure is success as written and the open error when corrected |
| `Output.ApplyOutputOpt` | updatesparser/pkg/parser/parser.go:144-183 | JSON, writer and template options always succeed and set the flag, the output or the template (nil included) to the value given; an output-file option succeeds exactly when the file is created, redirects the output and is the file closed at the end, or returns a create error; a template-file option succeeds exactly when the file parses and stores its template, or returns a template error; each option sets only its own fields |
| `Output.ApplyOutputOpts` | updatesparser/pkg/parser/parser.go:189-194 | JSON is on exactly when some option asks for it; a template is left only when one was there or some option sets one, and, when no option passes a nil template, exactly then; fields that no option names keep their values; a failure comes from a file or template-file option |
| `Output.ApplyOutputOptsAppend` | updatesparser/pkg/parser/parser.go:189-194 | running two option lists in turn is running their concatenation, stopping at the first failure |
| `Output.LastTemplateOptionWins` | updatesparser/pkg/parser/parser.go:170-175 | after `WithTemplate(t)` and no later template option, the template is `t`, nil included |
| `Output.ResolveStrategy` | updatesparser/pkg/parser/parser.go:195-199 | JSON wins over a template, with the warning raised exactly then; with neither, the built-in template is installed; the output is untouched |
| `Output.NewOutputConfig` | updatesparser/pkg/parser/parser.go:185-201 | the result can always be rendered; JSON is chosen exactly when requested; the warning needs both JSON and a template-setting option, and when no option passes a nil template it is raised exactly then; with no template-setting option and no JSON the built-in template is installed; the output defaults to standard output with nothing to close |
| `Output.WriterAfterFileStillClosesFile` | updatesparser/pkg/parser/parser.go:151-168 | a writer given after an output file redirects the output, but the file is still the one closed |
| `Output.NilTemplateClearsEarlier` | updatesparser/pkg/parser/parser.go:170-175 | a nil template after earlier template options removes them: no warning, and without JSON the built-in template is installed |
| `Render.JsonWinsOverTemplate` | updatesparser/pkg/parser/parser.go:195-199 | when JSON is requested the run writes no template sections, and on success produces the JSON array of the kept updates |
| `Scenarios.TypeFilterKeepsMatching` | updatesparser/pkg/parser/parser.go:222-224 | of a security update inside the window and a bugfix, a security-only filter keeps and hands on just the first |
| `Scenarios.SecurityOnly` | updatesparser/pkg/parser/parser.go:222-229 | the same with the two updates dated 1700000000 and 1700000100 |
| `Scenarios.EmptyPackagesExcluded` | updatesparser/pkg/parser/parser.go:230-238 | an update with no packages is never handled under a non-empty allow-list |
| `Scenarios.MalformedDateStops` | updatesparser/pkg/types/updateinfo.go:62-66 | `date="not-a-number"` fails its element with a syntax error before anything is handled |
| `Scenarios.JsonAndTemplate` | updatesparser/pkg/parser/parser.go:185-201 | JSON plus a custom template gives a JSON configuration with the warning raised, and the run writes no template section |

## Left out

- The XML tokenizer and `DecodeElement`. The input is the sequence of items they would yield. A tokenizer failure is one `BadToken` item; an `<update>` whose content `DecodeElement` rejects is one `MalformedElement` item. Element decoding beyond the two custom attribute decoders is a plain copy of the raw fields.
- `url.Parse` and the canonical re-serialisation of a URL. Both are the `parseUrl` parameter.
- `text/template`, and the default template's text. A section is an abstract token. A section whose execution fails is modelled as writing nothing, although Go may have written part of it.
- `time.Parse` with a non-empty date format. It is the `parseLayout` parameter.
- `time.Now()`. The default `beforeDate` is a parameter.
- Time zones and monotonic clock readings. Go's `Before` and `After` ignore the zone, and none of the times compared here carries a monotonic reading (`AddDate` strips it), so both are left out. Nanoseconds are kept, because the default upper bound can carry them.
- File I/O. `os.Create`, `os.Open`, the reading of the package file and writing to the output are parameters or outcomes of the sink and host records. So are the `Close` errors.
- `json.MarshalIndent`'s byte layout (indentation, escaping). The model stops at the JSON value tree handed to the writer.
- `Render.RenderJson`: whether `json.MarshalIndent` fails is the sink's `marshal` parameter. The cause in the code is not modelled: `href.MarshalJSON` (updateinfo.go:97-99) quotes with Go's `%q`, whose `\U` and `\x` escapes are not JSON, and the encoder rejects them.
- A nil `io.Writer` given to `WithWriter`. `Sink` has no nil value; Go would fail at the first write.
- `bufio.Scanner`'s 64 KiB line limit, and its scan error. Both are a read failure of the package file.
- `updatesparser/cmd/updatesparser/root.go` is the command-line wiring and is not part of this model. At root.go:54 the after-date flag is passed to `WithBeforeTime`, so the command line never sets `afterDate`.
- The stderr warning of `NewOutputConfig`. It is the `warned` flag of `Resolved`.
- The partial write of a failing JSON write.
- The decode error when an element has both a malformed date and a malformed `href`. The model reports the date error, because `RawUpdate` does not keep the relative document order of the two attributes.
- `Strings.ScanLines`: the lines of a file are stated by count and by the round trip for newline-terminated text without carriage returns. A `\r` before a newline is dropped, as `bufio.ScanLines` does, but no separate lemma covers that case.
- `Render.JsonWinsOverTemplate`, `Scenarios.EmptyPackagesExcluded` and `Strconv.FormatIntRoundTrip` follow directly from the contracts of the members they use.

## Findings

| source | as written | input that shows it | evidently intended | confidence | as-written member | corrected member |
|---|---|---|---|---|---|---|
| updatesparser/pkg/parser/parser.go:309-312 | when `os.Open` of the input XML fails, `ParseFileToOutput` returns `nil` | a path that does not exist: the call reports success and writes nothing | return the open error | high; not executed | `Render.ParseFileToOutputAsWritten` | `Render.ParseFileToOutput` |
