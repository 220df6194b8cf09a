# Ballerina language-server bridge: message rewriting and launch rules

The bridge runs a Ballerina language server for a browser editor. The browser names files
with the virtual `SCHEME:` (and `file:///web-bala%3A/`, `expr:`) forms. The server runs on
real paths under `BASE_DIR` and `BASE_REPO_DIR`. Every JSON-RPC message between them passes
through the `forward` callback:

- the serialised message is rewritten as text (`resolveAbsolutePath`) and parsed back;
- a request then goes through the method-keyed `switch` of `resolveRequestPath`;
- a response goes through `resolveResponseMessage`, which rewrites the design model's file locations;
- a notification goes through `resolveNotification`, which turns `expr:` documents into file URIs;
- a configured handler may replace the result.

The four path normalisers the `switch` calls are modelled as pure functions of their input.

The server is started by `runBalServer`:

- It checks for the custom language-server jar.
- It gathers the distribution's jars, minus the exclude patterns, for the classpath.
- It picks the highest-versioned `jdk-*-jre` directory.
- It assembles the JVM arguments (debug agent, `-cp`, home, main class, custom arguments)
  and the process environment (`BALLERINA_CLASSPATH_EXT`).

The reading of the `bal version` report in `getBallerinaHome` is modelled as a pure function.

Layout, one module per file:

- `text.dfy` (`Text`): the JavaScript string operations used (`includes`, `startsWith`,
  `split`, `join`, global and first-match `replace`, `trim`).
- `js.dfy` (`Js`): JSON values, truthiness, property reads and writes that may throw, and `parseInt` with
  radix 10 and without a radix (where `0x` selects hex).
- `platform.dfy` (`Platform`): the imported configuration (`SCHEME`, `BASE_DIR`, `BASE_DIR_1`,
  the language name, the process id) and the library helpers. The helpers are `URI.parse`,
  `URI.file`, `fileURLToPath`, `decodeURIComponent`, `path.join`, `path.normalize` and
  `JSON.stringify`/`JSON.parse`; all are parameters, so every result holds for any of them.
- `messages.dfy` (`Messages`): the message object as a class with a mutable map of its
  properties, and the `Message.isRequest`/`isResponse`/`isNotification` tests.
- `absolute.dfy`, `paths.dfy`, `requests.dfy`, `responses.dfy`, `notifications.dfy`,
  `version.dfy`: src/bal_ls/utils.ts.
- `jdk.dfy`, `jars.dfy`, `launch.dfy`, `forward.dfy`: src/bal_ls/index.ts.

A JavaScript exception is the value `Throws` of `Js.Result`. A rewriter that changes the
message in place is a method with `modifies` on the message. It is specified by a pure
function of the old properties, and its `ensures` keeps the updates made before a throw.
The host platform is fixed to non-Windows: `file://`, `:` and `java`.

## Model

| member | source | states |
|---|---|---|
| Absolute.ResolveAbsolutePath | src/bal_ls/utils.ts:56-73 | the parsed message is the parse of the rewritten text; a parse failure throws |
| Absolute.ClientMarker | src/bal_ls/utils.ts:59 | the client marker `SCHEME:` is never empty |
| Absolute.ClientMessageRewritten | src/bal_ls/utils.ts:59-60 | a text mentioning `SCHEME:` has every occurrence replaced by `file://BASE_DIR` and nothing else changed: no server-side replacement runs |
| Absolute.UnmarkedTextKept | src/bal_ls/utils.ts:59-71 | a text is changed only if it mentions `SCHEME:`, `BASE_DIR`, `bala:/` or `file:/` |
| Absolute.ServerChainNeedsBaseDir | src/bal_ls/utils.ts:66-70 | the server-side chain leaves a text naming neither base directory unchanged |
| Absolute.ServerUriRelocated | src/bal_ls/utils.ts:61-70 | a server message `file://BASE_DIR<rest>` becomes `SCHEME:<rest>` when neither directory recurs |
| Paths.NormalizePath | src/bal_ls/utils.ts:406-430 | a `file://` URI becomes `fileURLToPath` of it (and throws when that throws); a `/`-rooted path outside `BASE_REPO_DIR` is joined to it without its slash; everything else is kept |
| Paths.NormalizePathIdempotentOnKept | src/bal_ls/utils.ts:413-429 | on an input it keeps, such as a path under `BASE_REPO_DIR`, `normalizePath` is idempotent |
| Paths.NormalizeTypePath | src/bal_ls/utils.ts:431-465 | outside the three stray-prefix forms it agrees with `normalizePath` |
| Paths.NormalizeTypePathSlashFileUri | src/bal_ls/utils.ts:433-438 | `/file:///x` loses its slash, has its backslashes folded, and becomes the `fileURLToPath` result |
| Paths.NormalizeTypePathBackslashFileUri | src/bal_ls/utils.ts:433-438 | `\file:///x` loses its backslash, has its backslashes folded, and becomes the `fileURLToPath` result, exactly as `/file:///x` does |
| Paths.NormalizeTypePathFormFeed | src/bal_ls/utils.ts:433-439 | the form-feed form only has its backslashes folded, while `normalizePath` would keep it unchanged |
| Paths.NormalizeFilePathForSyntaxTree | src/bal_ls/utils.ts:466-483 | `file:///X` without `web-bala%3A` and `file:///web-bala%3A/X` both become `BASE_PREFIX + X`; a non-`file:///` input is kept, and so is a `file:///` input that holds `web-bala%3A` anywhere but right after `file:///` followed by a slash |
| Paths.EncodedPrefixContainsScheme | src/bal_ls/utils.ts:470-476 | the encoded prefix form always fails the first test, so only the second case can apply to it |
| Paths.SyntaxTreeNotIdempotent | src/bal_ls/utils.ts:466-473 | applying the syntax-tree normaliser twice re-roots `file:///x` twice |
| Paths.SyntaxTreeKeepsEmbeddedScheme | src/bal_ls/utils.ts:470-482 | for every `file:///x web-bala%3A y`: re-rooted when the part after `file:///` starts with `web-bala%3A/`, returned unchanged otherwise |
| Paths.NormalizeFilePathForSyntaxTreeModify | src/bal_ls/utils.ts:486-506 | a non-`file:///` input is kept, as is one whose path already starts with `BASE_REPO_DIR`; the encoded form and other paths become `URI.file` of the path joined to `BASE_REPO_DIR` without leading slashes |
| Messages.WithParams | src/bal_ls/utils.ts:75-356 | updating `params` in place keeps every other message property, and an absent `params` stays absent |
| Messages.WithOwnParams | src/bal_ls/utils.ts:353-356 | writing back the `params` read leaves the message as it was |
| Requests.ResolveRequestPath | src/bal_ls/utils.ts:75-357 | the method runs the case bodies its method selects, falling through where a `break` is missing; the message's new properties are those of the request outcome, with updates made before a throw kept |
| Requests.SelectClauses | src/bal_ls/utils.ts:76-355 | walking the `switch` from the matching label collects exactly the bodies up to the first `break` |
| Requests.CollectStep | src/bal_ls/utils.ts:76-355 | each collected clause keeps the invariant of the fall-through walk |
| Requests.EntryClause | src/bal_ls/utils.ts:76-353 | the label lookup is a valid clause index or the `default` clause |
| Requests.EntryOfLabel | src/bal_ls/utils.ts:76-353 | looking up `service/op` by service and then operation finds the clause with exactly that label |
| Requests.Clauses | src/bal_ls/utils.ts:76-353 | the clause table has one entry per case group of the `switch` |
| Requests.InitializeEntry | src/bal_ls/utils.ts:77-80 | `initialize` runs only the process-id body |
| Requests.InitializeSetsProcessId | src/bal_ls/utils.ts:77-80 | on object params only `processId` changes, to the bridge's pid; array params are unchanged; other params throw |
| Requests.RegisterEntry | src/bal_ls/utils.ts:81-87 | `client/registerCapability` runs only the selector body |
| Requests.RegistrationAppendsSelector | src/bal_ls/utils.ts:81-87 | exactly one `{language, scheme}` selector is appended to the first registration's document selectors, and nothing else changes |
| Requests.RegistrationEdgeCases | src/bal_ls/utils.ts:81-87 | missing params or registrations throw; an empty registration list is a no-op |
| Requests.RegistrationArrayLike | src/bal_ls/utils.ts:83-85 | an object `registrations` is read as an array-like: without a positive `length` it is a no-op; with one, a missing `"0"` entry throws and a reachable selector array of entry `"0"` gets the bridge's selector appended, nothing else changing |
| Requests.ArrayLikeSelector | src/bal_ls/utils.ts:83-85 | the selector body on an array-like `registrations`: no positive `length` is a no-op, a missing `"0"` throws, and a reachable selector array of entry `"0"` is extended by the bridge's selector |
| Requests.FlatFilePathLabel | src/bal_ls/utils.ts:88-116 | every method of the first `filePath` group selects only the flat `filePath` rewrite |
| Requests.UriFieldClauses | src/bal_ls/utils.ts:88-186 | the flat-field clauses rewrite `filePath`, `filePathUri`, `projectPath`, `configFilePath`, `documentFilePath` and `documentUri`, dropping the first character where the case calls `substring(1)` |
| Requests.UriFieldRuns | src/bal_ls/utils.ts:88-186 | a flat-field method's outcome is its one rewrite applied to `params` |
| Requests.UriFieldCases | src/bal_ls/utils.ts:110-115 | the field is rewritten to its URI path only when params is an object with a truthy field; absent, falsy or array params are kept; truthy primitives throw |
| Requests.UnlabelledMethodUnchanged | src/bal_ls/utils.ts:353-356 | a method whose lookup gives `default` comes back unchanged, `params` included |
| Requests.NoLabelSelectsDefault | src/bal_ls/utils.ts:76-353 | a name with no slash other than `initialize`, and a name whose service heads no label, select `default` |
| Requests.HoverUnchanged | src/bal_ls/utils.ts:353-356 | `textDocument/hover`, which no case names, is passed through unchanged |
| Requests.HoverEntry | src/bal_ls/utils.ts:76-353 | `textDocument/hover` selects `default` |
| Requests.PerformKeepsAbsent | src/bal_ls/utils.ts:76-355 | no case body creates a missing `params` |
| Requests.RunKeepsAbsent | src/bal_ls/utils.ts:76-355 | no sequence of case bodies creates a missing `params` |
| Requests.NoParamsNoChange | src/bal_ls/utils.ts:75-357 | a request without `params` is unchanged whatever its method, even when a body throws |
| Requests.RunOne | src/bal_ls/utils.ts:76-355 | one body throws or returns its result |
| Requests.RunTwo | src/bal_ls/utils.ts:236-260 | in a fall-through, the second body sees the first body's result, and a throw stops the run |
| Requests.SequenceEntry | src/bal_ls/utils.ts:236-254 | the sequence-diagram label is the clause without a `break` before `addResource` |
| Requests.FallFrom14 | src/bal_ls/utils.ts:236-260 | from the sequence-diagram clause the switch runs its body and then the `addResource` body |
| Requests.SelectsSequenceFallThrough | src/bal_ls/utils.ts:236-260 | the sequence-diagram request selects both bodies |
| Requests.SequenceRunsTwoBodies | src/bal_ls/utils.ts:236-260 | the sequence-diagram outcome is the path rewrite followed by the fixed-path write |
| Requests.SequenceDiagramPath | src/bal_ls/utils.ts:236-260 | the final `filePath` is the hard-coded `addResource` path, unless the first rewrite produced an empty path |
| Requests.SequencePathNoDuplicate | src/bal_ls/utils.ts:240-251 | a path already under `BASE_DIR` gets the same result as its remainder: `BASE_DIR` is not doubled |
| Requests.ArtifactsEntry | src/bal_ls/utils.ts:329-337 | `designModelService/artifacts` is the clause without a `break` before `expressionEditor/diagnostics` |
| Requests.FallFrom23 | src/bal_ls/utils.ts:329-344 | from the artifacts clause the switch runs the discarded parse, then the `filePath` normalisation |
| Requests.SelectsArtifactsFallThrough | src/bal_ls/utils.ts:329-344 | the artifacts request selects both bodies |
| Requests.ArtifactsRunsProbeThenNormalize | src/bal_ls/utils.ts:329-344 | the artifacts outcome is the probe followed by the normalisation |
| Requests.ArtifactsNormalizesFilePath | src/bal_ls/utils.ts:329-344 | `projectPath` is left untouched, and `filePath` becomes `normalizePath(filePath)` unless the discarded parse throws |
| Requests.ProbeKeepsParams | src/bal_ls/utils.ts:329-336 | a parse whose result is discarded changes nothing; it throws exactly when its guard or the parse throws |
| Requests.SyntaxTreeClauses | src/bal_ls/utils.ts:187-207 | the two syntax-tree methods select only the document-URI rewrite, each with its own normaliser |
| Requests.SyntaxTreeEntries | src/bal_ls/utils.ts:187-328 | the two syntax-tree labels name their own clauses |
| Requests.SyntaxTreeRunsDocumentUri | src/bal_ls/utils.ts:187-207 | a syntax-tree method's outcome is that rewrite |
| Requests.DocumentUriCases | src/bal_ls/utils.ts:189-206 | without a string `documentIdentifier.uri`, params are kept; with one, the URI becomes the normaliser's result, unless the unused decode throws |
| Requests.ServiceSpecGuard | src/bal_ls/utils.ts:147-151 | absent or falsy params, and object-like params without the `service.properties.designApproach.choices` chain, are kept; a truthy primitive throws at `in` |
| Requests.ServiceSpecRewrite | src/bal_ls/utils.ts:152-157 | past the guard, fewer than two choices, or a second choice without an object `properties.spec` chain, or a null `spec`, throw; a falsy or absent spec `value` keeps params; a truthy one becomes its URI path minus its first character |
| Requests.NormalizedClauses | src/bal_ls/utils.ts:208-352 | exactly these clauses normalise `filePath` with `normalizePath` (three after a discarded parse), and `expressionEditor/types` with `normalizeTypePath` |
| Requests.NormalizedClause | src/bal_ls/utils.ts:208-352 | each normalising clause runs its normalisation, after a discarded parse for the three flow-design cases |
| Requests.NormalizeFileFieldCases | src/bal_ls/utils.ts:262-266 | a truthy string `filePath` is replaced by the normaliser's result; a truthy non-string throws; absent, falsy or array params and a missing or falsy `filePath` are kept; truthy primitive params throw |
| Requests.ServiceEntry | src/bal_ls/utils.ts:76-353 | a two-part label names a valid clause index or `default` |
| Responses.ResolveResponseMessage | src/bal_ls/utils.ts:359-404 | the message's new properties and the throw flag are those of the response outcome |
| Responses.RelocateEach | src/bal_ls/utils.ts:367-384 | the `forEach` loop rewrites entries until the first that throws |
| Responses.RelocateEntry | src/bal_ls/utils.ts:368-371 | rewriting one entry succeeds exactly when its `location.filePath` is a string reached through objects |
| Responses.RelocateAll | src/bal_ls/utils.ts:367-384 | the pass keeps the array length |
| Responses.RelocateAllSpec | src/bal_ls/utils.ts:367-384 | a pass finishes exactly when every entry has a string location. The entries before the first bad one are rewritten, and a bad entry is left as it was |
| Responses.RelocateAllFinishes | src/bal_ls/utils.ts:367-384 | a pass finishes exactly when every entry has a string `location.filePath` |
| Responses.RelocateAllRewrites | src/bal_ls/utils.ts:367-384 | every entry reached before a failing one is rewritten |
| Responses.RelocateAllKeepsBad | src/bal_ls/utils.ts:367-384 | an entry without a string location is left as it was |
| Responses.RelocateAllAt | src/bal_ls/utils.ts:367-372 | one callback either stops the pass, leaving the rest as they were, or rewrites its entry ahead of the rest |
| Responses.RelocateAllStops | src/bal_ls/utils.ts:367-384 | entries from the one that throws on are untouched |
| Responses.RelocatedUnderBase | src/bal_ls/utils.ts:369-370 | a slash-separated path under `BASE_DIR` becomes `SCHEME:` and the rest of it |
| Responses.RelocatedFoldsBackslashes | src/bal_ls/utils.ts:369 | all backslashes are turned into slashes before `BASE_DIR` is removed |
| Responses.NoDesignModelUnchanged | src/bal_ls/utils.ts:386-403 | a response without a truthy design model is returned unchanged, since the textEdits rewrite is commented out |
| Responses.ResponseKeepsOtherFields | src/bal_ls/utils.ts:359-404 | only `result` can change; `id`, `jsonrpc` and the rest are kept |
| Responses.RelocateArrays | src/bal_ls/utils.ts:366-384 | the three loops neither add nor remove a key of the design model |
| Responses.RelocateArraysKeepsOthers | src/bal_ls/utils.ts:366-384 | every key the loops do not visit keeps its value |
| Responses.RelocateArraysFinishes | src/bal_ls/utils.ts:366-384 | the loops finish exactly when every visited key holds an array whose entries all have a string `location.filePath` |
| Responses.RelocateArraysRewrites | src/bal_ls/utils.ts:366-384 | an array whose predecessors all finished gets its pass's result, partial when it throws; an array after a throw is left alone |
| Responses.RelocatableAfterFirst | src/bal_ls/utils.ts:366-384 | rewriting the first array does not change whether the later ones can be rewritten |
| Responses.ResponseRelocatesModel | src/bal_ls/utils.ts:359-384 | a non-object design model throws; otherwise the call returns exactly when all three arrays exist and every entry has a string location, and every other key of the model, of `result` and of the message is kept |
| Responses.ResponseRewritesArrays | src/bal_ls/utils.ts:366-384 | each array is replaced by its pass when the earlier ones finished, and on success every entry is its `RelocateEntry` rewrite; an array after a failed one is untouched |
| Notifications.ResolveNotification | src/bal_ls/utils.ts:556-580 | the message's new properties are the notification outcome |
| Notifications.NotificationOutcome | src/bal_ls/utils.ts:556-580 | only `params` can change |
| Notifications.UntouchedUnlessExprDocument | src/bal_ls/utils.ts:557-568 | only didOpen/didClose with a string `textDocument.uri` starting `expr:` are changed |
| Notifications.ExprDocumentRewritten | src/bal_ls/utils.ts:567-575 | such a document gets `URI.file(join(BASE_DIR, uri minus expr: and leading slashes))`; `params` and `textDocument` keep their keys and every other property's value |
| Notifications.LeadingSlashesIgnored | src/bal_ls/utils.ts:570 | `expr:/x` and `expr:x` name the same file |
| Notifications.TrimLeadingSkips | src/bal_ls/utils.ts:570 | removing leading slashes ignores one more slash |
| Notifications.RewriteSettles | src/bal_ls/utils.ts:556-580 | rewriting twice is rewriting once when the file URI does not start with `expr:` |
| BallerinaVersion.BallerinaHomeOf | src/bal_ls/utils.ts:531-547 | the promise resolves exactly when the command succeeded and its output has no "error" in any case. The version text and version are those of the first line |
| BallerinaVersion.VersionOfReport | src/bal_ls/utils.ts:537-546 | `Ballerina <v> <details>` (or `jBallerina ...`) on the first line gives version `v` and version text `v` with the details, trimmed |
| BallerinaVersion.TextOfReport | src/bal_ls/utils.ts:537-539 | the version text is the first line without its prefix, trimmed |
| BallerinaVersion.FirstWord | src/bal_ls/utils.ts:546 | the first word of a trimmed `v details` is `v` |
| BallerinaVersion.PrefixOfLine | src/bal_ls/utils.ts:538 | the prefix removed is the one the line starts with |
| BallerinaVersion.UpperCaseErrorRejected | src/bal_ls/utils.ts:531 | an output mentioning `ERROR` is rejected as `error` is |
| BallerinaVersion.LowerAscii | src/bal_ls/utils.ts:531 | lower-casing keeps the length |
| Jdk.ParseJdkVersion | src/bal_ls/index.ts:131-141 | one version entry per `.`-separated component of the text before the first `+`, each read by `parseInt(num) \|\| 0` |
| Jdk.ParsedVersionLength | src/bal_ls/index.ts:132-136 | the number of entries is the number of dots before `+` plus one |
| Jdk.NoBuildPart | src/bal_ls/index.ts:132-138 | without `+` the whole text is the main version, and the build number is 0 |
| Jdk.NonNumericComponent | src/bal_ls/index.ts:136 | a component without leading digits reads as 0 |
| Jdk.VersionRoundTrip | src/bal_ls/index.ts:131-141 | a version text written from numbers parses back to those numbers and build |
| Jdk.ExtractJdkInfo | src/bal_ls/index.ts:113-130 | a name yields a record exactly when it matches `^jdk-(.+)-jre$`. The version is the captured middle, `fullPath` is `join(directory, fileName)`, and the numbers are the parse of the version |
| Jdk.RecognisedJdkName | src/bal_ls/index.ts:114-120 | every `jdk-<v>-jre` with a non-empty one-line `v` is recognised with version `v` |
| Jdk.Candidates | src/bal_ls/index.ts:154-156 | the candidates are exactly the records of the matching names |
| Jdk.CandidatesEmpty | src/bal_ls/index.ts:154-160 | no candidate is left exactly when no name matches |
| Jdk.HighestIndex | src/bal_ls/index.ts:162-173 | the first sorted entry is at least every candidate in (major, minor, patch, build) order, and no earlier candidate is at least it: the stable sort keeps the earliest maximum |
| Jdk.AtLeastTransitive | src/bal_ls/index.ts:162-171 | the descending order is transitive |
| Jdk.AtLeastTotal | src/bal_ls/index.ts:162-171 | the descending order is total |
| Jdk.FindHighestVersionJdk | src/bal_ls/index.ts:143-182 | null exactly when the listing is missing or no name matches; otherwise the `fullPath` of a candidate whose version key is at least every other's and that no earlier candidate matches or exceeds, so of equal keys (a fourth component is no key) the earliest listed wins |
| Jdk.HigherMajorSelected | src/bal_ls/index.ts:162-176 | a higher major version wins over any minor, patch or build, whichever is listed first |
| Jdk.SecondOfTwoSelected | src/bal_ls/index.ts:162-176 | of two candidates, the second wins when the first sorts strictly after it |
| Jdk.CandidatesOfTwo | src/bal_ls/index.ts:154-156 | two matching names give their two records in order |
| Jdk.WrittenJdk | src/bal_ls/index.ts:113-141 | a name written from numbers yields a record with those numbers |
| Jdk.VersionOneLine | src/bal_ls/index.ts:114 | a version written from numbers is one non-empty line |
| Jars.FindJarsExcludingPatterns | src/bal_ls/index.ts:240-265 | the method returns the joined paths of the kept jar names, in listing order, and nothing for a missing directory |
| Jars.KeptJars | src/bal_ls/index.ts:250-258 | a name is kept exactly when it is listed, ends in `.jar` and no pattern matches it |
| Jars.KeptJarsAppend | src/bal_ls/index.ts:250-258 | the kept names are filtered in listing order |
| Jars.JarsOfSound | src/bal_ls/index.ts:250-258 | every returned path is `join(directory, f)` for a listed `.jar` name `f` that no pattern matches |
| Jars.MissingDirectoryNoJars | src/bal_ls/index.ts:242-244 | a missing directory gives `[]` |
| Jars.CompileByCharacter | src/bal_ls/index.ts:248 | replacing `*` by `.*` compiles `*` to "any run", `.` to "any character" and every other character to itself |
| Jars.SourceNeverStartsWithStar | src/bal_ls/index.ts:248 | the regular expression built never starts with a bare `*` |
| Jars.PrefixPatternIsContainment | src/bal_ls/index.ts:248-252 | an unanchored `lit*` pattern matches exactly the names containing `lit` anywhere |
| Jars.TestIsContains | src/bal_ls/index.ts:252 | literal atoms followed by "any run" match anywhere in a name exactly when the name contains the literal |
| Jars.LitsThenRun | src/bal_ls/index.ts:252 | literal atoms followed by "any run" match at the start exactly when the name starts with the literal |
| Jars.LitsPrefix | src/bal_ls/index.ts:252 | literal atoms consume their characters |
| Jars.DotIsWildcard | src/bal_ls/index.ts:248-252 | an unescaped `.` also matches any other one character |
| Jars.CompileAll | src/bal_ls/index.ts:248 | one compiled pattern per pattern |
| Jars.JoinAll | src/bal_ls/index.ts:255 | one joined path per kept name |
| Jars.AtomsOf | src/bal_ls/index.ts:248 | one atom per pattern character |
| Jars.LitAtoms | src/bal_ls/index.ts:248 | one atom per literal character |
| Launch.RunBalServer | src/bal_ls/index.ts:27-111 | the outcome is the run configuration: `bal`, `/bal`, 9090, `java` of the highest JDK, the JVM arguments, a shell with the launch environment, and the WebSocket options. It throws when the custom jar or a JDK is missing |
| Launch.CollectJars | src/bal_ls/index.ts:50-52 | the jars of the three directories, concatenated in order |
| Launch.BuildArgs | src/bal_ls/index.ts:76-82 | `unshift` and `push` build exactly the launch arguments |
| Launch.BuildEnv | src/bal_ls/index.ts:85-92 | the environment copy and update build exactly the launch environment |
| Launch.SearchDirectories | src/bal_ls/index.ts:45-49 | three directories are searched |
| Launch.DebugOpts | src/bal_ls/index.ts:68-73 | the debug option is non-empty exactly when `LSDEBUG` is `"true"` |
| Launch.DefaultDebugPort | src/bal_ls/index.ts:70-71 | without `LSDEBUG_PORT` the agent listens on 5009 |
| Launch.DefaultPortReadsBack | src/bal_ls/index.ts:70 | `parseInt("5009")` is 5009 and prints back as `5009` |
| Launch.ConfiguredDebugPort | src/bal_ls/index.ts:70-71 | a decimal port is used as written |
| Launch.HexDebugPort | src/bal_ls/index.ts:70-71 | `parseInt` without a radix reads `0x1389` in hex: the agent listens on 5001 |
| Launch.BareHexMarkerPort | src/bal_ls/index.ts:70-71 | `0x` not followed by a hex digit gives the port `NaN` |
| Js.DecimalWithoutMarker | src/bal_ls/index.ts:70 | without a `0x`/`0X` marker after blanks and sign, radix-less `parseInt` is the decimal one |
| Js.ParseIntAutoOfNat | src/bal_ls/index.ts:70 | radix-less `parseInt` of a number's decimal text gives the number back |
| Js.HexMarkedReads | src/bal_ls/index.ts:70 | `0x` or `0X` followed by hex digits reads as their base-16 value |
| Js.HexPortExample | src/bal_ls/index.ts:70 | `parseInt("0x1389")` is 5001 |
| Js.BareMarkerIsNaN | src/bal_ls/index.ts:70 | `0x` followed by no hex digit is `NaN` |
| Js.ParseIntOfNat | src/bal_ls/index.ts:136-138 | `parseInt(String(n), 10)` gives `n` back |
| Launch.LaunchArgs | src/bal_ls/index.ts:76-82 | the argument count is the debug option, plus four, plus the custom arguments |
| Launch.ArgsLayout | src/bal_ls/index.ts:76-82 | the layout is `-cp`, classpath, `-Dballerina.home=...`, main class, with the debug option first when enabled and the custom arguments last |
| Launch.CustomArgsLast | src/bal_ls/index.ts:82 | the `LS_CUSTOM_ARGS` words end the argument list, and joining them with spaces gives the variable back |
| Launch.ClasspathEntries | src/bal_ls/index.ts:53-55 | the classpath is the custom jar followed by the found jars, joined by `:` and each whole again |
| Launch.CustomJarHasNoDelimiter | src/bal_ls/index.ts:29 | the custom jar path holds no `:` |
| Launch.JarDirectoryHasNoDelimiter | src/bal_ls/index.ts:29 | the custom jar's directory holds no `:` |
| Launch.LaunchEnv | src/bal_ls/index.ts:85-92 | the launch environment keeps every variable except `BALLERINA_CLASSPATH_EXT` and adds none other |
| Launch.ClasspathExtRule | src/bal_ls/index.ts:86-92 | `BALLERINA_CLASSPATH_EXT` becomes old `:` extensions when set, or the extensions path when unset. It is untouched when `LS_EXTENSIONS_PATH` is unset or empty |
| Launch.ClasspathExtAppends | src/bal_ls/index.ts:88 | a colon-free extension path becomes the last classpath entry |
| Launch.LaunchNeedsJarAndJdk | src/bal_ls/index.ts:30-32 | without the custom jar or a JDK the launch throws; a launch uses `bin/java` of the selected JDK |
| Launch.LanguageServerJarsExcluded | src/bal_ls/index.ts:40-44 | every `language-server*` jar of the distribution is excluded |
| Launch.PlainExcludePatterns | src/bal_ls/index.ts:40-44 | the exclude patterns use no regular expression syntax but `.` and `*` |
| Launch.PlainModelPatterns | src/bal_ls/index.ts:41 | the four model patterns are plain |
| Launch.PlainServicePatterns | src/bal_ls/index.ts:42 | the three service patterns are plain |
| Launch.PlainServerPatterns | src/bal_ls/index.ts:42-43 | the last three patterns are plain |
| Forward.ForwardMessage | src/bal_ls/index.ts:278-313 | the callback's result is the forward outcome: text rewrite and parse, then the rewriter of the message's kind, then the handler |
| Forward.Dispatch | src/bal_ls/index.ts:281-312 | requests go through `resolveRequestPath`, responses through `resolveResponseMessage`, and notifications through `resolveNotification` only when logging; a handler's result replaces the message |
| Forward.UnparsableRewriteThrows | src/bal_ls/index.ts:280 | every message first goes through `resolveAbsolutePath`; a rewrite that does not parse throws |
| Forward.RequestRewritten | src/bal_ls/index.ts:281-290 | without a handler a request comes back with its params rewritten and all else as parsed |
| Forward.ResponseRewritten | src/bal_ls/index.ts:291-300 | without a handler a response comes back as the response rewrite leaves it |
| Forward.NotificationNeedsLogging | src/bal_ls/index.ts:301-310 | a notification is rewritten only when `logMessages` is true |
| Forward.HandlerResultReturned | src/bal_ls/index.ts:288-310 | a configured handler's result is what the callback returns |
| Forward.OtherValuesPassThrough | src/bal_ls/index.ts:312 | a value that is no message is returned as parsed |
| Forward.RequestOrNotification | src/bal_ls/index.ts:281-301 | no message is both a request and a notification |

## Left out

- The win32 branches of `os.platform()`: the host is fixed to non-Windows (`file://`, `:`, `java`).
- The filesystem and process I/O are inputs:
  - `existsSync` (the jar check is a boolean input);
  - `readdirSync` and its `try`/`catch` (a listing is an `Option` of names, None for a missing or unreadable directory);
  - `process.env` (a map);
  - `exec` of `bal version` (its failure flag and stdout).
- The promise and logging around `getBallerinaHome`, and its unused commented-out paths, are not modelled.
- The WebSocket upgrade and session plumbing are transport code and are not modelled: `upgradeWsServer`, `handleUpgrade`, the `IWebSocket` adapter and `runLanguageServer`. `runBalServer` is modelled up to the configuration it hands to `runLanguageServer`.
- `createConnection`, `createServerProcess` and `forward` of vscode-ws-jsonrpc are foreign library calls; only the callback body is modelled.
- `findAvailablePort` (network sockets) and the `uncaughtException` handler are not modelled.
- All `console.log`/`console.error` output is left out. So are the log-only values: the `baseHome` computed from the home path, and `reqMessage.method` logging.
- Commented-out code is not modelled. This covers the old `resolvePath` variants, the textEdits key rewrite and "Case 3" of the normalisers.
- The library helpers are abstract parameters, so no property depends on their semantics: `URI.parse(..).path`, `URI.file(..).toString()`, `fileURLToPath`, `decodeURIComponent`, `path.join`, `path.normalize`, `JSON.stringify` and `JSON.parse`. Path containment, `..` clamping and whole-pipeline round trips are therefore not stated; the code does not provide them.
- JSON numbers are integers: floating point and `parseInt`'s precision past 2^53 are not modelled.
- The message handlers are total functions; a handler that throws is not modelled.
- Absolute.ResolveAbsolutePath: requires non-empty `BASE_DIR` and `BASE_DIR_1`. An empty one would make the global replacements insert between every pair of characters, and this is not modelled.
- Absolute.ResolveAbsolutePath: `SCHEME`, `BASE_DIR` and `BASE_DIR_1` are compiled into global regular expressions, and `SCHEME` and `BASE_DIR` also appear in replacement strings. The model treats all of them as literal text. It agrees with the code only when no value holds a regular-expression metacharacter (a `.` would match any character) and `SCHEME` and `BASE_DIR` hold no `$` (a replacement pattern such as `$&`).
- Requests.RegistrationArrayLike: an object `registrations` whose `length` property is a string, an array or an object is treated as having no entries. JavaScript would convert that value to a number before comparing it with 0; only number, boolean and null lengths are modelled.
- Requests.ArrayLikeSelector: the same `length` reading applies to this body lemma. A string, array or object `length` (for example `"1"`) counts as no entries, where JavaScript would convert it to a number and might push the selector.
- BallerinaVersion.BallerinaHomeOf: `toLocaleLowerCase` is modelled on ASCII letters only.
- Requests.DocumentUriCases: in the syntax-tree cases, `path.join` and `URI.file` of the decoded path compute values that are only logged. Only the URI parse and the decode are kept, for the exceptions they can raise.
- Jdk.HighestIndex: when two candidates with equal version components both have a NaN build number, lodash's comparator is inconsistent. The model picks the earlier one, as the stable sort does for equal keys.
- Jdk.FindHighestVersionJdk: the same tie rule for two NaN build numbers applies.
- Jars.FindJarsExcludingPatterns: requires every pattern to use no regular expression syntax but `.` and `*`. Other metacharacters (classes, anchors, groups, escapes) are not modelled; the ten patterns `runBalServer` passes are proved to meet this (Launch.PlainExcludePatterns).
