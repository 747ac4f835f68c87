# GAML validator — a Dafny model

The GAML validator is a command-line script, `validator/validate-gaml.js`.
It finds every `.gaml` (YAML) file under a project root. For each file it
reads the URL of the JSON Schema the document names in its `schema`
property. It fetches that schema from GitHub, rewriting the URL to its
raw-content form, and caches it for the rest of the process. It then
validates the document against the schema. A failure in one file never
stops the run: each file produces one result entry, unless the statistics
block printed after validation throws (see "## Left out"). At the end the
script prints summary counts and exits with status 0 when every file was
valid, and 1 otherwise.

The model has six modules:

- `Common`: `Option` and `Result`.
- `Text`: JavaScript's `indexOf`, string-pattern `replace` (first
  occurrence only) and `endsWith`.
- `Values`: the values YAML and JSON parse into, JavaScript truthiness, and
  property access, which throws on `null` and `undefined`.
- `Resolver`: `fetchSchema`.
  - The function `Resolve` states what one call does.
  - The class `SchemaResolver` holds the process-wide cache, a `map` its
    method `FetchSchema` updates.
  - A ghost log records every GET issued, so the "fetch at most once"
    property can be stated.
- `Discovery`: `findGamlFiles`.
  - The directory tree is an abstract `Node` value.
  - The function `Collect` states what the walk finds.
  - The method `FindGamlFiles` appends to a shared `FileList`
    accumulator, as the source does.
- `Batch`: the per-file `try`/`catch` body (`ValidateStep`, `ValidateFile`),
  the shared `ajv` instance (`SchemaCompiler`), the loop over all files
  (`RunFiles`, `ValidateAll`), the summary counts,
  the exit code, and the whole script (`ValidateProject`).

The environment is given as parameters:

- `observe` says, for each discovered path, whether the file exists, what
  reading and YAML-parsing it yields, and what a schema GET made while
  processing that file would receive.
- `validator` is the shared `ajv` instance as an oracle. It maps the schemas
  compiled earlier in the process, the schema being compiled and the
  document to a `Verdict`. The earlier compiles are an input because the
  instance keeps every schema it compiles, so a later compile can fail on a
  duplicate `$id`. The class `SchemaCompiler` holds that compile history.
- `https.get` may also throw before sending a request, for a rewritten URL
  that does not parse or is not `https:`. This is a `Refused` response; the
  promise then rejects with the bare message and no GET is made.

Some behaviours of the code are easy to miss:

- **Files that raise an error count as invalid.** The summary's `invalid`
  count is `results.filter(r => !r.valid).length`, so errored files are
  included, and `valid + invalid == total` holds whenever each file produced
  one entry.
- **A document with no `schema` is recorded with the error "filePath is not
  defined".** The branch meant to handle it refers to a variable that is
  not in scope (validate-gaml.js:130). The `ReferenceError` is therefore
  caught by the surrounding `catch` (:186-190). The entry recorded is
  `{file: relativePath, valid: false, error: "filePath is not defined"}`,
  never the intended "No schema URL specified".
- **A schema that fails to compile still stays in the cache.** The cache is
  written inside `fetchSchema` (:51), before `ajv.compile` runs (:140).
- **A truthy `schema` that is not a string never triggers a GET.** It misses
  the cache, and `url.replace` throws a `TypeError` before any request is
  made.

## Model

| member | source | states |
|---|---|---|
| Text.IndexOf | validator/validate-gaml.js:34-36 | the index found is the first occurrence of the pattern; `None` exactly when the pattern does not occur anywhere |
| Text.EndsWith | validator/validate-gaml.js:81 | a name ends with the suffix exactly when it is at least as long and its last characters are the suffix's, position by position |
| Text.ReplaceFirstSpec | validator/validate-gaml.js:34-36 | `replace` with a string pattern leaves the string unchanged when the pattern is absent; otherwise it replaces the first occurrence and only that one |
| Resolver.RawUrlUnchanged | validator/validate-gaml.js:33-36 | a URL containing neither `github.com` nor `/blob/` is requested exactly as written |
| Resolver.RawUrlOfBlobUrl | validator/validate-gaml.js:33-36 | a GitHub view URL `https://github.com/<repo>/blob/<rest>` is requested as `https://raw.githubusercontent.com/<repo>/<rest>` |
| Values.Truthy | validator/validate-gaml.js:128 | a value is truthy exactly when it is none of `undefined`, `null`, `false`, `0` and `""` |
| Values.GetProperty | validator/validate-gaml.js:127 | reading `data.schema` throws exactly when `data` is `null` or `undefined`; a defined result is the object's own field |
| Resolver.FetchMessagesDistinct | validator/validate-gaml.js:53-61 | the rejection messages for a body that is not JSON, a non-200 status and a network error never coincide, so the recorded text tells them apart |
| Resolver.Receive | validator/validate-gaml.js:40-62 | the promise resolves exactly when the GET answered 200 with a body that parses as JSON, and resolves to that body; otherwise it rejects (parse error, HTTP status, network error, or the bare message when `https.get` itself threw) |
| Resolver.Resolve | validator/validate-gaml.js:26-64 | a cache hit returns the cached schema with no GET; a GET of the rewritten URL happens exactly for a string URL missing from the cache that `https.get` accepts, and the outcome is the result; the cache is written under the original URL only on success and is unchanged on failure |
| Resolver.CacheHit | validator/validate-gaml.js:28-31 | a cached URL resolves to its cached schema, with no GET and the cache unchanged |
| Resolver.CacheGrowsOnlyOnSuccess | validator/validate-gaml.js:47-58 | the cache never loses or changes an entry; it gains one key, the original URL, exactly when a GET of an uncached string URL answered 200 with parseable JSON, and that key maps to the parsed body |
| Resolver.SchemaResolver.constructor | validator/validate-gaml.js:20-21 | the schema cache starts empty |
| Resolver.SchemaResolver.FetchSchema | validator/validate-gaml.js:26-64 | the result, the new cache and the GETs issued are those of `Resolve`; the cache only grows |
| Discovery.Collect | validator/validate-gaml.js:69-87 | every path the walk of a directory's listing appends lies below that directory |
| Discovery.Visit | validator/validate-gaml.js:72-84 | every path one entry contributes lies below the directory listing it |
| Discovery.FileList.constructor | validator/validate-gaml.js:69 | the accumulator starts empty |
| Discovery.FindGamlFiles | validator/validate-gaml.js:69-87 | appends exactly the paths of the walk `Collect` to the accumulator, after what it already held |
| Discovery.CollectAppend | validator/validate-gaml.js:72-84 | entries are visited in listing order: earlier entries' paths come first |
| Discovery.CollectShape | validator/validate-gaml.js:69-87 | every path found lies under the directory walked, ends in `.gaml`, and passes through no `node_modules` or `.git` directory |
| Discovery.CollectSound | validator/validate-gaml.js:69-87 | every path found is reached by a chain of listing positions that ends at a non-directory `.gaml` entry |
| Discovery.CollectComplete | validator/validate-gaml.js:69-87 | every non-directory `.gaml` entry reachable without entering `node_modules` or `.git` is found |
| Batch.Relative | validator/validate-gaml.js:108 | for a path under the root, the root followed by the relative path is the full path |
| Batch.ErrorEntries | validator/validate-gaml.js:159-167 | one entry per violation, in order, each carrying that violation's instance path, message and params |
| Batch.FileError.Message | validator/validate-gaml.js:114-188 | a missing file records "File not found"; a document without a truthy `schema` records "filePath is not defined", never the intended "No schema URL specified"; a rejected fetch records the rejection's message unchanged |
| Batch.ValidateStep | validator/validate-gaml.js:112-190 | the entry is recorded under the file's relative path; a compile happens only for a file that exists, parses and has a truthy `schema` whose resolution succeeded, and then the schema joins the compile history and the entry is valid exactly when the verdict conforms, invalid with the verdict's violations exactly when it has some, and an exception with the compiler's message otherwise; at most one GET is made, only for an uncached URL; the cache only grows, and only when that GET succeeded |
| Batch.StepFailures | validator/validate-gaml.js:112-139 | each exception kind is recorded exactly when its stage is the first to fail: a missing file, an unreadable file, a nullish document, a falsy `schema`, a rejected fetch |
| Batch.RunFiles | validator/validate-gaml.js:106-190 | a run over the files has one entry per file and makes at most one GET per file |
| Batch.OneResultPerFile | validator/validate-gaml.js:106-193 | a run has exactly one result per discovered file, in order, each recorded under that file's relative path, whatever the file's outcome |
| Batch.AllValidIffEveryResultValid | validator/validate-gaml.js:101-190 | `allValid` ends true exactly when every entry has `valid: true` |
| Batch.FetchedOnceCachedStep | validator/validate-gaml.js:112-139 | one file's GETs, made only on a cache miss, keep the invariant that no URL is fetched again after a GET for it filled the cache |
| Batch.FetchedAtMostOnceOnSuccess | validator/validate-gaml.js:26-58 | over a run, the cache only grows, a cached URL is never fetched, and once a GET has filled the cache for a URL no later file fetches that URL again |
| Batch.CompiledSchemasStayCached | validator/validate-gaml.js:139-140 | over a run the compile history only grows, every schema compiled is the one the cache still holds under its URL, and two compiles of the same URL were given the same schema |
| Batch.CompiledFromCacheStep | validator/validate-gaml.js:139-140 | one file's compile, of the schema just resolved from the cache, keeps every compiled schema equal to its cache entry |
| Batch.SchemaCompiler.constructor | validator/validate-gaml.js:14-18 | the `ajv` instance starts with no compiled schemas |
| Batch.SchemaCompiler.CompileAndValidate | validator/validate-gaml.js:140-143 | the verdict is the oracle's for this schema after the earlier compiles, and the schema joins the compile history |
| Batch.ValidateFile | validator/validate-gaml.js:112-190 | the entry, the new cache, the GETs and the new compile history are those of `ValidateStep` |
| Batch.ValidateAll | validator/validate-gaml.js:101-193 | `results` and `allValid` are those of the run `RunFiles`: one entry per file, in discovery order, and `allValid` is true exactly when every entry is valid |
| Batch.CountValid | validator/validate-gaml.js:200 | the valid count is at most the number of entries |
| Batch.CountInvalid | validator/validate-gaml.js:201 | the invalid count is at most the number of entries |
| Batch.CountsPartition | validator/validate-gaml.js:199-201 | every entry is counted once, as valid or as invalid: `valid + invalid == total` |
| Batch.NoInvalidIffAllValid | validator/validate-gaml.js:200-204 | the invalid count is zero exactly when every entry is valid |
| Batch.ExitCode | validator/validate-gaml.js:257 | the exit status is 0 or 1, and 0 exactly when every file was valid |
| Batch.ValidateProject | validator/validate-gaml.js:89-257 | results come from validating the discovered files in order with an empty cache and a fresh `ajv` instance; one result per file; `total` is the number of files; the valid and invalid counts partition it; `allValid` holds exactly when the invalid count is zero; the exit status is 0 exactly when every entry is valid |

## Left out

- Network transport is not modelled: no HTTPS requests, chunked bodies, timeouts or redirects. A GET's outcome is an abstract `Response`, given per file by `observe`.
- Several GETs of the same URL within one file cannot happen, since the script makes at most one `fetchSchema` call per file. Responses are fixed per file, not per request.
- Resolver.Resolve: whether `https.get` throws synchronously for the rewritten URL is an input (a `Refused` response), not derived from the URL text; URL parsing is not modelled.
- YAML parsing, JSON parsing and Ajv's schema compilation and validation are not modelled. They appear as their outcomes: `Content`, `Body` and the `validator` oracle, which is given the earlier compiles of the process so that Ajv's retained state (compiled schemas, taken `$id`s) can affect a later verdict.
- The real filesystem is not modelled: no `readdirSync` or `statSync` errors, symbolic links, or files changing between discovery and reading. The directory tree is an abstract `Node` value.
- `path.join` and `path.relative` normalisation (`..`, duplicate separators, platform separators) is not modelled: paths are sequences of components.
- Batch.ValidateStep: assumes the file-statistics block (:171-184) does not throw. It can: a `file`, `version` or `game.name` whose conversion to a string throws (`{toString: 1}`, say) raises inside the `try` after the entry was pushed, and the `catch` then pushes a second entry for the same file, so `results` can be longer than the number of files. The model records one entry per file.
- Batch.ValidateProject: assumes writing the per-file result files and the summary file (:216-254) does not throw. A failing `mkdirSync` or `writeFileSync` rejects the async function before `process.exit`, and the process ends with Node's unhandled-rejection status instead of the modelled exit code. `JSON.stringify`, timestamps and `path.basename` are not modelled either.
- All other console output is left out: progress lines, violation listings, the file-statistics lines, the "schema reference may be incorrect" warning and the summary banner. Apart from the throws above, none of it changes the results.
- The asynchronous structure (`async`/`await`, promises) is not modelled. The loop awaits each file in turn, so it is modelled as sequential.
- Values.GetProperty: JavaScript numbers are unbounded integers here. Fractions, `NaN` and `-0` are not modelled, so neither is their truthiness.
- Resolver.RawUrlUnchanged: only the case with nothing to rewrite is stated for the whole URL. `Resolver.RawUrlOfBlobUrl` states the GitHub view-URL case; other shapes follow from `Text.ReplaceFirstSpec` applied twice.
- Text.ReplaceFirst: the replacement string is inserted literally; JavaScript's `$` patterns are not expanded. The validator's replacements contain no `$`.
- The messages of exceptions thrown by the YAML parser, by Ajv or by `https.get` come from those libraries. They are given as inputs.
