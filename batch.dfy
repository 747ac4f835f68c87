/**
 * The batch orchestrator: every discovered file goes through load, schema
 * lookup, schema resolution and validation in discovery order; any failure
 * along the way is caught and becomes that file's one result, so one bad
 * file never ends the run. After the loop come the summary counts and the
 * process exit code.
 */
module Batch {
  import opened Common
  import opened Values
  import opened Resolver
  import opened Discovery

  /** One violation as the schema validator reports it (`validate.errors[i]`). */
  datatype Violation = Violation(instancePath: string, schemaPath: string, keyword: string, message: string, params: Value)

  /** What compiling a schema and validating a document against it yields. */
  datatype Verdict = CompileError(message: string) | Conforms | Violations(errors: seq<Violation>)

  /**
   * One `ajv.compile(schema)` call. A schema object reaches `compile` only
   * from the schema cache, so the cache key it is stored under names it (see
   * `CompiledSchemasStayCached`).
   */
  datatype Compiled = Compiled(url: string, schema: Value)

  /**
   * The shared `ajv` instance as an oracle: what compiling `schema`, after the
   * compiles `earlier` of the same process, and validating `data` with the
   * result yields. The earlier compiles matter because the instance keeps
   * every schema it has compiled and can refuse a new schema whose `$id` is
   * already taken.
   */
  type Validator = (seq<Compiled>, Compiled, Value) -> Verdict

  /** One violation as recorded in a result: `{path, message, params}`. */
  datatype ErrorEntry = ErrorEntry(path: string, message: string, params: Value)

  /** What reading and YAML-parsing a file yields: the document, or the message of the exception thrown. */
  datatype Content = Parsed(data: Value) | Unreadable(message: string)

  /**
   * What the environment holds for one discovered file: whether it exists,
   * what reading it yields, and what a schema GET made while processing it
   * would receive.
   */
  datatype FileState = FileState(present: bool, content: Content, response: Response)

  /** An exception raised inside the loop's `try` block. */
  datatype FileError =
    | NotFound                          // the file does not exist
    | Unread(message: string)           // reading or YAML-parsing the file threw
    | NullishDocument(document: Value)  // the document is `null` or `undefined`
    | NoSchema                          // the document has no truthy `schema`
    | Rejected(fetchError: FetchError)  // the schema could not be fetched
    | CompileFailed(message: string)    // compiling the schema threw
  {
    /** The exception's `error.message`, as recorded in the result. */
    function Message(): (m: string)
      ensures this.NotFound? ==> m == "File not found"
      ensures this.NoSchema? ==> m == NoSchemaMessage && m != "No schema URL specified"
      ensures this.Rejected? ==> m == fetchError.Message()
    {
      match this
      case NotFound => "File not found"
      case Unread(message) => message
      case NullishDocument(document) => PropertyReadMessage(document, "schema")
      case NoSchema => NoSchemaMessage
      case Rejected(fetchError) => fetchError.Message()
      case CompileFailed(message) => message
    }
  }

  /**
   * One entry of `results`: `{file, valid: true}`, `{file, valid: false, errors}`
   * or `{file, valid: false, error}`, whose `error` is `failure.Message()`.
   */
  datatype FileResult =
    | Valid(file: Path)
    | Invalid(file: Path, errors: seq<ErrorEntry>)
    | Errored(file: Path, failure: FileError)
  {
    /** The entry's `valid` flag. */
    predicate IsValid() {
      Valid?
    }
  }

  /** The result of one file, and the schema cache, the GETs made and the compile history after it. */
  datatype Step = Step(result: FileResult, cache: map<string, Value>, fetches: seq<Fetch>, compiled: seq<Compiled>)

  /**
   * The state of the run after some files: `results`, `allValid`, the schema
   * cache, the GETs made and the compile history.
   */
  datatype Run = Run(results: seq<FileResult>, allValid: bool, cache: map<string, Value>, fetches: seq<Fetch>,
                     compiled: seq<Compiled>)

  /** The counts written to the run summary. */
  datatype Summary = Summary(total: nat, valid: nat, invalid: nat, allValid: bool)

  /**
   * The message of the ReferenceError raised when a document has no truthy
   * `schema`: the branch that handles it names a variable that is not in
   * scope, so the entry it meant to record is never recorded and the
   * `catch` records this error instead.
   */
  const NoSchemaMessage := "filePath is not defined"

  /** `path.relative(projectRoot, fullPath)` for a path under the root. */
  function Relative(root: Path, p: Path): (r: Path)
    ensures |root| <= |p| && p[..|root|] == root ==> root + r == p
  {
    if |root| <= |p| && p[..|root|] == root then p[|root|..] else p
  }

  /** The recorded form of the validator's violations: one entry per violation, in order. */
  function ErrorEntries(errors: seq<Violation>): (r: seq<ErrorEntry>)
    ensures |r| == |errors|
    ensures forall i :: 0 <= i < |r| ==>
      r[i] == ErrorEntry(errors[i].instancePath, errors[i].message, errors[i].params)
  {
    if errors == [] then []
    else [ErrorEntry(errors[0].instancePath, errors[0].message, errors[0].params)] + ErrorEntries(errors[1..])
  }

  /** A compile happened in the step: the schema resolved, whatever the compile then did. */
  predicate Compiles(result: FileResult) {
    result.Valid? || result.Invalid? || (result.Errored? && result.failure.CompileFailed?)
  }

  /**
   * A step that reached `ajv.compile`: the file exists and parses, its
   * `schema` is truthy and resolved, the resolved schema (now cached under
   * its URL) was appended to the compile history, and the entry recorded is
   * the validator's verdict on the document: valid exactly when it
   * conforms, invalid with its violations exactly when it has some, and an
   * exception with the compiler's message otherwise.
   */
  ghost predicate CompiledStep(cache: map<string, Value>, compiled: seq<Compiled>, state: FileState,
                               validator: Validator, s: Step) {
    && state.present && state.content.Parsed?
    && var data := state.content.data;
       var url := GetProperty(data, "schema");
       && url.Some? && Truthy(url.value)
       && var r := Resolve(cache, url.value, state.response);
          && r.result.Success?
          && var c := Compiled(url.value.s, r.result.value);
             && s.compiled == compiled + [c]
             && c.url in s.cache && s.cache[c.url] == c.schema
             && var verdict := validator(compiled, c, data);
                && (s.result.Valid? <==> verdict.Conforms?)
                && (s.result.Invalid? <==> verdict.Violations?)
                && (s.result.Invalid? ==> s.result.errors == ErrorEntries(verdict.errors))
                && (s.result.Errored? ==> s.result.failure == CompileFailed(verdict.message))
  }

  /**
   * The body of the loop for one file, recorded under `file`, with the schema
   * cache `cache` and the compile history `compiled` of the run so far: each
   * exception the `try` block can raise becomes an `Errored` entry.
   */
  function ValidateStep(cache: map<string, Value>, compiled: seq<Compiled>, file: Path, state: FileState,
                        validator: Validator): (s: Step)
    ensures s.result.file == file
    ensures Extends(cache, s.cache)
    ensures |s.fetches| <= 1
    ensures s.fetches != [] ==> s.fetches[0].url !in cache
    ensures s.fetches == [] || !s.fetches[0].cached ==> s.cache == cache
    ensures s.fetches != [] && s.fetches[0].cached ==> s.cache.Keys == cache.Keys + {s.fetches[0].url}
    ensures Compiles(s.result) ==> s.fetches == [] || s.fetches[0].cached
    ensures !Compiles(s.result) ==> s.compiled == compiled
    ensures Compiles(s.result) ==> CompiledStep(cache, compiled, state, validator, s)
  {
    if !state.present then Step(Errored(file, NotFound), cache, [], compiled)
    else match state.content
      case Unreadable(message) => Step(Errored(file, Unread(message)), cache, [], compiled)
      case Parsed(data) =>
        match GetProperty(data, "schema")
        case None => Step(Errored(file, NullishDocument(data)), cache, [], compiled)
        case Some(schemaUrl) =>
          if !Truthy(schemaUrl) then Step(Errored(file, NoSchema), cache, [], compiled)
          else
            var r := Resolve(cache, schemaUrl, state.response);
            CacheGrowsOnlyOnSuccess(cache, schemaUrl, state.response);
            match r.result
            case Failure(fetchError) => Step(Errored(file, Rejected(fetchError)), r.cache, r.fetches, compiled)
            case Success(schema) =>
              var c := Compiled(schemaUrl.s, schema);
              match validator(compiled, c, data)
              case CompileError(message) => Step(Errored(file, CompileFailed(message)), r.cache, r.fetches, compiled + [c])
              case Conforms => Step(Valid(file), r.cache, r.fetches, compiled + [c])
              case Violations(errors) => Step(Invalid(file, ErrorEntries(errors)), r.cache, r.fetches, compiled + [c])
  }

  /**
   * Which exception a file that fails before compiling records: each kind is
   * raised exactly when the stage it names is the first to fail.
   */
  lemma StepFailures(cache: map<string, Value>, compiled: seq<Compiled>, file: Path, state: FileState,
                     validator: Validator)
    ensures var s := ValidateStep(cache, compiled, file, state, validator);
      var url := if state.content.Parsed? then GetProperty(state.content.data, "schema") else None;
      && (s.result == Errored(file, NotFound) <==> !state.present)
      && (s.result.Errored? && s.result.failure.Unread? <==> state.present && state.content.Unreadable?)
      && (s.result.Errored? && s.result.failure.NullishDocument? <==>
            state.present && state.content.Parsed? && url.None?)
      && (s.result == Errored(file, NoSchema) <==>
            state.present && state.content.Parsed? && url.Some? && !Truthy(url.value))
      && (s.result.Errored? && s.result.failure.Rejected? <==>
            && state.present && state.content.Parsed? && url.Some? && Truthy(url.value)
            && Resolve(cache, url.value, state.response).result.Failure?)
  {
  }

  /**
   * The run over `files` in order, from the cache `cache` and the compile
   * history `compiled`, with `allValid` starting true.
   */
  function RunFiles(cache: map<string, Value>, compiled: seq<Compiled>, root: Path, files: seq<Path>,
                    observe: Path -> FileState, validator: Validator): (run: Run)
    ensures |run.results| == |files|
    ensures |run.fetches| <= |files|
    decreases |files|
  {
    if files == [] then Run([], true, cache, [], compiled)
    else
      var before := RunFiles(cache, compiled, root, files[..|files| - 1], observe, validator);
      var fullPath := files[|files| - 1];
      var s := ValidateStep(before.cache, before.compiled, Relative(root, fullPath), observe(fullPath), validator);
      Run(before.results + [s.result], before.allValid && s.result.IsValid(), s.cache, before.fetches + s.fetches,
          s.compiled)
  }

  lemma ConcatAssoc<T>(a: seq<T>, b: seq<T>, c: seq<T>)
    ensures a + b + c == a + (b + c)
  {
  }

  /** The run over one more file is the run over the files before it followed by that file's step. */
  lemma RunFilesSnoc(cache: map<string, Value>, compiled: seq<Compiled>, root: Path, files: seq<Path>, i: nat,
                     observe: Path -> FileState, validator: Validator)
    requires i < |files|
    ensures var before := RunFiles(cache, compiled, root, files[..i], observe, validator);
      var s := ValidateStep(before.cache, before.compiled, Relative(root, files[i]), observe(files[i]), validator);
      RunFiles(cache, compiled, root, files[..i + 1], observe, validator)
        == Run(before.results + [s.result], before.allValid && s.result.IsValid(), s.cache, before.fetches + s.fetches,
               s.compiled)
  {
    assert files[..i + 1][..i] == files[..i];
  }

  /** Partial-failure isolation: each file contributes exactly one result, in discovery order. */
  lemma {:induction false} OneResultPerFile(cache: map<string, Value>, compiled: seq<Compiled>, root: Path,
                                            files: seq<Path>, observe: Path -> FileState, validator: Validator)
    ensures var run := RunFiles(cache, compiled, root, files, observe, validator);
      && |run.results| == |files|
      && forall i :: 0 <= i < |files| ==> run.results[i].file == Relative(root, files[i])
    decreases |files|
  {
    if files != [] {
      var n := |files| - 1;
      OneResultPerFile(cache, compiled, root, files[..n], observe, validator);
      RunFilesSnoc(cache, compiled, root, files, n, observe, validator);
      assert files[..n + 1] == files;
      RecordedSnoc(RunFiles(cache, compiled, root, files[..n], observe, validator).results,
                   RunFiles(cache, compiled, root, files, observe, validator).results, root, files);
    }
  }

  lemma RecordedSnoc(before: seq<FileResult>, results: seq<FileResult>, root: Path, files: seq<Path>)
    requires |files| > 0 && |before| == |files| - 1
    requires forall i :: 0 <= i < |files| - 1 ==> before[i].file == Relative(root, files[..|files| - 1][i])
    requires |results| == |files| && results[..|before|] == before
    requires results[|files| - 1].file == Relative(root, files[|files| - 1])
    ensures forall i :: 0 <= i < |files| ==> results[i].file == Relative(root, files[i])
  {
    forall i | 0 <= i < |files| ensures results[i].file == Relative(root, files[i]) {
      if i < |before| {
        assert results[i] == results[..|before|][i] && files[i] == files[..|files| - 1][i];
      }
    }
  }

  /** `allValid` ends false exactly when some entry of `results` has `valid == false`. */
  lemma {:induction false} AllValidIffEveryResultValid(cache: map<string, Value>, compiled: seq<Compiled>, root: Path,
                                                       files: seq<Path>, observe: Path -> FileState,
                                                       validator: Validator)
    ensures var run := RunFiles(cache, compiled, root, files, observe, validator);
      run.allValid <==> forall i :: 0 <= i < |run.results| ==> run.results[i].IsValid()
    decreases |files|
  {
    if files != [] {
      var prefix := files[..|files| - 1];
      AllValidIffEveryResultValid(cache, compiled, root, prefix, observe, validator);
      var before := RunFiles(cache, compiled, root, prefix, observe, validator);
      var fullPath := files[|files| - 1];
      var s := ValidateStep(before.cache, before.compiled, Relative(root, fullPath), observe(fullPath), validator);
      var run := RunFiles(cache, compiled, root, files, observe, validator);
      assert run.results == before.results + [s.result];
      assert run.allValid == (before.allValid && s.result.IsValid());
      assert forall i :: 0 <= i < |before.results| ==> run.results[i] == before.results[i];
      assert run.results[|before.results|] == s.result;
      if run.allValid {
        forall i | 0 <= i < |run.results| ensures run.results[i].IsValid() {
          if i < |before.results| {
            assert run.results[i] == before.results[i];
          }
        }
      }
    }
  }

  /**
   * The GETs `fetches`, made from the cache `cache0` on, agree with the cache
   * `cache` they led to: the cache only grew; no GET was made for a URL that
   * was cached at the start; every GET that filled the cache left its URL in
   * it; and no GET follows a GET for the same URL that filled the cache.
   */
  ghost predicate FetchedOnceCached(cache0: map<string, Value>, fetches: seq<Fetch>, cache: map<string, Value>) {
    && Extends(cache0, cache)
    && (forall i :: 0 <= i < |fetches| ==> fetches[i].url !in cache0)
    && (forall i :: 0 <= i < |fetches| && fetches[i].cached ==> fetches[i].url in cache)
    && (forall i, j :: 0 <= i < j < |fetches| && fetches[i].url == fetches[j].url ==> !fetches[i].cached)
  }

  /** One file's GETs, which only happen on a cache miss, keep `FetchedOnceCached`. */
  lemma FetchedOnceCachedStep(cache0: map<string, Value>, fetches: seq<Fetch>, cache: map<string, Value>,
                              more: seq<Fetch>, cache': map<string, Value>)
    requires FetchedOnceCached(cache0, fetches, cache)
    requires Extends(cache, cache') && |more| <= 1
    requires more != [] ==> more[0].url !in cache
    requires more == [] || !more[0].cached ==> cache' == cache
    requires more != [] && more[0].cached ==> more[0].url in cache'
    ensures FetchedOnceCached(cache0, fetches + more, cache')
  {
  }

  /**
   * Over a whole run, a URL is fetched again only while every earlier GET
   * for it failed: once a GET has filled the cache for a URL, no later file
   * causes another GET for it, and no GET is made for a URL cached before
   * the run.
   */
  lemma {:induction false} FetchedAtMostOnceOnSuccess(cache: map<string, Value>, compiled: seq<Compiled>, root: Path,
                                                      files: seq<Path>, observe: Path -> FileState,
                                                      validator: Validator)
    ensures var run := RunFiles(cache, compiled, root, files, observe, validator);
      FetchedOnceCached(cache, run.fetches, run.cache)
    decreases |files|
  {
    if files != [] {
      var before := RunFiles(cache, compiled, root, files[..|files| - 1], observe, validator);
      FetchedAtMostOnceOnSuccess(cache, compiled, root, files[..|files| - 1], observe, validator);
      var fullPath := files[|files| - 1];
      var s := ValidateStep(before.cache, before.compiled, Relative(root, fullPath), observe(fullPath), validator);
      FetchedOnceCachedStep(cache, before.fetches, before.cache, s.fetches, s.cache);
    }
  }

  /** Every compile in `compiled` was given the schema that `cache` holds under its URL. */
  ghost predicate CompiledFromCache(compiled: seq<Compiled>, cache: map<string, Value>) {
    forall i :: 0 <= i < |compiled| ==> compiled[i].url in cache && cache[compiled[i].url] == compiled[i].schema
  }

  /**
   * The compile history only grows, and every schema compiled is the one
   * the cache still holds under its URL: two compiles naming the same URL
   * were given the same schema object, so a compile is identified by the
   * cache key its schema came from.
   */
  lemma {:induction false} CompiledSchemasStayCached(cache: map<string, Value>, compiled: seq<Compiled>, root: Path,
                                                     files: seq<Path>, observe: Path -> FileState,
                                                     validator: Validator)
    requires CompiledFromCache(compiled, cache)
    ensures var run := RunFiles(cache, compiled, root, files, observe, validator);
      && |compiled| <= |run.compiled| && run.compiled[..|compiled|] == compiled
      && CompiledFromCache(run.compiled, run.cache)
      && forall i, j :: 0 <= i < j < |run.compiled| && run.compiled[i].url == run.compiled[j].url ==>
           run.compiled[i].schema == run.compiled[j].schema
    decreases |files|
  {
    if files != [] {
      var before := RunFiles(cache, compiled, root, files[..|files| - 1], observe, validator);
      CompiledSchemasStayCached(cache, compiled, root, files[..|files| - 1], observe, validator);
      var fullPath := files[|files| - 1];
      var s := ValidateStep(before.cache, before.compiled, Relative(root, fullPath), observe(fullPath), validator);
      CompiledFromCacheStep(before.compiled, before.cache, s.compiled, s.cache);
      assert s.compiled[..|compiled|] == before.compiled[..|compiled|] by {
        if s.compiled != before.compiled {
          assert s.compiled[..|before.compiled|] == before.compiled;
        }
      }
    }
  }

  /** One step keeps `CompiledFromCache`: old entries stay, and a new compile is of the cached schema. */
  lemma CompiledFromCacheStep(compiled: seq<Compiled>, cache: map<string, Value>,
                              compiled': seq<Compiled>, cache': map<string, Value>)
    requires CompiledFromCache(compiled, cache) && Extends(cache, cache')
    requires compiled' == compiled || (|compiled'| == |compiled| + 1 && compiled'[..|compiled|] == compiled
                                       && compiled'[|compiled|].url in cache'
                                       && cache'[compiled'[|compiled|].url] == compiled'[|compiled|].schema)
    ensures CompiledFromCache(compiled', cache')
  {
    if compiled' != compiled {
      forall i | 0 <= i < |compiled'|
        ensures compiled'[i].url in cache' && cache'[compiled'[i].url] == compiled'[i].schema
      {
        if i < |compiled| {
          assert compiled'[i] == compiled[i];
        }
      }
    }
  }

  /** The number of entries with `valid: true`. */
  function CountValid(results: seq<FileResult>): (c: nat)
    ensures c <= |results|
  {
    if results == [] then 0 else (if results[0].IsValid() then 1 else 0) + CountValid(results[1..])
  }

  /** The number of entries with `valid: false`: invalid and errored files alike. */
  function CountInvalid(results: seq<FileResult>): (c: nat)
    ensures c <= |results|
  {
    if results == [] then 0 else (if results[0].IsValid() then 0 else 1) + CountInvalid(results[1..])
  }

  /** Every result is counted once, as valid or as invalid. */
  lemma {:induction false} CountsPartition(results: seq<FileResult>)
    ensures CountValid(results) + CountInvalid(results) == |results|
  {
    if results != [] {
      CountsPartition(results[1..]);
    }
  }

  /** The invalid count is zero exactly when every result is valid. */
  lemma {:induction false} NoInvalidIffAllValid(results: seq<FileResult>)
    ensures CountInvalid(results) == 0 <==> forall i :: 0 <= i < |results| ==> results[i].IsValid()
  {
    if results != [] {
      NoInvalidIffAllValid(results[1..]);
      assert forall i :: 1 <= i < |results| ==> results[i] == results[1..][i - 1];
    }
  }

  /** `process.exit(allValid ? 0 : 1)`. */
  function ExitCode(allValid: bool): (code: int)
    ensures code == 0 || code == 1
    ensures code == 0 <==> allValid
  {
    if allValid then 0 else 1
  }

  /** The shared `ajv` instance: the schemas compiled so far, in order. */
  class SchemaCompiler {
    var compiled: seq<Compiled>

    constructor ()
      ensures compiled == []
    {
      compiled := [];
    }

    /** `ajv.compile(schema)` followed by `validate(data)`. */
    method CompileAndValidate(c: Compiled, data: Value, validator: Validator) returns (verdict: Verdict)
      modifies this
      ensures verdict == validator(old(compiled), c, data)
      ensures compiled == old(compiled) + [c]
    {
      verdict := validator(compiled, c, data);
      compiled := compiled + [c];
    }
  }

  /**
   * One file of the loop: the `try` block and its `catch`, with the schema
   * resolved through `resolver` and compiled by `compiler`.
   */
  method ValidateFile(resolver: SchemaResolver, compiler: SchemaCompiler, file: Path, state: FileState,
                      validator: Validator) returns (result: FileResult)
    modifies resolver, compiler
    ensures var s := ValidateStep(old(resolver.cache), old(compiler.compiled), file, state, validator);
      && result == s.result && resolver.cache == s.cache && resolver.fetches == old(resolver.fetches) + s.fetches
      && compiler.compiled == s.compiled
  {
    if !state.present {
      return Errored(file, NotFound);
    }
    if state.content.Unreadable? {
      return Errored(file, Unread(state.content.message));
    }
    var data := state.content.data;
    var schemaUrl := GetProperty(data, "schema");
    if schemaUrl.None? {
      return Errored(file, NullishDocument(data));
    }
    if !Truthy(schemaUrl.value) {
      return Errored(file, NoSchema);
    }
    var schema := resolver.FetchSchema(schemaUrl.value, state.response);
    if schema.Failure? {
      return Errored(file, Rejected(schema.error));
    }
    var verdict := compiler.CompileAndValidate(Compiled(schemaUrl.value.s, schema.value), data, validator);
    match verdict {
      case CompileError(message) => result := Errored(file, CompileFailed(message));
      case Conforms => result := Valid(file);
      case Violations(errors) => result := Invalid(file, ErrorEntries(errors));
    }
  }

  /** The loop over the discovered files, maintaining `results` and `allValid`. */
  method ValidateAll(resolver: SchemaResolver, compiler: SchemaCompiler, root: Path, files: seq<Path>,
                     observe: Path -> FileState, validator: Validator)
    returns (results: seq<FileResult>, allValid: bool)
    modifies resolver, compiler
    ensures var run := RunFiles(old(resolver.cache), old(compiler.compiled), root, files, observe, validator);
      && results == run.results && allValid == run.allValid
      && resolver.cache == run.cache && resolver.fetches == old(resolver.fetches) + run.fetches
      && compiler.compiled == run.compiled
    ensures |results| == |files|
    ensures forall i :: 0 <= i < |files| ==> results[i].file == Relative(root, files[i])
    ensures allValid <==> forall i :: 0 <= i < |results| ==> results[i].IsValid()
  {
    results := [];
    allValid := true;
    var index := 0;
    while index < |files|
      invariant 0 <= index <= |files|
      invariant var run := RunFiles(old(resolver.cache), old(compiler.compiled), root, files[..index], observe, validator);
        && results == run.results && allValid == run.allValid
        && resolver.cache == run.cache && resolver.fetches == old(resolver.fetches) + run.fetches
        && compiler.compiled == run.compiled
    {
      var fullPath := files[index];
      var relativePath := Relative(root, fullPath);
      RunFilesSnoc(old(resolver.cache), old(compiler.compiled), root, files, index, observe, validator);
      ghost var before := RunFiles(old(resolver.cache), old(compiler.compiled), root, files[..index], observe, validator);
      ghost var s := ValidateStep(before.cache, before.compiled, relativePath, observe(fullPath), validator);
      var result := ValidateFile(resolver, compiler, relativePath, observe(fullPath), validator);
      ConcatAssoc(old(resolver.fetches), before.fetches, s.fetches);
      results := results + [result];
      if !result.IsValid() {
        allValid := false;
      }
      index := index + 1;
    }
    assert files[..index] == files;
    OneResultPerFile(old(resolver.cache), old(compiler.compiled), root, files, observe, validator);
    AllValidIffEveryResultValid(old(resolver.cache), old(compiler.compiled), root, files, observe, validator);
  }

  /**
   * The whole script: discover the `.gaml` files under `root` (whose listing
   * is `listing`), validate each with a fresh schema cache and a fresh `ajv`
   * instance, and produce the results, the summary counts and the exit code.
   */
  method ValidateProject(root: Path, listing: seq<Node>, observe: Path -> FileState, validator: Validator)
    returns (results: seq<FileResult>, summary: Summary, exitCode: int)
    ensures var files := Collect(root, listing);
      && results == RunFiles(map[], [], root, files, observe, validator).results
      && |results| == |files|
      && (forall i :: 0 <= i < |files| ==> results[i].file == Relative(root, files[i]))
      && summary.total == |files|
    ensures summary.valid == CountValid(results) && summary.invalid == CountInvalid(results)
    ensures summary.valid + summary.invalid == summary.total
    ensures summary.allValid <==> summary.invalid == 0
    ensures exitCode == ExitCode(summary.allValid)
    ensures exitCode == 0 <==> forall i :: 0 <= i < |results| ==> results[i].IsValid()
  {
    var fileList := new FileList();
    FindGamlFiles(fileList, root, listing);
    var files := fileList.paths;
    assert files == Collect(root, listing);
    var resolver := new SchemaResolver();
    var compiler := new SchemaCompiler();
    var allValid;
    results, allValid := ValidateAll(resolver, compiler, root, files, observe, validator);
    summary := Summary(|files|, CountValid(results), CountInvalid(results), allValid);
    CountsPartition(results);
    NoInvalidIffAllValid(results);
    exitCode := ExitCode(allValid);
  }
}
