/**
 * Model of src/code-generator.js: the request driver. It selects the proto
 * files named in `fileToGenerate`, generates one declaration file for each,
 * appends a `.flowconfig` whose name mappers point at the generated files,
 * and turns any exception into a single error string.
 *
 * The per-file generator is a parameter: the driver constructs each
 * FileGenerator without a type registry, and what it throws is opaque here.
 */
module CodeGenerator {
  import opened Wrappers
  import opened Strings
  import opened Descriptors
  import FileGenerator

  /** A thrown JavaScript error: its message and its (opaque) stack text. */
  datatype Exception = Exception(message: string, stack: string)

  /** The parts of a `CodeGeneratorRequest` the driver reads. */
  datatype Request = Request(fileToGenerate: seq<string>, protoFiles: seq<File>)

  /** The parts of a `CodeGeneratorResponse` the driver sets: the file list, or an error. */
  datatype Response = Response(files: seq<OutputFile>, error: Option<string>)

  const FlowConfigTemplate: string := "[ignore]\n\n[include]\n\n[libs]\n\n[options]\n"
  const FlowConfigName: string := ".flowconfig"
  const FlowSuffix: string := ".js.flow"

  // ---------------------------------------------------------------------
  // `fileName.match(/(.*)\.js\.flow/)[1]`
  // ---------------------------------------------------------------------

  /** The characters a JavaScript `.` does not match. */
  predicate IsLineTerminator(c: char) {
    c == '\n' || c == '\r' || c == '\U{2028}' || c == '\U{2029}'
  }

  predicate NoLineTerminator(s: string) {
    forall i | 0 <= i < |s| :: !IsLineTerminator(s[i])
  }

  predicate SuffixAt(s: string, i: nat) {
    i + |FlowSuffix| <= |s| && s[i..i + |FlowSuffix|] == FlowSuffix
  }

  /** Where the first line ends: the first line terminator, or the end of the string. */
  function LineEnd(s: string): (k: nat)
    ensures k <= |s|
    ensures NoLineTerminator(s[..k])
    ensures k < |s| ==> IsLineTerminator(s[k])
  {
    if |s| == 0 || IsLineTerminator(s[0]) then 0
    else
      var k := 1 + LineEnd(s[1..]);
      assert s[..k] == [s[0]] + s[1..][..k - 1];
      k
  }

  /** The last position before `k` where `.js.flow` starts: the greedy `(.*)` backs off to it. */
  function LastSuffix(s: string, k: nat): (r: Option<nat>)
    requires k <= |s|
    ensures r.Some? ==> r.value < k && SuffixAt(s, r.value)
    ensures r.Some? ==> forall j | r.value < j < k :: !SuffixAt(s, j)
    ensures r.None? ==> forall j | 0 <= j < k :: !SuffixAt(s, j)
  {
    if k == 0 then None
    else if SuffixAt(s, k - 1) then Some(k - 1)
    else LastSuffix(s, k - 1)
  }

  /**
   * The first capture group of `/(.*)\.js\.flow/` on `s`, or `None` when
   * `match` returns null. The leftmost match starts at the beginning of the
   * first line that contains `.js.flow`, and the greedy group runs up to the
   * last occurrence in that line.
   */
  function SourceName(s: string): Option<string>
    decreases |s|
  {
    var k := LineEnd(s);
    match LastSuffix(s[..k], k)
    case Some(i) => Some(s[..i])
    case None => if k < |s| then SourceName(s[k + 1..]) else None
  }

  /** The fixed text of a `module.name_mapper` line, before the source name and before the file name. */
  const MapperHead: string := "module.name_mapper='^\\(.*\\)"
  const MapperMiddle: string := "\\(\\.js\\)?$' -> '<PROJECT_ROOT>/decls/"

  /** One `module.name_mapper` line of the `.flowconfig`. */
  function MapperLine(sourceName: string, fileName: string): string {
    MapperHead + sourceName + MapperMiddle + fileName + "'\n"
  }

  function OutputNames(files: seq<OutputFile>): (r: seq<string>)
    ensures |r| == |files|
    ensures forall i | 0 <= i < |files| :: r[i] == files[i].name
  {
    seq(|files|, i requires 0 <= i < |files| => files[i].name)
  }

  /**
   * The `reduce` over the first `n` file names; a name without `.js.flow`
   * makes `match` return null and indexing it throws `nullMatch`.
   */
  function MapperLines(names: seq<string>, n: nat, nullMatch: Exception): Result<string, Exception>
    requires n <= |names|
  {
    if n == 0 then Ok("")
    else
      match MapperLines(names, n - 1, nullMatch)
      case Err(e) => Err(e)
      case Ok(prev) =>
        match SourceName(names[n - 1])
        case None => Err(nullMatch)
        case Some(src) => Ok(prev + MapperLine(src, names[n - 1]))
  }

  /** `generateFlowConfiguration(files)`: the template, then one mapper line per file. */
  function FlowConfiguration(files: seq<OutputFile>, nullMatch: Exception): Result<OutputFile, Exception> {
    match MapperLines(OutputNames(files), |files|, nullMatch)
    case Err(e) => Err(e)
    case Ok(lines) => Ok(OutputFile(FlowConfigName, "" + FlowConfigTemplate + lines))
  }

  // ---------------------------------------------------------------------
  // The per-file generator
  // ---------------------------------------------------------------------

  /**
   * `new FileGenerator(fileDescriptorProto).generate()` as written: with no
   * registry, the constructor's `this.deps.values()` throws `noRegistry`
   * before anything is generated.
   */
  function UnregisteredGenerate(noRegistry: Exception): File -> Result<OutputFile, Exception> {
    f => Err(noRegistry)
  }

  /**
   * `new FileGenerator(fileDescriptorProto, deps).generate()`: a fresh
   * generator per file over the request's type registry; `thrown` is the
   * exception each FileGenerator failure raises.
   */
  function RegisteredGenerate(deps: map<string, Dep>, naming: FileGenerator.Naming, thrown: FileGenerator.Failure -> Exception)
    : File -> Result<OutputFile, Exception>
  {
    f => (match FileGenerator.Generated(FileGenerator.Env(f, deps), FileGenerator.InitialImports(deps), naming)
          case Ok(out) => Ok(out)
          case Err(e) => Err(thrown(e)))
  }

  // ---------------------------------------------------------------------
  // `CodeGenerator.generate`
  // ---------------------------------------------------------------------

  /** `getProtoFileList().filter(...)` over the first `n` proto files. */
  function Selected(protoFiles: seq<File>, wanted: set<string>, n: nat): seq<File>
    requires n <= |protoFiles|
  {
    if n == 0 then []
    else Selected(protoFiles, wanted, n - 1) + (if protoFiles[n - 1].name in wanted then [protoFiles[n - 1]] else [])
  }

  function Wanted(request: Request): set<string> {
    set name | name in request.fileToGenerate
  }

  function Selection(request: Request): seq<File> {
    Selected(request.protoFiles, Wanted(request), |request.protoFiles|)
  }

  /** `fileDescriptors.map(... generate())` over the first `n` files: the first throw ends it. */
  function GenerateAll(files: seq<File>, gen: File -> Result<OutputFile, Exception>, n: nat): Result<seq<OutputFile>, Exception>
    requires n <= |files|
  {
    if n == 0 then Ok([])
    else
      match GenerateAll(files, gen, n - 1)
      case Err(e) => Err(e)
      case Ok(outs) =>
        match gen(files[n - 1])
        case Err(e) => Err(e)
        case Ok(out) => Ok(outs + [out])
  }

  /** The `catch` branch: `${e.message}:\n ${e.stack}`. */
  function ErrorText(e: Exception): string {
    e.message + ":\n " + e.stack
  }

  /** The response `generate` returns. */
  function Respond(request: Request, gen: File -> Result<OutputFile, Exception>, nullMatch: Exception): Response {
    var selected := Selection(request);
    match GenerateAll(selected, gen, |selected|)
    case Err(e) => Response([], Some(ErrorText(e)))
    case Ok(outs) =>
      match FlowConfiguration(outs, nullMatch)
      case Err(e) => Response([], Some(ErrorText(e)))
      case Ok(config) => Response(outs + [config], None)
  }

  lemma {:induction false} GenerateAllSticky(files: seq<File>, gen: File -> Result<OutputFile, Exception>, i: nat, j: nat)
    requires i <= j <= |files|
    requires GenerateAll(files, gen, i).Err?
    ensures GenerateAll(files, gen, j) == GenerateAll(files, gen, i)
    decreases j
  {
    if j > i {
      GenerateAllSticky(files, gen, i, j - 1);
    }
  }

  /**
   * `generate(request)`: filter the proto files, generate each in order,
   * push the `.flowconfig`, and on any throw set only the error.
   */
  method Generate(request: Request, gen: File -> Result<OutputFile, Exception>, nullMatch: Exception) returns (response: Response)
    ensures response == Respond(request, gen, nullMatch)
  {
    response := Response([], None);
    var wanted := set name | name in request.fileToGenerate;
    var protoFiles := request.protoFiles;
    var selected: seq<File> := [];
    var i := 0;
    while i < |protoFiles|
      invariant 0 <= i <= |protoFiles|
      invariant selected == Selected(protoFiles, wanted, i)
    {
      if protoFiles[i].name in wanted {
        selected := selected + [protoFiles[i]];
      }
      i := i + 1;
    }
    var files: seq<OutputFile> := [];
    var j := 0;
    while j < |selected|
      invariant 0 <= j <= |selected|
      invariant GenerateAll(selected, gen, j) == Ok(files)
    {
      var out := gen(selected[j]);
      if out.Err? {
        GenerateAllSticky(selected, gen, j + 1, |selected|);
        response := Response([], Some(ErrorText(out.error)));
        return;
      }
      files := files + [out.value];
      j := j + 1;
    }
    var config := FlowConfiguration(files, nullMatch);
    if config.Err? {
      response := Response([], Some(ErrorText(config.error)));
      return;
    }
    files := files + [config.value];
    response := Response(files, None);
  }
}
