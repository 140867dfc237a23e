/**
 * Properties of the CodeGenerator model: the source-name regex, the
 * selection of files, the `.flowconfig` and the all-or-nothing response.
 */
module CodeGeneratorLemmas {
  import opened Wrappers
  import opened Strings
  import opened Descriptors
  import opened CodeGenerator
  import FileGenerator
  import FileGeneratorLemmas

  // ---------------------------------------------------------------------
  // The source-name regex
  // ---------------------------------------------------------------------

  /** A one-line name ending in `.js.flow` gives back everything before that suffix. */
  lemma SourceNameOfFlowFile(src: string)
    requires NoLineTerminator(src)
    ensures SourceName(src + FlowSuffix) == Some(src)
  {
    var s := src + FlowSuffix;
    assert NoLineTerminator(s) by {
      forall i | 0 <= i < |s|
        ensures !IsLineTerminator(s[i])
      {
        if i >= |src| {
          assert s[i] == FlowSuffix[i - |src|];
        }
      }
    }
    assert LineEnd(s) == |s|;
    assert s[..|s|] == s;
    assert SuffixAt(s, |src|) by {
      assert s[|src|..|src| + |FlowSuffix|] == FlowSuffix;
    }
  }

  /** An occurrence of `.js.flow` that starts before a line terminator ends before it. */
  lemma SuffixWithinLine(s: string, k: nat, i: nat)
    requires k < |s| && IsLineTerminator(s[k])
    requires i < k && SuffixAt(s, i)
    ensures i + |FlowSuffix| <= k
  {
  }

  /** No occurrence starts at a line terminator. */
  lemma NoSuffixAtTerminator(s: string, k: nat)
    requires k < |s| && IsLineTerminator(s[k])
    ensures !SuffixAt(s, k)
  {
  }

  /** The occurrences in the first line are the occurrences in the string that start before its end. */
  lemma FirstLineSuffixes(s: string, k: nat)
    requires k == LineEnd(s)
    ensures forall i | 0 <= i < k :: SuffixAt(s[..k], i) <==> SuffixAt(s, i)
  {
    forall i | 0 <= i < k
      ensures SuffixAt(s[..k], i) <==> SuffixAt(s, i)
    {
      if SuffixAt(s, i) && k < |s| {
        SuffixWithinLine(s, k, i);
      }
      if i + |FlowSuffix| <= k {
        assert s[..k][i..i + |FlowSuffix|] == s[i..i + |FlowSuffix|];
      }
    }
  }

  /** The occurrences after the first line terminator, counted from just past it. */
  lemma RestSuffixes(s: string, k: nat, rest: string)
    requires k < |s| && rest == s[k + 1..]
    ensures forall i | 0 <= i < |rest| :: SuffixAt(rest, i) <==> SuffixAt(s, k + 1 + i)
  {
    forall i | 0 <= i < |rest|
      ensures SuffixAt(rest, i) <==> SuffixAt(s, k + 1 + i)
    {
      if i + |FlowSuffix| <= |rest| {
        assert rest[i..i + |FlowSuffix|] == s[k + 1 + i..k + 1 + i + |FlowSuffix|];
      }
    }
  }

  /** Past a line terminator at `k`, the occurrences split into those before `k` and those in the rest. */
  lemma SuffixesAroundTerminator(s: string, k: nat, rest: string)
    requires k < |s| && IsLineTerminator(s[k]) && rest == s[k + 1..]
    ensures (forall i | 0 <= i < |s| :: !SuffixAt(s, i))
        <==> (forall i | 0 <= i < k :: !SuffixAt(s, i)) && (forall i | 0 <= i < |rest| :: !SuffixAt(rest, i))
  {
    RestSuffixes(s, k, rest);
    NoSuffixAtTerminator(s, k);
    if !(forall i | 0 <= i < |s| :: !SuffixAt(s, i)) {
      var i :| 0 <= i < |s| && SuffixAt(s, i);
      if i > k {
        assert SuffixAt(rest, i - (k + 1));
      }
    }
  }

  /** `match` returns null exactly when `.js.flow` occurs nowhere in the name. */
  lemma {:induction false} SourceNameNone(s: string)
    ensures SourceName(s).None? <==> forall i | 0 <= i < |s| :: !SuffixAt(s, i)
    decreases |s|
  {
    var k := LineEnd(s);
    FirstLineSuffixes(s, k);
    if k < |s| {
      SuffixesAroundTerminator(s, k, s[k + 1..]);
      if LastSuffix(s[..k], k).None? {
        SourceNameNone(s[k + 1..]);
      }
    }
  }

  // ---------------------------------------------------------------------
  // Selection of the files to generate
  // ---------------------------------------------------------------------

  /** The selection keeps exactly the proto files whose name was asked for. */
  lemma {:induction false} SelectedMembers(protoFiles: seq<File>, wanted: set<string>, n: nat, f: File)
    requires n <= |protoFiles|
    ensures f in Selected(protoFiles, wanted, n) <==> f.name in wanted && exists i | 0 <= i < n :: protoFiles[i] == f
    ensures |Selected(protoFiles, wanted, n)| <= n
    decreases n
  {
    if n > 0 {
      SelectedMembers(protoFiles, wanted, n - 1, f);
    }
  }

  /** When every proto file is asked for, the selection is the proto file list itself, in its order. */
  lemma {:induction false} SelectedEverything(protoFiles: seq<File>, wanted: set<string>, n: nat)
    requires n <= |protoFiles|
    requires forall i | 0 <= i < n :: protoFiles[i].name in wanted
    ensures Selected(protoFiles, wanted, n) == protoFiles[..n]
    decreases n
  {
    if n > 0 {
      SelectedEverything(protoFiles, wanted, n - 1);
      assert protoFiles[..n] == protoFiles[..n - 1] + [protoFiles[n - 1]];
    }
  }

  /**
   * The filter keeps order and repeats: selecting from a list is selecting
   * from its first `k` files, then from the rest, and a single file is kept
   * exactly when its name is asked for.
   */
  lemma {:induction false} SelectedSplit(protoFiles: seq<File>, wanted: set<string>, k: nat, n: nat)
    requires k <= n <= |protoFiles|
    ensures Selected(protoFiles, wanted, n) == Selected(protoFiles, wanted, k) + Selected(protoFiles[k..], wanted, n - k)
    ensures n == k + 1 ==> Selected(protoFiles[k..], wanted, 1) == if protoFiles[k].name in wanted then [protoFiles[k]] else []
    decreases n
  {
    var rest := protoFiles[k..];
    if n > k {
      SelectedSplit(protoFiles, wanted, k, n - 1);
      assert rest[n - k - 1] == protoFiles[n - 1];
      assert Selected(rest, wanted, 0) == [];
    } else {
      assert Selected(rest, wanted, 0) == [];
    }
  }

  // ---------------------------------------------------------------------
  // Generation and the `.flowconfig`
  // ---------------------------------------------------------------------

  /** Generation succeeds exactly when every file does, and then yields their outputs in order. */
  lemma {:induction false} GenerateAllOk(files: seq<File>, gen: File -> Result<OutputFile, Exception>, n: nat)
    requires n <= |files|
    ensures GenerateAll(files, gen, n).Ok? <==> forall i | 0 <= i < n :: gen(files[i]).Ok?
    ensures GenerateAll(files, gen, n).Ok? ==>
      |GenerateAll(files, gen, n).value| == n &&
      forall i | 0 <= i < n :: GenerateAll(files, gen, n).value[i] == gen(files[i]).value
    decreases n
  {
    if n > 0 {
      GenerateAllOk(files, gen, n - 1);
    }
  }

  /** The mapper lines of names that all carry `.js.flow`, in order. */
  function MapperTexts(names: seq<string>, n: nat): (r: seq<string>)
    requires n <= |names|
    requires forall i | 0 <= i < n :: SourceName(names[i]).Some?
    ensures |r| == n
  {
    seq(n, i requires 0 <= i < n => MapperLine(SourceName(names[i]).value, names[i]))
  }

  /** The fold succeeds exactly when every name matches; otherwise it throws the null-match error. */
  lemma {:induction false} MapperLinesOk(names: seq<string>, n: nat, nullMatch: Exception)
    requires n <= |names|
    ensures MapperLines(names, n, nullMatch).Ok? <==> forall i | 0 <= i < n :: SourceName(names[i]).Some?
    ensures MapperLines(names, n, nullMatch).Err? ==> MapperLines(names, n, nullMatch).error == nullMatch
    decreases n
  {
    if n > 0 {
      MapperLinesOk(names, n - 1, nullMatch);
    }
  }

  /** A successful fold is one mapper line per name, in order. */
  lemma {:induction false} MapperLinesText(names: seq<string>, n: nat, nullMatch: Exception)
    requires n <= |names|
    requires MapperLines(names, n, nullMatch).Ok?
    ensures forall i | 0 <= i < n :: SourceName(names[i]).Some?
    ensures MapperLines(names, n, nullMatch).value == Concat(MapperTexts(names, n))
    decreases n
  {
    MapperLinesOk(names, n, nullMatch);
    if n > 0 {
      MapperLinesText(names, n - 1, nullMatch);
      assert MapperTexts(names, n)[..n - 1] == MapperTexts(names, n - 1);
    }
  }

  /**
   * The `.flowconfig` is the template followed by one mapper line per
   * generated file, in order; with no files it is the bare template.
   */
  lemma FlowConfigurationContent(files: seq<OutputFile>, nullMatch: Exception)
    ensures FlowConfiguration(files, nullMatch).Ok? <==> forall i | 0 <= i < |files| :: SourceName(files[i].name).Some?
    ensures FlowConfiguration(files, nullMatch).Ok? ==>
      FlowConfiguration(files, nullMatch).value.name == FlowConfigName &&
      FlowConfiguration(files, nullMatch).value.content == FlowConfigTemplate + Concat(MapperTexts(OutputNames(files), |files|))
    ensures files == [] ==> FlowConfiguration(files, nullMatch) == Ok(OutputFile(FlowConfigName, FlowConfigTemplate))
  {
    MapperLinesOk(OutputNames(files), |files|, nullMatch);
    if FlowConfiguration(files, nullMatch).Ok? {
      MapperLinesText(OutputNames(files), |files|, nullMatch);
    }
    assert "" + FlowConfigTemplate == FlowConfigTemplate;
    if files == [] {
      assert FlowConfigTemplate + "" == FlowConfigTemplate;
    }
  }

  // ---------------------------------------------------------------------
  // The response
  // ---------------------------------------------------------------------

  /**
   * All or nothing: the response carries an error exactly when some selected
   * file fails to generate or some output name lacks `.js.flow`; then it has
   * no files. Otherwise it lists each selected file's output in order and
   * one `.flowconfig` last.
   */
  lemma RespondAllOrNothing(request: Request, gen: File -> Result<OutputFile, Exception>, nullMatch: Exception)
    ensures var selected := Selection(request);
      Respond(request, gen, nullMatch).error.None? <==>
        forall i | 0 <= i < |selected| :: gen(selected[i]).Ok? && SourceName(gen(selected[i]).value.name).Some?
    ensures Respond(request, gen, nullMatch).error.Some? ==> Respond(request, gen, nullMatch).files == []
    ensures var selected := Selection(request); var r := Respond(request, gen, nullMatch);
      r.error.None? ==>
        |r.files| == |selected| + 1 &&
        r.files[|selected|].name == FlowConfigName &&
        forall i | 0 <= i < |selected| :: r.files[i] == gen(selected[i]).value
  {
    var selected := Selection(request);
    GenerateAllOk(selected, gen, |selected|);
    var outs := GenerateAll(selected, gen, |selected|);
    if outs.Ok? {
      FlowConfigurationContent(outs.value, nullMatch);
      var r := Respond(request, gen, nullMatch);
      if r.error.None? {
        assert r.files[..|selected|] == outs.value;
      }
    } else {
      var i :| 0 <= i < |selected| && gen(selected[i]).Err?;
    }
  }

  /** With nothing to generate the response is just the `.flowconfig` holding the bare template. */
  lemma RespondNothingSelected(request: Request, gen: File -> Result<OutputFile, Exception>, nullMatch: Exception)
    requires Selection(request) == []
    ensures Respond(request, gen, nullMatch) == Response([OutputFile(FlowConfigName, FlowConfigTemplate)], None)
  {
    FlowConfigurationContent([], nullMatch);
  }

  /**
   * The files FileGenerator names (`getFileName(name) + ".js.flow"`) always
   * get a mapper line pointing back at their stem, provided the stem is one line.
   */
  lemma GeneratedFileMaps(env: FileGenerator.Env, imports: map<string, seq<string>>, naming: FileGenerator.Naming)
    requires FileGenerator.Generated(env, imports, naming).Ok?
    requires NoLineTerminator(naming.fileName(env.file.name))
    ensures SourceName(FileGenerator.Generated(env, imports, naming).value.name) == Some(naming.fileName(env.file.name))
  {
    SourceNameOfFlowFile(naming.fileName(env.file.name));
  }

  // ---------------------------------------------------------------------
  // The generator the driver constructs
  // ---------------------------------------------------------------------

  /** As written, a request that selects any file gets back only the error of the missing registry. */
  lemma UnregisteredDriverFails(request: Request, noRegistry: Exception, nullMatch: Exception)
    requires Selection(request) != []
    ensures Respond(request, UnregisteredGenerate(noRegistry), nullMatch) == Response([], Some(ErrorText(noRegistry)))
  {
    var selected := Selection(request);
    var gen := UnregisteredGenerate(noRegistry);
    assert GenerateAll(selected, gen, 1) == Err(noRegistry);
    GenerateAllSticky(selected, gen, 1, |selected|);
  }

  /**
   * With the registry handed to each FileGenerator, a request whose selected
   * files all generate, and whose stems are one line each, gets every
   * generated file in order and then the `.flowconfig`.
   */
  lemma RegisteredDriverSucceeds(request: Request, deps: map<string, Dep>, naming: FileGenerator.Naming,
                                 thrown: FileGenerator.Failure -> Exception, nullMatch: Exception)
    requires forall i | 0 <= i < |Selection(request)| ::
      FileGenerator.FileContent(FileGenerator.Env(Selection(request)[i], deps)).Ok? &&
      (forall j | 0 <= j < |Selection(request)[i].dependencies| ::
        naming.moduleName(Selection(request)[i].dependencies[j]) in FileGenerator.ModuleNames(deps)) &&
      NoLineTerminator(naming.fileName(Selection(request)[i].name))
    ensures var selected := Selection(request);
      var r := Respond(request, RegisteredGenerate(deps, naming, thrown), nullMatch);
      r.error.None? && |r.files| == |selected| + 1 && r.files[|selected|].name == FlowConfigName &&
      forall i | 0 <= i < |selected| ::
        FileGenerator.Generated(FileGenerator.Env(selected[i], deps), FileGenerator.InitialImports(deps), naming) == Ok(r.files[i])
  {
    var selected := Selection(request);
    var gen := RegisteredGenerate(deps, naming, thrown);
    forall i | 0 <= i < |selected|
      ensures gen(selected[i]).Ok? && SourceName(gen(selected[i]).value.name).Some?
      ensures FileGenerator.Generated(FileGenerator.Env(selected[i], deps), FileGenerator.InitialImports(deps), naming) == Ok(gen(selected[i]).value)
    {
      var env := FileGenerator.Env(selected[i], deps);
      FileGeneratorLemmas.GeneratedOk(env, naming);
      GeneratedFileMaps(env, FileGenerator.InitialImports(deps), naming);
    }
    RespondAllOrNothing(request, gen, nullMatch);
  }
}
