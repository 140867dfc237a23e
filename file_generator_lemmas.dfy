/**
 * Properties of the FileGenerator model: the import accumulator, the folds,
 * the class body, flattened naming and the generated file.
 */
module FileGeneratorLemmas {
  import opened Wrappers
  import opened Strings
  import opened Descriptors
  import opened FileGenerator
  import Utils

  // ---------------------------------------------------------------------
  // The import accumulator
  // ---------------------------------------------------------------------

  /** Recording two runs of `add` calls one after the other is recording their concatenation. */
  lemma {:induction false} AddAllAppend(s: map<string, seq<string>>, a: seq<Need>, b: seq<Need>)
    ensures AddAll(AddAll(s, a), b) == AddAll(s, a + b)
    decreases |b|
  {
    if |b| == 0 {
      assert a + b == a;
    } else {
      var b' := b[..|b| - 1];
      AddAllAppend(s, a, b');
      assert (a + b)[..|a + b| - 1] == a + b';
      assert (a + b)[|a + b| - 1] == b[|b| - 1];
    }
  }

  /** `add` never creates a module entry: the accumulator keeps the keys the constructor gave it. */
  lemma {:induction false} AddAllKeys(s: map<string, seq<string>>, ns: seq<Need>)
    ensures AddAll(s, ns).Keys == s.Keys
    decreases |ns|
  {
    if |ns| > 0 {
      AddAllKeys(s, ns[..|ns| - 1]);
    }
  }

  predicate Distinct(xs: seq<string>) {
    forall i, j | 0 <= i < j < |xs| :: xs[i] != xs[j]
  }

  /** Every entry of the accumulator is a set: no type name is listed twice for a module. */
  lemma {:induction false} AddAllDistinct(s: map<string, seq<string>>, ns: seq<Need>)
    requires forall k | k in s :: Distinct(s[k])
    ensures forall k | k in AddAll(s, ns) :: Distinct(AddAll(s, ns)[k])
    decreases |ns|
  {
    if |ns| > 0 {
      AddAllDistinct(s, ns[..|ns| - 1]);
    }
  }

  /**
   * Names are only ever appended: what a module listed before is still
   * listed, in the same order, at the front of its entry.
   */
  lemma {:induction false} AddAllExtends(s: map<string, seq<string>>, ns: seq<Need>, k: string)
    requires k in s
    ensures k in AddAll(s, ns) && s[k] <= AddAll(s, ns)[k]
    decreases |ns|
  {
    if |ns| > 0 {
      AddAllExtends(s, ns[..|ns| - 1], k);
    }
  }

  /** Every recorded need whose module has an entry ends up listed under that module. */
  lemma {:induction false} AddAllRecords(s: map<string, seq<string>>, ns: seq<Need>, i: nat)
    requires i < |ns| && ns[i].moduleName in s
    ensures ns[i].moduleName in AddAll(s, ns) && ns[i].typeName in AddAll(s, ns)[ns[i].moduleName]
    decreases |ns|
  {
    var front := ns[..|ns| - 1];
    if i == |ns| - 1 {
      AddAllKeys(s, front);
    } else {
      assert front[i] == ns[i];
      AddAllRecords(s, front, i);
      var k := ns[i].moduleName;
      AddAllExtends(AddAll(s, front), [ns[|ns| - 1]], k);
      assert AddAll(AddAll(s, front), [ns[|ns| - 1]]) == AddAll(s, ns) by {
        AddAllAppend(s, front, [ns[|ns| - 1]]);
        assert front + [ns[|ns| - 1]] == ns;
      }
    }
  }

  /** Conversely, a listed name was there before or was recorded by one of the needs. */
  lemma {:induction false} AddAllOnlyRecords(s: map<string, seq<string>>, ns: seq<Need>, k: string, x: string)
    requires k in AddAll(s, ns) && x in AddAll(s, ns)[k]
    ensures k in s
    ensures x in s[k] || Need(k, x) in ns
    decreases |ns|
  {
    AddAllKeys(s, ns);
    if |ns| > 0 {
      var front := ns[..|ns| - 1];
      AddAllKeys(s, front);
      if x in AddAll(s, front)[k] {
        AddAllOnlyRecords(s, front, k, x);
      } else {
        assert ns[|ns| - 1] == Need(k, x);
      }
    }
  }

  /** Needs that are all listed already change nothing. */
  lemma {:induction false} AddAllPresent(s: map<string, seq<string>>, ns: seq<Need>)
    requires forall i | 0 <= i < |ns| :: ns[i].moduleName in s ==> ns[i].typeName in s[ns[i].moduleName]
    ensures AddAll(s, ns) == s
    decreases |ns|
  {
    if |ns| > 0 {
      AddAllPresent(s, ns[..|ns| - 1]);
    }
  }

  /** Recording the same needs a second time leaves the accumulator as the first time did. */
  lemma AddAllIdempotent(s: map<string, seq<string>>, ns: seq<Need>)
    ensures AddAll(AddAll(s, ns), ns) == AddAll(s, ns)
  {
    var t := AddAll(s, ns);
    AddAllKeys(s, ns);
    forall i | 0 <= i < |ns| && ns[i].moduleName in t
      ensures ns[i].typeName in t[ns[i].moduleName]
    {
      AddAllRecords(s, ns, i);
    }
    AddAllPresent(t, ns);
  }

  // ---------------------------------------------------------------------
  // The folds stop at the first failure
  // ---------------------------------------------------------------------

  lemma {:induction false} CatAllSticky(rs: seq<Result<Emitted, Failure>>, i: nat, j: nat)
    requires i <= j <= |rs|
    requires CatAll(rs, i).Err?
    ensures CatAll(rs, j) == CatAll(rs, i)
    decreases j
  {
    if j > i {
      CatAllSticky(rs, i, j - 1);
    }
  }

  lemma {:induction false} DependencyImportsSticky(dependencies: seq<string>, i: nat, j: nat, imports: map<string, seq<string>>, naming: Naming)
    requires i <= j <= |dependencies|
    requires DependencyImports(dependencies, i, imports, naming).Err?
    ensures DependencyImports(dependencies, j, imports, naming) == DependencyImports(dependencies, i, imports, naming)
    decreases j
  {
    if j > i {
      DependencyImportsSticky(dependencies, i, j - 1, imports, naming);
    }
  }

  // ---------------------------------------------------------------------
  // The folds: concatenation in order, all-or-nothing
  // ---------------------------------------------------------------------

  lemma AppendAssoc(a: string, b: string, c: string)
    ensures a + (b + c) == a + b + c
  {
  }

  /** The text of a successful step, and nothing for a failed one. */
  function TextOf(r: Result<Emitted, Failure>): string {
    if r.Ok? then r.value.text else ""
  }

  function Texts(rs: seq<Result<Emitted, Failure>>, n: nat): (r: seq<string>)
    requires n <= |rs|
    ensures |r| == n
  {
    seq(n, i requires 0 <= i < n => TextOf(rs[i]))
  }

  /** A fold succeeds exactly when every step does. */
  lemma {:induction false} CatAllOk(rs: seq<Result<Emitted, Failure>>, n: nat)
    requires n <= |rs|
    ensures CatAll(rs, n).Ok? <==> forall i | 0 <= i < n :: rs[i].Ok?
    decreases n
  {
    if n > 0 {
      CatAllOk(rs, n - 1);
    }
  }

  lemma {:induction false} CatAllOkAt(rs: seq<Result<Emitted, Failure>>, n: nat, i: nat)
    requires i < n <= |rs|
    requires CatAll(rs, n).Ok?
    ensures rs[i].Ok?
    decreases n
  {
    if i < n - 1 {
      CatAllOkAt(rs, n - 1, i);
    }
  }

  /** A successful fold's text is the steps' texts concatenated in order. */
  lemma {:induction false} CatAllText(rs: seq<Result<Emitted, Failure>>, n: nat)
    requires n <= |rs|
    requires CatAll(rs, n).Ok?
    ensures CatAll(rs, n).value.text == Concat(Texts(rs, n))
    decreases n
  {
    if n > 0 {
      CatAllOk(rs, n);
      CatAllOk(rs, n - 1);
      CatAllText(rs, n - 1);
      assert Texts(rs, n)[..n - 1] == Texts(rs, n - 1);
    }
  }

  /** `generate` succeeds exactly when every dependency's module has an import set; the error names the first that does not. */
  lemma {:induction false} DependencyImportsOk(dependencies: seq<string>, n: nat, imports: map<string, seq<string>>, naming: Naming)
    requires n <= |dependencies|
    ensures DependencyImports(dependencies, n, imports, naming).Ok? <==>
      forall i | 0 <= i < n :: naming.moduleName(dependencies[i]) in imports
    ensures DependencyImports(dependencies, n, imports, naming).Err? ==>
      exists i | 0 <= i < n :: naming.moduleName(dependencies[i]) !in imports &&
        (forall j | 0 <= j < i :: naming.moduleName(dependencies[j]) in imports) &&
        DependencyImports(dependencies, n, imports, naming).error == MissingImportSet(naming.moduleName(dependencies[i]))
    decreases n
  {
    if n > 0 {
      DependencyImportsOk(dependencies, n - 1, imports, naming);
    }
  }

  /** The lines `reduceDependencies` writes for one dependency whose module has a set. */
  function DependencyBlock(dependency: string, imports: map<string, seq<string>>, naming: Naming): string
    requires naming.moduleName(dependency) in imports
  {
    var moduleName := naming.moduleName(dependency);
    ImportBlock(moduleName, naming.importPath(dependency), imports[moduleName])
  }

  function DependencyBlocks(dependencies: seq<string>, n: nat, imports: map<string, seq<string>>, naming: Naming): (r: seq<string>)
    requires n <= |dependencies|
    requires forall i | 0 <= i < n :: naming.moduleName(dependencies[i]) in imports
    ensures |r| == n
    ensures forall i | 0 <= i < n :: r[i] == DependencyBlock(dependencies[i], imports, naming)
  {
    seq(n, i requires 0 <= i < n => DependencyBlock(dependencies[i], imports, naming))
  }

  /**
   * The import header: each dependency's block in dependency order, and one
   * blank line after the last, when every module has a set.
   */
  lemma {:induction false} DependencyImportsText(dependencies: seq<string>, n: nat, imports: map<string, seq<string>>, naming: Naming)
    requires n <= |dependencies|
    requires forall i | 0 <= i < n :: naming.moduleName(dependencies[i]) in imports
    ensures DependencyImports(dependencies, n, imports, naming)
      == Ok(Concat(DependencyBlocks(dependencies, n, imports, naming)) + (if 0 < n == |dependencies| then "\n" else ""))
    decreases n
  {
    if n > 0 {
      DependencyImportsText(dependencies, n - 1, imports, naming);
      var blocks := DependencyBlocks(dependencies, n, imports, naming);
      var prev := Concat(DependencyBlocks(dependencies, n - 1, imports, naming));
      assert prev + "" == prev;
      assert blocks[..n - 1] == DependencyBlocks(dependencies, n - 1, imports, naming);
      assert Concat(blocks) == prev + DependencyBlock(dependencies[n - 1], imports, naming);
      assert DependencyImports(dependencies, n - 1, imports, naming) == Ok(prev);
      var trailing := if n == |dependencies| then "\n" else "";
      assert DependencyImports(dependencies, n, imports, naming)
        == Ok(prev + DependencyBlock(dependencies[n - 1], imports, naming) + trailing);
      assert DependencyImports(dependencies, n, imports, naming) == Ok(Concat(blocks) + trailing);
    } else {
      assert Concat(DependencyBlocks(dependencies, 0, imports, naming)) + "" == "";
    }
  }

  /** A character that is in no item and not in the separator is not in the join. */
  lemma {:induction false} JoinWithout(xs: seq<string>, sep: string, c: char)
    requires c !in sep
    requires forall i | 0 <= i < |xs| :: c !in xs[i]
    ensures c !in Join(xs, sep)
    decreases |xs|
  {
    if |xs| > 1 {
      JoinWithout(xs[1..], sep, c);
    }
  }

  /**
   * A dependency's block is one `import * as` line, followed by a second,
   * `import type` line exactly when its module's set is not empty.
   */
  lemma ImportBlockLines(moduleName: string, path: string, names: seq<string>)
    requires '\n' !in moduleName && '\n' !in path
    requires forall i | 0 <= i < |names| :: '\n' !in names[i]
    ensures Occurrences(ImportBlock(moduleName, path, names), '\n') == if |names| == 0 then 1 else 2
  {
    var from := " from \"" + path + ".js\";";
    var star := "import * as " + moduleName + from;
    LineOf(star);
    if |names| > 0 {
      JoinWithout(names, ", ", '\n');
      var typed := "import type {" + Join(names, ", ") + "}" + from;
      LineOf(typed);
      OccurrencesAppend(star + "\n", typed + "\n", '\n');
    } else {
      assert ImportBlock(moduleName, path, names) == star + "\n" + "";
      assert star + "\n" + "" == star + "\n";
    }
  }

  /** A line without a line break, then one. */
  lemma LineOf(s: string)
    requires '\n' !in s
    ensures Occurrences(s + "\n", '\n') == 1
  {
    OccurrencesNone(s, '\n');
    OccurrencesAppend(s, "\n", '\n');
  }


  // ---------------------------------------------------------------------
  // The generated file
  // ---------------------------------------------------------------------

  /**
   * A second `generate()` on the same generator gives the same file: the
   * needs it records again are already in the sets, so the header is unchanged.
   */
  lemma GeneratedAgain(env: Env, imports: map<string, seq<string>>, naming: Naming)
    requires FileContent(env).Ok?
    ensures Generated(env, AddAll(imports, FileContent(env).value.needs), naming) == Generated(env, imports, naming)
  {
    AddAllIdempotent(imports, FileContent(env).value.needs);
  }

  /**
   * From the constructor's accumulator, generation fails only by a throw in
   * the declarations or by a dependency whose module name no registered type has.
   */
  lemma GeneratedOk(env: Env, naming: Naming)
    ensures Generated(env, InitialImports(env.deps), naming).Ok? <==>
      FileContent(env).Ok? &&
      forall i | 0 <= i < |env.file.dependencies| :: naming.moduleName(env.file.dependencies[i]) in ModuleNames(env.deps)
  {
    var deps := env.file.dependencies;
    if FileContent(env).Ok? {
      var after := AddAll(InitialImports(env.deps), FileContent(env).value.needs);
      AddAllKeys(InitialImports(env.deps), FileContent(env).value.needs);
      DependencyImportsOk(deps, |deps|, after, naming);
    }
  }

  // ---------------------------------------------------------------------
  // Class bodies and object types
  // ---------------------------------------------------------------------

  /**
   * The accessor lines of one field, stated directly: a map field has only a
   * `get…Map(): any;` line; any other field has a getter and a setter over
   * the same declaration-mode type.
   */
  function AccessorLines(f: Field, env: Env): string {
    var pascal := Utils.PascalCase(f.name);
    if IsMapField(f, env.file.messages) then Indent + ("get" + pascal + "Map" + "(): " + "any" + ";") + "\n"
    else
      var t := TextOf(TypeSpec(f, false, false, env));
      Indent + ("get" + pascal + Suffix(f, false) + "(): " + t + ";") + "\n"
      + (Indent + ("set" + pascal + Suffix(f, false) + "(val: " + t + "): void;") + "\n")
  }

  lemma FieldAccessorsText(f: Field, env: Env)
    requires FieldAccessors(f, env).Ok?
    ensures FieldAccessors(f, env).value.text == AccessorLines(f, env)
  {
    var t := TypeSpec(f, false, IsMapField(f, env.file.messages), env);
    assert t.Ok?;
  }

  /** The class body: each field's accessor lines, in descriptor order, and nothing else. */
  lemma ClassFieldsText(fields: seq<Field>, env: Env)
    requires ClassFields(fields, env).Ok?
    ensures ClassFields(fields, env).value.text == Concat(seq(|fields|, k requires 0 <= k < |fields| => AccessorLines(fields[k], env)))
  {
    var steps := AccessorSteps(fields, env);
    CatAllText(steps, |fields|);
    forall k | 0 <= k < |fields|
      ensures Texts(steps, |fields|)[k] == AccessorLines(fields[k], env)
    {
      AccessorStepAt(fields, env, k);
      CatAllOkAt(steps, |fields|, k);
      FieldAccessorsText(fields[k], env);
    }
    assert Texts(steps, |fields|) == seq(|fields|, k requires 0 <= k < |fields| => AccessorLines(fields[k], env));
  }

  /** One line of an object type, without its trailing separator. */
  function ObjLine(f: Field, env: Env): string {
    var isMap := IsMapField(f, env.file.messages);
    Indent + FieldName(f, isMap) + ": " + TextOf(TypeSpec(f, true, isMap, env))
  }

  function ObjLines(fields: seq<Field>, env: Env): (r: seq<string>)
    ensures |r| == |fields|
  {
    seq(|fields|, k requires 0 <= k < |fields| => ObjLine(fields[k], env))
  }

  /** A fold whose steps are lines followed by a separator, except for a different ending on the last, is a join. */
  lemma {:induction false} CatAllSeparated(rs: seq<Result<Emitted, Failure>>, lines: seq<string>, sep: string, last: string, n: nat)
    requires |rs| == |lines| && 0 < n <= |rs|
    requires CatAll(rs, n).Ok?
    requires forall k | 0 <= k < |rs| :: rs[k].Ok? ==> rs[k].value.text == lines[k] + (if k == |rs| - 1 then last else sep)
    ensures CatAll(rs, n).value.text == Join(lines[..n], sep) + (if n == |rs| then last else sep)
    decreases n
  {
    CatAllOkAt(rs, n, n - 1);
    if n == 1 {
      assert lines[..1] == [lines[0]];
    } else {
      CatAllOkAt(rs, n, n - 2);
      CatAllSeparated(rs, lines, sep, last, n - 1);
      assert lines[..n] == lines[..n - 1] + [lines[n - 1]];
      JoinSnoc(lines[..n - 1], lines[n - 1], sep);
      AppendAssoc(Join(lines[..n - 1], sep) + sep, lines[n - 1], if n == |rs| then last else sep);
    }
  }

  /** The object type body: one line per field in order, `,` between lines and a newline after the last. */
  lemma ObjFieldsText(fields: seq<Field>, env: Env)
    requires ObjFields(fields, env).Ok?
    ensures ObjFields(fields, env).value.text == if |fields| == 0 then "" else Join(ObjLines(fields, env), ",\n") + "\n"
  {
    if |fields| > 0 {
      var steps := ObjSteps(fields, env);
      var lines := ObjLines(fields, env);
      forall k | 0 <= k < |steps|
        ensures steps[k].Ok? ==> steps[k].value.text == lines[k] + (if k == |steps| - 1 then "\n" else ",\n")
      {
        ObjStepAt(fields, env, k);
      }
      CatAllSeparated(steps, lines, ",\n", "\n", |fields|);
      assert lines[..|fields|] == lines;
    }
  }

  // ---------------------------------------------------------------------
  // Types of fields
  // ---------------------------------------------------------------------

  /**
   * `getType` outside the declaration-mode map case: `?` before an optional
   * message, nothing around a required field, `Array<…>` around a repeated
   * one, and the recorded needs are the lookup's.
   */
  lemma TypeSpecWrapping(f: Field, toObject: bool, isMap: bool, env: Env)
    requires toObject || !isMap
    requires RenderType(f, toObject, env).Single?
    ensures var name := RenderType(f, toObject, env).name;
      && (f.fieldLabel == LabelOptional && IsMessageKind(f.kind) ==> TypeSpec(f, toObject, isMap, env).value.text == "?" + name)
      && (f.fieldLabel == LabelOptional && !IsMessageKind(f.kind) && !f.kind.TypeUnrecognized? ==> TypeSpec(f, toObject, isMap, env).value.text == name)
      && (f.fieldLabel == LabelRequired ==> TypeSpec(f, toObject, isMap, env).value.text == name)
      && (f.fieldLabel == LabelRepeated ==> TypeSpec(f, toObject, isMap, env).value.text == "Array<" + name + ">")
    ensures TypeSpec(f, toObject, isMap, env).Ok? ==> TypeSpec(f, toObject, isMap, env).value.needs == OptionToSeq(ImportNeed(f, toObject, env))
  {
    var name := RenderType(f, toObject, env).name;
    if f.fieldLabel == LabelOptional && !IsMessageKind(f.kind) && !f.kind.TypeUnrecognized? {
      assert "" + name + "" == name;
    }
    if f.fieldLabel == LabelRequired {
      assert "" + name + "" == name;
    }
    if f.fieldLabel == LabelOptional && IsMessageKind(f.kind) {
      assert "?" + name + "" == "?" + name;
    }
  }

  /** Alternatives are wrapped one by one and joined by `|`. */
  lemma WrapBytes(pre: string, post: string)
    ensures Wrap((pre, post), Alternatives(["string", "Uint8Array"])) == pre + "string" + post + "|" + (pre + "Uint8Array" + post)
  {
    var names := ["string", "Uint8Array"];
    var ws := seq(|names|, i requires 0 <= i < |names| => pre + names[i] + post);
    assert ws == [pre + "string" + post, pre + "Uint8Array" + post];
    assert ws[1..] == [pre + "Uint8Array" + post];
    assert Join(ws[1..], "|") == pre + "Uint8Array" + post;
  }

  /**
   * Bytes render as both alternatives, each under the label's wrapper:
   * `Array<string>|Array<Uint8Array>` for a repeated field, `string|Uint8Array`
   * for a required or a scalar optional one.
   */
  lemma BytesType(f: Field, toObject: bool, env: Env)
    requires f.kind == TypeBytes
    ensures LabelParts(f).Ok? ==>
      var (pre, post) := LabelParts(f).value;
      TypeSpec(f, toObject, false, env) == Ok(Emitted(pre + "string" + post + "|" + (pre + "Uint8Array" + post), []))
  {
    if LabelParts(f).Ok? {
      var (pre, post) := LabelParts(f).value;
      WrapBytes(pre, post);
    }
  }

  /**
   * `getFieldName` keeps the camelized proto name as a prefix; repeated
   * fields add `Map` or `List`, and only for them does the map flag matter.
   */
  lemma FieldNameShape(f: Field, isMap: bool)
    ensures var c := Utils.Camelize(f.name); var r := FieldName(f, isMap);
      |c| <= |r| && r[..|c|] == c &&
      (f.fieldLabel != LabelRepeated ==> r == c && FieldName(f, !isMap) == r) &&
      (f.fieldLabel == LabelRepeated ==> r[|c|..] == (if isMap then "Map" else "List"))
  {
    var c := Utils.Camelize(f.name);
    assert FieldName(f, isMap)[..|c|] == c;
  }

  // ---------------------------------------------------------------------
  // Map fields
  // ---------------------------------------------------------------------

  /**
   * `isMap` holds exactly for a repeated message field whose type name's
   * last dot segment first occurs, in the depth-first pre-order walk of the
   * file's own messages, on a map-entry message; a name found nowhere means
   * not a map.
   */
  lemma IsMapFieldMatch(f: Field, messages: seq<Message>)
    ensures var all := AllMessages(messages); var seg := LastSegment(f.typeName);
      IsMapField(f, messages) <==>
        f.kind == TypeMessage && f.fieldLabel == LabelRepeated &&
        exists i | 0 <= i < |all| :: all[i].name == seg && all[i].mapEntry && forall j | 0 <= j < i :: all[j].name != seg
    ensures (forall i | 0 <= i < |AllMessages(messages)| :: AllMessages(messages)[i].name != LastSegment(f.typeName)) ==>
      !IsMapField(f, messages)
  {
    var all := AllMessages(messages);
    var seg := LastSegment(f.typeName);
    FirstNamedNone(all, seg);
    if FirstNamed(all, seg).Some? {
      var k := FirstNamedIndex(all, seg);
    }
    if exists i | 0 <= i < |all| :: all[i].name == seg && all[i].mapEntry && forall j | 0 <= j < i :: all[j].name != seg {
      var i :| 0 <= i < |all| && all[i].name == seg && all[i].mapEntry && forall j | 0 <= j < i :: all[j].name != seg;
      FirstNamedAt(all, seg, i);
    }
  }

  // ---------------------------------------------------------------------
  // Flattened names
  // ---------------------------------------------------------------------

  predicate NamesNonEmpty(ms: seq<Message>) {
    forall i | 0 <= i < |ms| :: ms[i].name != ""
  }

  /**
   * The `$`-joined names of a message's enclosing messages and itself are
   * its declaration name: the prefix `reducerForEnumTypes` and
   * `reducerForNestedStaticTypes` use inside it is the name
   * `generateMessageClass` declared it under.
   */
  lemma PrefixIsFlatName(parents: seq<Message>, m: Message)
    requires NamesNonEmpty(parents)
    ensures Join(Names(parents + [m]), "$") == FlatName(parents, m.name)
  {
    var ns := Names(parents);
    assert Names(parents + [m]) == ns + [m.name];
    if |parents| > 0 {
      JoinSnoc(ns, m.name, "$");
      assert Join(ns, "$") != "" by {
        if |ns| > 1 {
          assert |Join(ns, "$")| >= |ns[0] + "$"|;
        }
      }
    } else {
      assert ns + [m.name] == [m.name];
    }
  }

  /** The `static` handle a class has for a nested message names that message's declaration; map entries get none. */
  lemma StaticHandlesNameDeclarations(parents: seq<Message>, m: Message)
    requires NamesNonEmpty(parents) && m.name != ""
    ensures NestedStaticTypes(parents + [m], m.nested) ==
      Concat(seq(|m.nested|, k requires 0 <= k < |m.nested| =>
        if m.nested[k].mapEntry then ""
        else Indent + "static " + m.nested[k].name + ": typeof " + FlatName(parents + [m], m.nested[k].name) + ";\n"))
  {
    var ns := m.nested;
    var prefix := Join(Names(parents + [m]), "$");
    PrefixIsFlatName(parents, m);
    assert prefix != "";
    var emitted := seq(|ns|, i requires 0 <= i < |ns| =>
      if ns[i].mapEntry then "" else Indent + "static " + ns[i].name + ": typeof " + (prefix + "$") + ns[i].name + ";\n");
    var stated := seq(|m.nested|, k requires 0 <= k < |m.nested| =>
        if m.nested[k].mapEntry then ""
        else Indent + "static " + m.nested[k].name + ": typeof " + FlatName(parents + [m], m.nested[k].name) + ";\n");
    forall k | 0 <= k < |ns|
      ensures emitted[k] == stated[k]
    {
      AppendAssoc(Indent + "static " + ns[k].name + ": typeof ", prefix + "$", ns[k].name);
    }
    assert NestedStaticTypes(parents + [m], ns) == Concat(emitted);
    assert emitted == stated;
  }

  // ---------------------------------------------------------------------
  // Enums and messages
  // ---------------------------------------------------------------------

  /** An enum declaration joins its entries with `,\n` and its numbers with ` | `, in descriptor order. */
  lemma EnumDeclarationJoin(head: string, unionName: string, vs: seq<EnumValue>)
    ensures EnumDeclaration(head, unionName, vs) ==
      head + Join(EnumEntries(vs), ",\n") + "\n" + "}\n" + "\n"
      + "export type " + unionName + " = " + Join(EnumNumbers(vs), " | ") + ";\n" + "\n"
  {
    ReduceSeparatedIsJoin(EnumEntries(vs), ",\n");
    ReduceSeparatedIsJoin(EnumNumbers(vs), " | ");
  }

  /** A map-entry message contributes no class, but its object type and nested declarations are still emitted. */
  lemma MapEntryBlock(m: Message, parents: seq<Message>, env: Env)
    requires m.mapEntry
    ensures MessageClass(m, parents, env) == Emit("")
    ensures MessageBlock(m, parents, env).Ok? ==>
      MessageBlock(m, parents, env).value.text ==
        NestedEnums(parents + [m], m.enums) + MessageObj(m, parents, env).value.text + MessagesText(m.nested, parents + [m], env).value.text
  {
    assert "" + NestedEnums(parents + [m], m.enums) == NestedEnums(parents + [m], m.enums);
  }
}
