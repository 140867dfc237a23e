/**
 * The `FileGenerator` class of src/file-generator.js: the methods that
 * record import needs in `importTypes` while they build text, and the
 * `find` loop of `isMap`. Each method is proved to return the text of the
 * matching function of FileGenerator and to leave `importTypes` as the
 * `add` calls that function lists make it.
 */
module FileGeneratorClass {
  import opened Wrappers
  import opened Strings
  import opened Descriptors
  import opened FileGenerator
  import opened FileGeneratorLemmas
  import Utils

  /**
   * A method result `r` that extends `prev` agrees with the specification
   * `spec`: the same failure, or `prev` followed by its text with the
   * accumulator advanced by its needs. After a failure the accumulator is
   * left unspecified.
   */
  ghost predicate Extends(r: Result<string, Failure>, prev: string, spec: Result<Emitted, Failure>,
                          before: map<string, seq<string>>, after: map<string, seq<string>>)
  {
    match spec
    case Err(e) => r == Err(e)
    case Ok(em) => r == Ok(prev + em.text) && after == AddAll(before, em.needs)
  }

  /** `Extends` with nothing before: `r` is the specified text itself. */
  ghost predicate Follows(r: Result<string, Failure>, spec: Result<Emitted, Failure>,
                          before: map<string, seq<string>>, after: map<string, seq<string>>)
  {
    match spec
    case Err(e) => r == Err(e)
    case Ok(em) => r == Ok(em.text) && after == AddAll(before, em.needs)
  }

  /**
   * One iteration of a loop over the steps of a fold: a step that extends
   * the text so far extends the fold by one, and a failing step is the
   * failure of the whole fold.
   */
  lemma FoldStep(steps: seq<Result<Emitted, Failure>>, i: nat, ret: string, next: Result<string, Failure>,
                 s0: map<string, seq<string>>, s1: map<string, seq<string>>, s2: map<string, seq<string>>)
    requires i < |steps|
    requires Follows(Ok(ret), CatAll(steps, i), s0, s1)
    requires Extends(next, ret, steps[i], s1, s2)
    ensures next.Ok? ==> Follows(next, CatAll(steps, i + 1), s0, s2)
    ensures next.Err? ==> Follows(next, CatAll(steps, |steps|), s0, s2)
  {
    if next.Err? {
      CatAllSticky(steps, i + 1, |steps|);
    } else {
      AddAllAppend(s0, CatAll(steps, i).value.needs, steps[i].value.needs);
    }
  }

  /** `find` inside `isMap`: a depth-first, pre-order search for the first message with a given simple name. */
  method Find(name: string, ms: seq<Message>) returns (found: Option<Message>)
    ensures found == FirstNamed(AllMessages(ms), name)
    decreases ms
  {
    found := None;
    var i := 0;
    while i < |ms|
      invariant 0 <= i <= |ms|
      invariant FirstNamed(Preorder(ms, i), name).None?
    {
      FirstNamedStep(ms, i, name);
      if ms[i].name == name {
        found := Some(ms[i]);
        FirstNamedInPrefix(ms, i + 1, name);
        break;
      }
      var deepFound := Find(name, ms[i].nested);
      if deepFound.Some? {
        found := deepFound;
        FirstNamedInPrefix(ms, i + 1, name);
        break;
      }
      i := i + 1;
    }
  }

  class Generator {
    /** The file descriptor and the type registry handed to the constructor. */
    const env: Env
    /** `getFileName`, `getImportPath` and `getModuleName`. */
    const naming: Naming
    /** Per module name, the type names to import from it, in insertion order. */
    var importTypes: map<string, seq<string>>

    /** `importTypes` has a set for exactly the module names of the registry. */
    predicate Valid()
      reads this
    {
      importTypes.Keys == ModuleNames(env.deps)
    }

    constructor (file: File, deps: map<string, Dep>, naming: Naming)
      ensures env == Env(file, deps) && this.naming == naming
      ensures importTypes == InitialImports(deps)
      ensures Valid()
    {
      env := Env(file, deps);
      this.naming := naming;
      importTypes := InitialImports(deps);
    }

    /** `this.importTypes[moduleName].add(typeName)` */
    method AddImportType(moduleName: string, typeName: string)
      requires Valid() && moduleName in importTypes
      modifies this
      ensures Valid()
      ensures importTypes == AddNeed(old(importTypes), Need(moduleName, typeName))
    {
      var names := importTypes[moduleName];
      if typeName !in names {
        importTypes := importTypes[moduleName := names + [typeName]];
      }
    }

    /** `getType$type`: renders the kind and records an import for object-shape messages and resolved enums. */
    method GetTypeType(f: Field, toObject: bool) returns (t: TypeExpr)
      requires Valid()
      modifies this
      ensures Valid()
      ensures t == RenderType(f, toObject, env)
      ensures importTypes == AddAll(old(importTypes), OptionToSeq(ImportNeed(f, toObject, env)))
    {
      if IsMessageKind(f.kind) && f.typeName in env.deps && toObject {
        var dep := env.deps[f.typeName];
        var typeName := DotsToDollars(dep.name) + "Obj";
        AddImportType(dep.moduleName, typeName);
        t := Single(typeName);
      } else if f.kind == TypeEnum && f.typeName in env.deps {
        var dep := env.deps[f.typeName];
        var typeName := DotsToDollars(dep.name) + "Type";
        AddImportType(dep.moduleName, typeName);
        t := Single(typeName);
      } else {
        t := RenderType(f, toObject, env);
      }
    }

    /** `getType(field, {toObject, isMap})` */
    method GetType(f: Field, toObject: bool, isMap: bool) returns (r: Result<string, Failure>)
      requires Valid()
      modifies this
      ensures Valid()
      ensures Follows(r, TypeSpec(f, toObject, isMap, env), old(importTypes), importTypes)
      ensures r.Err? ==> importTypes == old(importTypes)
    {
      if !toObject && isMap {
        return Ok("any");
      }
      var parts := LabelParts(f);
      if parts.Err? {
        return Err(parts.error);
      }
      var t := GetTypeType(f, toObject);
      r := Ok(Wrap(parts.value, t));
    }

    /** `isMap` */
    method IsMap(f: Field) returns (b: bool)
      ensures b == IsMapField(f, env.file.messages)
    {
      if !(f.kind == TypeMessage && f.fieldLabel == LabelRepeated) {
        return false;
      }
      var found := Find(LastSegment(f.typeName), env.file.messages);
      b := found.Some? && found.value.mapEntry;
    }

    /** `getterForField(field, {isMap})` */
    method GetterForField(f: Field, isMap: bool) returns (r: Result<string, Failure>)
      requires Valid()
      modifies this
      ensures Valid()
      ensures Follows(r, GetterSpec(f, isMap, env), old(importTypes), importTypes)
    {
      var t := GetType(f, false, isMap);
      if t.Err? {
        return t;
      }
      r := Ok("get" + Utils.PascalCase(f.name) + Suffix(f, isMap) + "(): " + t.value + ";");
    }

    /** `setterForField(field)` */
    method SetterForField(f: Field) returns (r: Result<string, Failure>)
      requires Valid()
      modifies this
      ensures Valid()
      ensures Follows(r, SetterSpec(f, env), old(importTypes), importTypes)
    {
      var t := GetType(f, false, false);
      if t.Err? {
        return t;
      }
      r := Ok("set" + Utils.PascalCase(f.name) + Suffix(f, false) + "(val: " + t.value + "): void;");
    }

    /** `reduceMessageFields`: appends the getter line of `fields[index]` and, unless it is a map, its setter line. */
    method ReduceMessageFields(prev: string, fields: seq<Field>, index: nat) returns (r: Result<string, Failure>)
      requires Valid() && index < |fields|
      modifies this
      ensures Valid()
      ensures Extends(r, prev, AccessorSteps(fields, env)[index], old(importTypes), importTypes)
    {
      AccessorStepAt(fields, env, index);
      var f := fields[index];
      var isMap := IsMap(f);
      var getter := GetterForField(f, isMap);
      if getter.Err? {
        return getter;
      }
      var getterLine := Indent + getter.value + "\n";
      if isMap {
        assert GetterSpec(f, isMap, env).value.needs + [] == GetterSpec(f, isMap, env).value.needs;
        return Ok(prev + (getterLine + ""));
      }
      var setter := SetterForField(f);
      if setter.Err? {
        return setter;
      }
      AddAllAppend(old(importTypes), GetterSpec(f, isMap, env).value.needs, SetterSpec(f, env).value.needs);
      r := Ok(prev + (getterLine + (Indent + setter.value + "\n")));
    }

    /** `reduceMessageObjFields`: appends `name: type` for `fields[index]`, with a comma unless it is the last field. */
    method ReduceMessageObjFields(prev: string, fields: seq<Field>, index: nat) returns (r: Result<string, Failure>)
      requires Valid() && index < |fields|
      modifies this
      ensures Valid()
      ensures Extends(r, prev, ObjSteps(fields, env)[index], old(importTypes), importTypes)
    {
      ObjStepAt(fields, env, index);
      var f := fields[index];
      var isMap := IsMap(f);
      var fieldName := FieldName(f, isMap);
      var fieldType := GetType(f, true, isMap);
      if fieldType.Err? {
        return fieldType;
      }
      var tail := if index == |fields| - 1 then "\n" else ",\n";
      r := Ok(prev + (Indent + fieldName + ": " + fieldType.value + tail));
    }
  
    /** `fields.reduce(this.reduceMessageFields, "")` */
    method ReduceAllMessageFields(fields: seq<Field>) returns (r: Result<string, Failure>)
      requires Valid()
      modifies this
      ensures Valid()
      ensures Follows(r, ClassFields(fields, env), old(importTypes), importTypes)
    {
      var steps := AccessorSteps(fields, env);
      var ret := "";
      var i := 0;
      while i < |fields|
        invariant 0 <= i <= |fields| && Valid()
        invariant Follows(Ok(ret), CatAll(steps, i), old(importTypes), importTypes)
      {
        ghost var before := importTypes;
        var next := ReduceMessageFields(ret, fields, i);
        FoldStep(steps, i, ret, next, old(importTypes), before, importTypes);
        if next.Err? {
          return next;
        }
        ret := next.value;
        i := i + 1;
      }
      r := Ok(ret);
    }

    /** `fields.reduce(this.reduceMessageObjFields, "")` */
    method ReduceAllMessageObjFields(fields: seq<Field>) returns (r: Result<string, Failure>)
      requires Valid()
      modifies this
      ensures Valid()
      ensures Follows(r, ObjFields(fields, env), old(importTypes), importTypes)
    {
      var steps := ObjSteps(fields, env);
      var ret := "";
      var i := 0;
      while i < |fields|
        invariant 0 <= i <= |fields| && Valid()
        invariant Follows(Ok(ret), CatAll(steps, i), old(importTypes), importTypes)
      {
        ghost var before := importTypes;
        var next := ReduceMessageObjFields(ret, fields, i);
        FoldStep(steps, i, ret, next, old(importTypes), before, importTypes);
        if next.Err? {
          return next;
        }
        ret := next.value;
        i := i + 1;
      }
      r := Ok(ret);
    }

    /** `generateMessageClass`: nothing for a map entry. */
    method GenerateMessageClass(m: Message, parents: seq<Message>) returns (r: Result<string, Failure>)
      requires Valid()
      modifies this
      ensures Valid()
      ensures Follows(r, MessageClass(m, parents, env), old(importTypes), importTypes)
    {
      if m.mapEntry {
        return Ok("");
      }
      var name := FlatName(parents, m.name);
      var fields := ReduceAllMessageFields(m.fields);
      if fields.Err? {
        return fields;
      }
      var members := GenerateOtherMethods(name) + NestedStaticTypes(parents + [m], m.nested) + NestedStaticEnums(name, m.enums);
      r := Ok("declare export class " + name + " {\n" + fields.value + (members + "}\n" + "\n"));
    }

    /** `generateMessageObj` */
    method GenerateMessageObj(m: Message, parents: seq<Message>) returns (r: Result<string, Failure>)
      requires Valid()
      modifies this
      ensures Valid()
      ensures Follows(r, MessageObj(m, parents, env), old(importTypes), importTypes)
    {
      var name := FlatName(parents, m.name);
      var fields := ReduceAllMessageObjFields(m.fields);
      if fields.Err? {
        return fields;
      }
      r := Ok("export type " + name + "Obj = {\n" + fields.value + ("}\n" + "\n"));
    }
  
    /** `reducerForMessageTypes(parents)`: appends a message's class, nested enums, object type and nested messages. */
    method ReduceMessageTypes(prev: string, ms: seq<Message>, index: nat, parents: seq<Message>) returns (r: Result<string, Failure>)
      requires Valid() && index < |ms|
      modifies this
      ensures Valid()
      ensures Extends(r, prev, MessageSteps(ms, parents, env)[index], old(importTypes), importTypes)
      decreases ms, 0
    {
      var m := ms[index];
      assert MessageSteps(ms, parents, env)[index] == MessageBlock(m, parents, env);
      var cls := GenerateMessageClass(m, parents);
      if cls.Err? {
        return cls;
      }
      ghost var afterClass := importTypes;
      var enums := NestedEnums(parents + [m], m.enums);
      var obj := GenerateMessageObj(m, parents);
      if obj.Err? {
        return obj;
      }
      ghost var afterObj := importTypes;
      var nested := ReduceAllMessageTypes(m.nested, parents + [m]);
      if nested.Err? {
        return nested;
      }
      ghost var a := MessageClass(m, parents, env).value.needs;
      ghost var b := MessageObj(m, parents, env).value.needs;
      ghost var c := MessagesText(m.nested, parents + [m], env).value.needs;
      assert a + [] == a;
      AddAllAppend(old(importTypes), a, b);
      AddAllAppend(old(importTypes), a + b, c);
      r := Ok(prev + (cls.value + enums + obj.value + nested.value));
    }

    /** `messages.reduce(this.reducerForMessageTypes(parents), "")` */
    method ReduceAllMessageTypes(ms: seq<Message>, parents: seq<Message>) returns (r: Result<string, Failure>)
      requires Valid()
      modifies this
      ensures Valid()
      ensures Follows(r, MessagesText(ms, parents, env), old(importTypes), importTypes)
      decreases ms, 1
    {
      var steps := MessageSteps(ms, parents, env);
      var ret := "";
      var i := 0;
      while i < |ms|
        invariant 0 <= i <= |ms| && Valid()
        invariant Follows(Ok(ret), CatAll(steps, i), old(importTypes), importTypes)
      {
        var next := ReduceMessageTypes(ret, ms, i, parents);
        if next.Err? {
          CatAllSticky(steps, i + 1, |ms|);
          return next;
        }
        AddAllAppend(old(importTypes), CatAll(steps, i).value.needs, steps[i].value.needs);
        ret := next.value;
        i := i + 1;
      }
      r := Ok(ret);
    }

    /** `generate`: the declaration text first, recording import needs, then the header built from them. */
    method Generate() returns (r: Result<OutputFile, Failure>)
      requires Valid()
      modifies this
      ensures Valid()
      ensures r == Generated(env, old(importTypes), naming)
      ensures r.Ok? ==> importTypes == AddAll(old(importTypes), FileContent(env).value.needs)
    {
      var strippedName := naming.fileName(env.file.name);
      var messages := ReduceAllMessageTypes(env.file.messages, []);
      if messages.Err? {
        return Err(messages.error);
      }
      var content := messages.value + TopLevelEnums(env.file.enums);
      assert MessagesText(env.file.messages, [], env).value.needs + [] == MessagesText(env.file.messages, [], env).value.needs;

      var dependencies := env.file.dependencies;
      var imports := "";
      var i := 0;
      while i < |dependencies|
        invariant 0 <= i <= |dependencies|
        invariant DependencyImports(dependencies, i, importTypes, naming) == Ok(imports)
      {
        var moduleName := naming.moduleName(dependencies[i]);
        if moduleName !in importTypes {
          DependencyImportsSticky(dependencies, i + 1, |dependencies|, importTypes, naming);
          return Err(MissingImportSet(moduleName));
        }
        imports := imports + ImportBlock(moduleName, naming.importPath(dependencies[i]), importTypes[moduleName])
                   + (if i == |dependencies| - 1 then "\n" else "");
        i := i + 1;
      }
      r := Ok(OutputFile(strippedName + ".js.flow", "// @flow\n" + GeneratedComment + "\n" + "\n" + imports + content));
    }
}
}
