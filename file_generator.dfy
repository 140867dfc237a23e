/**
 * Model of src/file-generator.js, pure part: the top-level emitters
 * (isNullable, generateOtherMethods, the enum emitters, the nested static
 * handles) and one function per FileGenerator method giving the text that
 * method returns together with the import needs it records, in the order it
 * records them. The class in FileGeneratorClass is proved to compute exactly
 * these.
 */
module FileGenerator {
  import opened Wrappers
  import opened Strings
  import opened Descriptors
  import Utils

  const GeneratedComment: string := "// GENERATED CODE -- DO NOT EDIT!"
  const Indent: string := "  "

  /** What generation can throw. */
  datatype Failure =
    /** `isNullable`'s `throw new Error("UNEXPECTED TYPE")`. */
    | UnexpectedType
    /** The TypeError of destructuring the `undefined` that `getType$label` returns for an unknown label. */
    | LabelNotIterable
    /** The TypeError of calling `.values()` on `this.importTypes[moduleName]` when that key is absent. */
    | MissingImportSet(moduleName: string)

  /** One `this.importTypes[moduleName].add(typeName)` call. */
  datatype Need = Need(moduleName: string, typeName: string)

  /** Text a method returns and the import needs it recorded while producing it. */
  datatype Emitted = Emitted(text: string, needs: seq<Need>)

  /** `getType$type` returns a string, or an array of alternatives for bytes. */
  datatype TypeExpr = Single(name: string) | Alternatives(names: seq<string>)

  /** What a FileGenerator reads: its file descriptor and the type registry. */
  datatype Env = Env(file: File, deps: map<string, Dep>)

  /** `getFileName`, `getImportPath` and `getModuleName`: not defined in the sources, so left uninterpreted. */
  datatype Naming = Naming(fileName: string -> string, importPath: string -> string, moduleName: string -> string)

  function Emit(text: string): Result<Emitted, Failure> {
    Ok(Emitted(text, []))
  }

  /** Sequential composition: the first failure wins, texts and needs concatenate. */
  function Cat(a: Result<Emitted, Failure>, b: Result<Emitted, Failure>): Result<Emitted, Failure> {
    if a.Err? then a
    else if b.Err? then b
    else Ok(Emitted(a.value.text + b.value.text, a.value.needs + b.value.needs))
  }

  /** The results of `step(0)`, ..., `step(n - 1)`, in order. */
  function Steps(step: nat -> Result<Emitted, Failure>, n: nat): (r: seq<Result<Emitted, Failure>>)
    ensures |r| == n
  {
    if n == 0 then [] else Steps(step, n - 1) + [step(n - 1)]
  }

  lemma {:induction false} StepsAt(step: nat -> Result<Emitted, Failure>, n: nat, k: nat)
    requires k < n
    ensures Steps(step, n)[k] == step(k)
  {
    if k < n - 1 {
      StepsAt(step, n - 1, k);
    }
  }

  /** A fold of `Cat` over `rs[..n]`. */
  function CatAll(rs: seq<Result<Emitted, Failure>>, n: nat): Result<Emitted, Failure>
    requires n <= |rs|
  {
    if n == 0 then Emit("") else Cat(CatAll(rs, n - 1), rs[n - 1])
  }

  function Around(pre: string, r: Result<Emitted, Failure>, post: string): Result<Emitted, Failure> {
    if r.Err? then r else Ok(Emitted(pre + r.value.text + post, r.value.needs))
  }

  // ---------------------------------------------------------------------
  // Top-level helpers of file-generator.js
  // ---------------------------------------------------------------------

  /** `isNullable`: message and group kinds are nullable, every other known kind is not. */
  function IsNullable(kind: Kind): (r: Result<bool, Failure>)
    ensures r.Err? <==> kind.TypeUnrecognized?
    ensures r.Err? ==> r.error == UnexpectedType
    ensures r.Ok? ==> (r.value <==> IsMessageKind(kind))
  {
    if kind.TypeUnrecognized? then Err(UnexpectedType) else Ok(IsMessageKind(kind))
  }

  /** A piece of a template literal: fixed text, or a `${name}` substitution. */
  datatype Piece = Text(text: string) | Hole

  /** Count of substitutions in a template. */
  function Holes(t: seq<Piece>): nat {
    if t == [] then 0 else (if t[0].Hole? then 1 else 0) + Holes(t[1..])
  }

  /** Count of fixed characters in a template. */
  function FixedLength(t: seq<Piece>): nat {
    if t == [] then 0 else (if t[0].Hole? then 0 else |t[0].text|) + FixedLength(t[1..])
  }

  /** Evaluates a template literal, substituting `name` for every hole. */
  function Fill(t: seq<Piece>, name: string): (r: string)
    ensures |r| == FixedLength(t) + Holes(t) * |name|
  {
    if t == [] then "" else (if t[0].Hole? then name else t[0].text) + Fill(t[1..], name)
  }

  /** `generateOtherMethods`: the fixed conversion and serialization signatures of a class. */
  const OtherMethodsTemplate: seq<Piece> := [
    Text(Indent + "toObject(opt_includeInstance: ?boolean): "), Hole, Text("Obj;\n"
    + Indent + "serializeBinary(): Uint8Array;\n"
    + Indent + "serializeBinaryToWriter(writer: any): void;\n"
    + Indent + "cloneMessage(): "), Hole, Text(";\n"
    + Indent + "static deserializeBinary(bytes: any): "), Hole, Text(";\n"
    + Indent + "static deserializeBinaryFromReader(msg: "), Hole, Text(", reader: any): "), Hole, Text(";\n"
    + Indent + "static serializeBinaryToWriter(message: "), Hole, Text(", writer: any): void;\n"
    + Indent + "static toObject(includeInstance: boolean|typeof undefined, msg: "), Hole, Text("): "), Hole, Text("Obj;\n")]

  function GenerateOtherMethods(name: string): string {
    Fill(OtherMethodsTemplate, name)
  }

  function EnumEntry(v: EnumValue): string {
    Indent + v.name + ": " + IntToString(v.number)
  }

  function EnumEntries(vs: seq<EnumValue>): (r: seq<string>)
    ensures |r| == |vs|
    ensures forall i | 0 <= i < |vs| :: r[i] == EnumEntry(vs[i])
  {
    seq(|vs|, i requires 0 <= i < |vs| => EnumEntry(vs[i]))
  }

  function EnumNumbers(vs: seq<EnumValue>): (r: seq<string>)
    ensures |r| == |vs|
    ensures forall i | 0 <= i < |vs| :: r[i] == IntToString(vs[i].number)
  {
    seq(|vs|, i requires 0 <= i < |vs| => IntToString(vs[i].number))
  }

  /**
   * The body shared by `generateEnumTypes` and `reducerForEnumTypes`: a
   * value map with one `Name: number` entry per value, then the union of
   * the numbers. Both folds use the separated-reduce idiom.
   */
  function EnumDeclaration(valueMapHead: string, unionName: string, vs: seq<EnumValue>): string {
    valueMapHead
    + ReduceSeparated(EnumEntries(vs), |vs|, ",\n") + "\n" + "}\n" + "\n"
    + "export type " + unionName + " = "
    + ReduceSeparated(EnumNumbers(vs), |vs|, " | ") + ";\n" + "\n"
  }

  /** `generateEnumTypes`: a top-level enum. */
  function GenerateEnumTypes(e: Enum): string {
    EnumDeclaration("declare export var " + e.name + ": {\n", e.name + "Type", e.values)
  }

  /** `reducerForEnumTypes(parents)`: an enum nested in the last of `parents`. */
  function NestedEnumType(parents: seq<Message>, e: Enum): string {
    var prefix := Join(Names(parents), "$");
    EnumDeclaration("type " + prefix + "$" + e.name + " = {\n", prefix + "$" + e.name + "Type", e.values)
  }

  function TopLevelEnums(es: seq<Enum>): string {
    Concat(seq(|es|, i requires 0 <= i < |es| => GenerateEnumTypes(es[i])))
  }

  function NestedEnums(parents: seq<Message>, es: seq<Enum>): string {
    Concat(seq(|es|, i requires 0 <= i < |es| => NestedEnumType(parents, es[i])))
  }

  /** `reducerForNestedStaticEnums(prefix)` folded over a message's enums. */
  function NestedStaticEnums(prefix: string, es: seq<Enum>): string {
    Concat(seq(|es|, i requires 0 <= i < |es| => Indent + "static " + es[i].name + ": " + prefix + "$" + es[i].name + ";\n"))
  }

  /** `reducerForNestedStaticTypes(parents)` folded over a message's nested messages; map entries get no handle. */
  function NestedStaticTypes(parents: seq<Message>, nested: seq<Message>): string {
    var prefix := Join(Names(parents), "$") + "$";
    Concat(seq(|nested|, i requires 0 <= i < |nested| =>
      if nested[i].mapEntry then "" else Indent + "static " + nested[i].name + ": typeof " + prefix + nested[i].name + ";\n"))
  }

  /** The declaration name of a message: enclosing names and its own, joined by `$`. */
  function FlatName(parents: seq<Message>, name: string): string {
    var prefix := Join(Names(parents), "$");
    if prefix == "" then name else prefix + "$" + name
  }

  // ---------------------------------------------------------------------
  // Fields
  // ---------------------------------------------------------------------

  function Suffix(f: Field, isMap: bool): string {
    if f.fieldLabel == LabelRepeated then (if isMap then "Map" else "List") else ""
  }

  /** `getFieldName` */
  function FieldName(f: Field, isMap: bool): string {
    Utils.Camelize(f.name) + Suffix(f, isMap)
  }

  /** `getType$label`: the prefix and suffix that wrap the rendered type. */
  function LabelParts(f: Field): (r: Result<(string, string), Failure>)
    ensures f.fieldLabel == LabelOptional ==>
      (r.Err? <==> f.kind.TypeUnrecognized?) && (r == Ok(("?", "")) <==> IsMessageKind(f.kind))
    ensures f.fieldLabel == LabelOptional && !IsMessageKind(f.kind) && r.Ok? ==> r.value == ("", "")
    ensures f.fieldLabel == LabelRequired ==> r == Ok(("", ""))
    ensures f.fieldLabel == LabelRepeated ==> r == Ok(("Array<", ">"))
    ensures f.fieldLabel.LabelUnrecognized? ==> r == Err(LabelNotIterable)
  {
    match f.fieldLabel
    case LabelOptional =>
      (match IsNullable(f.kind)
       case Err(e) => Err(e)
       case Ok(nullable) => Ok((if nullable then "?" else "", "")))
    case LabelRequired => Ok(("", ""))
    case LabelRepeated => Ok(("Array<", ">"))
    case LabelUnrecognized(_) => Err(LabelNotIterable)
  }

  /** The kinds `getType$type` renders as `number` unconditionally. */
  predicate IsNumberKind(k: Kind) {
    k == TypeDouble || k == TypeFloat || k == TypeInt32 || k == TypeFixed32 || k == TypeUInt32
    || k == TypeSFixed32 || k == TypeSInt32
  }

  /** The 64-bit kinds, whose rendering depends on the `jstype` option. */
  predicate IsSixtyFourBit(k: Kind) {
    k == TypeInt64 || k == TypeUInt64 || k == TypeSInt64 || k == TypeFixed64 || k == TypeSFixed64
  }

  /** `dependency.name.replace(/\./g, "$")` */
  function Normalized(dep: Dep): string {
    DotsToDollars(dep.name)
  }

  /** `getType$type`: the type a field's kind renders to. */
  function RenderType(f: Field, toObject: bool, env: Env): TypeExpr
  {
    if IsNumberKind(f.kind) then Single("number")
    else if IsSixtyFourBit(f.kind) then (if f.jstype == Some(JsString) then Single("string") else Single("number"))
    else if f.kind == TypeBool then Single("boolean")
    else if f.kind == TypeString then Single("string")
    else if f.kind == TypeBytes then Alternatives(["string", "Uint8Array"])
    else if IsMessageKind(f.kind) then
      if f.typeName !in env.deps then Single(f.typeName + (if toObject then "Obj" else ""))
      else
        var dep := env.deps[f.typeName];
        if toObject then Single(Normalized(dep) + "Obj")
        else if dep.fileName == env.file.name then Single(Normalized(dep))
        else Single(dep.moduleName + "." + Normalized(dep))
    else if f.kind == TypeEnum then
      if f.typeName !in env.deps then Single(f.typeName + "Type")
      else Single(Normalized(env.deps[f.typeName]) + "Type")
    else Single("ERROR")
  }

  /**
   * The rendering rules of `getType$type`: numeric kinds, the `jstype`
   * choice for 64-bit kinds, bool, string, the bytes pair, the `ERROR`
   * fallback, and message and enum references through the registry.
   */
  lemma RenderTypeRules(f: Field, toObject: bool, env: Env)
    ensures var r := RenderType(f, toObject, env);
      IsNumberKind(f.kind) ==> r == Single("number")
    ensures var r := RenderType(f, toObject, env);
      f.kind == TypeBool ==> r == Single("boolean")
    ensures var r := RenderType(f, toObject, env);
      f.kind == TypeString ==> r == Single("string")
    ensures var r := RenderType(f, toObject, env);
      r.Alternatives? <==> f.kind == TypeBytes
    ensures var r := RenderType(f, toObject, env);
      f.kind == TypeBytes ==> r.names == ["string", "Uint8Array"]
    ensures var r := RenderType(f, toObject, env);
      f.kind.TypeUnrecognized? ==> r == Single("ERROR")
    ensures var r := RenderType(f, toObject, env);
      IsSixtyFourBit(f.kind) ==> r == Single(if f.jstype == Some(JsString) then "string" else "number")
    ensures var r := RenderType(f, toObject, env);
      (IsMessageKind(f.kind) || f.kind == TypeEnum) && f.typeName !in env.deps ==>
        r == Single(f.typeName + (if f.kind == TypeEnum then "Type" else if toObject then "Obj" else ""))
    ensures var r := RenderType(f, toObject, env);
      IsMessageKind(f.kind) && f.typeName in env.deps && !toObject ==>
        var dep := env.deps[f.typeName];
        r == Single(if dep.fileName == env.file.name then Normalized(dep) else dep.moduleName + "." + Normalized(dep))
    ensures var r := RenderType(f, toObject, env);
      f.kind == TypeEnum && f.typeName in env.deps ==> r == Single(Normalized(env.deps[f.typeName]) + "Type")
  {
  }

  /**
   * The `importTypes[...].add` call `getType$type` makes, if any: object-shape
   * message references and every resolved enum reference record one; the name
   * recorded is exactly the name rendered.
   */
  function ImportNeed(f: Field, toObject: bool, env: Env): Option<Need> {
    if f.typeName !in env.deps then None
    else
      var dep := env.deps[f.typeName];
      if f.kind == TypeEnum then Some(Need(dep.moduleName, Normalized(dep) + "Type"))
      else if IsMessageKind(f.kind) && toObject then Some(Need(dep.moduleName, Normalized(dep) + "Obj"))
      else None
  }

  /**
   * `add` happens exactly for a registered enum, or a registered message in
   * the object-shape mode; it goes to that dependency's module and adds
   * exactly the name rendered.
   */
  lemma ImportNeedRules(f: Field, toObject: bool, env: Env)
    ensures var r := ImportNeed(f, toObject, env);
      r.Some? <==> f.typeName in env.deps && (f.kind == TypeEnum || (IsMessageKind(f.kind) && toObject))
    ensures var r := ImportNeed(f, toObject, env);
      r.Some? ==> r.value.moduleName == env.deps[f.typeName].moduleName && RenderType(f, toObject, env) == Single(r.value.typeName)
  {
  }

  /** `${partOne}${type}${partTwo}`, element-wise and joined by `|` for an array of alternatives. */
  function Wrap(parts: (string, string), t: TypeExpr): string {
    match t
    case Single(s) => parts.0 + s + parts.1
    case Alternatives(ss) => Join(seq(|ss|, i requires 0 <= i < |ss| => parts.0 + ss[i] + parts.1), "|")
  }

  /**
   * `getType(field, {toObject, isMap})`. In declaration mode a map field is
   * `any` with no wrapper and no lookup; the object-shape mode ignores `isMap`.
   */
  function TypeSpec(f: Field, toObject: bool, isMap: bool, env: Env): (r: Result<Emitted, Failure>)
    ensures !toObject && isMap ==> r == Ok(Emitted("any", []))
    ensures toObject || !isMap ==> (r.Err? <==> LabelParts(f).Err?)
  {
    if !toObject && isMap then Ok(Emitted("any", []))
    else
      match LabelParts(f)
      case Err(e) => Err(e)
      case Ok(parts) => Ok(Emitted(Wrap(parts, RenderType(f, toObject, env)), OptionToSeq(ImportNeed(f, toObject, env))))
  }

  /** `getterForField` */
  function GetterSpec(f: Field, isMap: bool, env: Env): Result<Emitted, Failure> {
    Around("get" + Utils.PascalCase(f.name) + Suffix(f, isMap) + "(): ", TypeSpec(f, false, isMap, env), ";")
  }

  /** `setterForField`: `List` for a repeated field, and the declaration-mode type without the map test. */
  function SetterSpec(f: Field, env: Env): Result<Emitted, Failure> {
    Around("set" + Utils.PascalCase(f.name) + Suffix(f, false) + "(val: ", TypeSpec(f, false, false, env), "): void;")
  }

  /**
   * `isMap`: a repeated message field whose type name's last dot segment
   * names a map-entry message, looked up first-match in depth-first pre-order
   * over this file's own messages. No match means not a map.
   */
  predicate IsMapField(f: Field, messages: seq<Message>) {
    f.kind == TypeMessage && f.fieldLabel == LabelRepeated &&
    match FirstNamed(AllMessages(messages), LastSegment(f.typeName))
    case Some(m) => m.mapEntry
    case None => false
  }

  /** One step of `reduceMessageFields`: the getter line, and the setter line unless the field is a map. */
  function FieldAccessors(f: Field, env: Env): Result<Emitted, Failure> {
    var isMap := IsMapField(f, env.file.messages);
    Cat(Around(Indent, GetterSpec(f, isMap, env), "\n"),
        if isMap then Emit("") else Around(Indent, SetterSpec(f, env), "\n"))
  }

  /** The getter and setter lines of each field, in descriptor order. */
  function AccessorSteps(fields: seq<Field>, env: Env): (r: seq<Result<Emitted, Failure>>)
    ensures |r| == |fields|
  {
    Steps((k: nat) => if k < |fields| then FieldAccessors(fields[k], env) else Emit(""), |fields|)
  }

  lemma AccessorStepAt(fields: seq<Field>, env: Env, k: nat)
    requires k < |fields|
    ensures AccessorSteps(fields, env)[k] == FieldAccessors(fields[k], env)
  {
    StepsAt((k: nat) => if k < |fields| then FieldAccessors(fields[k], env) else Emit(""), |fields|, k);
  }

  /** `reduceMessageFields` folded over the fields. */
  function ClassFields(fields: seq<Field>, env: Env): Result<Emitted, Failure> {
    CatAll(AccessorSteps(fields, env), |fields|)
  }

  /** One step of `reduceMessageObjFields`: `name: type` then `,` unless it is the last field. */
  function ObjField(f: Field, last: bool, env: Env): Result<Emitted, Failure> {
    var isMap := IsMapField(f, env.file.messages);
    Around(Indent + FieldName(f, isMap) + ": ", TypeSpec(f, true, isMap, env), if last then "\n" else ",\n")
  }

  /** The object-type line of each field; only the last one has no comma. */
  function ObjSteps(fields: seq<Field>, env: Env): (r: seq<Result<Emitted, Failure>>)
    ensures |r| == |fields|
  {
    Steps((k: nat) => if k < |fields| then ObjField(fields[k], k == |fields| - 1, env) else Emit(""), |fields|)
  }

  lemma ObjStepAt(fields: seq<Field>, env: Env, k: nat)
    requires k < |fields|
    ensures ObjSteps(fields, env)[k] == ObjField(fields[k], k == |fields| - 1, env)
  {
    StepsAt((k: nat) => if k < |fields| then ObjField(fields[k], k == |fields| - 1, env) else Emit(""), |fields|, k);
  }

  /** `reduceMessageObjFields` folded over the fields. */
  function ObjFields(fields: seq<Field>, env: Env): Result<Emitted, Failure> {
    CatAll(ObjSteps(fields, env), |fields|)
  }

  // ---------------------------------------------------------------------
  // Messages and the file
  // ---------------------------------------------------------------------

  /** `generateMessageClass`: empty for a map entry. */
  function MessageClass(m: Message, parents: seq<Message>, env: Env): Result<Emitted, Failure> {
    if m.mapEntry then Emit("")
    else
      var name := FlatName(parents, m.name);
      Around("declare export class " + name + " {\n",
             ClassFields(m.fields, env),
             (GenerateOtherMethods(name) + NestedStaticTypes(parents + [m], m.nested) + NestedStaticEnums(name, m.enums)) + "}\n" + "\n")
  }

  /** `generateMessageObj`: emitted for every message, map entries included. */
  function MessageObj(m: Message, parents: seq<Message>, env: Env): Result<Emitted, Failure> {
    var name := FlatName(parents, m.name);
    Around("export type " + name + "Obj = {\n", ObjFields(m.fields, env), "}\n" + "\n")
  }

  /** One step of `reducerForMessageTypes(parents)`: class, nested enums, object type, nested messages. */
  function MessageBlock(m: Message, parents: seq<Message>, env: Env): Result<Emitted, Failure>
    decreases m, 1
  {
    Cat(Cat(Cat(MessageClass(m, parents, env), Emit(NestedEnums(parents + [m], m.enums))),
            MessageObj(m, parents, env)),
        MessagesText(m.nested, parents + [m], env))
  }

  function MessageSteps(ms: seq<Message>, parents: seq<Message>, env: Env): (r: seq<Result<Emitted, Failure>>)
    ensures |r| == |ms|
    decreases ms, 0
  {
    seq(|ms|, k requires 0 <= k < |ms| => MessageBlock(ms[k], parents, env))
  }

  /** `reducerForMessageTypes(parents)` folded over `ms`. */
  function MessagesText(ms: seq<Message>, parents: seq<Message>, env: Env): Result<Emitted, Failure>
    decreases ms, 2
  {
    CatAll(MessageSteps(ms, parents, env), |ms|)
  }

  /** The body of `generate`: messages, then top-level enums. */
  function FileContent(env: Env): Result<Emitted, Failure> {
    Cat(MessagesText(env.file.messages, [], env), Emit(TopLevelEnums(env.file.enums)))
  }

  // ---------------------------------------------------------------------
  // The import accumulator
  // ---------------------------------------------------------------------

  /** `Set.prototype.add` on an insertion-ordered set. */
  function Add(s: seq<string>, x: string): seq<string> {
    if x in s then s else s + [x]
  }

  function AddNeed(imports: map<string, seq<string>>, n: Need): map<string, seq<string>> {
    if n.moduleName in imports then imports[n.moduleName := Add(imports[n.moduleName], n.typeName)] else imports
  }

  /** The accumulator after the given `add` calls, in order. */
  function AddAll(imports: map<string, seq<string>>, ns: seq<Need>): map<string, seq<string>> {
    if |ns| == 0 then imports else AddNeed(AddAll(imports, ns[..|ns| - 1]), ns[|ns| - 1])
  }

  function ModuleNames(deps: map<string, Dep>): set<string> {
    set d | d in deps.Values :: d.moduleName
  }

  /** The constructor's `reduce`: one empty set per module name found in the registry. */
  function InitialImports(deps: map<string, Dep>): (r: map<string, seq<string>>)
    ensures r.Keys == ModuleNames(deps)
    ensures forall m | m in r :: r[m] == []
  {
    map m | m in ModuleNames(deps) :: []
  }

  function ImportBlock(moduleName: string, path: string, names: seq<string>): string {
    var from := " from \"" + path + ".js\";";
    "import * as " + moduleName + from + "\n"
    + (if |names| > 0 then "import type {" + Join(names, ", ") + "}" + from + "\n" else "")
  }

  /** `reduceDependencies` folded over `dependencies[..n]`; a blank line follows the last block. */
  function DependencyImports(dependencies: seq<string>, n: nat, imports: map<string, seq<string>>, naming: Naming): Result<string, Failure>
    requires n <= |dependencies|
  {
    if n == 0 then Ok("")
    else
      match DependencyImports(dependencies, n - 1, imports, naming)
      case Err(e) => Err(e)
      case Ok(prev) =>
        var moduleName := naming.moduleName(dependencies[n - 1]);
        if moduleName !in imports then Err(MissingImportSet(moduleName))
        else Ok(prev + ImportBlock(moduleName, naming.importPath(dependencies[n - 1]), imports[moduleName])
                + (if n == |dependencies| then "\n" else ""))
  }

  function Header(depsText: string): string {
    "// @flow\n" + GeneratedComment + "\n" + "\n" + depsText
  }

  /** `generate()` on an accumulator that starts as `imports`. */
  function Generated(env: Env, imports: map<string, seq<string>>, naming: Naming): Result<OutputFile, Failure> {
    match FileContent(env)
    case Err(e) => Err(e)
    case Ok(content) =>
      match DependencyImports(env.file.dependencies, |env.file.dependencies|, AddAll(imports, content.needs), naming)
      case Err(e) => Err(e)
      case Ok(depsText) => Ok(OutputFile(naming.fileName(env.file.name) + ".js.flow", Header(depsText) + content.text))
  }
}
