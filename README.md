# protoc-gen-flow in Dafny

A model of the core of protoc-gen-flow, a `protoc` plugin that turns
Protocol Buffers schema files into Flow type declarations (`.js.flow`
files), with proofs about the model.

- **`descriptors.dfy`** (`Descriptors`): the parts of `descriptor.proto` the plugin reads, as immutable datatypes.
  - Files, messages, fields, enums and the type registry entry `Dep`.
  - The depth-first, pre-order walk of a message tree.
  - The first-match search used by map detection.
- **`strings.dfy`** (`Strings`): the string idioms the plugin uses.
  - `join` and the separated `reduce` that stands in for it.
  - Concatenation.
  - `replace(/\./g, "$")`.
  - The last `split(".")` segment.
  - Decimal rendering of integers.
- **`utils.dfy`** (`Utils`) models `src/utils.js`.
  - `pascalCase` and `camelize` over ASCII word characters.
  - `getAllTypeNames`.
- **`file_generator.dfy`** (`FileGenerator`) models the text `src/file-generator.js` emits, as pure functions.
  - A message's `declare export class` and its `export type …Obj`.
  - Enum value maps and literal unions.
  - The cardinality wrappers and scalar rendering of `getType`.
  - Type references through the registry.
  - The import header.
  - Each function also returns the `importTypes[...].add` calls made while producing its text (`Need`s), so the mutable accumulator is a function of them (`AddAll`).
- **`file_generator_class.dfy`** (`FileGeneratorClass`): the `FileGenerator` class itself.
  - A Dafny class whose one mutable field `importTypes` maps each module name to an insertion-ordered set of type names.
  - Each method (`getType`, the field reducers, `generateMessageClass`, `generateMessageObj`, `reducerForMessageTypes`, `generate`) is proved to return the text of the matching `FileGenerator` function, and to leave `importTypes` as that function's `add` calls make it.
  - The `for…of` search inside `isMap` is a loop proved against the pre-order first match.
- **`file_generator_lemmas.dfy`** (`FileGeneratorLemmas`): what the emitted text and the accumulator satisfy.
  - The class body and the object type list every field once, in descriptor order.
  - The sets never hold a name twice and never gain a module.
  - A second `generate()` yields the same file.
  - Flattened `$` names agree between declarations and the handles that refer to them.
  - Generation fails exactly on a throw or on a dependency with no import set.
- **`code_generator.dfy`** (`CodeGenerator`) and **`code_generator_lemmas.dfy`** (`CodeGeneratorLemmas`) model the request driver of `src/code-generator.js`.
  - Selection of the files to generate.
  - The `.flowconfig` with one `module.name_mapper` line per output, using a model of `/(.*)\.js\.flow/`.
  - The all-or-nothing response.

Thrown JavaScript errors are values:
- `Failure` inside the generator: `UNEXPECTED TYPE`, destructuring an undefined label pair, and a module with no import set;
- `Exception` in the driver.

The three path helpers `getFileName`, `getImportPath` and `getModuleName` are imported by `src/file-generator.js` but defined in no file of this model. They are uninterpreted functions (`Naming`).

## Model

| member | source | states |
|---|---|---|
| Descriptors.FirstNamed | src/file-generator.js:365-382 | a found message is one of the searched messages and has the searched name |
| Descriptors.FirstNamedNone | src/file-generator.js:365-382 | the search finds nothing exactly when no message in the walk has the name |
| Descriptors.FirstNamedIndex | src/file-generator.js:365-382 | a found message sits at an index holding the name with no earlier message of that name |
| Descriptors.FirstNamedAt | src/file-generator.js:365-382 | conversely, the first index holding the name is what the search returns |
| Descriptors.FirstNamedAppend | src/file-generator.js:368-379 | walking more messages after a match never changes the match (the `break`) |
| Descriptors.PreorderPrefix | src/file-generator.js:367-379 | the walk over a prefix of the children is a prefix of the walk over more of them |
| Descriptors.FirstNamedStep | src/file-generator.js:367-379 | one loop iteration: the first match in the longer walk is the name at the node, else in its subtree, else further on |
| Descriptors.FirstNamedInPrefix | src/file-generator.js:370-378 | a match within the walk so far is the first match of the whole walk |
| Strings.JoinSnoc | src/utils.js:14 | joining one more element appends a separator and the element |
| Strings.ReduceSeparatedPrefix | src/file-generator.js:56-60 | after some but not all items, the separated `reduce` is their join plus one trailing separator |
| Strings.ReduceSeparatedIsJoin | src/file-generator.js:56-60 | the `reduce` that adds a separator after every item but the last equals `join` |
| Strings.DotsToDollars | src/file-generator.js:326 | same length, no dot left, every dot replaced by `$` and every other character kept |
| Strings.LastSegment | src/file-generator.js:361-363 | the result is a dot-free suffix of the name, preceded by a dot unless it is the whole name |
| Strings.NatToString | src/file-generator.js:57 | a non-empty string of decimal digits |
| Strings.NatToStringValue | src/file-generator.js:57 | the decimal text reads back as the number and has no leading zero unless the number is 0 |
| Strings.IntToString | src/file-generator.js:65 | non-empty, with a leading minus sign exactly when the number is negative |
| Utils.PascalCase | src/utils.js:6-7 | the result is never longer than the input |
| Utils.AfterStart | src/utils.js:6-7 | the global replace after the start never lengthens the text |
| Utils.Camelize | src/utils.js:1-4 | same length as `pascalCase`; the first character lower-cased and the rest identical |
| Utils.Capitalize | src/utils.js:7 | the word keeps its length |
| Utils.AfterStartPlain | src/utils.js:7 | text without `-` or `_` passes through the replace unchanged |
| Utils.AfterStartOfSeparatedWord | src/utils.js:7 | `_word` becomes the word capitalized |
| Utils.AfterStartOfSnakeTail | src/utils.js:7 | `_a_b_c` becomes the words capitalized and concatenated |
| Utils.PascalCaseOfPlainHead | src/utils.js:7 | a word at the start is capitalized |
| Utils.PascalCaseOfSnakeCase | src/utils.js:6-7 | `pascalCase` of a snake_case name is its words capitalized and concatenated |
| Utils.CamelizeOfSnakeCase | src/utils.js:1-4 | `camelize` of a snake_case name keeps the first word (first letter lower-cased) and capitalizes the rest |
| Utils.ParentPrecedes | src/utils.js:11-16 | the name each entry is qualified by is the outer parent's, or that of a message listed earlier in pre-order |
| Utils.TypeNamesFollowPreorder | src/utils.js:11-16 | one name per message in depth-first pre-order: its own name, bare under an empty parent, otherwise after its enclosing message's simple name and a dot |
| Utils.TypeNamesEndWithOwnName | src/utils.js:14 | every listed name ends in its own message's simple name |
| Utils.TopLevelParent | src/utils.js:13-15 | a top-level message is listed at its pre-order position under the outer parent |
| Utils.AllTypeNamesCount | src/utils.js:18-19 | `getAllTypeNames` lists every message of the file once, in pre-order: top-level messages by their bare names, nested ones as `Parent.Name` with their immediate parent |
| Utils.TypeNamesAtMostOneDot | src/utils.js:14 | with dot-free simple names, no listed name has more than one dot: no grandparent is ever prefixed |
| Utils.TypeNamesExample | src/utils.js:11-19 | Outer { Inner { Leaf } } lists `Outer`, `Outer.Inner`, `Inner.Leaf` |
| FileGenerator.IsNullable | src/file-generator.js:14-40 | fails with UNEXPECTED TYPE exactly on an unknown kind; otherwise nullable exactly for message and group |
| FileGenerator.Fill | src/file-generator.js:42-52 | a template literal's length is its fixed text plus the name's length once per substitution |
| FileGenerator.EnumEntries | src/file-generator.js:56-60 | one `Name: number` entry per enum value, in descriptor order |
| FileGenerator.EnumNumbers | src/file-generator.js:65-69 | one decimal number per enum value, in descriptor order |
| FileGenerator.LabelParts | src/file-generator.js:281-288 | optional: `?` exactly for message kinds, failure on an unknown kind; required: no wrapper; repeated: `Array<…>`; unknown label: the destructuring TypeError |
| FileGenerator.RenderTypeRules | src/file-generator.js:290-352 | 32-bit kinds, double and float give `number`; 64-bit kinds give `string` only under JS_STRING; bool, string and the bytes pair; `ERROR` for an unknown kind; unregistered references get `Obj`/`Type` on the raw name; declaration-mode messages are qualified by module only across files; registered enums give the normalized name plus `Type` |
| FileGenerator.ImportNeedRules | src/file-generator.js:320-348 | an `add` happens exactly for a registered enum or an object-mode registered message, into that dependency's module, and adds exactly the rendered name |
| FileGenerator.TypeSpec | src/file-generator.js:261-279 | a declaration-mode map is `any` with no lookup; otherwise it fails exactly when the label parts do |
| FileGenerator.InitialImports | src/file-generator.js:107-110 | one empty set for each module name of the registry and no other key |
| FileGenerator.AccessorSteps | src/file-generator.js:203-208 | one accessor step per field |
| FileGenerator.ObjSteps | src/file-generator.js:210-218 | one object-type step per field |
| FileGenerator.MessageSteps | src/file-generator.js:141-150 | one declaration block per message |
| FileGeneratorLemmas.AddAllAppend | src/file-generator.js:329 | recording two runs of `add` calls in turn is recording them together |
| FileGeneratorLemmas.AddAllKeys | src/file-generator.js:329 | `add` never creates a module entry |
| FileGeneratorLemmas.AddAllDistinct | src/file-generator.js:344 | each entry stays a set: no type name is listed twice |
| FileGeneratorLemmas.AddAllExtends | src/file-generator.js:344 | an entry only grows, keeping its earlier names in insertion order |
| FileGeneratorLemmas.AddAllRecords | src/file-generator.js:329 | every recorded need is listed under its module |
| FileGeneratorLemmas.AddAllOnlyRecords | src/file-generator.js:344 | every listed name was there before or was recorded |
| FileGeneratorLemmas.AddAllPresent | src/file-generator.js:329 | adding names already present changes nothing |
| FileGeneratorLemmas.AddAllIdempotent | src/file-generator.js:344 | recording the same needs twice is recording them once |
| FileGeneratorLemmas.CatAllSticky | src/file-generator.js:119 | once a step of a fold throws, the fold's result is that throw |
| FileGeneratorLemmas.DependencyImportsSticky | src/file-generator.js:126 | once a dependency throws, the import fold's result is that throw |
| FileGeneratorLemmas.Texts | src/file-generator.js:172 | one text per fold step |
| FileGeneratorLemmas.CatAllOk | src/file-generator.js:119 | a fold succeeds exactly when every step does |
| FileGeneratorLemmas.CatAllOkAt | src/file-generator.js:172 | a successful fold has every step successful |
| FileGeneratorLemmas.CatAllText | src/file-generator.js:172 | a successful fold's text is the steps' texts concatenated in order |
| FileGeneratorLemmas.DependencyImportsOk | src/file-generator.js:130-139 | the import header succeeds exactly when every dependency's module has a set; otherwise it fails naming the first module that lacks one |
| FileGeneratorLemmas.DependencyImportsText | src/file-generator.js:125-139 | with every module present, the header is each dependency's import block in dependency order, then one blank line after the last |
| FileGeneratorLemmas.ImportBlockLines | src/file-generator.js:132-136 | a dependency's block is one `import * as` line, plus an `import type` line exactly when its module's set is not empty |
| FileGeneratorLemmas.GeneratedAgain | src/file-generator.js:113-128 | a second `generate()` on the same generator gives the same file |
| FileGeneratorLemmas.GeneratedOk | src/file-generator.js:104-139 | from the constructor's sets, generation succeeds exactly when the declarations do not throw and every dependency's module is a registry module |
| FileGeneratorLemmas.FieldAccessorsText | src/file-generator.js:203-258 | per field: a map has only `get…Map(): any;`; any other field has a getter and a setter over the same type |
| FileGeneratorLemmas.ClassFieldsText | src/file-generator.js:172 | the class body is each field's accessor lines, in descriptor order, and nothing else |
| FileGeneratorLemmas.ObjLines | src/file-generator.js:210-218 | one object-type line per field |
| FileGeneratorLemmas.CatAllSeparated | src/file-generator.js:213-216 | a fold of lines with a separator after all but the last is their join |
| FileGeneratorLemmas.ObjFieldsText | src/file-generator.js:195 | the object type lists one `name: T` line per field in descriptor order, `,` between lines, a newline after the last |
| FileGeneratorLemmas.TypeSpecWrapping | src/file-generator.js:261-288 | `?T` for an optional message, bare `T` for a required field or an optional scalar, `Array<T>` for a repeated one, and the needs are the lookup's |
| FileGeneratorLemmas.WrapBytes | src/file-generator.js:274-275 | alternatives are wrapped one by one and joined by `\|` |
| FileGeneratorLemmas.BytesType | src/file-generator.js:274-275 | bytes render as the wrapped `string` and the wrapped `Uint8Array`, joined by `\|`, with no import |
| FileGeneratorLemmas.FieldNameShape | src/file-generator.js:236-243 | the camelized proto name, followed by `Map` or `List` only for repeated fields |
| FileGeneratorLemmas.IsMapFieldMatch | src/file-generator.js:354-389 | a map exactly when a repeated message field's last name segment first occurs, in pre-order over the file's messages, on a map-entry message; no match means not a map |
| FileGeneratorLemmas.PrefixIsFlatName | src/file-generator.js:166-169 | the `$`-joined chain the nested reducers use is the name the class was declared under |
| FileGeneratorLemmas.StaticHandlesNameDeclarations | src/file-generator.js:220-230 | each nested message's `static` handle names that message's flattened declaration; map entries get none |
| FileGeneratorLemmas.EnumDeclarationJoin | src/file-generator.js:54-95 | enum entries are joined by `,\n` and the union's numbers by ` \| `, in descriptor order |
| FileGeneratorLemmas.MapEntryBlock | src/file-generator.js:141-162 | a map-entry message emits no class, but its nested enums, object type and nested messages are still emitted |
| FileGeneratorClass.Find | src/file-generator.js:365-382 | the loop returns the first message of that name in depth-first pre-order, or none |
| FileGeneratorClass.Generator.constructor | src/file-generator.js:104-111 | one empty set per registry module name |
| FileGeneratorClass.Generator.AddImportType | src/file-generator.js:329 | the set of that module gains the name if it lacked it; nothing else changes |
| FileGeneratorClass.Generator.GetTypeType | src/file-generator.js:290-352 | returns the rendered type and performs exactly the lookup's `add` |
| FileGeneratorClass.Generator.GetType | src/file-generator.js:261-279 | returns the wrapped type or the label failure, and records the lookup's need only on success |
| FileGeneratorClass.Generator.IsMap | src/file-generator.js:354-389 | the map test of the pre-order first match |
| FileGeneratorClass.Generator.GetterForField | src/file-generator.js:245-252 | the getter line and its needs |
| FileGeneratorClass.Generator.SetterForField | src/file-generator.js:254-258 | the setter line and its needs |
| FileGeneratorClass.Generator.ReduceMessageFields | src/file-generator.js:203-208 | appends one field's accessor lines and records their needs |
| FileGeneratorClass.Generator.ReduceMessageObjFields | src/file-generator.js:210-218 | appends one field's object-type line and records its need |
| FileGeneratorClass.Generator.ReduceAllMessageFields | src/file-generator.js:172 | the class body and the needs of all its fields, in order |
| FileGeneratorClass.Generator.ReduceAllMessageObjFields | src/file-generator.js:195 | the object type body and its needs |
| FileGeneratorClass.Generator.GenerateMessageClass | src/file-generator.js:159-179 | the class declaration, or nothing for a map entry |
| FileGeneratorClass.Generator.GenerateMessageObj | src/file-generator.js:188-199 | the object type declaration |
| FileGeneratorClass.Generator.ReduceMessageTypes | src/file-generator.js:141-150 | appends class, nested enums, object type and nested messages of one message |
| FileGeneratorClass.Generator.ReduceAllMessageTypes | src/file-generator.js:119 | all message declarations in order, with their needs |
| FileGeneratorClass.Generator.Generate | src/file-generator.js:113-139 | the file `getFileName(name).js.flow` with header, imports and declarations; the sets gain exactly the declarations' needs |
| CodeGenerator.LineEnd | src/code-generator.js:21 | the end of the first line: no terminator before it, a terminator at it |
| CodeGenerator.LastSuffix | src/code-generator.js:21 | the greedy `(.*)` stops at the last `.js.flow` of the line |
| CodeGenerator.OutputNames | src/code-generator.js:15 | one name per output file, in order |
| CodeGenerator.GenerateAllSticky | src/code-generator.js:35 | once one file throws, the `map` result is that throw |
| CodeGenerator.Generate | src/code-generator.js:30-42 | the filter loop, the generate loop, the push of `.flowconfig` and the catch give the specified response |
| CodeGeneratorLemmas.SourceNameOfFlowFile | src/code-generator.js:21 | a one-line name ending in `.js.flow` gives back its stem |
| CodeGeneratorLemmas.SuffixWithinLine | src/code-generator.js:21 | an occurrence of `.js.flow` starting before a line end finishes before it |
| CodeGeneratorLemmas.NoSuffixAtTerminator | src/code-generator.js:21 | no occurrence starts at a line terminator |
| CodeGeneratorLemmas.FirstLineSuffixes | src/code-generator.js:21 | the first line's occurrences are the string's occurrences before its end |
| CodeGeneratorLemmas.RestSuffixes | src/code-generator.js:21 | the occurrences after the first line, shifted |
| CodeGeneratorLemmas.SourceNameNone | src/code-generator.js:21 | `match` returns null exactly when `.js.flow` occurs nowhere in the name |
| CodeGeneratorLemmas.SelectedSplit | src/code-generator.js:33-34 | the filter keeps order and repeats: selecting from a list is selecting from a prefix, then from the rest; one file is kept exactly when its name is asked for |
| CodeGeneratorLemmas.SelectedMembers | src/code-generator.js:33-34 | a proto file is selected exactly when its name is requested; never more files than given |
| CodeGeneratorLemmas.SelectedEverything | src/code-generator.js:33-34 | when every file is requested, the selection is the proto file list in its order |
| CodeGeneratorLemmas.GenerateAllOk | src/code-generator.js:35 | generation succeeds exactly when every file does, and yields their outputs in order |
| CodeGeneratorLemmas.MapperTexts | src/code-generator.js:22 | one mapper line per name |
| CodeGeneratorLemmas.MapperLinesOk | src/code-generator.js:20-24 | the mapper fold succeeds exactly when every name matches, otherwise it throws the null-match error |
| CodeGeneratorLemmas.MapperLinesText | src/code-generator.js:20-24 | a successful fold is one mapper line per name, in order |
| CodeGeneratorLemmas.FlowConfigurationContent | src/code-generator.js:14-27 | `.flowconfig` is the template plus one mapper line per generated file, in order, and never a line for itself; the bare template when there are none |
| CodeGeneratorLemmas.RespondAllOrNothing | src/code-generator.js:32-40 | an error exactly when some selected file throws or some name does not match, and then no files; otherwise the outputs in order and one `.flowconfig` last |
| CodeGeneratorLemmas.RespondNothingSelected | src/code-generator.js:4-12 | with nothing selected the response is the bare-template `.flowconfig` alone |
| CodeGeneratorLemmas.GeneratedFileMaps | src/file-generator.js:114-116 | the name `generate()` gives a file always maps back to its one-line stem |
| CodeGeneratorLemmas.UnregisteredDriverFails | src/code-generator.js:35 | as written, any request selecting a file gets only the error of the missing registry |
| CodeGeneratorLemmas.RegisteredDriverSucceeds | src/code-generator.js:30-42 | with the registry passed, files that generate with one-line stems give every generated file in order plus `.flowconfig` |

## Left out

- `src/plugin.js` (stdin, stdout, `process.exit`, binary (de)serialisation) and the build configuration are not part of this model.
- The google-protobuf classes are replaced by datatypes. `hasOptions()` followed by an option getter is folded into an `Option` or a boolean field.
- `getFileName`, `getImportPath` and `getModuleName` are defined in no file of this model. They are uninterpreted functions, and nothing is stated about their output.
- The construction of the type registry `deps` is not part of this model. It is taken as an input map.
- The driver's per-file generator is a parameter: `src/code-generator.js:35` passes no registry (see Findings).
- The exception a per-file generation throws is a parameter, and so is the TypeError of indexing a null `match`. The `message` and `stack` texts of exceptions are opaque strings.
- The driver's response is a datatype with a file list and an optional error, not the library's response object.
- Utils.Camelize: lower-cases only ASCII letters, while JavaScript's `toLowerCase` also maps non-ASCII letters, because Unicode case mapping is not modelled.
- Utils.PascalCase: `\w` is modelled as ASCII letters, digits and `_`, which is what JavaScript's `\w` matches without the `u` flag. Upper-casing is exact there.
- JavaScript strings are UTF-16 code units, while Dafny's `char` is a Unicode scalar value. Characters outside the Basic Multilingual Plane therefore count as one character here, not two.
- FileGeneratorClass.Generator.GetterForField: after a throw, the contents of `importTypes` are not stated.
- FileGeneratorClass.Generator.SetterForField: after a throw, the contents of `importTypes` are not stated.
- FileGeneratorClass.Generator.ReduceMessageFields: after a throw, the contents of `importTypes` are not stated.
- FileGeneratorClass.Generator.ReduceMessageObjFields: after a throw, the contents of `importTypes` are not stated.
- FileGeneratorClass.Generator.ReduceAllMessageFields: after a throw, the contents of `importTypes` are not stated.
- FileGeneratorClass.Generator.ReduceAllMessageObjFields: after a throw, the contents of `importTypes` are not stated.
- FileGeneratorClass.Generator.GenerateMessageClass: after a throw, the contents of `importTypes` are not stated.
- FileGeneratorClass.Generator.GenerateMessageObj: after a throw, the contents of `importTypes` are not stated.
- FileGeneratorClass.Generator.ReduceMessageTypes: after a throw, the contents of `importTypes` are not stated.
- FileGeneratorClass.Generator.ReduceAllMessageTypes: after a throw, the contents of `importTypes` are not stated.
- FileGeneratorClass.Generator.Generate: after a throw, the contents of `importTypes` are not stated. Only the result is.
- FileGeneratorClass.Generator.IsMap: the source returns `undefined` rather than `false` for a field that is not a repeated message field. Both are modelled as `false`, because every caller only tests truthiness.
- Protobuf map fields get no precise Flow type. In object mode the code ignores the map flag and renders `Array<…Obj>` of the entry message (`FileGenerator.TypeSpec`).
- For a map-entry message the code skips only the class. Its object type, nested enums and nested messages are still emitted (`FileGeneratorLemmas.MapEntryBlock`).

## Findings

| source | as written | input that shows it | evidently intended | confidence | as-written member | corrected member |
|---|---|---|---|---|---|---|
| src/code-generator.js:35 | each `FileGenerator` is constructed without `deps`, so `this.deps.values()` (src/file-generator.js:107) throws | any request whose `fileToGenerate` names one of its proto files, e.g. `a.proto` with proto file `a.proto` | the registry is passed, and each selected file yields its generated declarations followed by the `.flowconfig` | high, not executed | CodeGeneratorLemmas.UnregisteredDriverFails | CodeGeneratorLemmas.RegisteredDriverSucceeds |

`CodeGenerator.UnregisteredGenerate` models the constructor call as written. `CodeGenerator.RegisteredGenerate` is the corrected per-file generator, which runs `FileGenerator.Generated` from the constructor's sets. The driver `CodeGenerator.Generate` takes either one.
