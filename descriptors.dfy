/**
 * The parts of Protocol Buffers' descriptor.proto that the generator reads:
 * FileDescriptorProto, DescriptorProto, FieldDescriptorProto,
 * EnumDescriptorProto and the jstype field option, as immutable values.
 */
module Descriptors {
  import opened Wrappers

  /** FieldDescriptorProto.Label; `LabelUnrecognized` stands for any other number. */
  datatype Label = LabelOptional | LabelRequired | LabelRepeated | LabelUnrecognized(code: int)

  /** FieldDescriptorProto.Type (numbers 1 to 18); `TypeUnrecognized` stands for any other number. */
  datatype Kind =
    | TypeDouble | TypeFloat | TypeInt64 | TypeUInt64 | TypeInt32 | TypeFixed64
    | TypeFixed32 | TypeBool | TypeString | TypeGroup | TypeMessage | TypeBytes
    | TypeUInt32 | TypeEnum | TypeSFixed32 | TypeSFixed64 | TypeSInt32 | TypeSInt64
    | TypeUnrecognized(code: int)

  /** FieldOptions.JSType. */
  datatype JsType = JsNormal | JsString | JsNumber

  /** A field; `jstype` is `None` when the field has no options or the option is unset. */
  datatype Field = Field(name: string, fieldLabel: Label, kind: Kind, typeName: string, jstype: Option<JsType>)

  datatype EnumValue = EnumValue(name: string, number: int)

  datatype Enum = Enum(name: string, values: seq<EnumValue>)

  /** A message; `mapEntry` is MessageOptions.map_entry (false when the message has no options). */
  datatype Message = Message(name: string, fields: seq<Field>, nested: seq<Message>, enums: seq<Enum>, mapEntry: bool)

  datatype File = File(name: string, dependencies: seq<string>, messages: seq<Message>, enums: seq<Enum>)

  /** What the type registry records for one fully-qualified type name. */
  datatype Dep = Dep(name: string, moduleName: string, fileName: string)

  /** CodeGeneratorResponse.File. */
  datatype OutputFile = OutputFile(name: string, content: string)

  predicate IsMessageKind(k: Kind) {
    k == TypeMessage || k == TypeGroup
  }

  /** The simple names of a chain of messages, outermost first. */
  function Names(ms: seq<Message>): (r: seq<string>)
    ensures |r| == |ms|
    ensures forall i | 0 <= i < |ms| :: r[i] == ms[i].name
  {
    seq(|ms|, i requires 0 <= i < |ms| => ms[i].name)
  }

  /** The messages of `ms[..n]` and everything nested in them, depth-first, pre-order. */
  function Preorder(ms: seq<Message>, n: nat): seq<Message>
    requires n <= |ms|
    decreases ms, n
  {
    if n == 0 then []
    else Preorder(ms, n - 1) + [ms[n - 1]] + Preorder(ms[n - 1].nested, |ms[n - 1].nested|)
  }

  function AllMessages(ms: seq<Message>): seq<Message>
  {
    Preorder(ms, |ms|)
  }

  /** The first message in `ms` whose simple name is `name`. */
  function FirstNamed(ms: seq<Message>, name: string): (r: Option<Message>)
    ensures r.Some? ==> r.value in ms && r.value.name == name
  {
    if |ms| == 0 then None
    else if ms[0].name == name then Some(ms[0])
    else FirstNamed(ms[1..], name)
  }

  /** There is no first match exactly when no message in the list has the name. */
  lemma {:induction false} FirstNamedNone(ms: seq<Message>, name: string)
    ensures FirstNamed(ms, name).None? <==> forall i | 0 <= i < |ms| :: ms[i].name != name
  {
    if |ms| > 0 && ms[0].name != name {
      FirstNamedNone(ms[1..], name);
      assert forall i | 1 <= i < |ms| :: ms[i] == ms[1..][i - 1];
    }
  }

  /** The first match sits at an index where the name occurs and no earlier message has it. */
  lemma {:induction false} FirstNamedIndex(ms: seq<Message>, name: string) returns (i: nat)
    requires FirstNamed(ms, name).Some?
    ensures i < |ms| && ms[i] == FirstNamed(ms, name).value
    ensures forall j | 0 <= j < i :: ms[j].name != name
  {
    if ms[0].name == name {
      i := 0;
    } else {
      var k := FirstNamedIndex(ms[1..], name);
      i := k + 1;
      assert forall j | 1 <= j < i :: ms[j] == ms[1..][j - 1];
    }
  }

  /** A name at index `i` with no earlier occurrence is the first match. */
  lemma {:induction false} FirstNamedAt(ms: seq<Message>, name: string, i: nat)
    requires i < |ms| && ms[i].name == name
    requires forall j | 0 <= j < i :: ms[j].name != name
    ensures FirstNamed(ms, name) == Some(ms[i])
  {
    if i > 0 {
      assert forall j | 0 <= j < i - 1 :: ms[1..][j] == ms[j + 1];
      FirstNamedAt(ms[1..], name, i - 1);
    }
  }

  /** Lengthening the list with later messages never changes an existing first match. */
  lemma {:induction false} FirstNamedAppend(a: seq<Message>, b: seq<Message>, name: string)
    ensures FirstNamed(a + b, name) == if FirstNamed(a, name).Some? then FirstNamed(a, name) else FirstNamed(b, name)
  {
    if |a| > 0 {
      assert (a + b)[0] == a[0];
      assert (a + b)[1..] == a[1..] + b;
      FirstNamedAppend(a[1..], b, name);
    } else {
      assert a + b == b;
    }
  }

  /** A shorter walk is a prefix of a longer one over the same list. */
  lemma {:induction false} PreorderPrefix(ms: seq<Message>, i: nat, j: nat)
    requires i <= j <= |ms|
    ensures exists rest :: Preorder(ms, j) == Preorder(ms, i) + rest
    decreases j
  {
    if i == j {
      assert Preorder(ms, j) == Preorder(ms, i) + [];
    } else {
      PreorderPrefix(ms, i, j - 1);
      var rest :| Preorder(ms, j - 1) == Preorder(ms, i) + rest;
      assert Preorder(ms, j) == Preorder(ms, i) + (rest + [ms[j - 1]] + Preorder(ms[j - 1].nested, |ms[j - 1].nested|));
    }
  }

  /** One more top-level message extends a walk that has not matched yet by that message, then its subtree. */
  lemma FirstNamedStep(ms: seq<Message>, i: nat, name: string)
    requires i < |ms|
    requires FirstNamed(Preorder(ms, i), name).None?
    ensures FirstNamed(Preorder(ms, i + 1), name)
      == if ms[i].name == name then Some(ms[i]) else FirstNamed(AllMessages(ms[i].nested), name)
  {
    assert Preorder(ms, i + 1) == Preorder(ms, i) + ([ms[i]] + AllMessages(ms[i].nested));
    FirstNamedAppend(Preorder(ms, i), [ms[i]] + AllMessages(ms[i].nested), name);
    FirstNamedAppend([ms[i]], AllMessages(ms[i].nested), name);
  }

  /** A match found in a prefix of the walk is the match of the whole walk. */
  lemma FirstNamedInPrefix(ms: seq<Message>, i: nat, name: string)
    requires i <= |ms|
    requires FirstNamed(Preorder(ms, i), name).Some?
    ensures FirstNamed(AllMessages(ms), name) == FirstNamed(Preorder(ms, i), name)
  {
    PreorderPrefix(ms, i, |ms|);
    var rest :| Preorder(ms, |ms|) == Preorder(ms, i) + rest;
    FirstNamedAppend(Preorder(ms, i), rest, name);
  }
}
