/**
 * Model of src/utils.js: case conversion and the recursive type-name lister.
 * The regular expressions there have no `u` flag, so `\w` is the ASCII class
 * [A-Za-z0-9_], and upper-casing a matched character is ASCII upper-casing.
 */
module Utils {
  import opened Strings
  import opened Descriptors

  /** `\w` without the `u` flag. */
  predicate IsWordChar(c: char) {
    'a' <= c <= 'z' || 'A' <= c <= 'Z' || '0' <= c <= '9' || c == '_'
  }

  /** `[-_]` */
  predicate IsSeparator(c: char) {
    c == '-' || c == '_'
  }

  function ToUpper(c: char): char {
    if 'a' <= c <= 'z' then (c as int - 32) as char else c
  }

  /** ASCII lower-casing (the model does not cover Unicode case mapping). */
  function ToLower(c: char): char {
    if 'A' <= c <= 'Z' then (c as int + 32) as char else c
  }

  /**
   * `inStr.replace(/(?:^|[-_])(\w)/g, (_, c) => c.toUpperCase())`.
   * The `^` alternative is tried first and only at position 0: a word
   * character there is upper-cased in place (even `_`, which is itself a
   * word character). Everywhere else the scan is `AfterStart`.
   */
  function PascalCase(s: string): (r: string)
    ensures |r| <= |s|
  {
    if |s| > 0 && IsWordChar(s[0]) then [ToUpper(s[0])] + AfterStart(s[1..]) else AfterStart(s)
  }

  /**
   * The global scan away from position 0: a separator followed by a word
   * character is replaced by that character upper-cased; scanning resumes
   * after the pair, so the matches never overlap.
   */
  function AfterStart(s: string): (r: string)
    ensures |r| <= |s|
    decreases |s|
  {
    if |s| == 0 then ""
    else if IsSeparator(s[0]) && |s| >= 2 && IsWordChar(s[1]) then [ToUpper(s[1])] + AfterStart(s[2..])
    else [s[0]] + AfterStart(s[1..])
  }

  /** `camelize`: `pascalCase`, then the first character lower-cased. */
  function Camelize(s: string): (r: string)
    ensures |r| == |PascalCase(s)| <= |s|
    ensures |r| > 0 ==> r[0] == ToLower(PascalCase(s)[0]) && r[1..] == PascalCase(s)[1..]
  {
    var p := PascalCase(s);
    if |p| == 0 then "" else [ToLower(p[0])] + p[1..]
  }

  /** One word of a snake_case identifier: starts with a word character, holds no separator. */
  predicate IsPlainWord(w: string) {
    |w| > 0 && IsWordChar(w[0]) && NoSeparator(w)
  }

  predicate NoSeparator(w: string) {
    |w| == 0 || (!IsSeparator(w[0]) && NoSeparator(w[1..]))
  }

  predicate AllPlainWords(ws: seq<string>) {
    |ws| == 0 || (IsPlainWord(ws[0]) && AllPlainWords(ws[1..]))
  }

  function Capitalize(w: string): (r: string)
    ensures |r| == |w|
  {
    if |w| == 0 then w else [ToUpper(w[0])] + w[1..]
  }

  /** The reference spelling of PascalCase: every word capitalized, then concatenated. */
  function CapitalizedWords(ws: seq<string>): string
  {
    if |ws| == 0 then "" else Capitalize(ws[0]) + CapitalizedWords(ws[1..])
  }

  /** Text without separators passes through the scan unchanged. */
  lemma {:induction false} AfterStartPlain(x: string, t: string)
    requires NoSeparator(x)
    ensures AfterStart(x + t) == x + AfterStart(t)
    decreases |x|
  {
    if |x| > 0 {
      assert !IsSeparator(x[0]) && NoSeparator(x[1..]);
      assert (x + t)[0] == x[0];
      assert (x + t)[1..] == x[1..] + t;
      AfterStartPlain(x[1..], t);
    } else {
      assert x + t == t;
    }
  }

  /** `_w...` for a plain word `w` scans to `w` capitalized, then the scan of the rest. */
  lemma AfterStartOfSeparatedWord(w: string, t: string)
    requires IsPlainWord(w)
    ensures AfterStart("_" + w + t) == Capitalize(w) + AfterStart(t)
  {
    var s := "_" + w + t;
    assert s[0] == '_' && s[1] == w[0] && s[2..] == w[1..] + t;
    AfterStartPlain(w[1..], t);
  }

  /** A separator followed by a snake_case identifier scans to its words capitalized. */
  lemma {:induction false} AfterStartOfSnakeTail(ws: seq<string>)
    requires |ws| > 0 && AllPlainWords(ws)
    ensures AfterStart("_" + Join(ws, "_")) == CapitalizedWords(ws)
    decreases |ws|
  {
    assert IsPlainWord(ws[0]);
    if |ws| == 1 {
      AfterStartOfSeparatedWord(ws[0], "");
      assert "_" + ws[0] + "" == "_" + Join(ws, "_");
      assert ws[1..] == [];
    } else {
      var rest := "_" + Join(ws[1..], "_");
      assert "_" + Join(ws, "_") == "_" + ws[0] + rest;
      AfterStartOfSeparatedWord(ws[0], rest);
      AfterStartOfSnakeTail(ws[1..]);
    }
  }

  /** A plain word at the start is capitalized and left otherwise unchanged. */
  lemma PascalCaseOfPlainHead(w: string, t: string)
    requires IsPlainWord(w)
    ensures PascalCase(w + t) == Capitalize(w) + AfterStart(t)
  {
    var u := [ToUpper(w[0])];
    PascalCaseOfWordStart(w, t);
    AfterStartPlain(w[1..], t);
    assert u + (w[1..] + AfterStart(t)) == (u + w[1..]) + AfterStart(t);
  }

  /** A word character at the start is upper-cased and the scan goes on after it. */
  lemma PascalCaseOfWordStart(w: string, t: string)
    requires |w| > 0 && IsWordChar(w[0])
    ensures PascalCase(w + t) == [ToUpper(w[0])] + AfterStart(w[1..] + t)
  {
    assert (w + t)[1..] == w[1..] + t;
  }

  /**
   * The intended use: a snake_case name such as `user_id_2` becomes `UserId2`,
   * each word capitalized and the underscores removed.
   */
  lemma PascalCaseOfSnakeCase(ws: seq<string>)
    requires |ws| > 0 && AllPlainWords(ws)
    ensures PascalCase(Join(ws, "_")) == CapitalizedWords(ws)
  {
    if |ws| == 1 {
      PascalCaseOfPlainHead(ws[0], "");
      assert ws[0] + "" == ws[0];
      assert ws[1..] == [];
    } else {
      var t := "_" + Join(ws[1..], "_");
      assert Join(ws, "_") == ws[0] + t;
      PascalCaseOfPlainHead(ws[0], t);
      AfterStartOfSnakeTail(ws[1..]);
    }
  }

  /** `user_id` becomes `userId`: the first word keeps its case apart from its first letter. */
  lemma CamelizeOfSnakeCase(ws: seq<string>)
    requires |ws| > 0 && AllPlainWords(ws)
    ensures |ws[0]| > 0
    ensures Camelize(Join(ws, "_")) == [ToLower(ws[0][0])] + ws[0][1..] + CapitalizedWords(ws[1..])
  {
    assert IsPlainWord(ws[0]);
    PascalCaseOfSnakeCase(ws);
  }

  /** `reducerForTypeNames`: a top-level name is bare, a nested one is `Parent.Name`. */
  function QualifiedName(parentName: string, name: string): string {
    if parentName == "" then name else parentName + "." + name
  }

  /**
   * The fold of `reducerForTypeNames(parentName)` over `ms[..n]`. Nested
   * messages get the simple name of their immediate parent only.
   */
  function TypeNames(parentName: string, ms: seq<Message>, n: nat): seq<string>
    requires n <= |ms|
    decreases ms, n
  {
    if n == 0 then []
    else
      TypeNames(parentName, ms, n - 1)
      + [QualifiedName(parentName, ms[n - 1].name)]
      + TypeNames(ms[n - 1].name, ms[n - 1].nested, |ms[n - 1].nested|)
  }

  /** `getAllTypeNames` */
  function AllTypeNames(f: File): seq<string> {
    TypeNames("", f.messages, |f.messages|)
  }

  predicate EndsWith(s: string, suffix: string) {
    |suffix| <= |s| && s[|s| - |suffix|..] == suffix
  }

  /**
   * The simple name of the message that directly encloses each entry of
   * `Preorder(ms, n)`, or `parentName` for the entries of `ms` themselves.
   */
  function ParentNames(parentName: string, ms: seq<Message>, n: nat): seq<string>
    requires n <= |ms|
    decreases ms, n
  {
    if n == 0 then []
    else
      ParentNames(parentName, ms, n - 1)
      + [parentName]
      + ParentNames(ms[n - 1].name, ms[n - 1].nested, |ms[n - 1].nested|)
  }

  /** Each entry of `parentNames` is `parentName`, or the name of a message listed before its position. */
  predicate EnclosedEarlier(parentNames: seq<string>, messages: seq<Message>, parentName: string) {
    |parentNames| == |messages|
    && forall i | 0 <= i < |parentNames| ::
      parentNames[i] == parentName || exists j | 0 <= j < i :: messages[j].name == parentNames[i]
  }

  /** A message followed by its subtree: the subtree's entries enclosed by it are enclosed by an earlier entry. */
  lemma EnclosedEarlierAppend(parentNames: seq<string>, messages: seq<Message>, parentName: string, m: Message,
                              subParents: seq<string>, sub: seq<Message>)
    requires EnclosedEarlier(parentNames, messages, parentName) && EnclosedEarlier(subParents, sub, m.name)
    ensures EnclosedEarlier(parentNames + [parentName] + subParents, messages + [m] + sub, parentName)
  {
    var ps, pre, a := parentNames + [parentName] + subParents, messages + [m] + sub, |messages|;
    forall i | 0 <= i < |ps|
      ensures ps[i] == parentName || exists j | 0 <= j < i :: pre[j].name == ps[i]
    {
      if i < a {
        if ps[i] != parentName {
          var j :| 0 <= j < i && messages[j].name == parentNames[i];
          assert pre[j] == messages[j];
        }
      } else if i > a {
        var k := i - a - 1;
        assert ps[i] == subParents[k] && pre[a] == m;
        if subParents[k] != m.name {
          var j :| 0 <= j < k && sub[j].name == subParents[k];
          assert pre[a + 1 + j] == sub[j];
        }
      }
    }
  }

  /** An enclosing name is the outer parent's, or that of a message listed earlier in pre-order. */
  lemma {:induction false} ParentPrecedes(parentName: string, ms: seq<Message>, n: nat)
    requires n <= |ms|
    ensures |ParentNames(parentName, ms, n)| == |Preorder(ms, n)|
    ensures forall i | 0 <= i < |Preorder(ms, n)| ::
      ParentNames(parentName, ms, n)[i] == parentName
      || exists j | 0 <= j < i :: Preorder(ms, n)[j].name == ParentNames(parentName, ms, n)[i]
    decreases ms, n
  {
    if n > 0 {
      var m := ms[n - 1];
      ParentPrecedes(parentName, ms, n - 1);
      ParentPrecedes(m.name, m.nested, |m.nested|);
      EnclosedEarlierAppend(ParentNames(parentName, ms, n - 1), Preorder(ms, n - 1), parentName, m,
                            ParentNames(m.name, m.nested, |m.nested|), Preorder(m.nested, |m.nested|));
    }
  }

  /** Each name is the message's own name qualified by the name beside it in `parentNames`. */
  predicate Qualified(names: seq<string>, messages: seq<Message>, parentNames: seq<string>) {
    |names| == |messages| == |parentNames|
    && forall i | 0 <= i < |names| :: names[i] == QualifiedName(parentNames[i], messages[i].name)
  }

  lemma QualifiedAppend(names: seq<string>, messages: seq<Message>, parentNames: seq<string>,
                        names': seq<string>, messages': seq<Message>, parentNames': seq<string>)
    requires Qualified(names, messages, parentNames) && Qualified(names', messages', parentNames')
    ensures Qualified(names + names', messages + messages', parentNames + parentNames')
  {
    var ns, ms, ps := names + names', messages + messages', parentNames + parentNames';
    forall i | 0 <= i < |ns|
      ensures ns[i] == QualifiedName(ps[i], ms[i].name)
    {
      if i >= |names| {
        var k := i - |names|;
        assert ns[i] == names'[k] && ms[i] == messages'[k] && ps[i] == parentNames'[k];
      }
    }
  }

  /**
   * One name per message, in depth-first pre-order: the message's own name,
   * bare under an empty parent and otherwise after its enclosing message's
   * simple name and a dot.
   */
  lemma {:induction false} TypeNamesFollowPreorder(parentName: string, ms: seq<Message>, n: nat)
    requires n <= |ms|
    ensures |TypeNames(parentName, ms, n)| == |Preorder(ms, n)| == |ParentNames(parentName, ms, n)|
    ensures forall i | 0 <= i < |Preorder(ms, n)| ::
      TypeNames(parentName, ms, n)[i] == QualifiedName(ParentNames(parentName, ms, n)[i], Preorder(ms, n)[i].name)
    decreases ms, n
  {
    if n > 0 {
      var m := ms[n - 1];
      TypeNamesFollowPreorder(parentName, ms, n - 1);
      TypeNamesFollowPreorder(m.name, m.nested, |m.nested|);
      var names0, pre0, ps0 := TypeNames(parentName, ms, n - 1), Preorder(ms, n - 1), ParentNames(parentName, ms, n - 1);
      var names1, pre1, ps1 := TypeNames(m.name, m.nested, |m.nested|), Preorder(m.nested, |m.nested|), ParentNames(m.name, m.nested, |m.nested|);
      assert Qualified(names0, pre0, ps0) && Qualified(names1, pre1, ps1);
      assert Qualified([QualifiedName(parentName, m.name)], [m], [parentName]);
      QualifiedAppend(names0, pre0, ps0, [QualifiedName(parentName, m.name)], [m], [parentName]);
      QualifiedAppend(names0 + [QualifiedName(parentName, m.name)], pre0 + [m], ps0 + [parentName], names1, pre1, ps1);
    }
  }

  /** Every listed name ends in its message's own name. */
  lemma TypeNamesEndWithOwnName(parentName: string, ms: seq<Message>, n: nat)
    requires n <= |ms|
    ensures |TypeNames(parentName, ms, n)| == |Preorder(ms, n)|
    ensures forall i | 0 <= i < |Preorder(ms, n)| :: EndsWith(TypeNames(parentName, ms, n)[i], Preorder(ms, n)[i].name)
  {
    TypeNamesFollowPreorder(parentName, ms, n);
    forall i | 0 <= i < |Preorder(ms, n)|
      ensures EndsWith(TypeNames(parentName, ms, n)[i], Preorder(ms, n)[i].name)
    {
      QualifiedNameEnds(ParentNames(parentName, ms, n)[i], Preorder(ms, n)[i].name);
    }
  }

  lemma QualifiedNameEnds(parentName: string, name: string)
    ensures EndsWith(QualifiedName(parentName, name), name)
  {
    var q := QualifiedName(parentName, name);
    assert q[|q| - |name|..] == name;
  }

  /**
   * getAllTypeNames lists every message of the file exactly once, in
   * pre-order: a top-level message by its bare name, a nested one as its
   * enclosing message's simple name, a dot and its own name.
   */
  lemma AllTypeNamesCount(f: File)
    ensures |AllTypeNames(f)| == |AllMessages(f.messages)| == |ParentNames("", f.messages, |f.messages|)|
    ensures forall i | 0 <= i < |AllTypeNames(f)| ::
      AllTypeNames(f)[i] == QualifiedName(ParentNames("", f.messages, |f.messages|)[i], AllMessages(f.messages)[i].name)
    ensures forall k | 0 <= k < |f.messages| ::
      |Preorder(f.messages, k)| < |AllTypeNames(f)| && AllTypeNames(f)[|Preorder(f.messages, k)|] == f.messages[k].name
  {
    TypeNamesFollowPreorder("", f.messages, |f.messages|);
    forall k | 0 <= k < |f.messages|
      ensures |Preorder(f.messages, k)| < |AllTypeNames(f)| && AllTypeNames(f)[|Preorder(f.messages, k)|] == f.messages[k].name
    {
      TopLevelParent("", f.messages, |f.messages|, k);
    }
  }

  /** The entry of `ms[k]` itself sits at `|Preorder(ms, k)|` and is enclosed by the outer parent. */
  lemma {:induction false} TopLevelParent(parentName: string, ms: seq<Message>, n: nat, k: nat)
    requires k < n <= |ms|
    ensures |Preorder(ms, k)| < |Preorder(ms, n)| && |Preorder(ms, k)| < |ParentNames(parentName, ms, n)|
    ensures Preorder(ms, n)[|Preorder(ms, k)|] == ms[k]
    ensures ParentNames(parentName, ms, n)[|Preorder(ms, k)|] == parentName
    decreases n
  {
    ParentPrecedes(parentName, ms, n);
    ParentPrecedes(parentName, ms, n - 1);
    if k < n - 1 {
      TopLevelParent(parentName, ms, n - 1, k);
    }
  }

  /** No message in `ms[..n]` or below it has a dot in its simple name. */
  predicate DotFreeNames(ms: seq<Message>, n: nat)
    requires n <= |ms|
    decreases ms, n
  {
    n == 0 || (DotFreeNames(ms, n - 1) && '.' !in ms[n - 1].name && DotFreeNames(ms[n - 1].nested, |ms[n - 1].nested|))
  }

  /**
   * With dot-free simple names, no listed name has more than one dot: a
   * grand-child is `Inner.Leaf`, never `Outer.Inner.Leaf`.
   */
  lemma {:induction false} TypeNamesAtMostOneDot(parentName: string, ms: seq<Message>, n: nat)
    requires n <= |ms|
    requires '.' !in parentName
    requires DotFreeNames(ms, n)
    ensures forall t | t in TypeNames(parentName, ms, n) :: multiset(t)['.'] <= 1
    decreases ms, n
  {
    if n > 0 {
      var m := ms[n - 1];
      TypeNamesAtMostOneDot(parentName, ms, n - 1);
      TypeNamesAtMostOneDot(m.name, m.nested, |m.nested|);
      var q := QualifiedName(parentName, m.name);
      if parentName != "" {
        assert multiset(q) == multiset(parentName) + multiset(".") + multiset(m.name);
      }
      assert multiset(q)['.'] <= 1;
    }
  }

  /** The three-level example: Outer { Inner { Leaf } }. */
  lemma TypeNamesExample()
    ensures AllTypeNames(File("a.proto", [], [Message("Outer", [], [Message("Inner", [], [Message("Leaf", [], [], [], false)], [], false)], [], false)], []))
         == ["Outer", "Outer.Inner", "Inner.Leaf"]
  {
    var leaf := Message("Leaf", [], [], [], false);
    var inner := Message("Inner", [], [leaf], [], false);
    var outer := Message("Outer", [], [inner], [], false);
    assert QualifiedName("Inner", "Leaf") == "Inner.Leaf";
    assert QualifiedName("Outer", "Inner") == "Outer.Inner";
    assert TypeNames("Leaf", [], 0) == [];
    assert TypeNames("Inner", [leaf], 0) == [];
    assert TypeNames("Inner", [leaf], 1) == ["Inner.Leaf"];
    assert TypeNames("Outer", [inner], 0) == [];
    assert TypeNames("Outer", [inner], 1) == ["Outer.Inner", "Inner.Leaf"];
    assert TypeNames("", [outer], 0) == [];
  }
}
