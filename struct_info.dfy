/** `s3-bucket-derive/src/struct_info/mod.rs`: what the derive macro records
    about a storable struct, and the parsing of its key pattern. */
module StructInfo {
  import opened Wrappers
  import opened Text

  // ---------------------------------------------------------------------------
  // The regular expression `\{([^}]*)\}` and its `find_iter`

  /** Text one match of `\{([^}]*)\}` can cover: a `{`, then anything but `}`,
      then `}`. */
  predicate IsMatch(f: string)
  {
    |f| >= 2 && f[0] == '{' && f[|f| - 1] == '}' && '}' !in f[..|f| - 1]
  }

  /** No `{` in `g` has a `}` somewhere after it, so the regex finds nothing in `g`. */
  predicate NoClosedBrace(g: string)
  {
    forall i, j :: 0 <= i < j < |g| && g[i] == '{' ==> g[j] != '}'
  }

  /** A pattern cut into the text between matches (`gaps`) and the matches
      (`finds`), in left-to-right order. */
  datatype Layout = Layout(gaps: seq<string>, finds: seq<string>)

  /** The conditions that make `finds` exactly the leftmost-first,
      non-overlapping matches of the regex: every find is a match, no gap
      before a find contains `{` (a match would have started there), and the
      trailing gap holds no further match. */
  predicate WellLaid(gaps: seq<string>, finds: seq<string>)
  {
    && |gaps| == |finds| + 1
    && (forall i :: 0 <= i < |finds| ==> IsMatch(finds[i]))
    && (forall i :: 0 <= i < |finds| ==> '{' !in gaps[i])
    && NoClosedBrace(gaps[|finds|])
  }

  /** A character other than `{` in front of a well-laid cutting joins its first gap. */
  lemma {:induction false} ScanCons(c: char, l: Layout)
    requires c != '{' && WellLaid(l.gaps, l.finds)
    ensures var gaps := [[c] + l.gaps[0]] + l.gaps[1..];
            && WellLaid(gaps, l.finds)
            && Weave(gaps, l.finds) == [c] + Weave(l.gaps, l.finds)
  {
    var g := l.gaps[0];
    var gaps := [[c] + g] + l.gaps[1..];
    assert [g] + l.gaps[1..] == l.gaps;
    WeaveConsGap(c, g, l.gaps[1..], l.finds);
    forall i | 0 <= i < |l.finds| ensures '{' !in gaps[i] {
      if i > 0 { assert gaps[i] == l.gaps[i]; }
    }
    if l.finds == [] {
      forall i, j | 0 <= i < j < |gaps[0]| && gaps[0][i] == '{' ensures gaps[0][j] != '}' {
        assert gaps[0][i] == g[i - 1] && gaps[0][j] == g[j - 1];
      }
    } else {
      assert gaps[|l.finds|] == l.gaps[|l.finds|];
    }
  }

  /** A `{` whose first later `}` is at `j` opens a match ending there, and
      the cutting of the rest follows it. */
  lemma {:induction false} ScanFind(s: string, j: nat, l: Layout)
    requires j < |s| && s[0] == '{' && s[j] == '}' && '}' !in s[..j]
    requires WellLaid(l.gaps, l.finds) && Weave(l.gaps, l.finds) == s[j + 1..]
    ensures WellLaid([""] + l.gaps, [s[..j + 1]] + l.finds)
    ensures Weave([""] + l.gaps, [s[..j + 1]] + l.finds) == s
  {
    var gaps := [""] + l.gaps;
    var finds := [s[..j + 1]] + l.finds;
    assert s[..j + 1][..j] == s[..j];
    assert IsMatch(finds[0]);
    forall i | 0 <= i < |finds| ensures IsMatch(finds[i]) && '{' !in gaps[i] {
      if i > 0 { assert finds[i] == l.finds[i - 1] && gaps[i] == l.gaps[i - 1]; }
    }
    assert gaps[|finds|] == l.gaps[|l.finds|];
    assert gaps[1..] == l.gaps && finds[1..] == l.finds;
    assert s == s[..j + 1] + s[j + 1..];
  }

  /** `Regex::find_iter` for `\{([^}]*)\}`: from each `{` the match runs to the
      first `}` after it; a `{` with no later `}` ends the search. */
  function Scan(s: string): (l: Layout)
    ensures WellLaid(l.gaps, l.finds)
    ensures Weave(l.gaps, l.finds) == s
    decreases |s|
  {
    if s == [] then Layout([""], [])
    else if s[0] != '{' then
      var r := Scan(s[1..]);
      ScanCons(s[0], r);
      assert [s[0]] + s[1..] == s;
      Layout([[s[0]] + r.gaps[0]] + r.gaps[1..], r.finds)
    else
      match IndexOf(s, '}')
      case None => Layout([s], [])
      case Some(j) =>
        var r := Scan(s[j + 1..]);
        ScanFind(s, j, r);
        Layout([""] + r.gaps, [s[..j + 1]] + r.finds)
  }

  /** The scan is the only decomposition meeting `WellLaid`: any such cutting
      of a string is what `Scan` returns for it. */
  lemma {:induction false} ScanUnique(gaps: seq<string>, finds: seq<string>)
    requires WellLaid(gaps, finds)
    ensures Scan(Weave(gaps, finds)) == Layout(gaps, finds)
    decreases |Weave(gaps, finds)|, 1
  {
    if gaps[0] != [] {
      if finds == [] {
        ScanUniqueTail(gaps[0]);
      } else {
        ScanUniqueGap(gaps, finds);
      }
    } else if finds != [] {
      ScanUniqueFind(gaps, finds);
    }
  }

  /** The case of a trailing gap alone. */
  lemma {:induction false} ScanUniqueTail(g: string)
    requires NoClosedBrace(g)
    ensures Scan(g) == Layout([g], [])
    decreases |g|, 0
  {
    if g != [] {
      if g[0] == '{' {
        assert IndexOf(g, '}') == None;
      } else {
        var g' := g[1..];
        assert NoClosedBrace(g') by {
          forall i, j | 0 <= i < j < |g'| && g'[i] == '{' ensures g'[j] != '}' {
            assert g[i + 1] == '{';
          }
        }
        assert Weave([g'], []) == g';
        ScanUnique([g'], []);
        assert [g[0]] + g' == g;
      }
    }
  }

  /** The case of a non-empty gap before the first find. */
  lemma {:induction false} ScanUniqueGap(gaps: seq<string>, finds: seq<string>)
    requires WellLaid(gaps, finds) && gaps[0] != [] && finds != []
    ensures Scan(Weave(gaps, finds)) == Layout(gaps, finds)
    decreases |Weave(gaps, finds)|, 0
  {
    var s := Weave(gaps, finds);
    var c := gaps[0][0];
    var g' := gaps[0][1..];
    assert c != '{' by { assert c in gaps[0]; }
    var gaps' := [g'] + gaps[1..];
    assert WellLaid(gaps', finds) by {
      forall i | 0 <= i < |finds| ensures '{' !in gaps'[i] {
        if i == 0 {
          assert forall x :: x in g' ==> x in gaps[0];
        } else {
          assert gaps'[i] == gaps[i];
        }
      }
      assert gaps'[|finds|] == gaps[|finds|];
    }
    WeaveConsGap(c, g', gaps[1..], finds);
    assert [c] + g' == gaps[0];
    assert s == [c] + Weave(gaps', finds);
    assert s[1..] == Weave(gaps', finds);
    ScanUnique(gaps', finds);
    assert [gaps'[0]] + gaps'[1..] == gaps';
    assert [[c] + gaps'[0]] + gaps'[1..] == gaps;
  }

  /** Dropping the first gap and find of a well-laid cutting leaves one. */
  lemma {:induction false} WellLaidTail(gaps: seq<string>, finds: seq<string>)
    requires WellLaid(gaps, finds) && finds != []
    ensures WellLaid(gaps[1..], finds[1..])
  {
    forall i | 0 <= i < |finds[1..]| ensures IsMatch(finds[1..][i]) && '{' !in gaps[1..][i] {
      assert finds[1..][i] == finds[i + 1];
      assert gaps[1..][i] == gaps[i + 1];
    }
    assert gaps[1..][|finds[1..]|] == gaps[|finds|];
  }

  /** The case of a find at the very start. */
  lemma {:induction false} ScanUniqueFind(gaps: seq<string>, finds: seq<string>)
    requires WellLaid(gaps, finds) && gaps[0] == [] && finds != []
    ensures Scan(Weave(gaps, finds)) == Layout(gaps, finds)
    decreases |Weave(gaps, finds)|, 0
  {
    var s := Weave(gaps, finds);
    var f := finds[0];
    var rest := Weave(gaps[1..], finds[1..]);
    assert s == f + rest;
    assert IsMatch(f);
    assert s[|f| - 1] == '}';
    assert s[..|f| - 1] == f[..|f| - 1];
    IndexOfAt(s, '}', |f| - 1);
    assert s[..|f|] == f;
    assert s[|f|..] == rest;
    WellLaidTail(gaps, finds);
    ScanUnique(gaps[1..], finds[1..]);
    assert [""] + gaps[1..] == gaps;
    assert [f] + finds[1..] == finds;
  }

  // ---------------------------------------------------------------------------
  // Key

  /** A key pattern with its quotes removed, and the placeholder names found in
      it, in order of occurrence (duplicates kept). */
  datatype Key = Key(value: string, arguments: seq<string>)

  /** Trimming the leading `{`s of a match leaves at least its closing `}`,
      with no other `}` before it. */
  lemma {:induction false} TrimmedMatch(find: string)
    requires IsMatch(find)
    ensures var t := TrimStartMatches(find, '{');
            && 1 <= |find| - |t|
            && find == Repeat('{', |find| - |t|) + t
            && |t| >= 1 && t[|t| - 1] == '}'
            && '}' !in t[..|t| - 1]
  {
    var t := TrimStartMatches(find, '{');
    var m := |find| - |t|;
    assert find[|find| - 1] == t[|t| - 1];
    forall i | 0 <= i < |t| - 1 ensures t[i] != '}' {
      assert find[..|find| - 1][m + i] == t[i];
    }
  }

  /** Trimming a single closing `c` with no other `c` before it. */
  lemma {:induction false} TrimClosing(t: string, c: char)
    requires |t| >= 1 && t[|t| - 1] == c && c !in t[..|t| - 1]
    ensures TrimEndMatches(t, c) == t[..|t| - 1]
  {
    var u := t[..|t| - 1];
    assert t == u + [c];
    if u != [] {
      assert u[|u| - 1] in u;
    }
    TrimEndOnce(u, c);
  }

  /** A run of `{`s, then a name, then the closing `}`. */
  lemma {:induction false} Reassemble(find: string, t: string)
    requires |t| < |find| && find == Repeat('{', |find| - |t|) + t
    requires |t| >= 1 && t[|t| - 1] == '}' && '}' !in t[..|t| - 1]
    requires t[0] != '{'
    ensures var name := t[..|t| - 1];
            && |name| + 2 <= |find|
            && find == Repeat('{', |find| - |name| - 1) + name + "}"
            && '}' !in name
            && (name == [] || name[0] != '{')
  {
    var name := t[..|t| - 1];
    assert t == name + "}";
    if name != [] {
      assert t[0] == name[0];
    }
  }

  /** The text between the leading `{`s and the closing `}` of a match. */
  lemma {:induction false} TrimmedName(find: string)
    requires IsMatch(find)
    ensures var t := TrimStartMatches(find, '{');
            var name := TrimEndMatches(t, '}');
            && |name| + 2 <= |find|
            && find == Repeat('{', |find| - |name| - 1) + name + "}"
            && '}' !in name
            && (name == [] || name[0] != '{')
  {
    TrimmedMatch(find);
    var t := TrimStartMatches(find, '{');
    TrimClosing(t, '}');
    Reassemble(find, t);
  }

  /** A find with all leading `{` and the trailing `}` trimmed. */
  function ArgumentName(find: string): (name: string)
    requires IsMatch(find)
    ensures |name| + 2 <= |find|
    ensures find == Repeat('{', |find| - |name| - 1) + name + "}"
    ensures '}' !in name
    ensures name == [] || name[0] != '{'
  {
    TrimmedName(find);
    TrimEndMatches(TrimStartMatches(find, '{'), '}')
  }

  /** A placeholder written `{name}` with a name free of braces. */
  predicate IsSimpleFind(f: string)
  {
    IsMatch(f) && '{' !in f[1..]
  }

  /** A run of `{`s before `name` is a single `{` when no `{` follows the first character. */
  lemma {:induction false} SingleOpening(f: string, name: string)
    requires |name| + 2 <= |f| && f == Repeat('{', |f| - |name| - 1) + name + "}"
    requires '{' !in f[1..]
    ensures f == "{" + name + "}" && '{' !in name
  {
    var m := |f| - |name| - 1;
    var tail := f[1..];
    assert f == Repeat('{', m) + (name + "}");
    RepeatPrefix('{', m, name + "}", f);
    assert tail[0] == f[1] && tail[0] in tail;
    assert m == 1;
    assert tail == name + "}";
    assert forall x :: x in name ==> x in tail;
  }

  /** For a simple placeholder the argument is exactly the text between the braces. */
  lemma {:induction false} SimpleArgumentName(f: string)
    requires IsSimpleFind(f)
    ensures f == "{" + ArgumentName(f) + "}"
    ensures '{' !in ArgumentName(f) && '}' !in ArgumentName(f)
  {
    SingleOpening(f, ArgumentName(f));
  }

  /** The argument names of a sequence of finds. */
  function Names(finds: seq<string>): (names: seq<string>)
    requires forall i :: 0 <= i < |finds| ==> IsMatch(finds[i])
    ensures |names| == |finds|
    ensures forall i :: 0 <= i < |finds| ==> names[i] == ArgumentName(finds[i])
  {
    seq(|finds|, i requires 0 <= i < |finds| => ArgumentName(finds[i]))
  }

  /** The key that `Key::new` builds from the attribute's token text. */
  function KeyOf(raw: string): (k: Key)
    ensures '"' !in k.value
    ensures '"' !in raw ==> k.value == raw
    ensures forall i :: 0 <= i < |k.arguments| ==> '}' !in k.arguments[i]
  {
    var value := RemoveChar(raw, '"');
    Key(value, Names(Scan(value).finds))
  }

  /** Names pushed one per find, in order, are `Names` of the finds. */
  lemma {:induction false} PushedNames(finds: seq<string>, arguments: seq<string>)
    requires forall i :: 0 <= i < |finds| ==> IsMatch(finds[i])
    requires |arguments| == |finds|
    requires forall k :: 0 <= k < |finds| ==> arguments[k] == ArgumentName(finds[k])
    ensures arguments == Names(finds)
  {
    var names := Names(finds);
    assert forall k :: 0 <= k < |finds| ==> arguments[k] == names[k];
  }

  /** `Key::new`: strip every `"`, then push one argument per regex match. */
  method NewKey(raw: string) returns (key: Key)
    ensures key == KeyOf(raw)
    ensures '"' !in key.value
  {
    var value := RemoveChar(raw, '"');
    var l := Scan(value);
    var finds := l.finds;
    assert forall i :: 0 <= i < |finds| ==> IsMatch(finds[i]);
    var arguments: seq<string> := [];
    for i := 0 to |finds|
      invariant |arguments| == i
      invariant forall k :: 0 <= k < i ==> arguments[k] == ArgumentName(finds[k])
    {
      arguments := arguments + [ArgumentName(finds[i])];
    }
    PushedNames(finds, arguments);
    key := Key(value, arguments);
  }

  /** The scan finds nothing exactly when no `{` has a `}` after it. */
  lemma {:induction false} ScanFindsNone(s: string)
    ensures Scan(s).finds == [] <==> NoClosedBrace(s)
  {
    if NoClosedBrace(s) {
      assert WellLaid([s], []);
      ScanUnique([s], []);
    }
  }

  /** `Key::is_static_key`: no arguments. For a key as `Key::new` builds it,
      that is exactly when its text has no `{` followed later by a `}`; in
      particular an unclosed `{` gives no argument and no error. */
  function IsStaticKey(key: Key): (b: bool)
    ensures key == KeyOf(key.value) ==> (b <==> NoClosedBrace(key.value))
  {
    ScanFindsNone(key.value);
    |key.arguments| == 0
  }

  /** `{` + name + `}` for every name. */
  function Braced(names: seq<string>): (r: seq<string>)
    ensures |r| == |names|
    ensures forall i :: 0 <= i < |names| ==> r[i] == "{" + names[i] + "}"
  {
    seq(|names|, i requires 0 <= i < |names| => "{" + names[i] + "}")
  }

  /** When every placeholder is written `{name}`, the stored value is the text
      between placeholders with the recorded arguments put back in braces:
      nothing of the pattern is lost and each occurrence gives one argument. */
  lemma {:induction false} KeyLayout(raw: string)
    requires forall i :: 0 <= i < |Scan(KeyOf(raw).value).finds|
                 ==> IsSimpleFind(Scan(KeyOf(raw).value).finds[i])
    ensures var key := KeyOf(raw);
            var l := Scan(key.value);
            && '"' !in key.value
            && |key.arguments| == |l.finds|
            && key.value == Weave(l.gaps, Braced(key.arguments))
            && forall i :: 0 <= i < |key.arguments| ==> '{' !in key.arguments[i] && '}' !in key.arguments[i]
  {
    var key := KeyOf(raw);
    var l := Scan(key.value);
    forall i | 0 <= i < |l.finds| ensures l.finds[i] == Braced(key.arguments)[i] {
      SimpleArgumentName(l.finds[i]);
    }
    assert l.finds == Braced(key.arguments);
    forall i | 0 <= i < |key.arguments|
      ensures '{' !in key.arguments[i] && '}' !in key.arguments[i]
    {
      SimpleArgumentName(l.finds[i]);
    }
  }

  // ---------------------------------------------------------------------------
  // Fields and the struct's record

  /** `FieldInfo`: one named field of the struct. */
  datatype FieldInfo = FieldInfo(name: string)

  /** `FieldInfo::from(&Field)`: the identifier's text with every `"` removed. */
  function FieldInfoOf(ident: string): (f: FieldInfo)
    ensures '"' !in f.name
    ensures '"' !in ident ==> f.name == ident
  {
    FieldInfo(RemoveChar(ident, '"'))
  }

  /** `fields.iter().any(|x| &x.name == field_name)`. */
  function AnyNamed(fields: seq<FieldInfo>, name: string): (b: bool)
    ensures b <==> FieldInfo(name) in fields
  {
    if fields == [] then false
    else fields[0].name == name || AnyNamed(fields[1..], name)
  }

  /** The first key argument, in key order, that names no declared field. */
  function FirstUnknown(arguments: seq<string>, fields: seq<FieldInfo>): (r: Option<string>)
    ensures r.None? <==> forall i :: 0 <= i < |arguments| ==> FieldInfo(arguments[i]) in fields
    ensures r.Some? ==> exists i :: 0 <= i < |arguments| && arguments[i] == r.value
                          && (forall j :: 0 <= j < i ==> FieldInfo(arguments[j]) in fields)
    ensures r.Some? ==> FieldInfo(r.value) !in fields
  {
    if arguments == [] then None
    else if !AnyNamed(fields, arguments[0]) then Some(arguments[0])
    else
      var r := FirstUnknown(arguments[1..], fields);
      assert r.Some? ==> exists i :: 0 <= i < |arguments[1..]| && arguments[1..][i] == r.value
                          && (forall j :: 0 <= j < i ==> FieldInfo(arguments[1..][j]) in fields);
      assert r.Some? ==> exists i :: 0 <= i < |arguments| && arguments[i] == r.value
                          && (forall j :: 0 <= j < i ==> FieldInfo(arguments[j]) in fields) by {
        if r.Some? {
          var i :| 0 <= i < |arguments[1..]| && arguments[1..][i] == r.value
                   && (forall j :: 0 <= j < i ==> FieldInfo(arguments[1..][j]) in fields);
          assert arguments[i + 1] == r.value;
          assert forall j :: 0 <= j < i + 1 ==> FieldInfo(arguments[j]) in fields by {
            forall j | 0 <= j < i + 1 ensures FieldInfo(arguments[j]) in fields {
              if j > 0 { assert arguments[j] == arguments[1..][j - 1]; }
            }
          }
        }
      }
      r
  }

  /** The panic message of `perform_checks` for an undeclared argument. */
  function UnknownFieldMessage(argument: string): string
  {
    "Field " + argument + " provided in the key does not exists."
  }

  /** What `perform_checks` does for a given key and field list. */
  function Checked(key: Option<Key>, fields: seq<FieldInfo>): (c: Completion<()>)
    ensures c.Returned? <==> key.None? || forall a :: a in key.value.arguments ==> FieldInfo(a) in fields
    ensures key.None? ==> c == Returned(())
  {
    match key
    case None => Returned(())
    case Some(k) =>
      match FirstUnknown(k.arguments, fields)
      case None => Returned(())
      case Some(a) => Panicked(UnknownFieldMessage(a))
  }

  /** `StructInfo`: what the derive macro knows about one struct. */
  class StructInfo {
    var structName: string
    var bucket: Option<string>
    var key: Option<Key>
    var contentType: Option<string>
    var fields: seq<FieldInfo>

    /** `StructInfo::new`: no bucket, key or content type yet, and no fields. */
    constructor (structName: string)
      ensures this.structName == structName
      ensures bucket == None && key == None && contentType == None && fields == []
    {
      this.structName := structName;
      bucket := None;
      key := None;
      contentType := None;
      fields := [];
    }

    /** `StructInfo::field_exists`. */
    function FieldExists(fieldName: string): (b: bool)
      reads this
      ensures b <==> FieldInfo(fieldName) in fields
    {
      AnyNamed(fields, fieldName)
    }

    /** `StructInfo::perform_checks`: nothing without a key; otherwise a panic
        naming the first argument that is not a declared field. */
    method PerformChecks() returns (c: Completion<()>)
      ensures c == Checked(key, fields)
      ensures c.Returned? <==> key.None? || forall a :: a in key.value.arguments ==> FieldInfo(a) in fields
    {
      if key.None? {
        return Returned(());
      }
      var arguments := key.value.arguments;
      for i := 0 to |arguments|
        invariant FirstUnknown(arguments, fields) == FirstUnknown(arguments[i..], fields)
      {
        if !FieldExists(arguments[i]) {
          return Panicked(UnknownFieldMessage(arguments[i]));
        }
        assert arguments[i..][1..] == arguments[i + 1..];
      }
      return Returned(());
    }

    /** `StructInfo::set_content_type`: the value with every `"` removed. */
    method SetContentType(contentType: string)
      modifies this`contentType
      ensures this.contentType == Some(RemoveChar(contentType, '"'))
      ensures '"' !in this.contentType.value
    {
      this.contentType := Some(RemoveChar(contentType, '"'));
    }

    /** `StructInfo::set_key`: any previous key is replaced. */
    method SetKey(raw: string)
      modifies this`key
      ensures key == Some(KeyOf(raw))
    {
      var k := NewKey(raw);
      key := Some(k);
    }
  }

  // ---------------------------------------------------------------------------
  // `From<DeriveInput> for StructInfo`

  /** The shape of a struct's fields, as `syn::Fields`. */
  datatype Fields = Named(idents: seq<string>) | Unnamed | Unit

  /** The kind of item the derive is applied to, as `syn::Data`. */
  datatype Data = Struct(fields: Fields) | Enum | Union

  /** One item of an `#[s3_item_prop(...)]` attribute: its identifier and, when
      `= value` follows, the value's token text. */
  datatype PropItem = PropItem(ident: string, value: Option<string>)

  /** The derive input: the struct's name, its `s3_item_prop` attributes in
      order, each given as the items written in it, and its data. */
  datatype DeriveInput = DeriveInput(ident: string, attrs: seq<seq<PropItem>>, data: Data)

  /** The items of one attribute that `parse_nested_meta` hands to the
      closure, up to and including the first item that carries a value. */
  function ReadItems(items: seq<PropItem>): seq<PropItem>
  {
    if items == [] then []
    else if items[0].value.Some? then [items[0]]
    else [items[0]] + ReadItems(items[1..])
  }

  /** The items read are the attribute's first items. */
  lemma {:induction false} ReadItemsPrefix(items: seq<PropItem>)
    ensures |ReadItems(items)| <= |items| && ReadItems(items) == items[..|ReadItems(items)|]
  {
    if items != [] && items[0].value.None? {
      var tail := items[1..];
      var rest := ReadItems(tail);
      ReadItemsPrefix(tail);
      assert items == [items[0]] + tail;
      assert [items[0]] + rest == items[..|rest| + 1];
    }
  }

  /** The closure takes an item's value with `meta.value()` but never
      consumes the value's tokens, so parsing fails right after the first item
      that carries a value; `let _ =` drops that error, and the items after it
      are never read. So the items read are a prefix of the attribute's items,
      none but the last carries a value, and reading stops early only after a
      valued item; an attribute without values is read whole. */
  lemma {:induction false} ReadItemsStops(items: seq<PropItem>)
    ensures var r := ReadItems(items);
            && |r| <= |items| && r == items[..|r|]
            && (forall k :: 0 <= k < |r| - 1 ==> r[k].value.None?)
            && (|r| < |items| ==> r != [] && r[|r| - 1].value.Some?)
            && ((forall k :: 0 <= k < |items| ==> items[k].value.None?) ==> r == items)
  {
    ReadItemsPrefix(items);
    if items != [] && items[0].value.None? {
      var tail := items[1..];
      var rest := ReadItems(tail);
      var r := [items[0]] + rest;
      ReadItemsStops(tail);
      assert forall k :: 1 <= k < |r| ==> r[k] == rest[k - 1];
      assert (forall k :: 0 <= k < |items| ==> items[k].value.None?) ==>
             (forall k :: 0 <= k < |tail| ==> tail[k].value.None?) by {
        assert forall k :: 0 <= k < |tail| ==> tail[k] == items[k + 1];
      }
    }
  }

  /** The items read from every attribute, in order. */
  function AttributeItems(attrs: seq<seq<PropItem>>): seq<PropItem>
  {
    if attrs == [] then [] else ReadItems(attrs[0]) + AttributeItems(attrs[1..])
  }

  /** The panic an item raises when its value is missing. */
  function PropPanic(p: PropItem): Option<string>
  {
    if p.value.Some? then None
    else if p.ident == "bucket" then Some("Error while getting pk key for struct.")
    else if p.ident == "key" || p.ident == "content_type" then Some("Error while getting pk key value for struct.")
    else None
  }

  /** The first panic raised while reading the items. */
  function FirstPropPanic(props: seq<PropItem>): Option<string>
  {
    if props == [] then None
    else if PropPanic(props[0]).Some? then PropPanic(props[0])
    else FirstPropPanic(props[1..])
  }

  /** The value of the last item named `ident`; a later item overrides an earlier one. */
  function LastValue(props: seq<PropItem>, ident: string): (r: Option<string>)
    ensures r.Some? ==> exists i :: 0 <= i < |props| && props[i] == PropItem(ident, r)
    ensures r.None? ==> forall i :: 0 <= i < |props| && props[i].ident == ident ==> props[i].value.None?
  {
    if props == [] then None
    else
      var last := props[|props| - 1];
      if last.ident == ident && last.value.Some? then
        assert props[|props| - 1] == PropItem(ident, last.value);
        last.value
      else
        var r := LastValue(props[..|props| - 1], ident);
        assert forall i :: 0 <= i < |props| - 1 ==> props[..|props| - 1][i] == props[i];
        r
  }

  /** Appending an item changes the last value only when it carries one for `ident`. */
  lemma {:induction false} LastValueSnoc(props: seq<PropItem>, item: PropItem, ident: string)
    ensures LastValue(props + [item], ident)
         == if item.ident == ident && item.value.Some? then item.value else LastValue(props, ident)
  {
    assert (props + [item])[..|props|] == props;
  }

  /** The key registered by the items. */
  function DeclaredKey(props: seq<PropItem>): Option<Key>
  {
    match LastValue(props, "key")
    case None => None
    case Some(v) => Some(KeyOf(v))
  }

  /** The content type registered by the items. */
  function DeclaredContentType(props: seq<PropItem>): Option<string>
  {
    match LastValue(props, "content_type")
    case None => None
    case Some(v) => Some(RemoveChar(v, '"'))
  }

  /** The fields of a struct with named fields, in declaration order. */
  function DeclaredFields(data: Data): (fields: seq<FieldInfo>)
    ensures data.Struct? && data.fields.Named? ==> |fields| == |data.fields.idents|
  {
    if data.Struct? && data.fields.Named? then
      seq(|data.fields.idents|, i requires 0 <= i < |data.fields.idents| => FieldInfoOf(data.fields.idents[i]))
    else []
  }

  /** The panic, if any, that registering `input` raises. */
  function RegistrationPanic(input: DeriveInput): (r: Option<string>)
    ensures var props := AttributeItems(input.attrs);
            r.None? <==> && input.data.Struct? && input.data.fields.Named?
                         && (forall i :: 0 <= i < |props| ==> PropPanic(props[i]).None?)
                         && (DeclaredKey(props).None? ||
                             forall a :: a in DeclaredKey(props).value.arguments ==> FieldInfo(a) in DeclaredFields(input.data))
    ensures var props := AttributeItems(input.attrs);
            FirstPropPanic(props).Some? ==> r == FirstPropPanic(props)
    ensures var props := AttributeItems(input.attrs);
            FirstPropPanic(props).None? && !input.data.Struct? ==> r == Some("Only structs are supported.")
    ensures var props := AttributeItems(input.attrs);
            FirstPropPanic(props).None? && input.data.Struct? && !input.data.fields.Named? ==>
              r == Some("Only named fields are supported.")
    ensures var props := AttributeItems(input.attrs);
            FirstPropPanic(props).None? && input.data.Struct? && input.data.fields.Named? &&
            Checked(DeclaredKey(props), DeclaredFields(input.data)).Panicked? ==>
              r == Some(Checked(DeclaredKey(props), DeclaredFields(input.data)).message)
  {
    var props := AttributeItems(input.attrs);
    FirstPropPanicNone(props);
    if FirstPropPanic(props).Some? then FirstPropPanic(props)
    else if !input.data.Struct? then Some("Only structs are supported.")
    else if !input.data.fields.Named? then Some("Only named fields are supported.")
    else match Checked(DeclaredKey(props), DeclaredFields(input.data))
      case Returned(_) => None
      case Panicked(m) => Some(m)
  }

  /** No item panics exactly when none of them has a missing required value. */
  lemma {:induction false} FirstPropPanicNone(props: seq<PropItem>)
    ensures FirstPropPanic(props).None? <==> forall i :: 0 <= i < |props| ==> PropPanic(props[i]).None?
  {
    if props != [] {
      FirstPropPanicNone(props[1..]);
      assert forall i :: 1 <= i < |props| ==> props[i] == props[1..][i - 1];
    }
  }

  /** Reading item `i` after the items before it: a value for `bucket`, `key`
      or `content_type` overrides the one recorded so far, and the first panic
      is this item's or a later one's. */
  lemma {:induction false} ReadStep(props: seq<PropItem>, i: nat)
    requires i < |props|
    ensures var item := props[i];
            && LastValue(props[..i + 1], "bucket")
               == (if item.ident == "bucket" && item.value.Some? then item.value else LastValue(props[..i], "bucket"))
            && DeclaredKey(props[..i + 1])
               == (if item.ident == "key" && item.value.Some? then Some(KeyOf(item.value.value)) else DeclaredKey(props[..i]))
            && DeclaredContentType(props[..i + 1])
               == (if item.ident == "content_type" && item.value.Some? then Some(RemoveChar(item.value.value, '"'))
                   else DeclaredContentType(props[..i]))
            && FirstPropPanic(props[i..])
               == (if PropPanic(item).Some? then PropPanic(item) else FirstPropPanic(props[i + 1..]))
  {
    var item := props[i];
    assert props[..i + 1] == props[..i] + [item];
    LastValueSnoc(props[..i], item, "bucket");
    LastValueSnoc(props[..i], item, "key");
    LastValueSnoc(props[..i], item, "content_type");
    assert props[i..][1..] == props[i + 1..];
  }

  /** The closure of `parse_nested_meta` run on `props`, the items handed
      over, in order, starting from a record with no bucket, key or content
      type: each value overrides the one before, and the first item of
      `bucket`, `key` or `content_type` without a value panics. */
  method ReadProps(info: StructInfo, props: seq<PropItem>) returns (c: Completion<()>)
    requires info.bucket == None && info.key == None && info.contentType == None
    modifies info
    ensures info.structName == old(info.structName) && info.fields == old(info.fields)
    ensures c.Panicked? <==> FirstPropPanic(props).Some?
    ensures c.Panicked? ==> c.message == FirstPropPanic(props).value
    ensures c.Returned? ==> && info.bucket == LastValue(props, "bucket")
                            && info.key == DeclaredKey(props)
                            && info.contentType == DeclaredContentType(props)
  {
    for i := 0 to |props|
      invariant FirstPropPanic(props) == FirstPropPanic(props[i..])
      invariant info.structName == old(info.structName) && info.fields == old(info.fields)
      invariant info.bucket == LastValue(props[..i], "bucket")
      invariant info.key == DeclaredKey(props[..i])
      invariant info.contentType == DeclaredContentType(props[..i])
    {
      var item := props[i];
      ReadStep(props, i);
      if item.ident == "bucket" {
        if item.value.None? {
          return Panicked("Error while getting pk key for struct.");
        }
        info.bucket := item.value;
      } else if item.ident == "key" {
        if item.value.None? {
          return Panicked("Error while getting pk key value for struct.");
        }
        info.SetKey(item.value.value);
      } else if item.ident == "content_type" {
        if item.value.None? {
          return Panicked("Error while getting pk key value for struct.");
        }
        info.SetContentType(item.value.value);
      }
    }
    assert props[..|props|] == props;
    return Returned(());
  }

  /** `StructInfo::from(DeriveInput)`: run the closure on each item that
      `parse_nested_meta` hands over, attribute after attribute, require a
      struct with named fields, append the fields in declaration order, then
      run `perform_checks`. */
  method FromDeriveInput(input: DeriveInput) returns (r: Completion<StructInfo>)
    ensures r.Panicked? <==> RegistrationPanic(input).Some?
    ensures r.Panicked? ==> r.message == RegistrationPanic(input).value
    ensures r.Returned? ==> && fresh(r.value)
                            && r.value.structName == input.ident
                            && r.value.bucket == LastValue(AttributeItems(input.attrs), "bucket")
                            && r.value.key == DeclaredKey(AttributeItems(input.attrs))
                            && r.value.contentType == DeclaredContentType(AttributeItems(input.attrs))
                            && r.value.fields == DeclaredFields(input.data)
  {
    var props := AttributeItems(input.attrs);
    var info := new StructInfo(input.ident);
    var read := ReadProps(info, props);
    if read.Panicked? {
      return Panicked(read.message);
    }
    if !input.data.Struct? {
      return Panicked("Only structs are supported.");
    }
    if !input.data.fields.Named? {
      return Panicked("Only named fields are supported.");
    }
    var idents := input.data.fields.idents;
    for i := 0 to |idents|
      invariant info.structName == input.ident
      invariant info.bucket == LastValue(props, "bucket")
      invariant info.key == DeclaredKey(props)
      invariant info.contentType == DeclaredContentType(props)
      invariant |info.fields| == i
      invariant forall k :: 0 <= k < i ==> info.fields[k] == FieldInfoOf(idents[k])
    {
      info.fields := info.fields + [FieldInfoOf(idents[i])];
    }
    assert info.fields == DeclaredFields(input.data);
    var c := info.PerformChecks();
    if c.Panicked? {
      return Panicked(c.message);
    }
    return Returned(info);
  }
}
