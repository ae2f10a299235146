/** `s3-bucket-derive/src/generators/key_builder.rs`: compiling a key pattern
    into a `{}` template, and the `build_key` that the generated impl runs. */
module KeyBuilder {
  import opened Wrappers
  import opened Text
  import opened StructInfo

  /** The pattern after replacing, for each argument in turn, every
      `{argument}` with `{}`. */
  function CompileFold(keyString: string, arguments: seq<string>): (r: string)
    ensures '{' !in keyString ==> r == keyString
    ensures |r| <= |keyString|
    decreases |arguments|
  {
    if arguments == [] then keyString
    else
      var pat := "{" + arguments[0] + "}";
      ReplaceAllAbsent(keyString, pat, "{}");
      CompileFold(ReplaceAll(keyString, pat, "{}"), arguments[1..])
  }

  /** `generate_key_buidler`: no `KeyBuilder` impl without a key or for a
      static key; otherwise the template that the generated `build_key`
      starts from. */
  method GenerateKeyBuilder(info: StructInfo) returns (template: Option<string>)
    ensures template.None? <==> info.key.None? || IsStaticKey(info.key.value)
    ensures template.Some? ==> template.value == CompileFold(info.key.value.value, info.key.value.arguments)
  {
    if info.key.None? {
      return None;
    }
    var key := info.key.value;
    if IsStaticKey(key) {
      return None;
    }
    var keyString := key.value;
    for i := 0 to |key.arguments|
      invariant CompileFold(keyString, key.arguments[i..]) == CompileFold(key.value, key.arguments)
    {
      assert key.arguments[i..][1..] == key.arguments[i + 1..];
      keyString := ReplaceAll(keyString, "{" + key.arguments[i] + "}", "{}");
    }
    assert key.arguments[|key.arguments|..] == [];
    return Some(keyString);
  }

  /** The generated `build_key`: a fold in which each argument, in list order,
      replaces the first `{}` still present. There is no arity check; with no
      `{}` left the template comes back unchanged, which is what happens to
      arguments beyond the last hole. */
  function BuildKey(template: string, arguments: seq<string>): (r: string)
    ensures (forall j :: !OccursAt(template, "{}", j)) ==> r == template
    decreases |arguments|
  {
    if arguments == [] then template
    else BuildKey(ReplaceFirst(template, "{}", arguments[0]), arguments[1..])
  }

  // ---------------------------------------------------------------------------
  // Where the holes are

  /** Text around the holes of a template: `{` appears in no piece before the
      last, and the last holds no `{` followed by a `}`. */
  predicate HoleFreeGaps(gaps: seq<string>)
  {
    && |gaps| >= 1
    && (forall i :: 0 <= i < |gaps| - 1 ==> '{' !in gaps[i])
    && NoClosedBrace(gaps[|gaps| - 1])
  }

  /** Text with no `{` followed by a `}` contains no `{}`. */
  lemma {:induction false} NoHoleInTail(g: string)
    requires NoClosedBrace(g)
    ensures forall j :: !OccursAt(g, "{}", j)
  {
    forall j ensures !OccursAt(g, "{}", j) {
      if 0 <= j && j + 2 <= |g| {
        assert g[j..j + 2] == [g[j], g[j + 1]];
      }
    }
  }

  /** A prefix without `{` adds no `{}`. */
  lemma {:induction false} NoHoleAfterPrefix(a: string, b: string)
    requires '{' !in a
    requires forall j :: !OccursAt(b, "{}", j)
    ensures forall j :: !OccursAt(a + b, "{}", j)
  {
    forall j ensures !OccursAt(a + b, "{}", j) {
      if 0 <= j && j + 2 <= |a + b| {
        assert (a + b)[j..j + 2] == [(a + b)[j], (a + b)[j + 1]];
        if j < |a| {
          assert (a + b)[j] == a[j];
        } else {
          assert (a + b)[j..j + 2] == b[j - |a|..j - |a| + 2];
          assert !OccursAt(b, "{}", j - |a|);
        }
      }
    }
  }

  /** Filling every hole with brace-free text leaves no `{}`. */
  lemma {:induction false} NoHoleWhenFilled(gaps: seq<string>, items: seq<string>)
    requires |gaps| == |items| + 1 && HoleFreeGaps(gaps)
    requires forall i :: 0 <= i < |items| ==> '{' !in items[i]
    ensures forall j :: !OccursAt(Weave(gaps, items), "{}", j)
  {
    if items == [] {
      NoHoleInTail(gaps[0]);
    } else {
      assert HoleFreeGaps(gaps[1..]) by {
        assert forall i :: 0 <= i < |gaps[1..]| - 1 ==> gaps[1..][i] == gaps[i + 1];
      }
      NoHoleWhenFilled(gaps[1..], items[1..]);
      NoHoleAfterPrefix(gaps[0] + items[0], Weave(gaps[1..], items[1..]));
    }
  }

  /** With no `{` before it, the first `{}` is the one right after the prefix. */
  lemma {:induction false} FirstHoleAfter(p: string, q: string, x: string)
    requires '{' !in p
    ensures ReplaceFirst(p + "{}" + q, "{}", x) == p + x + q
  {
    var s := p + "{}" + q;
    assert s[|p|..|p| + 2] == "{}";
    assert OccursAt(s, "{}", |p|);
    forall j | 0 <= j < |p| ensures !OccursAt(s, "{}", j) {
      assert s[j] == p[j];
      if j + 2 <= |s| { assert s[j..j + 2][0] == s[j]; }
    }
    assert Find(s, "{}") == Some(|p|);
    assert s[..|p|] == p;
    assert s[|p| + 2..] == q;
  }

  /** The first `n` of `arguments`, padded with holes when there are fewer. */
  function Fill(arguments: seq<string>, n: nat): (r: seq<string>)
    ensures |r| == n
  {
    if |arguments| >= n then arguments[..n] else arguments + Holes(n - |arguments|)
  }

  /** The first remaining hole, after `done` filled ones, takes the next argument. */
  lemma {:induction false} FillNextHole(gaps: seq<string>, done: seq<string>, a: string)
    requires HoleFreeGaps(gaps) && |done| < |gaps| - 1
    requires forall i :: 0 <= i < |done| ==> '{' !in done[i]
    ensures var k := |gaps| - 1 - |done|;
            ReplaceFirst(Weave(gaps, done + Holes(k)), "{}", a) == Weave(gaps, (done + [a]) + Holes(k - 1))
  {
    var k := |gaps| - 1 - |done|;
    var rest := Holes(k - 1);
    assert done + Holes(k) == done + ["{}"] + rest;
    assert (done + [a]) + rest == done + [a] + rest;
    WeaveSplit(gaps, done, "{}", rest);
    WeaveSplit(gaps, done, a, rest);
    WeaveFree(gaps[..|done| + 1], done, '{');
    FirstHoleAfter(Weave(gaps[..|done| + 1], done), Weave(gaps[|done| + 1..], rest), a);
  }

  /** One step of `build_key` after `done` holes are filled. */
  lemma {:induction false} BuildKeyFillFrom(gaps: seq<string>, done: seq<string>, arguments: seq<string>)
    requires HoleFreeGaps(gaps) && |done| <= |gaps| - 1
    requires forall i :: 0 <= i < |done| ==> '{' !in done[i]
    requires forall i :: 0 <= i < |arguments| ==> '{' !in arguments[i]
    ensures BuildKey(Weave(gaps, done + Holes(|gaps| - 1 - |done|)), arguments)
         == Weave(gaps, Fill(done + arguments, |gaps| - 1))
    decreases |arguments|
  {
    var n := |gaps| - 1;
    if arguments == [] {
      assert done + arguments == done;
    } else if |done| == n {
      assert done + Holes(0) == done;
      NoHoleWhenFilled(gaps, done);
      assert (done + arguments)[..n] == done;
    } else {
      var a := arguments[0];
      FillNextHole(gaps, done, a);
      BuildKeyFillFrom(gaps, done + [a], arguments[1..]);
      assert (done + [a]) + arguments[1..] == done + arguments;
    }
  }

  /** `Fill` keeps exactly `n` arguments, padding with holes. */
  lemma {:induction false} FillCases(arguments: seq<string>, n: nat)
    ensures |arguments| == n ==> Fill(arguments, n) == arguments
    ensures |arguments| < n ==> Fill(arguments, n) == arguments + Holes(n - |arguments|)
    ensures |arguments| > n ==> Fill(arguments, n) == arguments[..n] == Fill(arguments[..n], n)
  {
    if |arguments| >= n {
      assert arguments[..n][..n] == arguments[..n];
    }
  }

  /** `build_key` from the first hole on. */
  lemma {:induction false} BuildKeyFillAll(gaps: seq<string>, arguments: seq<string>)
    requires HoleFreeGaps(gaps)
    requires forall i :: 0 <= i < |arguments| ==> '{' !in arguments[i]
    ensures BuildKey(Weave(gaps, Holes(|gaps| - 1)), arguments) == Weave(gaps, Fill(arguments, |gaps| - 1))
  {
    BuildKeyFillFrom(gaps, [], arguments);
    assert [] + Holes(|gaps| - 1) == Holes(|gaps| - 1);
    assert [] + arguments == arguments;
  }

  /** `build_key` on a template with `n` holes puts the i-th argument in the
      i-th hole: with exactly `n` arguments every hole is filled, with fewer
      the trailing holes stay as `{}`, and arguments beyond `n` are ignored
      (arguments must not contain `{`). */
  lemma {:induction false} BuildKeyFill(gaps: seq<string>, arguments: seq<string>)
    requires HoleFreeGaps(gaps)
    requires forall i :: 0 <= i < |arguments| ==> '{' !in arguments[i]
    ensures var n := |gaps| - 1;
            var t := Weave(gaps, Holes(n));
            && BuildKey(t, arguments) == Weave(gaps, Fill(arguments, n))
            && (|arguments| == n ==> BuildKey(t, arguments) == Weave(gaps, arguments))
            && (|arguments| < n ==> BuildKey(t, arguments) == Weave(gaps, arguments + Holes(n - |arguments|)))
            && (|arguments| > n ==> BuildKey(t, arguments) == BuildKey(t, arguments[..n]))
            && BuildKey(t, []) == t
  {
    var n := |gaps| - 1;
    BuildKeyFillAll(gaps, arguments);
    FillCases(arguments, n);
    if |arguments| > n {
      BuildKeyFillAll(gaps, arguments[..n]);
    }
  }

  /** With exactly one argument per hole, `build_key` fills every hole in order. */
  lemma {:induction false} BuildKeyExact(gaps: seq<string>, arguments: seq<string>)
    requires HoleFreeGaps(gaps) && |arguments| == |gaps| - 1
    requires forall i :: 0 <= i < |arguments| ==> '{' !in arguments[i]
    ensures BuildKey(Weave(gaps, Holes(|arguments|)), arguments) == Weave(gaps, arguments)
  {
    BuildKeyFillFrom(gaps, [], arguments);
    assert [] + Holes(|arguments|) == Holes(|arguments|);
    assert [] + arguments == arguments;
    assert arguments[..|arguments|] == arguments;
  }

  // ---------------------------------------------------------------------------
  // What compilation produces

  /** A placeholder `{x}` with `x` free of braces. */
  predicate IsSlot(f: string)
  {
    |f| >= 2 && f[0] == '{' && f[|f| - 1] == '}' && '{' !in f[1..|f| - 1] && '}' !in f[1..|f| - 1]
  }

  /** A pattern of brace-free placeholders between `WellLaid` gaps. */
  predicate SlotLayout(gaps: seq<string>, slots: seq<string>)
  {
    && |gaps| == |slots| + 1
    && HoleFreeGaps(gaps)
    && forall i :: 0 <= i < |slots| ==> IsSlot(slots[i])
  }

  /** `replace` of `{a}` never reaches into text with no `{` followed by `}`. */
  lemma {:induction false} ReplaceAllTail(g: string, pat: string)
    requires NoClosedBrace(g)
    requires |pat| >= 2 && pat[0] == '{' && pat[|pat| - 1] == '}'
    ensures ReplaceAll(g, pat, "{}") == g
    decreases |g|
  {
    if |g| >= |pat| {
      if g[0] == '{' {
        assert g[|pat| - 1] != '}';
        assert g[..|pat|][|pat| - 1] != pat[|pat| - 1];
      } else {
        assert g[..|pat|][0] != pat[0];
      }
      var g' := g[1..];
      assert NoClosedBrace(g') by {
        forall i, j | 0 <= i < j < |g'| && g'[i] == '{' ensures g'[j] != '}' {
          assert g[i + 1] == '{';
        }
      }
      ReplaceAllTail(g', pat);
      assert [g[0]] + g' == g;
    }
  }

  /** `{a}` does not start a text that starts with a different placeholder. */
  lemma {:induction false} SlotMismatch(f: string, rest: string, a: string)
    requires IsSlot(f) && '}' !in a && f != "{" + a + "}"
    ensures !OccursAt(f + rest, "{" + a + "}", 0)
  {
    var pat := "{" + a + "}";
    var s := f + rest;
    var x := f[1..|f| - 1];
    assert f == "{" + x + "}";
    if |s| >= |pat| {
      if |x| == |a| {
        assert s[..|pat|] == f;
      } else if |x| < |a| {
        assert s[..|pat|][|x| + 1] == f[|x| + 1] == '}';
        assert pat[|x| + 1] == a[|x|];
      } else {
        assert s[..|pat|][|a| + 1] == f[|a| + 1] == x[|a|];
        assert pat[|a| + 1] == '}';
      }
    }
  }

  /** A placeholder that the pattern does not start at is kept whole. */
  lemma {:induction false} SlotKept(f: string, rest: string, pat: string, rep: string)
    requires pat != [] && pat[0] == '{' && f != [] && '{' !in f[1..]
    requires !OccursAt(f + rest, pat, 0)
    ensures ReplaceAll(f + rest, pat, rep) == f + ReplaceAll(rest, pat, rep)
  {
    var s := f + rest;
    var tail := f[1..];
    assert s[1..] == tail + rest;
    ReplaceAllMiss(s, pat, rep);
    ReplaceAllSkip(tail, rest, pat, rep);
    assert [f[0]] + tail == f;
  }

  /** `replace` of `{a}` on text starting with a placeholder `{x}`: the
      placeholder becomes `{}` when `x == a` and is kept otherwise. */
  lemma {:induction false} ReplaceAllSlot(f: string, rest: string, a: string)
    requires IsSlot(f) && '{' !in a && '}' !in a
    ensures ReplaceAll(f + rest, "{" + a + "}", "{}")
         == (if f == "{" + a + "}" then "{}" else f) + ReplaceAll(rest, "{" + a + "}", "{}")
  {
    var pat := "{" + a + "}";
    if f == pat {
      ReplaceAllHead(rest, pat, "{}");
    } else {
      SlotMismatch(f, rest, a);
      assert f[1..] == f[1..|f| - 1] + ['}'];
      SlotKept(f, rest, pat, "{}");
    }
  }

  /** Every placeholder equal to `{a}` becomes `{}`. */
  function ClearSlot(slots: seq<string>, a: string): (r: seq<string>)
    ensures |r| == |slots|
  {
    seq(|slots|, i requires 0 <= i < |slots| => if slots[i] == "{" + a + "}" then "{}" else slots[i])
  }

  /** `replace` of `{a}` across a brace-free gap and a placeholder. */
  lemma {:induction false} ReplaceAllGapSlot(g: string, f: string, w: string, a: string)
    requires '{' !in g && IsSlot(f) && '{' !in a && '}' !in a
    ensures ReplaceAll(g + (f + w), "{" + a + "}", "{}")
         == g + ((if f == "{" + a + "}" then "{}" else f) + ReplaceAll(w, "{" + a + "}", "{}"))
  {
    ReplaceAllSkip(g, f + w, "{" + a + "}", "{}");
    ReplaceAllSlot(f, w, a);
  }

  /** A slot layout without its first gap and placeholder is one too. */
  lemma {:induction false} SlotLayoutTail(gaps: seq<string>, slots: seq<string>)
    requires SlotLayout(gaps, slots) && slots != []
    ensures SlotLayout(gaps[1..], slots[1..]) && '{' !in gaps[0] && IsSlot(slots[0])
  {
    assert forall i :: 0 <= i < |gaps[1..]| - 1 ==> gaps[1..][i] == gaps[i + 1];
    assert forall i :: 0 <= i < |slots[1..]| ==> slots[1..][i] == slots[i + 1];
  }

  /** Clearing `{a}` slot by slot. */
  lemma {:induction false} ClearSlotTail(slots: seq<string>, a: string)
    requires slots != []
    ensures ClearSlot(slots, a)[0] == if slots[0] == "{" + a + "}" then "{}" else slots[0]
    ensures ClearSlot(slots, a)[1..] == ClearSlot(slots[1..], a)
  {
  }

  /** One `replace` of `{a}` over a slot layout. */
  lemma {:induction false} ReplaceAllLayout(gaps: seq<string>, slots: seq<string>, a: string)
    requires SlotLayout(gaps, slots) && '{' !in a && '}' !in a
    ensures ReplaceAll(Weave(gaps, slots), "{" + a + "}", "{}") == Weave(gaps, ClearSlot(slots, a))
  {
    if slots == [] {
      ReplaceAllTail(gaps[0], "{" + a + "}");
    } else {
      SlotLayoutTail(gaps, slots);
      ReplaceAllLayout(gaps[1..], slots[1..], a);
      WeaveCons(gaps, slots);
      ReplaceAllGapSlot(gaps[0], slots[0], Weave(gaps[1..], slots[1..]), a);
      ClearSlotTail(slots, a);
      WeaveCons(gaps, ClearSlot(slots, a));
    }
  }

  /** The placeholder between the braces. */
  function Inner(f: string): string
  {
    if |f| >= 2 then f[1..|f| - 1] else []
  }

  /** Every placeholder whose name is among `arguments` becomes `{}`. */
  function ClearAll(slots: seq<string>, arguments: seq<string>): (r: seq<string>)
    ensures |r| == |slots|
  {
    seq(|slots|, i requires 0 <= i < |slots| => if Inner(slots[i]) in arguments then "{}" else slots[i])
  }

  /** Clearing `{a}` keeps a slot layout. */
  lemma {:induction false} ClearSlotLayout(gaps: seq<string>, slots: seq<string>, a: string)
    requires SlotLayout(gaps, slots)
    ensures SlotLayout(gaps, ClearSlot(slots, a))
  {
    var slots' := ClearSlot(slots, a);
    forall i | 0 <= i < |slots'| ensures IsSlot(slots'[i]) {
      if slots'[i] == "{}" {
        assert slots'[i][1..|slots'[i]| - 1] == [];
      } else {
        assert slots'[i] == slots[i];
      }
    }
  }

  /** One placeholder cleared by `{a}` and then by the rest, or by all at once. */
  lemma {:induction false} ClearOne(f: string, a: string, rest: seq<string>)
    requires IsSlot(f)
    ensures var g := if f == "{" + a + "}" then "{}" else f;
            (if Inner(g) in rest then "{}" else g) == (if Inner(f) in [a] + rest then "{}" else f)
  {
    var x := Inner(f);
    assert f == "{" + x + "}";
    assert Inner("{}") == "";
    if f == "{" + a + "}" {
      assert x == a;
    } else {
      assert x != a;
    }
  }

  /** Clearing `{a}` and then the rest clears what the whole list clears. */
  lemma {:induction false} ClearAllStep(slots: seq<string>, a: string, rest: seq<string>)
    requires forall i :: 0 <= i < |slots| ==> IsSlot(slots[i])
    ensures ClearAll(ClearSlot(slots, a), rest) == ClearAll(slots, [a] + rest)
  {
    forall i | 0 <= i < |slots| ensures ClearAll(ClearSlot(slots, a), rest)[i] == ClearAll(slots, [a] + rest)[i] {
      ClearOne(slots[i], a, rest);
    }
  }

  /** Compiling over a slot layout clears exactly the slots named by some argument. */
  lemma {:induction false} CompileFoldLayout(gaps: seq<string>, slots: seq<string>, arguments: seq<string>)
    requires SlotLayout(gaps, slots)
    requires forall i :: 0 <= i < |arguments| ==> '{' !in arguments[i] && '}' !in arguments[i]
    ensures CompileFold(Weave(gaps, slots), arguments) == Weave(gaps, ClearAll(slots, arguments))
    decreases |arguments|
  {
    if arguments == [] {
      assert ClearAll(slots, arguments) == slots;
    } else {
      var a := arguments[0];
      ReplaceAllLayout(gaps, slots, a);
      ClearSlotLayout(gaps, slots, a);
      CompileFoldLayout(gaps, ClearSlot(slots, a), arguments[1..]);
      ClearAllStep(slots, a, arguments[1..]);
      assert [a] + arguments[1..] == arguments;
    }
  }

  /** Compiling `{n1}...{nk}` with the names themselves turns every
      placeholder into `{}`. */
  lemma {:induction false} CompileSlots(gaps: seq<string>, names: seq<string>)
    requires |gaps| == |names| + 1 && HoleFreeGaps(gaps)
    requires forall i :: 0 <= i < |names| ==> '{' !in names[i] && '}' !in names[i]
    ensures CompileFold(Weave(gaps, Braced(names)), names) == Weave(gaps, Holes(|names|))
  {
    var slots := Braced(names);
    forall i | 0 <= i < |slots| ensures IsSlot(slots[i]) && Inner(slots[i]) == names[i] {
      assert slots[i][1..|slots[i]| - 1] == names[i];
    }
    CompileFoldLayout(gaps, slots, names);
    assert ClearAll(slots, names) == Holes(|names|);
  }

  /** The text around placeholders found by the scan has no holes. */
  lemma {:induction false} ScanGapsHoleFree(s: string)
    ensures HoleFreeGaps(Scan(s).gaps)
  {
    var l := Scan(s);
    assert |l.gaps| - 1 == |l.finds|;
  }

  /** For a pattern whose placeholders are all written `{name}` with
      brace-free names, compilation turns each placeholder into one `{}` and
      leaves all other text as it was. */
  lemma {:induction false} CompileLayout(raw: string)
    requires forall i :: 0 <= i < |Scan(KeyOf(raw).value).finds|
                 ==> IsSimpleFind(Scan(KeyOf(raw).value).finds[i])
    ensures var key := KeyOf(raw);
            var l := Scan(key.value);
            && HoleFreeGaps(l.gaps)
            && CompileFold(key.value, key.arguments) == Weave(l.gaps, Holes(|key.arguments|))
  {
    var key := KeyOf(raw);
    KeyLayout(raw);
    ScanGapsHoleFree(key.value);
    CompileSlots(Scan(key.value).gaps, key.arguments);
  }
  /** Compile-then-build for a key of brace-free placeholders: with one
      argument per placeholder the key is the pattern with the i-th
      placeholder replaced by the i-th argument, the other text unchanged;
      with fewer arguments the remaining placeholders become `{}`. */
  lemma {:induction false} BuildCompiledKey(raw: string, arguments: seq<string>)
    requires forall i :: 0 <= i < |Scan(KeyOf(raw).value).finds|
                 ==> IsSimpleFind(Scan(KeyOf(raw).value).finds[i])
    requires forall i :: 0 <= i < |arguments| ==> '{' !in arguments[i]
    ensures var key := KeyOf(raw);
            var l := Scan(key.value);
            var n := |key.arguments|;
            && key.value == Weave(l.gaps, Braced(key.arguments))
            && BuildKey(CompileFold(key.value, key.arguments), arguments) == Weave(l.gaps, Fill(arguments, n))
            && (|arguments| == n ==>
                  BuildKey(CompileFold(key.value, key.arguments), arguments) == Weave(l.gaps, arguments))
  {
    var key := KeyOf(raw);
    var l := Scan(key.value);
    KeyLayout(raw);
    CompileLayout(raw);
    FillTemplate(l.gaps, CompileFold(key.value, key.arguments), arguments);
  }

  /** The fill step of `BuildCompiledKey`: `build_key` on a template laid out
      as gaps around holes. */
  lemma {:induction false} FillTemplate(gaps: seq<string>, template: string, arguments: seq<string>)
    requires HoleFreeGaps(gaps) && template == Weave(gaps, Holes(|gaps| - 1))
    requires forall i :: 0 <= i < |arguments| ==> '{' !in arguments[i]
    ensures BuildKey(template, arguments) == Weave(gaps, Fill(arguments, |gaps| - 1))
    ensures |arguments| == |gaps| - 1 ==> BuildKey(template, arguments) == Weave(gaps, arguments)
  {
    BuildKeyFill(gaps, arguments);
  }

  /** An attribute string literal loses its surrounding quotes. */
  lemma {:induction false} UnquoteQuoted(p: string)
    requires '"' !in p
    ensures RemoveChar("\"" + p + "\"", '"') == p
  {
    var q := "\"";
    RemoveCharAppend(q, p, '"');
    RemoveCharAppend(q + p, q, '"');
    assert RemoveChar(q, '"') == [];
  }

  // ---------------------------------------------------------------------------
  // Keys with one placeholder

  /** One `{name}` between two brace-free texts is scanned as one placeholder. */
  lemma {:induction false} OnePlaceholderScan(a: string, name: string, b: string)
    requires '{' !in a && '{' !in name && '}' !in name && '{' !in b
    ensures Scan(a + "{" + name + "}" + b) == Layout([a, b], ["{" + name + "}"])
    ensures IsSimpleFind("{" + name + "}") && ArgumentName("{" + name + "}") == name
  {
    var f := "{" + name + "}";
    var gaps := [a, b];
    var s := a + "{" + name + "}" + b;
    assert Weave(gaps, [f]) == a + f + b by {
      assert Weave(gaps[1..], []) == b;
    }
    assert s == a + f + b;
    assert f[..|f| - 1] == "{" + name;
    assert f[1..] == name + "}";
    assert WellLaid(gaps, [f]);
    ScanUnique(gaps, [f]);
    assert Scan(s) == Layout(gaps, [f]);
    SimpleArgumentName(f);
    assert ArgumentName(f) == f[1..|f| - 1] == name;
  }

  /** The key recorded for the attribute `"a{name}b"`. */
  lemma {:induction false} OnePlaceholderRecorded(a: string, name: string, b: string)
    requires '"' !in a && '"' !in name && '"' !in b
    requires '{' !in a && '{' !in name && '}' !in name && '{' !in b
    ensures KeyOf("\"" + a + "{" + name + "}" + b + "\"") == Key(a + "{" + name + "}" + b, [name])
  {
    var p := a + "{" + name + "}" + b;
    assert "\"" + a + "{" + name + "}" + b + "\"" == "\"" + p + "\"";
    UnquoteQuoted(p);
    OnePlaceholderScan(a, name, b);
  }

  /** The pattern `a{name}b` compiles to `a{}b`, and `build_key` with one
      brace-free value `v` gives `a v b`. */
  lemma {:induction false} OnePlaceholderTemplate(a: string, name: string, b: string, v: string)
    requires '{' !in a && '{' !in name && '}' !in name && '{' !in b && '{' !in v
    ensures CompileFold(a + "{" + name + "}" + b, [name]) == a + "{}" + b
    ensures BuildKey(a + "{}" + b, [v]) == a + v + b
  {
    var gaps := [a, b];
    var p := a + "{" + name + "}" + b;
    OnePlaceholderScan(a, name, b);
    ScanGapsHoleFree(p);
    assert Weave(gaps, Braced([name])) == p by {
      assert Braced([name]) == ["{" + name + "}"];
      assert Weave(gaps[1..], []) == b;
    }
    CompileSlots(gaps, [name]);
    BuildKeyExact(gaps, [v]);
    assert Holes(1) == ["{}"];
    assert Weave(gaps, ["{}"]) == a + "{}" + b && Weave(gaps, [v]) == a + v + b by {
      assert Weave(gaps[1..], []) == b;
    }
  }

  /** A key attribute `"a{name}b"` (quotes included, as the attribute text
      arrives) records the one argument `name`, compiles to `a{}b`, and
      `build_key` with a brace-free value `v` gives `a v b`: the placeholder
      replaced, everything else kept. */
  lemma {:induction false} OnePlaceholderKey(a: string, name: string, b: string, v: string)
    requires '"' !in a && '"' !in name && '"' !in b
    requires '{' !in a && '{' !in name && '}' !in name && '{' !in b && '{' !in v
    ensures var key := KeyOf("\"" + a + "{" + name + "}" + b + "\"");
            && key == Key(a + "{" + name + "}" + b, [name])
            && !IsStaticKey(key)
            && CompileFold(key.value, key.arguments) == a + "{}" + b
            && BuildKey(CompileFold(key.value, key.arguments), [v]) == a + v + b
  {
    OnePlaceholderRecorded(a, name, b);
    OnePlaceholderTemplate(a, name, b, v);
  }

  /** `#[s3_item_prop(key = "posts/{post_id}/comments.json")]`, written here as its
      pieces, records the argument `post_id`, compiles to
      `posts/{}/comments.json`, and with `post_id` equal to `123` builds
      `posts/123/comments.json`. */
  lemma {:induction false} PostCommentsExample(prefix: string, name: string, suffix: string, id: string)
    requires prefix == "posts/" && name == "post_id" && suffix == "/comments.json" && id == "123"
    ensures var key := KeyOf("\"" + prefix + "{" + name + "}" + suffix + "\"");
            && key == Key(prefix + "{" + name + "}" + suffix, [name])
            && CompileFold(key.value, key.arguments) == prefix + "{}" + suffix
            && BuildKey(CompileFold(key.value, key.arguments), [id]) == prefix + id + suffix
  {
    assert '"' !in prefix && '"' !in name && '"' !in suffix;
    assert '{' !in prefix && '{' !in name && '}' !in name && '{' !in suffix && '{' !in id;
    OnePlaceholderKey(prefix, name, suffix, id);
  }
}
