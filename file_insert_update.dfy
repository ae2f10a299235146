/** `example/src/file_insert_update.rs`: a stored build artefact whose key
    `my-app-builds/{target_os}/{target_arch}/{version}/{name}` carries its
    fields, and the decoder that reads them back out of the key. */
module FileInsertUpdate {
  import opened Wrappers
  import opened Text
  import opened BlobStore
  import opened Errors
  import opened StructInfo
  import opened KeyBuilder

  datatype TargetOs = Windows | Linux
  datatype TargetArch = X86_64 | ARM64

  /** Where the artefact's bytes come from. */
  datatype File = FilePath(path: string) | FileContent(bytes: Bytes)

  datatype MyAppBuild = MyAppBuild(
    targetOs: TargetOs,
    targetArch: TargetArch,
    version: string,
    name: string,
    file: File)

  /** `EnumString` for `TargetOs`: exactly a variant's name. */
  function ParseOs(s: string): (r: Option<TargetOs>)
    ensures r == Some(Windows) <==> s == "Windows"
    ensures r == Some(Linux) <==> s == "Linux"
  {
    if s == "Windows" then Some(Windows)
    else if s == "Linux" then Some(Linux)
    else None
  }

  /** `Display` for `TargetOs`: the variant's name, which parses back. */
  function OsName(os: TargetOs): (s: string)
    ensures ParseOs(s) == Some(os)
    ensures '/' !in s && '{' !in s
  {
    match os
    case Windows => "Windows"
    case Linux => "Linux"
  }

  /** `EnumString` for `TargetArch`: exactly a variant's name. */
  function ParseArch(s: string): (r: Option<TargetArch>)
    ensures r == Some(X86_64) <==> s == "X86_64"
    ensures r == Some(ARM64) <==> s == "ARM64"
  {
    if s == "X86_64" then Some(X86_64)
    else if s == "ARM64" then Some(ARM64)
    else None
  }

  /** `Display` for `TargetArch`: the variant's name, which parses back. */
  function ArchName(arch: TargetArch): (s: string)
    ensures ParseArch(s) == Some(arch)
    ensures '/' !in s && '{' !in s
  {
    match arch
    case X86_64 => "X86_64"
    case ARM64 => "ARM64"
  }

  /** Only a variant's own name parses. */
  lemma {:induction false} ParseOnlyNames(s: string)
    ensures ParseOs(s).Some? ==> s == OsName(ParseOs(s).value)
    ensures ParseArch(s).Some? ==> s == ArchName(ParseArch(s).value)
  {
  }

  /** `TryInto<Bytes>`: the file's bytes, read through `readFile` for a path
      (`None` when the read fails). */
  function TryIntoBytes(build: MyAppBuild, readFile: string -> Option<Bytes>): (r: Result<Bytes, Error>)
    ensures build.file.FileContent? ==> r == Ok(build.file.bytes)
    ensures build.file.FilePath? ==>
              (r.Ok? <==> readFile(build.file.path).Some?) &&
              (r.Ok? ==> r.value == readFile(build.file.path).value) &&
              (r.Err? ==> r.error == TryIntoByteError)
  {
    match build.file
    case FilePath(path) =>
      (match readFile(path)
       case None => Err(TryIntoByteError)
       case Some(content) => Ok(content))
    case FileContent(bytes) => Ok(bytes)
  }

  /** The one error the decoder reports. */
  const ParseError: Error := Other("Parse error.")

  /** `TryFrom<S3Object>`: split the key on `/`, skip the first segment, parse
      the next two as the target, take the next two verbatim; any missing
      segment or unknown name is a parse error. The bytes become the file. */
  function TryFromObject(obj: S3Object): (r: Result<MyAppBuild, Error>)
    ensures var parts := Split(obj.key, '/');
            r.Ok? <==> |parts| >= 5 && ParseOs(parts[1]).Some? && ParseArch(parts[2]).Some?
    ensures r.Err? ==> r.error == ParseError
    ensures r.Ok? ==> var parts := Split(obj.key, '/');
                      && OsName(r.value.targetOs) == parts[1]
                      && ArchName(r.value.targetArch) == parts[2]
                      && r.value.version == parts[3]
                      && r.value.name == parts[4]
                      && r.value.file == FileContent(obj.bytes)
  {
    var parts := Split(obj.key, '/');
    if |parts| < 2 then Err(ParseError)
    else match ParseOs(parts[1])
      case None => Err(ParseError)
      case Some(targetOs) =>
        if |parts| < 3 then Err(ParseError)
        else match ParseArch(parts[2])
          case None => Err(ParseError)
          case Some(targetArch) =>
            if |parts| < 5 then Err(ParseError)
            else Ok(MyAppBuild(targetOs, targetArch, parts[3], parts[4], FileContent(obj.bytes)))
  }

  /** The build's fields in placeholder order. */
  function KeyValues(build: MyAppBuild): seq<string>
  {
    [OsName(build.targetOs), ArchName(build.targetArch), build.version, build.name]
  }

  /** A key whose segments are a `/`-free prefix and the build's fields decodes
      back to those fields, whatever the prefix. */
  lemma {:induction false} DecodeJoinedKey(prefix: string, build: MyAppBuild, bytes: Bytes)
    requires '/' !in prefix && '/' !in build.version && '/' !in build.name
    ensures TryFromObject(S3Object(bytes, Join([prefix] + KeyValues(build), '/')))
         == Ok(build.(file := FileContent(bytes)))
  {
    var parts := [prefix] + KeyValues(build);
    assert parts == [prefix, OsName(build.targetOs), ArchName(build.targetArch), build.version, build.name];
    SplitJoin(parts, '/');
  }

  /** The text around the `n` holes of `prefix/{}/.../{}`. */
  function PathGaps(prefix: string, n: nat): (gaps: seq<string>)
    requires n >= 1
    ensures |gaps| == n + 1
  {
    [prefix + "/"] + seq(n - 1, _ => "/") + [""]
  }

  /** A brace-free prefix leaves the path template without stray holes. */
  lemma {:induction false} PathGapsHoleFree(prefix: string, n: nat)
    requires '{' !in prefix && n >= 1
    ensures HoleFreeGaps(PathGaps(prefix, n))
  {
    var gaps := PathGaps(prefix, n);
    forall i | 0 <= i < |gaps| - 1 ensures '{' !in gaps[i] {
      if i > 0 { assert gaps[i] == "/"; }
    }
  }

  /** Weaving values between a first gap, `/`s and an empty last gap joins
      them with `/`. */
  lemma {:induction false} WeaveSlashes(g0: string, values: seq<string>)
    requires |values| >= 1
    ensures Weave([g0] + seq(|values| - 1, _ => "/") + [""], values) == g0 + Join(values, '/')
    decreases |values|
  {
    var gaps := [g0] + seq(|values| - 1, _ => "/") + [""];
    if |values| == 1 {
      assert gaps[1..] == [""];
      assert Weave(gaps[1..], values[1..]) == "";
    } else {
      var rest := values[1..];
      assert gaps[1..] == ["/"] + seq(|rest| - 1, _ => "/") + [""];
      WeaveSlashes("/", rest);
      assert Join(values, '/') == values[0] + "/" + Join(rest, '/');
    }
  }

  /** Joining behind a leading piece. */
  lemma {:induction false} JoinCons(first: string, rest: seq<string>, sep: char)
    requires |rest| >= 1
    ensures Join([first] + rest, sep) == first + [sep] + Join(rest, sep)
  {
    assert ([first] + rest)[1..] == rest;
  }

  /** `prefix/{}/.../{}` filled with brace-free values is the prefix and the
      values joined by `/`. */
  lemma {:induction false} BuildPathKey(prefix: string, values: seq<string>)
    requires '{' !in prefix && |values| >= 1
    requires forall i :: 0 <= i < |values| ==> '{' !in values[i]
    ensures BuildKey(Weave(PathGaps(prefix, |values|), Holes(|values|)), values) == Join([prefix] + values, '/')
  {
    var gaps := PathGaps(prefix, |values|);
    PathGapsHoleFree(prefix, |values|);
    BuildKeyExact(gaps, values);
    WeaveSlashes(prefix + "/", values);
    JoinCons(prefix, values, '/');
  }

  /** The pattern `prefix/{a}/.../{z}` with brace-free names compiles to
      `prefix/{}/.../{}`. */
  lemma {:induction false} CompilePathPattern(prefix: string, names: seq<string>)
    requires '{' !in prefix && |names| >= 1
    requires forall i :: 0 <= i < |names| ==> '{' !in names[i] && '}' !in names[i]
    ensures CompileFold(Weave(PathGaps(prefix, |names|), Braced(names)), names)
         == Weave(PathGaps(prefix, |names|), Holes(|names|))
  {
    var gaps := PathGaps(prefix, |names|);
    PathGapsHoleFree(prefix, |names|);
    CompileSlots(gaps, names);
  }

  /** Compiling `prefix/{a}/.../{z}` and building with one brace-free value
      per name gives the prefix and the values joined by `/`. */
  lemma {:induction false} PathKey(prefix: string, names: seq<string>, values: seq<string>)
    requires '{' !in prefix && |names| >= 1 && |values| == |names|
    requires forall i :: 0 <= i < |names| ==> '{' !in names[i] && '}' !in names[i]
    requires forall i :: 0 <= i < |values| ==> '{' !in values[i]
    ensures BuildKey(CompileFold(Weave(PathGaps(prefix, |names|), Braced(names)), names), values)
         == Join([prefix] + values, '/')
  {
    CompilePathPattern(prefix, names);
    BuildPathKey(prefix, values);
  }

  /** The key values hold no `{` when the version and name hold none. */
  lemma {:induction false} KeyValuesBraceFree(build: MyAppBuild)
    requires '{' !in build.version && '{' !in build.name
    ensures |KeyValues(build)| == 4
    ensures forall i :: 0 <= i < |KeyValues(build)| ==> '{' !in KeyValues(build)[i]
  {
    var values := KeyValues(build);
    forall i | 0 <= i < |values| ensures '{' !in values[i] {
      assert values[i] in {OsName(build.targetOs), ArchName(build.targetArch), build.version, build.name};
    }
  }

  /** Round trip through the store key: the key the generated `build_key`
      makes from a build's fields, under a `/`-free prefix, decodes back to
      those fields, with the stored bytes as the file. */
  lemma {:induction false} KeyRoundTrip(prefix: string, names: seq<string>, build: MyAppBuild, bytes: Bytes)
    requires '{' !in prefix && '/' !in prefix && |names| == 4
    requires forall i :: 0 <= i < |names| ==> '{' !in names[i] && '}' !in names[i]
    requires '/' !in build.version && '/' !in build.name && '{' !in build.version && '{' !in build.name
    ensures var template := CompileFold(Weave(PathGaps(prefix, |names|), Braced(names)), names);
            TryFromObject(S3Object(bytes, BuildKey(template, KeyValues(build)))) == Ok(build.(file := FileContent(bytes)))
  {
    KeyValuesBraceFree(build);
    PathKey(prefix, names, KeyValues(build));
    DecodeJoinedKey(prefix, build, bytes);
  }

  /** Every `{name}` slot of brace-free names is a simple find naming it. */
  lemma {:induction false} BracedNames(names: seq<string>)
    requires forall i :: 0 <= i < |names| ==> '{' !in names[i] && '}' !in names[i]
    ensures forall i :: 0 <= i < |names| ==> IsSimpleFind(Braced(names)[i])
    ensures Names(Braced(names)) == names
  {
    var slots := Braced(names);
    forall i | 0 <= i < |slots| ensures IsSimpleFind(slots[i]) {
      assert slots[i][1..] == names[i] + "}";
      assert slots[i][..|slots[i]| - 1] == "{" + names[i];
    }
    var found := Names(slots);
    forall i | 0 <= i < |names| ensures found[i] == names[i] {
      SimpleArgumentName(slots[i]);
      var f := slots[i];
      assert f[1..|f| - 1] == names[i];
      assert f[1..|f| - 1] == found[i];
    }
  }

  /** Stripping `"` from a quoted `"`-free text gives the text. */
  lemma {:induction false} Unquoted(pattern: string)
    requires '"' !in pattern
    ensures RemoveChar("\"" + pattern + "\"", '"') == pattern
  {
    RemoveCharAppend("\"" + pattern, "\"", '"');
    RemoveCharAppend("\"", pattern, '"');
  }

  /** The path pattern holds no `"` when its prefix and names hold none. */
  lemma {:induction false} PathPatternUnquoted(prefix: string, names: seq<string>)
    requires '"' !in prefix && |names| >= 1
    requires forall i :: 0 <= i < |names| ==> '"' !in names[i]
    ensures '"' !in Weave(PathGaps(prefix, |names|), Braced(names))
  {
    var gaps := PathGaps(prefix, |names|);
    var slots := Braced(names);
    forall i | 0 <= i < |gaps| ensures '"' !in gaps[i] {
      if 0 < i < |gaps| - 1 { assert gaps[i] == "/"; }
    }
    forall i | 0 <= i < |slots| ensures '"' !in slots[i] {
      assert slots[i] == "{" + names[i] + "}";
    }
    WeaveFree(gaps, slots, '"');
  }

  /** The regex cuts the path pattern at its `{name}` slots. */
  lemma {:induction false} PathPatternScan(prefix: string, names: seq<string>)
    requires '{' !in prefix && |names| >= 1
    requires forall i :: 0 <= i < |names| ==> '{' !in names[i] && '}' !in names[i]
    ensures Scan(Weave(PathGaps(prefix, |names|), Braced(names))) == Layout(PathGaps(prefix, |names|), Braced(names))
  {
    var gaps := PathGaps(prefix, |names|);
    var slots := Braced(names);
    BracedNames(names);
    PathGapsHoleFree(prefix, |names|);
    assert WellLaid(gaps, slots);
    ScanUnique(gaps, slots);
  }

  /** `Key::new` on the quoted attribute text of `prefix/{a}/.../{z}` keeps the
      pattern and records exactly the names, in order. */
  lemma {:induction false} PathPatternKey(prefix: string, names: seq<string>)
    requires '{' !in prefix && '"' !in prefix && |names| >= 1
    requires forall i :: 0 <= i < |names| ==> '{' !in names[i] && '}' !in names[i] && '"' !in names[i]
    ensures var pattern := Weave(PathGaps(prefix, |names|), Braced(names));
            KeyOf("\"" + pattern + "\"") == Key(pattern, names)
  {
    var pattern := Weave(PathGaps(prefix, |names|), Braced(names));
    PathPatternUnquoted(prefix, names);
    Unquoted(pattern);
    PathPatternScan(prefix, names);
    BracedNames(names);
  }

  /** The round trip through the attribute as the macro reads it: `Key::new`
      records the names of `prefix/{a}/.../{z}`, the key builder compiles the
      pattern with them, and the key built from a build's fields decodes back
      to the build. */
  lemma {:induction false} AttributeKeyRoundTrip(prefix: string, names: seq<string>, build: MyAppBuild, bytes: Bytes)
    requires '{' !in prefix && '/' !in prefix && '"' !in prefix && |names| == 4
    requires forall i :: 0 <= i < |names| ==> '{' !in names[i] && '}' !in names[i] && '"' !in names[i]
    requires '/' !in build.version && '/' !in build.name && '{' !in build.version && '{' !in build.name
    ensures var key := KeyOf("\"" + Weave(PathGaps(prefix, 4), Braced(names)) + "\"");
            && key.arguments == names
            && TryFromObject(S3Object(bytes, BuildKey(CompileFold(key.value, key.arguments), KeyValues(build))))
               == Ok(build.(file := FileContent(bytes)))
  {
    PathPatternKey(prefix, names);
    KeyRoundTrip(prefix, names, build, bytes);
  }

  /** Encoding an artefact held in memory and decoding it from its key gives
      the same artefact back. */
  lemma {:induction false} StoredBuildRoundTrip(prefix: string, names: seq<string>, build: MyAppBuild, readFile: string -> Option<Bytes>)
    requires '{' !in prefix && '/' !in prefix && |names| == 4
    requires forall i :: 0 <= i < |names| ==> '{' !in names[i] && '}' !in names[i]
    requires '/' !in build.version && '/' !in build.name && '{' !in build.version && '{' !in build.name
    requires build.file.FileContent?
    ensures TryIntoBytes(build, readFile).Ok?
    ensures var template := CompileFold(Weave(PathGaps(prefix, |names|), Braced(names)), names);
            TryFromObject(S3Object(TryIntoBytes(build, readFile).value, BuildKey(template, KeyValues(build)))) == Ok(build)
  {
    KeyRoundTrip(prefix, names, build, build.file.bytes);
  }

  /** The path pattern with four names, written out. */
  lemma {:induction false} PathPatternText(prefix: string, a: string, b: string, c: string, d: string)
    ensures Weave(PathGaps(prefix, 4), Braced([a, b, c, d]))
         == prefix + "/" + ("{" + a + "}") + "/" + ("{" + b + "}") + "/" + ("{" + c + "}") + "/" + ("{" + d + "}")
  {
    var gaps := PathGaps(prefix, 4);
    var slots := Braced([a, b, c, d]);
    assert gaps == [prefix + "/", "/", "/", "/", ""];
    assert Weave(gaps[4..], slots[4..]) == "";
    assert Weave(gaps[3..], slots[3..]) == "/" + slots[3];
    assert Weave(gaps[2..], slots[2..]) == "/" + slots[2] + ("/" + slots[3]);
    assert Weave(gaps[1..], slots[1..]) == "/" + slots[1] + ("/" + slots[2] + ("/" + slots[3]));
  }

  /** The example's own attribute, `my-app-builds/{target_os}/{target_arch}/{version}/{name}`,
      is the path pattern with four placeholders and meets the conditions of
      `KeyRoundTrip` and `AttributeKeyRoundTrip`: any build whose version and name hold no `/` or `{` is
      recovered from its key. */
  lemma {:induction false} MyAppBuildPattern(prefix: string, names: seq<string>)
    requires prefix == "my-app-builds" && names == ["target_os", "target_arch", "version", "name"]
    ensures Weave(PathGaps(prefix, 4), Braced(names))
         == prefix + "/" + ("{" + names[0] + "}") + "/" + ("{" + names[1] + "}") + "/" + ("{" + names[2] + "}") + "/" + ("{" + names[3] + "}")
    ensures '{' !in prefix && '/' !in prefix && '"' !in prefix && |names| == 4
    ensures forall i :: 0 <= i < |names| ==> '{' !in names[i] && '}' !in names[i] && '"' !in names[i]
  {
    assert names == [names[0], names[1], names[2], names[3]];
    PathPatternText(prefix, names[0], names[1], names[2], names[3]);
  }
}
