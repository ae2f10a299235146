/** `s3-bucket-derive/src/generators/has_key.rs`: the generated `get_key`.

    This generator reads a single optional `argument` from the key (an
    earlier shape of `Key`); it is modelled as written, with `KeyDecl`
    standing for that shape. */
module HasKey {
  import opened Wrappers
  import opened KeyBuilder

  /** The key as the generator reads it: the pattern and at most one argument name. */
  datatype KeyDecl = KeyDecl(value: string, argument: Option<string>)

  /** A record, as the `Display` text of each of its fields by name. */
  type Record = map<string, string>

  /** The body of the generated `get_key`: the pattern itself when the key has
      no argument, otherwise `build_key` on the one field named by the
      argument. The field exists because the generated code names it. */
  function GetKey(key: KeyDecl, self: Record): (r: string)
    requires key.argument.Some? ==> key.argument.value in self
    ensures key.argument.None? ==> r == key.value
  {
    match key.argument
    case None => key.value
    case Some(a) => BuildKey(CompileFold(key.value, [a]), [self[a]])
  }

  /** `generate_has_key_token`: no `HasKey` impl without a key; otherwise the
      key that impl computes for `self`. */
  function HasKeyImpl(key: Option<KeyDecl>, self: Record): (r: Option<string>)
    requires key.Some? && key.value.argument.Some? ==> key.value.argument.value in self
    ensures r.None? <==> key.None?
    ensures r.Some? ==> r.value == GetKey(key.value, self)
  {
    if key.None? then None else Some(GetKey(key.value, self))
  }

  /** The key depends on the record only through the field the argument names. */
  lemma {:induction false} GetKeyReadsOneField(key: KeyDecl, self: Record, other: Record)
    requires key.argument.Some? ==> key.argument.value in self && key.argument.value in other
    requires key.argument.Some? ==> self[key.argument.value] == other[key.argument.value]
    ensures GetKey(key, self) == GetKey(key, other)
  {
  }

  /** For a pattern `a{name}b` with brace-free text around the placeholder and
      a brace-free field value, `get_key` is the pattern with that value in
      place of the placeholder. */
  lemma {:induction false} GetKeyFillsPlaceholder(a: string, name: string, b: string, self: Record)
    requires '{' !in a && '{' !in name && '}' !in name && '{' !in b
    requires name in self && '{' !in self[name]
    ensures GetKey(KeyDecl(a + "{" + name + "}" + b, Some(name)), self) == a + self[name] + b
  {
    OnePlaceholderTemplate(a, name, b, self[name]);
  }
}
