# s3-bucket: key templates and typed object access, in Dafny

`s3-bucket` stores typed Rust records in S3 buckets. A derive macro reads
three attributes of a struct:

- `bucket`;
- `key`, a pattern such as `my-app-builds/{target_os}/{target_arch}/{version}/{name}`;
- `content_type`.

From the `key` pattern the macro records the placeholder names and checks
each name against the struct's fields. It then generates two things:

- a `build_key`, which folds an ordered argument list into a `{}` template;
- a `get_key`, which builds the key of a record.

At run time, `S3Context` routes each typed operation to the type's bucket.
There `S3Bucket` runs `put`, `get`, `get_maybe` and `delete` on the SDK client,
together with partial-key variants that call `build_key` first. An example
type, `MyAppBuild`, decodes its fields back out of its object key.

This project models that pipeline and proves properties of it.

| file | models |
|---|---|
| `wrappers.dfy` | `Option`, `Result`, and `Completion`: a value returned, or a panic with its message. |
| `text.dfy` | The parts of Rust's `str` API the pipeline uses: `replace`, `replacen(.., 1)`, `trim_start_matches`, `trim_end_matches`, `find`, `split` and `join`. It also defines `Weave`, which lays items between literal gaps. |
| `struct_info.dfy` | The regex `\{([^}]*)\}` and its `find_iter`, as `Scan`, shown to be the unique leftmost-first cutting of the text. Also `Key::new`, `is_static_key`, the `StructInfo` class (`new`, `field_exists`, `perform_checks`, `set_key`, `set_content_type`) and `From<DeriveInput>`. |
| `key_builder.dfy` | The `{name}` → `{}` compilation loop, and the generated `build_key` fold. Where the holes of a template are, and what filling them gives. |
| `has_key.dfy` | The generated `get_key`. |
| `blob_store.dfy` | The S3 service as buckets of keyed objects, with an injected transport outcome. |
| `errors.dfy` | `Error` and `S3Object`. |
| `s3_bucket.dfy` | `S3Bucket`: effect and result functions for each operation, methods proved against them, and read-after-write lemmas. |
| `s3_context.dfy` | `S3Context`: routing to `T::get_bucket_name()`. |
| `file_insert_update.dfy` | The example's enums, `TryInto<Bytes>`, and the key-splitting `TryFrom<S3Object>`. Also the round trip from `build_key` to the decoder. |

In the model:

- A stored type `T` is described by a `Storable<T>` value. It carries:
  - the bucket name and content type;
  - `get_key`;
  - the `build_key` template;
  - the two byte conversions (`None` when a conversion fails).
- Partial keys are `seq<string>`: the argument values already turned into text.
- The network is a `Transport` parameter. It holds the SDK fault, if any, that the request meets, and whether reading the body succeeds.
- The filesystem read in `TryInto<Bytes>` is a function parameter.

## Model

| member | source | states |
|---|---|---|
| Text.RemoveChar | s3-bucket-derive/src/struct_info/mod.rs:21 | `replace("\"", "")` leaves no `"`. It keeps every other character, and changes nothing when there is no `"`. |
| Text.RemoveCharAppend | s3-bucket-derive/src/struct_info/mod.rs:21 | Dropping a character distributes over concatenation. |
| Text.TrimStartMatches | s3-bucket-derive/src/struct_info/mod.rs:31 | The input is a run of the character followed by the result, and the result does not start with that character. |
| Text.TrimEndMatches | s3-bucket-derive/src/struct_info/mod.rs:32 | The input is the result followed by a run of the character, and the result does not end with it. |
| Text.Find | s3-bucket-derive/src/generators/key_builder.rs:26 | The first occurrence: `Some(i)` puts the pattern at `i` and nowhere before it; `None` means it occurs nowhere. |
| Text.ReplaceFirst | s3-bucket-derive/src/generators/key_builder.rs:26 | `replacen(pat, rep, 1)` replaces the first occurrence of the pattern and keeps the text around it. Without an occurrence, or with `rep` equal to `pat`, the text is unchanged. |
| Text.ReplaceAll | s3-bucket-derive/src/generators/key_builder.rs:17 | `replace(pat, rep)` with `rep` equal to `pat` is the identity. A replacement no longer than the pattern never lengthens the text, and one of equal length keeps the length. |
| Text.ReplaceAllAbsent | s3-bucket-derive/src/generators/key_builder.rs:17 | A text without the pattern's first character comes back unchanged. |
| Text.ReplaceAllSkip | s3-bucket-derive/src/generators/key_builder.rs:17 | `replace` never rewrites a prefix that lacks the pattern's first character. |
| Text.Split | example/src/file_insert_update.rs:80 | `split('/')` gives at least one piece, no piece holds `/`, and joining the pieces gives back the key. |
| Text.SplitJoin | example/src/file_insert_update.rs:80 | Splitting undoes joining pieces that hold no separator. |
| StructInfo.Scan | s3-bucket-derive/src/struct_info/mod.rs:22-24 | `find_iter` cuts the value into gaps and matches. Each match is `{`, then no `}`, then `}`. No gap before a match holds `{`, the last gap holds no `{`…`}`, and gaps and matches together rebuild the value. |
| StructInfo.ScanUnique | s3-bucket-derive/src/struct_info/mod.rs:22-24 | Any cutting with those properties is the one `Scan` returns, so matches are leftmost-first and each runs to the first `}`. |
| StructInfo.ArgumentName | s3-bucket-derive/src/struct_info/mod.rs:30-33 | The argument is the match minus its leading `{`s and its closing `}`. It holds no `}` and does not start with `{`. |
| StructInfo.SimpleArgumentName | s3-bucket-derive/src/struct_info/mod.rs:30-33 | For a placeholder `{name}` with no other `{`, the argument is exactly `name`. |
| StructInfo.NewKey | s3-bucket-derive/src/struct_info/mod.rs:20-38 | `Key::new` strips every `"` and pushes, in order, one argument per match. |
| StructInfo.KeyOf | s3-bucket-derive/src/struct_info/mod.rs:20-38 | The stored value holds no `"` and equals the input when the input held none. No argument holds `}`. |
| StructInfo.IsStaticKey | s3-bucket-derive/src/struct_info/mod.rs:20-42 | A key made by `Key::new` is static exactly when its value has no `{` followed later by `}`. So an unclosed `{` gives no argument and no error. |
| StructInfo.KeyLayout | s3-bucket-derive/src/struct_info/mod.rs:20-38 | When every placeholder is `{name}`, the value is the gaps with the arguments put back in braces: one argument per occurrence, duplicates kept, nothing else lost. |
| StructInfo.FieldInfoOf | s3-bucket-derive/src/struct_info/mod.rs:150-155 | A field's name is its identifier with every `"` removed. |
| StructInfo.AnyNamed | s3-bucket-derive/src/struct_info/mod.rs:69 | `any` over the fields is true exactly when a field has that name. |
| StructInfo.FirstUnknown | s3-bucket-derive/src/struct_info/mod.rs:61-65 | Returns none exactly when every argument is a field. Otherwise it returns the first argument, in key order, that is not a field. |
| StructInfo.Checked | s3-bucket-derive/src/struct_info/mod.rs:56-66 | The checks return exactly when there is no key or every argument names a field. |
| StructInfo.StructInfo.constructor | s3-bucket-derive/src/struct_info/mod.rs:46-54 | The struct name is set; there is no bucket, key or content type, and there are no fields. |
| StructInfo.StructInfo.FieldExists | s3-bucket-derive/src/struct_info/mod.rs:68-70 | True exactly when a declared field has the name. |
| StructInfo.StructInfo.PerformChecks | s3-bucket-derive/src/struct_info/mod.rs:56-66 | Does nothing without a key. Otherwise it panics exactly when some argument is not a field, and the message names the first such argument. |
| StructInfo.StructInfo.SetContentType | s3-bucket-derive/src/struct_info/mod.rs:72-74 | Stores the value with every `"` removed. |
| StructInfo.StructInfo.SetKey | s3-bucket-derive/src/struct_info/mod.rs:76-79 | Replaces any previous key with `Key::new` of the input. |
| StructInfo.LastValue | s3-bucket-derive/src/struct_info/mod.rs:101-129 | A value found for a name is carried by some item of that name; none is found only when no item of that name carries a value (which one wins is `LastValueSnoc`). |
| StructInfo.LastValueSnoc | s3-bucket-derive/src/struct_info/mod.rs:107-125 | A later item overrides an earlier one only when it carries a value. |
| StructInfo.FirstPropPanicNone | s3-bucket-derive/src/struct_info/mod.rs:108-122 | Reading the items panics exactly when some `bucket`, `key` or `content_type` item lacks a value. |
| StructInfo.ReadItemsStops | s3-bucket-derive/src/struct_info/mod.rs:96-130 | The items read from one attribute are its first items. None but the last carries a value, reading stops early only after a valued item, and an attribute without values is read whole. |
| StructInfo.ReadProps | s3-bucket-derive/src/struct_info/mod.rs:101-129 | Panics exactly when some item read lacks a required value, with that item's message. Otherwise `bucket`, `key` and `content_type` hold the last declared values, and name and fields are unchanged. |
| StructInfo.ReadStep | s3-bucket-derive/src/struct_info/mod.rs:106-127 | Reading one item sets `bucket`, calls `set_key` or calls `set_content_type`, or panics when the value is missing. |
| StructInfo.RegistrationPanic | s3-bucket-derive/src/struct_info/mod.rs:93-147 | Registration succeeds exactly for a struct with named fields whose items read (see `ReadItemsStops`) all carry their required values and whose key arguments are all fields. Otherwise the message is, in this order of precedence: the first item's missing-value message, "Only structs are supported.", "Only named fields are supported.", or the unknown-field message of `perform_checks`. |
| StructInfo.FromDeriveInput | s3-bucket-derive/src/struct_info/mod.rs:93-147 | Panics exactly when `RegistrationPanic` says so, with its message. Otherwise it returns a fresh record holding the last values declared by the items read and the fields in declaration order. |
| KeyBuilder.GenerateKeyBuilder | s3-bucket-derive/src/generators/key_builder.rs:5-30 | No impl without a key or for a static key. Otherwise the template is the loop's result: each `{argument}` replaced by `{}` in turn. |
| KeyBuilder.NoHoleWhenFilled | s3-bucket-derive/src/generators/key_builder.rs:24-26 | Filling every hole with `{`-free text leaves no `{}`. |
| KeyBuilder.CompileFold | s3-bucket-derive/src/generators/key_builder.rs:15-18 | A key without `{` is left unchanged by the loop, and the loop never lengthens the key. |
| KeyBuilder.BuildKey | s3-bucket-derive/src/generators/key_builder.rs:22-27 | On a template without `{}`, `build_key` returns the template whatever the arguments. |
| KeyBuilder.FirstHoleAfter | s3-bucket-derive/src/generators/key_builder.rs:26 | `replacen("{}", v, 1)` fills the first hole. |
| KeyBuilder.BuildKeyFill | s3-bucket-derive/src/generators/key_builder.rs:22-27 | The i-th argument goes into the i-th hole. With exactly n arguments every hole is filled; fewer leave trailing `{}`; extra arguments change nothing; no arguments return the template. |
| KeyBuilder.BuildKeyExact | s3-bucket-derive/src/generators/key_builder.rs:22-27 | With one `{`-free argument per hole, the key is the template's literal text with the arguments in order. |
| KeyBuilder.ReplaceAllLayout | s3-bucket-derive/src/generators/key_builder.rs:17 | One `replace` of `{a}` turns exactly the placeholders equal to `{a}` into `{}` and keeps all other text. |
| KeyBuilder.CompileFoldLayout | s3-bucket-derive/src/generators/key_builder.rs:15-18 | The loop turns into `{}` exactly the placeholders named by some argument. |
| KeyBuilder.CompileSlots | s3-bucket-derive/src/generators/key_builder.rs:15-18 | Compiling `{n1}…{nk}` with the names themselves leaves k holes and all literal text unchanged. |
| KeyBuilder.CompileLayout | s3-bucket-derive/src/generators/key_builder.rs:15-18 | For a key of `{name}` placeholders, the template has one `{}` per argument and the scan's gaps unchanged. |
| KeyBuilder.BuildCompiledKey | s3-bucket-derive/src/generators/key_builder.rs:15-27 | Compile then build puts the i-th argument in place of the i-th placeholder, with fewer arguments leaving `{}`. |
| KeyBuilder.OnePlaceholderKey | s3-bucket-derive/src/generators/key_builder.rs:15-26 | `"a{name}b"` records `[name]`, compiles to `a{}b`, and builds `a v b` from `[v]`. |
| KeyBuilder.PostCommentsExample | s3-bucket-derive/src/generators/key_builder.rs:15-26 | `posts/{post_id}/comments.json` with `["123"]` gives `posts/123/comments.json`. |
| HasKey.GetKey | s3-bucket-derive/src/generators/has_key.rs:12-21 | Without an argument, `get_key` is the key value verbatim, whatever the record. |
| HasKey.HasKeyImpl | s3-bucket-derive/src/generators/has_key.rs:5-31 | No impl exactly when there is no key. |
| HasKey.GetKeyReadsOneField | s3-bucket-derive/src/generators/has_key.rs:13-28 | The key depends on the record only through the field the argument names, so two calls agree. |
| HasKey.GetKeyFillsPlaceholder | s3-bucket-derive/src/generators/has_key.rs:13-18 | With an argument, `get_key` is `build_key` on that field: the pattern with the field's value in place of the placeholder. |
| S3Bucket.PutEffect | src/s3_context/s3_bucket.rs:22-39 | A failed encoding is `TryIntoByteError` with no store change, and a transport fault is `PutError`. On success the bytes and content type are stored under `get_key` in this bucket, and nothing else changes. |
| S3Bucket.Decoded | src/s3_context/s3_bucket.rs:64-74 | A collection failure is `ByteStreamCollectionError`; a decode failure is `TryFromByteError`. |
| S3Bucket.GetResult | src/s3_context/s3_bucket.rs:51-75 | Every `get_object` failure, a missing key included, is a `GetError`. A fetched object gives `Decoded`'s result: `Ok` exactly when the body is collected and decodes, `ByteStreamCollectionError` or `TryFromByteError` otherwise. |
| S3Bucket.GetMaybeResult | src/s3_context/s3_bucket.rs:87-125 | `Ok(None)` exactly when the service reports no such key. A panic (`todo!()`) exactly for other service errors. |
| S3Bucket.DeleteEffect | src/s3_context/s3_bucket.rs:135-144 | `Ok(())` exactly when `delete_object` succeeds, and the key is then gone. Otherwise a `DeleteError` and no change. |
| S3Bucket.GetMaybeRefinesGet | src/s3_context/s3_bucket.rs:51-125 | `get_maybe` gives `Some(x)` exactly when `get` gives `x`, and `None` exactly when `get` fails for no such key. Non-service failures agree. |
| S3Bucket.GetAfterPut | src/s3_context/s3_bucket.rs:22-75 | After a successful `put`, `get` and `get_maybe` of the item's key on a clean transport return the item. |
| S3Bucket.GetMaybeAfterDelete | src/s3_context/s3_bucket.rs:87-144 | After a successful `delete`, `get_maybe` is `Ok(None)` and `get` is a no-such-key `GetError`. |
| S3Bucket.DeleteIdempotent | src/s3_context/s3_bucket.rs:135-144 | Deleting twice succeeds and leaves the store as deleting once. |
| S3Bucket.GetWithPartialKeyAfterPut | src/s3_context/s3_bucket.rs:41-49 | For a type whose `build_key` template and `get_key` are generated from one single-placeholder attribute, the partial key made of that field's text reads back the stored item. |
| S3Bucket.S3Bucket.constructor | src/s3_context/s3_bucket.rs:15-20 | Binds the bucket name and the client. |
| S3Bucket.S3Bucket.Put | src/s3_context/s3_bucket.rs:22-39 | Result and new store are those of `PutEffect`. |
| S3Bucket.S3Bucket.Get | src/s3_context/s3_bucket.rs:51-75 | Returns `GetResult` of the current store. |
| S3Bucket.S3Bucket.GetMaybe | src/s3_context/s3_bucket.rs:87-125 | Returns `GetMaybeResult` of the current store. |
| S3Bucket.S3Bucket.Delete | src/s3_context/s3_bucket.rs:135-144 | Result and new store are those of `DeleteEffect`. |
| S3Bucket.S3Bucket.GetWithPartialKey | src/s3_context/s3_bucket.rs:41-49 | `get` of the key that `build_key` makes from the partial key. |
| S3Bucket.S3Bucket.GetMaybeWithPartialKey | src/s3_context/s3_bucket.rs:77-85 | `get_maybe` of the built key. |
| S3Bucket.S3Bucket.DeleteWithPartialKey | src/s3_context/s3_bucket.rs:127-133 | `delete` of the built key. |
| S3Context.S3Context.constructor | src/s3_context/mod.rs:21-23 | Keeps the client. |
| S3Context.S3Context.WithBucket | src/s3_context/mod.rs:25-27 | A new handle bound to exactly that name and the shared client. |
| S3Context.S3Context.Put | src/s3_context/mod.rs:29-34 | `put` in `T`'s bucket, with the result unchanged. |
| S3Context.S3Context.GetWithPartialKey | src/s3_context/mod.rs:36-43 | Partial-key `get` in `T`'s bucket. |
| S3Context.S3Context.Get | src/s3_context/mod.rs:45-50 | `get` in `T`'s bucket. |
| S3Context.S3Context.GetMaybeWithPartialKey | src/s3_context/mod.rs:52-59 | Partial-key `get_maybe` in `T`'s bucket. |
| S3Context.S3Context.GetMaybe | src/s3_context/mod.rs:61-66 | `get_maybe` in `T`'s bucket. |
| S3Context.S3Context.DeleteWithPartialKey | src/s3_context/mod.rs:68-76 | Deletes the key built by `T`'s `build_key` from `T`'s bucket. |
| S3Context.S3Context.Delete | src/s3_context/mod.rs:78-83 | Deletes the raw key from `T`'s bucket. |
| S3Context.WritesStayInTypeBucket | src/s3_context/mod.rs:29-83 | No `put` or `delete` through the context changes any bucket other than `T`'s. |
| BlobStore.Fetched | src/s3_context/s3_bucket.rs:55-62 | `get_object` succeeds exactly when there is no fault and the object exists. A missing key in an existing bucket is `NoSuchKey`. |
| BlobStore.Client.GetObject | src/s3_context/s3_bucket.rs:56-61 | `get_object` answers as `Fetched` on the current store and changes nothing. |
| BlobStore.Client.PutObject | src/s3_context/s3_bucket.rs:28-36 | `put_object` is accepted exactly when there is no fault and the bucket exists. Then the object is stored under the key; otherwise nothing changes. |
| BlobStore.Client.DeleteObject | src/s3_context/s3_bucket.rs:136-143 | `delete_object` is accepted exactly when there is no fault and the bucket exists. Then the key is removed; otherwise nothing changes. |
| BlobStore.RemovedIdempotent | src/s3_context/s3_bucket.rs:135-143 | Removing a key twice is removing it once. |
| FileInsertUpdate.ParseOs | example/src/file_insert_update.rs:37-41 | `FromStr` gives `Windows` exactly for the text `Windows`, and `Linux` exactly for `Linux`. |
| FileInsertUpdate.ParseArch | example/src/file_insert_update.rs:43-47 | `FromStr` gives `X86_64` exactly for the text `X86_64`, and `ARM64` exactly for `ARM64`. |
| FileInsertUpdate.OsName | example/src/file_insert_update.rs:37-41 | A variant's `Display` name parses back to it. |
| FileInsertUpdate.ArchName | example/src/file_insert_update.rs:43-47 | A variant's `Display` name parses back to it. |
| FileInsertUpdate.ParseOnlyNames | example/src/file_insert_update.rs:37-47 | Only a variant's exact name parses. |
| FileInsertUpdate.TryIntoBytes | example/src/file_insert_update.rs:59-73 | `FileContent(b)` encodes to `b` unchanged. A path encodes to the file's bytes, or to `TryIntoByteError` when the read fails. |
| FileInsertUpdate.TryFromObject | example/src/file_insert_update.rs:77-112 | The decoder succeeds exactly when there are at least five segments and the second and third parse. The first segment is ignored, the fourth and fifth are taken verbatim, and the file is `FileContent` of the object's bytes. Every failure is `Other("Parse error.")`. |
| FileInsertUpdate.DecodeJoinedKey | example/src/file_insert_update.rs:80-111 | A `/`-free prefix and the build's fields joined by `/` decode back to the build. |
| FileInsertUpdate.PathKey | s3-bucket-derive/src/generators/key_builder.rs:15-26 | Compiling `prefix/{a}/…/{z}` and building with one value per name joins the prefix and the values with `/`. |
| FileInsertUpdate.KeyRoundTrip | example/src/file_insert_update.rs:27-111 | The key that `build_key` makes from a build's fields, under a `/`-free prefix, decodes back to the build with the stored bytes as the file. |
| FileInsertUpdate.StoredBuildRoundTrip | example/src/file_insert_update.rs:59-111 | An in-memory build, encoded and decoded from its key, comes back unchanged. |
| FileInsertUpdate.PathPatternKey | s3-bucket-derive/src/struct_info/mod.rs:20-38 | `Key::new` on the quoted text of `prefix/{a}/…/{z}` keeps the pattern and records exactly the names `a`, …, `z`, in order. |
| FileInsertUpdate.AttributeKeyRoundTrip | example/src/file_insert_update.rs:27-111 | With the template compiled from the names `Key::new` records for the quoted attribute, the key built from a build's fields decodes back to the build. |
| FileInsertUpdate.MyAppBuildPattern | example/src/file_insert_update.rs:27 | The example's own pattern is the four-placeholder path pattern, and it meets the conditions of `KeyRoundTrip` and `AttributeKeyRoundTrip`. |

Notes on the code:

- `has_key.rs` reads one optional `key.argument`. `Key` in `struct_info/mod.rs` has a list of `arguments` instead, so `has_key.rs` belongs to an earlier shape of `Key`. `HasKey.KeyDecl` stands for that shape, and `get_key` passes the one field to `build_key`. `HasKey.GetKey` compiles the pattern with the single argument list `[a]`, the one argument `has_key.rs` reads.
- `s3_bucket.rs` passes one `&String` to `build_key`, while the generated fold takes a list. Partial keys are modelled as lists.
- The decoder builds `Error::Other`, which `src/error.rs` does not declare. The `Errors.Error` datatype includes it.
- The decoder implements `TryFrom<S3Object>`, while `get` requires `TryFrom<Bytes>`. The round-trip lemmas therefore state the decoder directly, not through `get`.
- `build_key` has no arity check and raises no error: fewer arguments leave `{}` holes, and extra ones change nothing.
- Positional filling needs more than "no argument contains `{}`". It needs "no argument contains `{`". With the template `{}}/{}` and the arguments `["a{", "b"]`, the first step yields `a{}/{}`, so `b` lands inside the first value. The lemmas state the `{`-free condition.

## Left out

- Async execution, the AWS SDK and HTTP are left out. One `Transport` value stands for what the network and the service decide on a request.
  - A put or delete either applies fully or not at all; partial writes are not modelled.
  - Service refusals are reduced to `NoSuchKey`, `NoSuchBucket` and other codes.
- Presigned URLs are not modelled: no code in this model's files issues them.
- `EmptyByteStream` is declared but produced nowhere. `ByteArrayToString` is produced only by the JSON conversion (`json_item.rs`), which is not part of this model; no modelled operation returns it.
- JSON encoding through `serde_json` (`json_item.rs`) is not part of this model. A type's conversions are the `encode`/`decode` functions of `Storable`.
- The generators `has_bucket_name.rs` and `has_content_type.rs` only emit constants. They appear as the `bucketName` and `contentType` values of `Storable`.
- Token generation (`syn`, `quote`, `AsExpr`) and the macro entry points in `lib.rs` are not part of this model.
- `StructInfo.FromDeriveInput`: the tokens of `#[s3_item_prop(...)]` are not parsed. Each attribute is already its list of items (identifier and optional value text), and reading stops after the first item with a value, as `ReadItemsStops` states. Non-`s3_item_prop` attributes and path items without an identifier are assumed filtered out; items with parenthesized content are not modelled.
- `StructInfo.ReadProps`: an item's value text is its own value. In the code, `value.to_string()` renders every token left in the attribute, so `bucket = b, key = "k"` registers the rendering of all the tokens `b, key = "k"` as the bucket.
- `S3Bucket.S3Bucket.GetMaybe`: the panic from `todo!()` is a `Panicked` value carrying Rust's default message. Unwinding is not modelled.
- `FileInsertUpdate.TryIntoBytes`: the filesystem read in the `FilePath` branch is a function parameter.
- `eprintln!` logging of decode errors is not modelled.
- `FileInsertUpdate.KeyRoundTrip`: the pattern is stated with a generic prefix and four names, compiled with those names. `FileInsertUpdate.AttributeKeyRoundTrip` compiles it with the names `Key::new` records instead. `FileInsertUpdate.MyAppBuildPattern` shows that the example's literal pattern is this pattern with its conditions met. The lemmas are not combined into one over the literal pattern.
- `HasKey.GetKey`: the field's `Display` text is given as a string map from field name to text; `Display` itself is not modelled.
- `KeyBuilder.BuildKey` and `KeyBuilder.CompileFold`: integer widths do not matter here, and strings are sequences of characters with no UTF-8 encoding.
