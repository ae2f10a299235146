/** `src/s3_context/s3_bucket.rs`: the operations of one bucket over the SDK
    client. */
module S3Bucket {
  import opened Wrappers
  import opened BlobStore
  import opened Errors
  import opened StructInfo
  import opened KeyBuilder
  import opened HasKey

  /** What the trait impls of a stored type `T` supply: `HasBucketName`,
      `HasContentType`, `HasKey::get_key`, the template behind
      `KeyBuilder::build_key`, and the `TryInto<Bytes>` / `TryFrom<Bytes>`
      conversions (`None` when the conversion fails). */
  datatype Storable<!T> = Storable(
    bucketName: string,
    contentType: string,
    getKey: T -> string,
    keyTemplate: string,
    encode: T -> Option<Bytes>,
    decode: Bytes -> Option<T>)

  /** The conversions invert each other on `item`. */
  ghost predicate RoundTrips<T>(ty: Storable<T>, item: T)
  {
    ty.encode(item).Some? && ty.decode(ty.encode(item).value) == Some(item)
  }

  /** A result and the store it leaves. */
  datatype Effect = Effect(result: Result<(), Error>, buckets: Buckets)

  /** `put`: the key comes from `get_key`, the bytes from `try_into`; the object
      is written only when both the conversion and the request succeed. */
  function PutEffect<T>(buckets: Buckets, bucketName: string, ty: Storable<T>, item: T, t: Transport): (e: Effect)
    ensures e.result.Ok? <==> ty.encode(item).Some? && Accepted(buckets, bucketName, t).Ok?
    ensures ty.encode(item).None? ==> e.result == Err(TryIntoByteError)
    ensures ty.encode(item).Some? && t.fault.Some? ==> e.result == Err(PutError(t.fault.value))
    ensures e.result.Err? ==> e.buckets == buckets
    ensures e.result.Ok? ==>
              Lookup(e.buckets, bucketName, ty.getKey(item)) == Some(StoredObject(ty.encode(item).value, ty.contentType))
    ensures forall b, k :: b != bucketName || k != ty.getKey(item) ==> Lookup(e.buckets, b, k) == Lookup(buckets, b, k)
  {
    var key := ty.getKey(item);
    match ty.encode(item)
    case None => Effect(Err(TryIntoByteError), buckets)
    case Some(bytes) =>
      match Accepted(buckets, bucketName, t)
      case Err(err) => Effect(Err(PutError(err)), buckets)
      case Ok(_) => Effect(Ok(()), Stored(buckets, bucketName, key, StoredObject(bytes, ty.contentType)))
  }

  /** Collecting and converting a fetched body, shared by `get` and `get_maybe`. */
  function Decoded<T>(obj: StoredObject, decode: Bytes -> Option<T>, t: Transport): (r: Result<T, Error>)
    ensures r.Ok? <==> t.collectOk && decode(obj.body).Some?
    ensures r.Ok? ==> decode(obj.body) == Some(r.value)
    ensures !t.collectOk ==> r == Err(ByteStreamCollectionError)
    ensures t.collectOk && decode(obj.body).None? ==> r == Err(TryFromByteError)
  {
    if !t.collectOk then Err(ByteStreamCollectionError)
    else match decode(obj.body)
      case None => Err(TryFromByteError)
      case Some(x) => Ok(x)
  }

  /** `get`: every request failure, a missing key included, is a `GetError`. */
  function GetResult<T>(buckets: Buckets, bucketName: string, key: string, decode: Bytes -> Option<T>, t: Transport): (r: Result<T, Error>)
    ensures r.Ok? ==> (Lookup(buckets, bucketName, key).Some? &&
                       decode(Lookup(buckets, bucketName, key).value.body) == Some(r.value))
    ensures Fetched(buckets, bucketName, key, t).Err? ==> r == Err(GetError(Fetched(buckets, bucketName, key, t).error))
    ensures Fetched(buckets, bucketName, key, t).Ok? ==> r == Decoded(Fetched(buckets, bucketName, key, t).value, decode, t)
  {
    match Fetched(buckets, bucketName, key, t)
    case Err(err) => Err(GetError(err))
    case Ok(obj) => Decoded(obj, decode, t)
  }

  /** `get_maybe`: a missing key is `Ok(None)`, any other service refusal
      reaches `todo!()` and panics, and other request failures are
      `GetError`s. */
  function GetMaybeResult<T>(buckets: Buckets, bucketName: string, key: string, decode: Bytes -> Option<T>, t: Transport): (r: Completion<Result<Option<T>, Error>>)
    ensures r == Returned(Ok(None)) <==> Fetched(buckets, bucketName, key, t) == Err(ServiceError(NoSuchKey))
    ensures r.Panicked? <==> (Fetched(buckets, bucketName, key, t).Err? &&
                             Fetched(buckets, bucketName, key, t).error.ServiceError? &&
                             Fetched(buckets, bucketName, key, t).error.kind != NoSuchKey)
  {
    match Fetched(buckets, bucketName, key, t)
    case Err(ServiceError(kind)) =>
      if kind == NoSuchKey then Returned(Ok(None)) else Panicked("not yet implemented")
    case Err(err) => Returned(Err(GetError(err)))
    case Ok(obj) =>
      match Decoded(obj, decode, t)
      case Err(err) => Returned(Err(err))
      case Ok(x) => Returned(Ok(Some(x)))
  }

  /** `delete`: `Ok(())` exactly when `delete_object` succeeds. */
  function DeleteEffect(buckets: Buckets, bucketName: string, key: string, t: Transport): (e: Effect)
    ensures e.result.Ok? <==> Accepted(buckets, bucketName, t).Ok?
    ensures e.result.Err? ==> e.result == Err(DeleteError(Accepted(buckets, bucketName, t).error)) && e.buckets == buckets
    ensures e.result.Ok? ==> Lookup(e.buckets, bucketName, key) == None
    ensures forall b, k :: b != bucketName || k != key ==> Lookup(e.buckets, b, k) == Lookup(buckets, b, k)
  {
    match Accepted(buckets, bucketName, t)
    case Err(err) => Effect(Err(DeleteError(err)), buckets)
    case Ok(_) => Effect(Ok(()), Removed(buckets, bucketName, key))
  }

  /** A transport that neither faults nor fails to collect. */
  predicate Clean(t: Transport)
  {
    t.fault.None? && t.collectOk
  }

  /** `get_maybe` agrees with `get` wherever `get` succeeds or fails for a
      reason other than a service refusal; a refusal for a missing key is
      `Ok(None)`. */
  lemma {:induction false} GetMaybeRefinesGet<T>(buckets: Buckets, bucketName: string, key: string, decode: Bytes -> Option<T>, t: Transport)
    ensures forall x :: GetMaybeResult(buckets, bucketName, key, decode, t) == Returned(Ok(Some(x)))
                    <==> GetResult(buckets, bucketName, key, decode, t) == Ok(x)
    ensures GetMaybeResult(buckets, bucketName, key, decode, t) == Returned(Ok(None))
        <==> GetResult(buckets, bucketName, key, decode, t) == Err(GetError(ServiceError(NoSuchKey)))
    ensures var g := GetResult(buckets, bucketName, key, decode, t);
            g.Err? && !(g.error.GetError? && g.error.source.ServiceError?) ==>
              GetMaybeResult(buckets, bucketName, key, decode, t) == Returned(Err(g.error))
  {
  }

  /** After a successful `put`, `get` of the item's key on a clean transport
      returns the item, provided its conversions round-trip. */
  lemma {:induction false} GetAfterPut<T>(buckets: Buckets, bucketName: string, ty: Storable<T>, item: T, t: Transport, t': Transport)
    requires RoundTrips(ty, item) && Clean(t')
    requires PutEffect(buckets, bucketName, ty, item, t).result.Ok?
    ensures var after := PutEffect(buckets, bucketName, ty, item, t).buckets;
            && GetResult(after, bucketName, ty.getKey(item), ty.decode, t') == Ok(item)
            && GetMaybeResult(after, bucketName, ty.getKey(item), ty.decode, t') == Returned(Ok(Some(item)))
  {
    var after := PutEffect(buckets, bucketName, ty, item, t).buckets;
    assert Fetched(after, bucketName, ty.getKey(item), t') == Ok(StoredObject(ty.encode(item).value, ty.contentType));
  }

  /** After a successful `delete`, `get_maybe` of that key on a clean
      transport is `Ok(None)` and `get` is a `GetError` for the missing key. */
  lemma {:induction false} GetMaybeAfterDelete<T>(buckets: Buckets, bucketName: string, key: string, decode: Bytes -> Option<T>, t: Transport, t': Transport)
    requires DeleteEffect(buckets, bucketName, key, t).result.Ok? && Clean(t')
    ensures var after := DeleteEffect(buckets, bucketName, key, t).buckets;
            && GetMaybeResult(after, bucketName, key, decode, t') == Returned(Ok(None))
            && GetResult(after, bucketName, key, decode, t') == Err(GetError(ServiceError(NoSuchKey)))
  {
    var after := DeleteEffect(buckets, bucketName, key, t).buckets;
    assert bucketName in after;
  }

  /** Deleting a key twice leaves the store as deleting it once, and the
      second delete also reports success. */
  lemma {:induction false} DeleteIdempotent(buckets: Buckets, bucketName: string, key: string, t: Transport, t': Transport)
    requires DeleteEffect(buckets, bucketName, key, t).result.Ok? && t'.fault.None?
    ensures var once := DeleteEffect(buckets, bucketName, key, t);
            var twice := DeleteEffect(once.buckets, bucketName, key, t');
            twice.result.Ok? && twice.buckets == once.buckets
  {
    RemovedIdempotent(buckets, bucketName, key);
  }

  /** For a type whose impls the derive macro generated from one attribute
      `raw` with a single placeholder, the partial key made of that field's
      text reads back an item written through `put`: `build_key` on the
      compiled template and `get_key` of the item agree. */
  lemma {:induction false} GetWithPartialKeyAfterPut<T>(buckets: Buckets, bucketName: string, ty: Storable<T>, item: T,
                                          raw: string, self: Record, t: Transport, t': Transport)
    requires RoundTrips(ty, item) && Clean(t')
    requires PutEffect(buckets, bucketName, ty, item, t).result.Ok?
    requires |KeyOf(raw).arguments| == 1 && KeyOf(raw).arguments[0] in self
    requires ty.keyTemplate == CompileFold(KeyOf(raw).value, KeyOf(raw).arguments)
    requires ty.getKey(item) == GetKey(KeyDecl(KeyOf(raw).value, Some(KeyOf(raw).arguments[0])), self)
    ensures var after := PutEffect(buckets, bucketName, ty, item, t).buckets;
            var partialKey := [self[KeyOf(raw).arguments[0]]];
            GetResult(after, bucketName, BuildKey(ty.keyTemplate, partialKey), ty.decode, t') == Ok(item)
  {
    var key := KeyOf(raw);
    assert key.arguments == [key.arguments[0]];
    GetAfterPut(buckets, bucketName, ty, item, t, t');
  }

  /** `S3Bucket`: a bucket name and the client it talks through. */
  class S3Bucket {
    const bucketName: string
    const client: Client

    /** `S3Bucket::new`. */
    constructor (bucketName: string, client: Client)
      ensures this.bucketName == bucketName && this.client == client
    {
      this.bucketName := bucketName;
      this.client := client;
    }

    /** `put`. */
    method Put<T>(ty: Storable<T>, item: T, t: Transport) returns (r: Result<(), Error>)
      modifies client
      ensures r == PutEffect(old(client.buckets), bucketName, ty, item, t).result
      ensures client.buckets == PutEffect(old(client.buckets), bucketName, ty, item, t).buckets
    {
      var key := ty.getKey(item);
      var bytes := ty.encode(item);
      if bytes.None? {
        return Err(TryIntoByteError);
      }
      var sent := client.PutObject(bucketName, key, StoredObject(bytes.value, ty.contentType), t);
      if sent.Err? {
        return Err(PutError(sent.error));
      }
      return Ok(());
    }

    /** `get`. */
    method Get<T>(decode: Bytes -> Option<T>, key: string, t: Transport) returns (r: Result<T, Error>)
      ensures r == GetResult(client.buckets, bucketName, key, decode, t)
    {
      var fetched := client.GetObject(bucketName, key, t);
      if fetched.Err? {
        return Err(GetError(fetched.error));
      }
      if !t.collectOk {
        return Err(ByteStreamCollectionError);
      }
      var decoded := decode(fetched.value.body);
      if decoded.None? {
        return Err(TryFromByteError);
      }
      return Ok(decoded.value);
    }

    /** `get_maybe`. */
    method GetMaybe<T>(decode: Bytes -> Option<T>, key: string, t: Transport) returns (r: Completion<Result<Option<T>, Error>>)
      ensures r == GetMaybeResult(client.buckets, bucketName, key, decode, t)
    {
      var fetched := client.GetObject(bucketName, key, t);
      if fetched.Err? {
        match fetched.error
        case ServiceError(kind) =>
          if kind == NoSuchKey {
            return Returned(Ok(None));
          }
          return Panicked("not yet implemented");
        case _ =>
          return Returned(Err(GetError(fetched.error)));
      }
      if !t.collectOk {
        return Returned(Err(ByteStreamCollectionError));
      }
      var decoded := decode(fetched.value.body);
      if decoded.None? {
        return Returned(Err(TryFromByteError));
      }
      return Returned(Ok(Some(decoded.value)));
    }

    /** `delete`. */
    method Delete(key: string, t: Transport) returns (r: Result<(), Error>)
      modifies client
      ensures r == DeleteEffect(old(client.buckets), bucketName, key, t).result
      ensures client.buckets == DeleteEffect(old(client.buckets), bucketName, key, t).buckets
    {
      var sent := client.DeleteObject(bucketName, key, t);
      if sent.Err? {
        return Err(DeleteError(sent.error));
      }
      return Ok(());
    }

    /** `get_with_partial_key`: `build_key` on the partial key, then `get`. */
    method GetWithPartialKey<T>(ty: Storable<T>, partialKey: seq<string>, t: Transport) returns (r: Result<T, Error>)
      ensures r == GetResult(client.buckets, bucketName, BuildKey(ty.keyTemplate, partialKey), ty.decode, t)
    {
      r := Get(ty.decode, BuildKey(ty.keyTemplate, partialKey), t);
    }

    /** `get_maybe_with_partial_key`: `build_key`, then `get_maybe`. */
    method GetMaybeWithPartialKey<T>(ty: Storable<T>, partialKey: seq<string>, t: Transport)
      returns (r: Completion<Result<Option<T>, Error>>)
      ensures r == GetMaybeResult(client.buckets, bucketName, BuildKey(ty.keyTemplate, partialKey), ty.decode, t)
    {
      r := GetMaybe(ty.decode, BuildKey(ty.keyTemplate, partialKey), t);
    }

    /** `delete_with_partial_key`: `build_key`, then `delete`. */
    method DeleteWithPartialKey<T>(ty: Storable<T>, partialKey: seq<string>, t: Transport) returns (r: Result<(), Error>)
      modifies client
      ensures r == DeleteEffect(old(client.buckets), bucketName, BuildKey(ty.keyTemplate, partialKey), t).result
      ensures client.buckets == DeleteEffect(old(client.buckets), bucketName, BuildKey(ty.keyTemplate, partialKey), t).buckets
    {
      r := Delete(BuildKey(ty.keyTemplate, partialKey), t);
    }
  }
}
