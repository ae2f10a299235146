/** The object store behind `aws_sdk_s3::Client`, reduced to what the bucket
    operations observe: named buckets of keyed objects, and a request outcome
    that the environment chooses (a fault, or none). */
module BlobStore {
  import opened Wrappers

  newtype byte = x: int | 0 <= x < 256

  /** `bytes::Bytes`. */
  type Bytes = seq<byte>

  /** What the service reports when it refuses a request. */
  datatype ServiceErrorKind = NoSuchKey | NoSuchBucket | OtherServiceError(code: string)

  /** `SdkError`: a failure to build, send or read the request, or a refusal
      by the service. */
  datatype SdkError =
    | ConstructionFailure
    | TimeoutError
    | DispatchFailure
    | ResponseError
    | ServiceError(kind: ServiceErrorKind)

  datatype StoredObject = StoredObject(body: Bytes, contentType: string)

  type Objects = map<string, StoredObject>
  type Buckets = map<string, Objects>

  /** What the network and the service decide on one request regardless of
      the store: an injected fault (`None` when the request reaches the store
      and is answered from it), and whether collecting a response body
      succeeds. */
  datatype Transport = Transport(fault: Option<SdkError>, collectOk: bool)

  /** The object under `key` in `bucket`, if any. */
  function Lookup(buckets: Buckets, bucket: string, key: string): Option<StoredObject>
  {
    if bucket in buckets && key in buckets[bucket] then Some(buckets[bucket][key]) else None
  }

  /** Whether a write or delete request on `bucket` is accepted. */
  function Accepted(buckets: Buckets, bucket: string, t: Transport): (r: Result<(), SdkError>)
    ensures r.Ok? <==> t.fault.None? && bucket in buckets
    ensures t.fault.Some? ==> r == Err(t.fault.value)
  {
    if t.fault.Some? then Err(t.fault.value)
    else if bucket !in buckets then Err(ServiceError(NoSuchBucket))
    else Ok(())
  }

  /** `get_object`: the stored object, or why there is none. */
  function Fetched(buckets: Buckets, bucket: string, key: string, t: Transport): (r: Result<StoredObject, SdkError>)
    ensures r.Ok? <==> t.fault.None? && Lookup(buckets, bucket, key).Some?
    ensures r.Ok? ==> Lookup(buckets, bucket, key) == Some(r.value)
    ensures t.fault.None? && bucket in buckets && Lookup(buckets, bucket, key).None? ==>
              r == Err(ServiceError(NoSuchKey))
    ensures t.fault.Some? ==> r == Err(t.fault.value)
  {
    if t.fault.Some? then Err(t.fault.value)
    else if bucket !in buckets then Err(ServiceError(NoSuchBucket))
    else if key !in buckets[bucket] then Err(ServiceError(NoSuchKey))
    else Ok(buckets[bucket][key])
  }

  /** The store after writing `obj` under `key` in an existing bucket. */
  function Stored(buckets: Buckets, bucket: string, key: string, obj: StoredObject): (r: Buckets)
    requires bucket in buckets
    ensures r.Keys == buckets.Keys
    ensures Lookup(r, bucket, key) == Some(obj)
    ensures forall b, k :: b != bucket || k != key ==> Lookup(r, b, k) == Lookup(buckets, b, k)
  {
    buckets[bucket := buckets[bucket][key := obj]]
  }

  /** The store after removing `key`, if present, from an existing bucket. */
  function Removed(buckets: Buckets, bucket: string, key: string): (r: Buckets)
    requires bucket in buckets
    ensures r.Keys == buckets.Keys
    ensures Lookup(r, bucket, key) == None
    ensures forall b, k :: b != bucket || k != key ==> Lookup(r, b, k) == Lookup(buckets, b, k)
  {
    buckets[bucket := buckets[bucket] - {key}]
  }

  /** Removing twice leaves the store as removing once. */
  lemma {:induction false} RemovedIdempotent(buckets: Buckets, bucket: string, key: string)
    requires bucket in buckets
    ensures Removed(Removed(buckets, bucket, key), bucket, key) == Removed(buckets, bucket, key)
  {
    var once := Removed(buckets, bucket, key);
    assert once[bucket] - {key} == once[bucket];
  }

  /** The SDK client: the store it talks to. */
  class Client {
    var buckets: Buckets

    constructor (buckets: Buckets)
      ensures this.buckets == buckets
    {
      this.buckets := buckets;
    }

    /** `get_object().bucket(bucket).key(key).send()`. */
    method GetObject(bucket: string, key: string, t: Transport) returns (r: Result<StoredObject, SdkError>)
      ensures r == Fetched(buckets, bucket, key, t)
    {
      if t.fault.Some? {
        return Err(t.fault.value);
      }
      if bucket !in buckets {
        return Err(ServiceError(NoSuchBucket));
      }
      if key !in buckets[bucket] {
        return Err(ServiceError(NoSuchKey));
      }
      return Ok(buckets[bucket][key]);
    }

    /** `put_object().bucket(bucket).key(key).body(..).content_type(..).send()`. */
    method PutObject(bucket: string, key: string, obj: StoredObject, t: Transport) returns (r: Result<(), SdkError>)
      modifies this
      ensures r == Accepted(old(buckets), bucket, t)
      ensures buckets == if r.Ok? then Stored(old(buckets), bucket, key, obj) else old(buckets)
    {
      r := Accepted(buckets, bucket, t);
      if r.Ok? {
        buckets := buckets[bucket := buckets[bucket][key := obj]];
      }
    }

    /** `delete_object().bucket(bucket).key(key).send()`: succeeds whether or
        not the key exists. */
    method DeleteObject(bucket: string, key: string, t: Transport) returns (r: Result<(), SdkError>)
      modifies this
      ensures r == Accepted(old(buckets), bucket, t)
      ensures buckets == if r.Ok? then Removed(old(buckets), bucket, key) else old(buckets)
    {
      r := Accepted(buckets, bucket, t);
      if r.Ok? {
        buckets := buckets[bucket := buckets[bucket] - {key}];
      }
    }
  }
}
