/** `src/s3_context/mod.rs`: the entry point that routes each typed operation
    to the bucket the type names. */
module S3Context {
  import opened Wrappers
  import opened BlobStore
  import opened Errors
  import opened KeyBuilder
  import opened S3Bucket

  /** `S3Context`: owns the client that every bucket handle shares. */
  class S3Context {
    const client: Client

    /** `S3Context::new`. */
    constructor (client: Client)
      ensures this.client == client
    {
      this.client := client;
    }

    /** `with_bucket`: a handle on `bucketName` through the shared client. */
    method WithBucket(bucketName: string) returns (b: S3Bucket)
      ensures fresh(b) && b.bucketName == bucketName && b.client == client
    {
      b := new S3Bucket(bucketName, client);
    }

    /** `put`: writes into `T`'s bucket. */
    method Put<T>(ty: Storable<T>, item: T, t: Transport) returns (r: Result<(), Error>)
      modifies client
      ensures r == PutEffect(old(client.buckets), ty.bucketName, ty, item, t).result
      ensures client.buckets == PutEffect(old(client.buckets), ty.bucketName, ty, item, t).buckets
    {
      var bucket := WithBucket(ty.bucketName);
      r := bucket.Put(ty, item, t);
    }

    /** `get_with_partial_key`: reads from `T`'s bucket. */
    method GetWithPartialKey<T>(ty: Storable<T>, partialKey: seq<string>, t: Transport) returns (r: Result<T, Error>)
      ensures r == GetResult(client.buckets, ty.bucketName, BuildKey(ty.keyTemplate, partialKey), ty.decode, t)
    {
      var bucket := WithBucket(ty.bucketName);
      r := bucket.GetWithPartialKey(ty, partialKey, t);
    }

    /** `get`: reads `key` from `T`'s bucket. */
    method Get<T>(ty: Storable<T>, key: string, t: Transport) returns (r: Result<T, Error>)
      ensures r == GetResult(client.buckets, ty.bucketName, key, ty.decode, t)
    {
      var bucket := WithBucket(ty.bucketName);
      r := bucket.Get(ty.decode, key, t);
    }

    /** `get_maybe_with_partial_key`. */
    method GetMaybeWithPartialKey<T>(ty: Storable<T>, partialKey: seq<string>, t: Transport)
      returns (r: Completion<Result<Option<T>, Error>>)
      ensures r == GetMaybeResult(client.buckets, ty.bucketName, BuildKey(ty.keyTemplate, partialKey), ty.decode, t)
    {
      var bucket := WithBucket(ty.bucketName);
      r := bucket.GetMaybeWithPartialKey(ty, partialKey, t);
    }

    /** `get_maybe`. */
    method GetMaybe<T>(ty: Storable<T>, key: string, t: Transport) returns (r: Completion<Result<Option<T>, Error>>)
      ensures r == GetMaybeResult(client.buckets, ty.bucketName, key, ty.decode, t)
    {
      var bucket := WithBucket(ty.bucketName);
      r := bucket.GetMaybe(ty.decode, key, t);
    }

    /** `delete_with_partial_key`: deletes the built key from `T`'s bucket. */
    method DeleteWithPartialKey<T>(ty: Storable<T>, partialKey: seq<string>, t: Transport) returns (r: Result<(), Error>)
      modifies client
      ensures r == DeleteEffect(old(client.buckets), ty.bucketName, BuildKey(ty.keyTemplate, partialKey), t).result
      ensures client.buckets == DeleteEffect(old(client.buckets), ty.bucketName, BuildKey(ty.keyTemplate, partialKey), t).buckets
    {
      var bucket := WithBucket(ty.bucketName);
      r := bucket.DeleteWithPartialKey(ty, partialKey, t);
    }

    /** `delete`: deletes the raw `key` from `T`'s bucket. */
    method Delete<T>(ty: Storable<T>, key: string, t: Transport) returns (r: Result<(), Error>)
      modifies client
      ensures r == DeleteEffect(old(client.buckets), ty.bucketName, key, t).result
      ensures client.buckets == DeleteEffect(old(client.buckets), ty.bucketName, key, t).buckets
    {
      var bucket := WithBucket(ty.bucketName);
      r := bucket.Delete(key, t);
    }
  }

  /** No write through the context changes a bucket other than the type's
      own: every other bucket holds the same objects afterwards. */
  lemma {:induction false} WritesStayInTypeBucket<T>(buckets: Buckets, ty: Storable<T>, item: T, key: string, t: Transport, other: string)
    requires other != ty.bucketName
    ensures forall k :: Lookup(PutEffect(buckets, ty.bucketName, ty, item, t).buckets, other, k) == Lookup(buckets, other, k)
    ensures forall k :: Lookup(DeleteEffect(buckets, ty.bucketName, key, t).buckets, other, k) == Lookup(buckets, other, k)
  {
  }
}
