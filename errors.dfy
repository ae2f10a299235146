/** `src/error.rs` and `src/s3_object.rs`. */
module Errors {
  import opened BlobStore

  /** The crate's `Error`. `Other` carries a message; the example decoder
      builds it although `src/error.rs` does not declare it. */
  datatype Error =
    | PutError(source: SdkError)
    | GetError(source: SdkError)
    | DeleteError(source: SdkError)
    | TryIntoByteError
    | TryFromByteError
    | EmptyByteStream
    | ByteArrayToString
    | ByteStreamCollectionError
    | Other(message: string)

  /** An object's bytes with the key it is stored under. */
  datatype S3Object = S3Object(bytes: Bytes, key: string)
}
