/** The object-store client the out command uploads through. Its transport is
    not modelled: whether an upload is refused is an arbitrary function fixed
    when the client is made, and a URL is an opaque function of the bucket,
    the key and whether a signed form is asked for. The client records every
    upload it is asked to make. */
module S3 {
  import opened Types

  /** One UploadFile call: the local file sent to key remotePath in bucket. */
  datatype Upload = Upload(bucket: string, remotePath: string, localPath: string)

  class S3Client {
    /** Every upload asked of this client so far, oldest first. */
    var uploads: seq<Upload>
    /** The error the store reports for an upload, or None when it accepts it. */
    const refusal: Upload -> Option<string>
    /** The URL the store gives for (bucket, key, signed). */
    const urlOf: (string, string, bool) -> string

    constructor (refusal: Upload -> Option<string>, urlOf: (string, string, bool) -> string)
      ensures uploads == []
      ensures this.refusal == refusal && this.urlOf == urlOf
    {
      uploads := [];
      this.refusal := refusal;
      this.urlOf := urlOf;
    }

    /** Sends localPath to remotePath in bucketName; returns the store's error, if any. */
    method UploadFile(bucketName: string, remotePath: string, localPath: string) returns (err: Option<string>)
      modifies this`uploads
      ensures uploads == old(uploads) + [Upload(bucketName, remotePath, localPath)]
      ensures err == refusal(Upload(bucketName, remotePath, localPath))
    {
      var u := Upload(bucketName, remotePath, localPath);
      uploads := uploads + [u];
      err := refusal(u);
    }

    /** The URL of remotePath in bucketName. */
    function URL(bucketName: string, remotePath: string, signed: bool): string {
      urlOf(bucketName, remotePath, signed)
    }
  }
}
