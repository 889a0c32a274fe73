/** Values shared by every module: optional values, results, and the errors
    the out command can report. */
module Types {

  datatype Option<+T> = None | Some(value: T)

  datatype Result<+T, +E> = Ok(value: T) | Err(error: E)

  /** The errors of the out command, one variant per way it can fail.
      Go reports them as formatted `error` values; here each is a tag that
      carries what the message would mention. */
  datatype Error =
    | InvalidPattern(pattern: string)                    // regexp.Compile refused the pattern
    | NoMatch(pattern: string)                           // no walked path matches the pattern
    | Ambiguous(pattern: string, matches: seq<string>)   // two or more walked paths match it
    | UploadFailed(message: string)                      // the object store refused the upload
}
