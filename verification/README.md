# s3-resource `out` command, modelled in Dafny

The `out` command of the Concourse S3 resource publishes one file. It walks
the source directory and keeps the paths that an unanchored regular
expression (`from`) matches. Exactly one path must survive. The command then
derives the object key from the destination `to`, uploads the file to the
bucket, and returns the key as the new version together with metadata: the
key's file name and, unless the bucket is private, its URL.

The model has one module per concern:

- `Types` (types.dfy): `Option`, `Result` and the command's errors, as tagged
  variants (`InvalidPattern`, `NoMatch`, `Ambiguous`, `UploadFailed`).
- `Paths` (paths.dfy): Go's `HasSuffix`, `TrimPrefix`, `filepath.Base` and
  `filepath.Join`, for Unix paths.
- `Regex` (regex.dfy): the regular-expression library. `Engine` is a record of
  functions that stands for compilation, leftmost search and template
  expansion. `ReplaceAll` follows the loop of Go's `ReplaceAllString`: every
  non-overlapping match is rewritten, not only the first.
- `Versions` (versions.dfy): `MatchUnanchored`. It compiles the pattern and
  keeps the matching paths in walk order.
- `S3` (s3.dfy): the object-store client, a class that records every upload.
  Whether an upload is refused is an arbitrary function fixed when the client
  is made. The URL is an opaque function.
- `Out` (out_command.dfy): `Match`, the key derivation (`DestinationOf`,
  `RelativeName`, `RemotePath`) and the `OutCommand` class with `Metadata`
  and `Run`.
- `Scenarios` (scenarios.dfy): concrete publications. They use an engine in
  which a pattern is a literal string and a template is inserted as it is.

Line 38 uses `ReplaceAllString`, so every match of `from` in the relative
name is rewritten, not only the first; `Scenarios.ReplaceAllRewritesEveryMatch`
shows the difference on a concrete input. `TemplateKeyWithoutMatch` covers
the edge case where, once the source directory is stripped, the pattern no
longer matches the relative name: the key is then that name, unchanged.

## Model

| member | source | states |
|---|---|---|
| Paths.TrimPrefix | out/out_command.go:37 | the result is what follows the prefix when the string starts with it, and the whole string otherwise |
| Paths.Base | out/out_command.go:84 | the base name is the last element: once trailing slashes are dropped, it is the suffix after the last '/' (or the whole path); it is never empty and holds no '/' (except the root "/"); "" gives "." |
| Paths.Join | out/out_command.go:34 | an empty folder gives the name alone; otherwise the result starts with the folder and ends with the name |
| Paths.BaseOfJoin | out/out_command.go:34 | a plain name joined under an empty or '/'-terminated folder is the base name of the result |
| Paths.BaseOfFolderEntry | out/out_command.go:34 | in folder mode the key keeps the matched file's base name, unless that base name is "/" |
| Regex.Find | out/out_command.go:38 | a reported match lies within the input, at or after the search position |
| Regex.ReplaceAll | out/out_command.go:38 | when the pattern matches nowhere in the input, the input is returned unchanged |
| Regex.ReplaceAllMatchedText | out/out_command.go:38 | replacing each match by its own text returns the input, so text between matches is neither lost nor duplicated |
| Regex.ReplaceAllFirstMatch | out/out_command.go:38 | the text before the first match is kept and the first match is replaced by the expanded template |
| Versions.Matching | out/out_command.go:67 | every kept path was walked and matches the pattern; no more paths are kept than were walked |
| Versions.MatchUnanchored | out/out_command.go:67-70 | it fails exactly when the pattern does not compile, with the pattern as the error; otherwise a path is kept if and only if it was walked and matches |
| Versions.MatchingMembers | out/out_command.go:67 | a path is kept if and only if it was walked and matches |
| Versions.MatchingAppend | out/out_command.go:67 | the filter keeps walk order: filtering a concatenation concatenates the filtered parts |
| Versions.MatchingMultiplicity | out/out_command.go:67 | a matching path is kept as many times as it was walked; a non-matching one is not kept |
| Versions.MatchingPermutation | out/out_command.go:67 | a walk in another order keeps the same paths (as a multiset), and therefore as many |
| S3.S3Client.UploadFile | out/out_command.go:43-47 | the upload is appended to the client's log and its result is the store's verdict on that upload |
| Out.Match | out/out_command.go:60-81 | an invalid pattern is reported unchanged; NoMatch with the pattern exactly when no walked path matches; two or more matches give Ambiguous with the pattern and every matching path in walk order; a success is a walked path that matches |
| Out.MatchOkIsSole | out/out_command.go:72-80 | a successful match is a compiled pattern's only matching path, walked exactly once |
| Out.SoleIsMatchOk | out/out_command.go:72-80 | when exactly one walked path matches, Match returns that path |
| Out.MatchIsUnique | out/out_command.go:67-80 | Match returns a path if and only if it is the only walked path that matches, walked once |
| Out.MatchOrderIndependent | out/out_command.go:67-78 | reordering the walk changes neither success nor the path chosen; Ambiguous stays Ambiguous with the same paths up to order; other errors are identical |
| Out.DestinationOf | out/out_command.go:32-33 | folder mode holds exactly when `to` is empty or ends with '/'; otherwise template mode, carrying `to` |
| Out.RelativeName | out/out_command.go:37 | the name is what follows `sourceDir/` in the matched path, or the whole path when it lacks that prefix |
| Out.RemotePath | out/out_command.go:30-39 | folder mode: the key is the folder followed by the matched file's base name, and keeps that base name; template mode: the key is the relative name with every match of `from` rewritten by the template `to` (ReplaceAll), and the relative name itself when the pattern does not match it |
| Out.FolderKeyIgnoresPattern | out/out_command.go:32-34 | in folder mode the key depends neither on the pattern, the engine nor the source directory |
| Out.EmptyDestinationKey | out/out_command.go:33-34 | with an empty destination the key is the matched file's base name, with no leading '/' |
| Out.TemplateKeyWithoutMatch | out/out_command.go:36-38 | in template mode a file under the source directory whose relative name the pattern does not match is uploaded under that relative name |
| Out.TemplateKeyIdentity | out/out_command.go:36-38 | in template mode a template that reproduces each match's text gives the relative name as the key |
| Out.OutCommand.constructor | out/out_command.go:18-22 | the command uses the client it is given |
| Out.OutCommand.Metadata | out/out_command.go:83-101 | the first pair is `filename` with the key's base name; a second pair, `url` with the store's unsigned URL, is present exactly when the bucket is not private |
| Out.OutCommand.MetadataDetermined | out/out_command.go:83-101 | metadata is fixed by bucket, key and privacy, and has a `url` pair if and only if the bucket is not private |
| Out.OutCommand.Run | out/out_command.go:24-58 | a match error is returned with the zero response and nothing is uploaded; otherwise exactly one upload of the matched file to the derived key happens; its error is returned with the zero response; on success the version path is the uploaded key and the metadata describes it |
| Scenarios.ReplaceAllRewritesEveryMatch | out/out_command.go:38 | both occurrences of "a" in "aba" are rewritten ("cbc"), not only the first |
| Scenarios.FolderScenario | out/out_command.go:32-34 | "out/app.tgz", the only match of "app", goes to "releases/app.tgz" under destination "releases/" |
| Scenarios.TemplateScenario | out/out_command.go:36-38 | with destination ".tar" and pattern ".tgz", "out/app.tgz" under "out" goes to "app.tar" |
| Scenarios.AmbiguousScenario | out/out_command.go:76-78 | two matching files give Ambiguous listing both, in walk order |
| Scenarios.NoMatchScenario | out/out_command.go:72-74 | no matching file gives NoMatch naming the pattern |
| Scenarios.PrivateScenario | out/out_command.go:93-98 | a private bucket's metadata is the file name alone |
| Scenarios.PublishScenario | out/out_command.go:24-58 | a whole run into a private bucket uploads the matched file once to "releases/app.tgz" and reports that key with the file name |

## Left out

- The directory walk (`filepath.Walk`, lines 61-65) is filesystem I/O. `Run` takes the walked paths as a sequence. Its tolerance of per-entry errors is not modelled.
- The regular-expression engine is not part of this model. Compilation, leftmost search and `$n` expansion are the functions of an `Engine`. Positions count characters, whereas Go counts UTF-8 bytes.
- `MustCompile`'s panic (line 36) is not modelled. `RemotePath` requires the pattern to compile in template mode, and `Run` meets that requirement because `Match` has already compiled the same pattern.
- Paths.Join: does not apply `filepath.Clean`, so a destination with `.`, `..` or doubled slashes keeps them in the key, where Go would normalise them.
- Paths.Base: Unix separators only, with no volume names.
- The object-store client's transport, retries and credentials are left out. Whether an upload fails is an arbitrary function, and the URL is opaque.
- Error messages (`fmt.Errorf`, lines 73 and 77) are tagged variants that carry the pattern and the matched paths.
