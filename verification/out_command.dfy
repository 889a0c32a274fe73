/** The out command: find the one walked file that matches the request's
    pattern, derive its key in the bucket, upload it, and report the key as
    the new version together with descriptive metadata. */
module Out {
  import opened Types
  import opened Paths
  import opened Regex
  import opened Versions
  import opened S3

  /** Where to upload to: the bucket, and whether its objects are private. */
  datatype Source = Source(bucket: string, private: bool)
  /** What to upload: the pattern that picks the file, and the destination. */
  datatype Params = Params(from: string, to: string)
  datatype OutRequest = OutRequest(source: Source, params: Params)

  datatype Version = Version(path: string)
  datatype MetadataPair = MetadataPair(name: string, value: string)
  datatype OutResponse = OutResponse(version: Version, metadata: seq<MetadataPair>)

  /** The zero response returned beside every error. */
  const EmptyResponse := OutResponse(Version(""), [])

  /** The one walked path `pattern` matches, or why there is not exactly one. */
  function Match(re: Engine, walked: seq<string>, pattern: string): (r: Result<string, Error>)
    ensures !re.compiles(pattern) ==> r == Err(InvalidPattern(pattern))
    ensures (re.compiles(pattern) && forall p :: p in walked ==> !MatchString(re, pattern, p)) ==>
              r == Err(NoMatch(pattern))
    ensures r == Err(NoMatch(pattern)) ==>
              re.compiles(pattern) && forall p :: p in walked ==> !MatchString(re, pattern, p)
    ensures re.compiles(pattern) && |Matching(re, walked, pattern)| >= 2 ==>
              r == Err(Ambiguous(pattern, Matching(re, walked, pattern)))
    ensures r.Ok? ==> re.compiles(pattern) && r.value in walked && MatchString(re, pattern, r.value)
    ensures r.Err? && r.error.Ambiguous? ==>
              r.error.pattern == pattern && |r.error.matches| >= 2
              && forall i :: 0 <= i < |r.error.matches| ==>
                   r.error.matches[i] in walked && MatchString(re, pattern, r.error.matches[i])
  {
    match MatchUnanchored(re, walked, pattern)
    case Err(e) => Err(e)
    case Ok(matches) =>
      if |matches| == 0 then Err(NoMatch(pattern))
      else
        assert matches[0] in matches;
        if |matches| > 1 then Err(Ambiguous(pattern, matches))
      else Ok(matches[0])
  }

  /** How the destination names the key: a folder to put the file's base
      name in, or a template to rewrite the file's relative name with. */
  datatype Destination = Folder(dir: string) | Template(template: string)

  /** The destination mode, decided by the destination's shape alone. */
  function DestinationOf(to: string): (d: Destination)
    ensures d.Folder? <==> to == "" || to[|to| - 1] == '/'
    ensures d == Folder(to) || d == Template(to)
  {
    if HasSuffix(to, "/") || to == "" then Folder(to) else Template(to)
  }

  /** The matched path relative to the walked directory: the path without
      its leading `sourceDir/`, or the whole path when it lacks that prefix. */
  function RelativeName(sourceDir: string, matched: string): (name: string)
    ensures sourceDir + "/" <= matched ==> sourceDir + "/" + name == matched
    ensures !(sourceDir + "/" <= matched) ==> name == matched
  {
    TrimPrefix(matched, sourceDir + "/")
  }

  /** The key the matched file is uploaded to. In folder mode it is the
      folder followed by the file's base name; in template mode it is the
      relative name with every match of `from` rewritten by the template.
      Template mode compiles `from` with MustCompile, so it must compile. */
  function RemotePath(re: Engine, sourceDir: string, matched: string, from: string, to: string): (key: string)
    requires DestinationOf(to).Template? ==> re.compiles(from)
    ensures DestinationOf(to).Folder? ==> key == to + Base(matched)
    ensures DestinationOf(to).Folder? && Base(matched) != "/" ==> Base(key) == Base(matched)
    ensures DestinationOf(to).Template? ==> key == ReplaceAll(re, from, RelativeName(sourceDir, matched), to)
    ensures (DestinationOf(to).Template? && !MatchString(re, from, RelativeName(sourceDir, matched))) ==>
              key == RelativeName(sourceDir, matched)
  {
    if DestinationOf(to).Folder? then
      BaseOfFolderEntry(to, matched);
      JoinUnderFolder(to, Base(matched));
      Join(to, Base(matched))
    else
      ReplaceAll(re, from, RelativeName(sourceDir, matched), to)
  }

  /** A walked path that matches `pattern` and is walked exactly once, with
      no other walked path matching. */
  ghost predicate SoleMatch(re: Engine, walked: seq<string>, pattern: string, m: string) {
    MatchString(re, pattern, m) && multiset(walked)[m] == 1
    && forall p :: p in walked && MatchString(re, pattern, p) ==> p == m
  }

  /** When Match succeeds, its result is the sole matching walked path. */
  lemma MatchOkIsSole(re: Engine, walked: seq<string>, pattern: string, m: string)
    requires Match(re, walked, pattern) == Ok(m)
    ensures re.compiles(pattern) && SoleMatch(re, walked, pattern, m)
  {
    var matches := Matching(re, walked, pattern);
    assert matches == [m];
    MatchingMembers(re, walked, pattern);
    MatchingMultiplicity(re, walked, pattern, m);
    assert multiset(matches)[m] == 1;
  }

  /** When exactly one walked path matches, Match returns it. */
  lemma SoleIsMatchOk(re: Engine, walked: seq<string>, pattern: string, m: string)
    requires re.compiles(pattern) && SoleMatch(re, walked, pattern, m)
    ensures Match(re, walked, pattern) == Ok(m)
  {
    var matches := Matching(re, walked, pattern);
    MatchingMembers(re, walked, pattern);
    forall p ensures multiset(matches)[p] == multiset{m}[p] {
      MatchingMultiplicity(re, walked, pattern, p);
    }
    assert multiset(matches) == multiset{m};
    assert |matches| == 1;
    assert matches[0] in multiset(matches);
  }

  /** Exactly one walked path matching is what makes Match succeed, and then
      that path is the result. */
  lemma MatchIsUnique(re: Engine, walked: seq<string>, pattern: string, m: string)
    ensures Match(re, walked, pattern) == Ok(m) <==> re.compiles(pattern) && SoleMatch(re, walked, pattern, m)
  {
    if Match(re, walked, pattern) == Ok(m) {
      MatchOkIsSole(re, walked, pattern, m);
    }
    if re.compiles(pattern) && SoleMatch(re, walked, pattern, m) {
      SoleIsMatchOk(re, walked, pattern, m);
    }
  }

  /** Two or more matching walked paths make Match fail with Ambiguous,
      whatever their order: a reordered walk gives the same verdict and the
      same matches up to order. */
  lemma MatchOrderIndependent(re: Engine, a: seq<string>, b: seq<string>, pattern: string)
    requires multiset(a) == multiset(b)
    ensures Match(re, a, pattern).Ok? <==> Match(re, b, pattern).Ok?
    ensures Match(re, a, pattern).Ok? ==> Match(re, a, pattern) == Match(re, b, pattern)
    ensures Match(re, a, pattern).Err? ==> Match(re, b, pattern).Err?
    ensures Match(re, a, pattern).Err? && Match(re, a, pattern).error.Ambiguous? ==>
              Match(re, b, pattern).error.Ambiguous?
              && multiset(Match(re, a, pattern).error.matches) == multiset(Match(re, b, pattern).error.matches)
    ensures Match(re, a, pattern).Err? && !Match(re, a, pattern).error.Ambiguous? ==>
              Match(re, a, pattern) == Match(re, b, pattern)
  {
    MatchingPermutation(re, a, b, pattern);
    var ma, mb := Matching(re, a, pattern), Matching(re, b, pattern);
    if re.compiles(pattern) && |ma| == 1 {
      assert ma == [ma[0]] && mb == [mb[0]];
      assert multiset{ma[0]} == multiset{mb[0]};
      assert ma[0] in multiset{mb[0]};
    }
  }

  /** In folder mode the key depends only on the destination and the matched
      path, never on the pattern or the engine. */
  lemma FolderKeyIgnoresPattern(re1: Engine, re2: Engine, sourceDir1: string, sourceDir2: string,
                                matched: string, from1: string, from2: string, to: string)
    requires DestinationOf(to).Folder?
    ensures RemotePath(re1, sourceDir1, matched, from1, to) == RemotePath(re2, sourceDir2, matched, from2, to)
  {
  }

  /** With an empty destination the key is the file's base name, with no
      leading '/'. */
  lemma EmptyDestinationKey(re: Engine, sourceDir: string, matched: string, from: string)
    ensures RemotePath(re, sourceDir, matched, from, "") == Base(matched)
    ensures Base(matched) != "/" ==> '/' !in RemotePath(re, sourceDir, matched, from, "")
  {
  }

  /** In template mode a file under the walked directory whose relative name
      the pattern does not match keeps that relative name as its key. */
  lemma TemplateKeyWithoutMatch(re: Engine, sourceDir: string, rest: string, from: string, to: string)
    requires DestinationOf(to).Template? && re.compiles(from)
    requires !MatchString(re, from, rest)
    ensures RemotePath(re, sourceDir, sourceDir + "/" + rest, from, to) == rest
  {
    assert RelativeName(sourceDir, sourceDir + "/" + rest) == rest;
  }

  /** In template mode a template that stands for each match's own text
      (such as "$0") leaves the relative name unchanged. */
  lemma TemplateKeyIdentity(re: Engine, sourceDir: string, matched: string, from: string, to: string)
    requires DestinationOf(to).Template? && re.compiles(from)
    requires forall m: Span :: m.start <= m.end <= |RelativeName(sourceDir, matched)| ==>
               re.expand(from, to, RelativeName(sourceDir, matched), m) == RelativeName(sourceDir, matched)[m.start..m.end]
    ensures RemotePath(re, sourceDir, matched, from, to) == RelativeName(sourceDir, matched)
  {
    ReplaceAllMatchedText(re, from, RelativeName(sourceDir, matched), to);
  }

  /** The command, holding the client it uploads through. */
  class OutCommand {
    const s3client: S3Client

    constructor (s3client: S3Client)
      ensures this.s3client == s3client
    {
      this.s3client := s3client;
    }

    /** md describes the object at remotePath: its file name first, then,
        unless the bucket is private, its unsigned URL. */
    predicate IsMetadata(md: seq<MetadataPair>, bucketName: string, remotePath: string, private: bool) {
      |md| == (if private then 1 else 2)
      && md[0] == MetadataPair("filename", Base(remotePath))
      && (!private ==> md[1] == MetadataPair("url", s3client.URL(bucketName, remotePath, false)))
    }

    /** The metadata pairs reported for the uploaded object. */
    method Metadata(bucketName: string, remotePath: string, private: bool) returns (md: seq<MetadataPair>)
      ensures IsMetadata(md, bucketName, remotePath, private)
      ensures (exists i :: 0 <= i < |md| && md[i].name == "url") <==> !private
    {
      var remoteFilename := Base(remotePath);
      md := [MetadataPair("filename", remoteFilename)];
      if !private {
        md := md + [MetadataPair("url", s3client.URL(bucketName, remotePath, false))];
      }
    }

    /** The metadata is fixed by its inputs, and carries a url pair exactly
        when the bucket is not private. */
    lemma MetadataDetermined(md1: seq<MetadataPair>, md2: seq<MetadataPair>,
                             bucketName: string, remotePath: string, private: bool)
      requires IsMetadata(md1, bucketName, remotePath, private)
      requires IsMetadata(md2, bucketName, remotePath, private)
      ensures md1 == md2
      ensures (exists i :: 0 <= i < |md1| && md1[i].name == "url") <==> !private
    {
      if !private {
        assert md1[1].name == "url";
      }
    }

    /** Match, derive the key, upload, and describe the upload. Every error
        is returned at once, beside the zero response. */
    method Run(sourceDir: string, request: OutRequest, walked: seq<string>, re: Engine)
      returns (response: OutResponse, err: Option<Error>)
      modifies s3client
      ensures Match(re, walked, request.params.from).Err? ==>
                response == EmptyResponse && err == Some(Match(re, walked, request.params.from).error)
                && s3client.uploads == old(s3client.uploads)
      ensures Match(re, walked, request.params.from).Ok? ==>
                var matched := Match(re, walked, request.params.from).value;
                var u := Upload(request.source.bucket,
                                RemotePath(re, sourceDir, matched, request.params.from, request.params.to),
                                matched);
                s3client.uploads == old(s3client.uploads) + [u]
                && (s3client.refusal(u).Some? ==>
                      response == EmptyResponse && err == Some(UploadFailed(s3client.refusal(u).value)))
                && (s3client.refusal(u).None? ==>
                      err == None && response.version.path == u.remotePath
                      && IsMetadata(response.metadata, u.bucket, u.remotePath, request.source.private))
      ensures err.None? ==>
                |s3client.uploads| == |old(s3client.uploads)| + 1
                && response.version.path == s3client.uploads[|s3client.uploads| - 1].remotePath
    {
      var matched := Match(re, walked, request.params.from);
      if matched.Err? {
        return EmptyResponse, Some(matched.error);
      }

      var remotePath := RemotePath(re, sourceDir, matched.value, request.params.from, request.params.to);
      var bucketName := request.source.bucket;

      var uploadErr := s3client.UploadFile(bucketName, remotePath, matched.value);
      if uploadErr.Some? {
        return EmptyResponse, Some(UploadFailed(uploadErr.value));
      }

      var metadata := Metadata(bucketName, remotePath, request.source.private);
      return OutResponse(Version(remotePath), metadata), None;
    }
  }
}
