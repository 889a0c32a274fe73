/** Concrete runs of the model with a stand-in engine in which a pattern is a
    literal string and the template is inserted as it is. */
module Scenarios {
  import opened Types
  import opened Paths
  import opened Regex
  import opened Versions
  import opened S3
  import opened Out

  /** The first occurrence of `p` in `s` at or after `pos`. */
  function FindLiteral(p: string, s: string, pos: nat): (r: Option<Span>)
    ensures r.Some? ==> pos <= r.value.start && r.value.end == r.value.start + |p| <= |s|
    ensures r.Some? ==> s[r.value.start..r.value.end] == p
    decreases |s| - pos
  {
    if pos + |p| > |s| then None
    else if s[pos..pos + |p|] == p then Some(Span(pos, pos + |p|))
    else FindLiteral(p, s, pos + 1)
  }

  const Literal := Engine(_ => true, FindLiteral, (pattern, template, s, m) => template)

  /** Replacing is not limited to the first occurrence: both "a"s in "aba" are rewritten. */
  lemma ReplaceAllRewritesEveryMatch()
    ensures ReplaceAll(Literal, "a", "aba", "c") == "cbc"
  {
    assert FindLiteral("a", "aba", 0) == Some(Span(0, 1));
    assert FindLiteral("a", "aba", 2) == Some(Span(2, 3));
    assert "aba"[1..2][0] == 'b';
    assert FindLiteral("a", "aba", 1) == Some(Span(2, 3));
    assert FindLiteral("a", "aba", 3) == None;
  }

  /** `p` occurs in `s` at position j. */
  predicate OccursAt(p: string, s: string, j: nat) {
    j + |p| <= |s| && s[j..j + |p|] == p
  }

  /** The first occurrence is found by skipping every earlier position. */
  lemma {:induction false} FindLiteralAt(p: string, s: string, pos: nat, k: nat)
    requires pos <= k && OccursAt(p, s, k)
    requires forall j :: pos <= j < k ==> !OccursAt(p, s, j)
    ensures FindLiteral(p, s, pos) == Some(Span(k, k + |p|))
    decreases k - pos
  {
    if pos < k {
      assert !OccursAt(p, s, pos);
      FindLiteralAt(p, s, pos + 1, k);
    }
  }

  /** A pattern that occurs at no position from pos on is not found. */
  lemma {:induction false} FindLiteralAbsent(p: string, s: string, pos: nat)
    requires forall j :: pos <= j ==> !OccursAt(p, s, j)
    ensures FindLiteral(p, s, pos) == None
    decreases |s| - pos
  {
    if pos + |p| <= |s| {
      assert !OccursAt(p, s, pos);
      FindLiteralAbsent(p, s, pos + 1);
    }
  }

  /** "app" does not occur in "out". */
  lemma AppInOut()
    ensures FindLiteral("app", "out", 0) == None
  {
    forall j ensures !OccursAt("app", "out", j) {
      if j == 0 {
        assert "out"[0..3][0] == 'o';
      }
    }
    FindLiteralAbsent("app", "out", 0);
  }

  /** "app" first occurs in "out/app.tgz" at position 4. */
  lemma AppInOutApp()
    ensures FindLiteral("app", "out/app.tgz", 0) == Some(Span(4, 7))
  {
    var s := "out/app.tgz";
    forall j | 0 <= j < 4 ensures !OccursAt("app", s, j) {
      assert s[j..j + 3][0] == s[j];
      assert s[j] != 'a' by { assert j == 0 || j == 1 || j == 2 || j == 3; }
    }
    assert s[4..7] == "app";
    FindLiteralAt("app", s, 0, 4);
  }

  /** "out/app.tgz" is the only walked path matching "app". */
  lemma FolderScenarioMatch()
    ensures Match(Literal, ["out", "out/app.tgz"], "app") == Ok("out/app.tgz")
  {
    AppInOut();
    AppInOutApp();
    assert Matching(Literal, ["out", "out/app.tgz"], "app") == ["out/app.tgz"];
  }

  /** A single walked file matching the pattern is selected, and a folder
      destination puts it under that folder with its base name. */
  lemma FolderScenario()
    ensures Match(Literal, ["out", "out/app.tgz"], "app") == Ok("out/app.tgz")
    ensures RemotePath(Literal, "out", "out/app.tgz", "app", "releases/") == "releases/app.tgz"
  {
    FolderScenarioMatch();
    FolderScenarioKey(Literal);
  }

  /** Destination "releases/" puts "out/app.tgz" at "releases/app.tgz",
      whatever the engine. */
  lemma FolderScenarioKey(re: Engine)
    ensures RemotePath(re, "out", "out/app.tgz", "app", "releases/") == "releases/app.tgz"
  {
    BaseOfOutApp();
    assert "releases/"[8] == '/';
    assert "releases/" + "app.tgz" == "releases/app.tgz";
  }

  /** The base name of "out/app.tgz" is "app.tgz". */
  lemma BaseOfOutApp()
    ensures Base("out/app.tgz") == "app.tgz"
  {
    var dir, name := "out/", "app.tgz";
    assert dir + name == "out/app.tgz";
    assert HasSuffix(dir, "/");
    AppHasNoSlash();
    BaseOfJoin(dir, name);
  }

  /** "app.tgz" holds no '/'. */
  lemma AppHasNoSlash()
    ensures '/' !in "app.tgz"
  {
    var name := "app.tgz";
    forall i | 0 <= i < |name| ensures name[i] != '/' {
      assert i == 0 || i == 1 || i == 2 || i == 3 || i == 4 || i == 5 || i == 6;
    }
  }

  /** A non-empty pattern whose first character appears in `s` only at k is
      found there, if it occurs there; one whose first character never
      appears is not found. */
  lemma FindLiteralByFirstChar(p: string, s: string, k: nat)
    requires p != ""
    requires forall j :: 0 <= j < |s| && s[j] == p[0] ==> j == k
    ensures OccursAt(p, s, k) ==> FindLiteral(p, s, 0) == Some(Span(k, k + |p|))
    ensures p[0] !in s ==> FindLiteral(p, s, 0) == None
  {
    forall j: nat | j != k ensures !OccursAt(p, s, j) {
    }
    if OccursAt(p, s, k) {
      FindLiteralAt(p, s, 0, k);
    }
    if p[0] !in s {
      forall j: nat ensures !OccursAt(p, s, j) {
      }
      FindLiteralAbsent(p, s, 0);
    }
  }

  /** Where ".tgz" occurs in the scenario's paths. */
  lemma TgzFacts()
    ensures FindLiteral(".tgz", "out", 0) == None
    ensures FindLiteral(".tgz", "out/app.tgz", 0) == Some(Span(7, 11))
    ensures FindLiteral(".tgz", "app.tgz", 0) == Some(Span(3, 7))
    ensures FindLiteral(".tgz", "app.tgz", 7) == None
  {
    var a, b := "out/app.tgz", "app.tgz";
    assert a[7..11] == ".tgz";
    assert b[3..7] == ".tgz";
    forall j | 0 <= j < |a| && a[j] == '.' ensures j == 7 {
      assert j == 0 || j == 1 || j == 2 || j == 3 || j == 4 || j == 5 || j == 6
          || j == 7 || j == 8 || j == 9 || j == 10;
    }
    forall j | 0 <= j < |b| && b[j] == '.' ensures j == 3 {
      assert j == 0 || j == 1 || j == 2 || j == 3 || j == 4 || j == 5 || j == 6;
    }
    FindLiteralByFirstChar(".tgz", a, 7);
    FindLiteralByFirstChar(".tgz", b, 3);
  }

  /** "out/app.tgz" is the only walked path matching ".tgz". */
  lemma TemplateScenarioMatch()
    ensures Match(Literal, ["out", "out/app.tgz"], ".tgz") == Ok("out/app.tgz")
  {
    TgzFacts();
    var walked := ["out", "out/app.tgz"];
    assert walked[1..] == ["out/app.tgz"];
    assert Matching(Literal, walked[1..], ".tgz") == ["out/app.tgz"];
    assert Matching(Literal, walked, ".tgz") == ["out/app.tgz"];
  }

  /** Rewriting ".tgz" by ".tar" in "app.tgz" gives "app.tar". */
  lemma TemplateScenarioReplace()
    ensures ReplaceAll(Literal, ".tgz", "app.tgz", ".tar") == "app.tar"
  {
    TgzFacts();
    var s := "app.tgz";
    assert ReplaceFrom(Literal, ".tgz", s, ".tar", 7, 7) == "";
    assert ReplaceFrom(Literal, ".tgz", s, ".tar", 0, 0) == s[0..3] + ".tar" + "";
    assert s[0..3] == "app";
  }

  /** A template destination rewrites the name relative to the walked
      directory: "out/app.tgz" under "out" becomes "app.tar". */
  lemma TemplateScenario()
    ensures Match(Literal, ["out", "out/app.tgz"], ".tgz") == Ok("out/app.tgz")
    ensures RemotePath(Literal, "out", "out/app.tgz", ".tgz", ".tar") == "app.tar"
  {
    TemplateScenarioMatch();
    TemplateScenarioKey();
  }

  /** Template ".tar" for pattern ".tgz" puts "out/app.tgz" at "app.tar". */
  lemma TemplateScenarioKey()
    ensures RemotePath(Literal, "out", "out/app.tgz", ".tgz", ".tar") == "app.tar"
  {
    TemplateScenarioReplace();
    RelativeOutApp();
    assert DestinationOf(".tar").Template?;
  }

  /** "out/app.tgz" relative to "out" is "app.tgz". */
  lemma RelativeOutApp()
    ensures RelativeName("out", "out/app.tgz") == "app.tgz"
  {
    assert "out" + "/" <= "out/app.tgz";
    assert "out/app.tgz"[4..] == "app.tgz";
  }

  /** Where "app" occurs in the other scenario paths. */
  lemma AppFacts()
    ensures FindLiteral("app", "out/app.zip", 0) == Some(Span(4, 7))
    ensures FindLiteral("app", "out/lib.so", 0) == None
  {
    var a, b := "out/app.zip", "out/lib.so";
    assert a[4..7] == "app";
    forall j | 0 <= j < |a| && a[j] == 'a' ensures j == 4 {
      assert j == 0 || j == 1 || j == 2 || j == 3 || j == 4 || j == 5 || j == 6
          || j == 7 || j == 8 || j == 9 || j == 10;
    }
    forall j | 0 <= j < |b| ensures b[j] != 'a' {
      assert j == 0 || j == 1 || j == 2 || j == 3 || j == 4 || j == 5 || j == 6
          || j == 7 || j == 8 || j == 9;
    }
    FindLiteralByFirstChar("app", a, 4);
    FindLiteralByFirstChar("app", b, 0);
  }

  /** Two matching files are an error that lists both. */
  lemma AmbiguousScenario()
    ensures Match(Literal, ["out", "out/app.tgz", "out/app.zip"], "app")
         == Err(Ambiguous("app", ["out/app.tgz", "out/app.zip"]))
  {
    AppInOut();
    AppInOutApp();
    AppFacts();
    var walked := ["out", "out/app.tgz", "out/app.zip"];
    assert walked[1..][1..] == ["out/app.zip"];
    assert Matching(Literal, walked[1..][1..], "app") == ["out/app.zip"];
    assert walked[1..] == ["out/app.tgz", "out/app.zip"];
    assert Matching(Literal, walked[1..], "app") == ["out/app.tgz", "out/app.zip"];
    assert Matching(Literal, walked, "app") == ["out/app.tgz", "out/app.zip"];
  }

  /** No matching file is an error that names the pattern. */
  lemma NoMatchScenario()
    ensures Match(Literal, ["out", "out/lib.so"], "app") == Err(NoMatch("app"))
  {
    AppInOut();
    AppFacts();
    var walked := ["out", "out/lib.so"];
    assert walked[1..] == ["out/lib.so"];
    assert Matching(Literal, walked[1..], "app") == [];
    assert Matching(Literal, walked, "app") == [];
  }

  /** The base name of "releases/app.tgz" is "app.tgz". */
  lemma BaseOfReleasesApp()
    ensures Base("releases/app.tgz") == "app.tgz"
  {
    var dir, name := "releases/", "app.tgz";
    assert dir + name == "releases/app.tgz";
    assert HasSuffix(dir, "/");
    AppHasNoSlash();
    BaseOfJoin(dir, name);
  }

  /** A private bucket's metadata is the file name alone. */
  lemma PrivateScenario(cmd: OutCommand, md: seq<MetadataPair>)
    requires cmd.IsMetadata(md, "bucket", "releases/app.tgz", true)
    ensures md == [MetadataPair("filename", "app.tgz")]
  {
    BaseOfReleasesApp();
  }

  /** A whole publication into a private bucket whose store accepts every
      upload: one upload, of the matched file, to the reported key. */
  method PublishScenario() returns (response: OutResponse, err: Option<Error>, uploads: seq<Upload>)
    ensures err == None
    ensures response == OutResponse(Version("releases/app.tgz"), [MetadataPair("filename", "app.tgz")])
    ensures uploads == [Upload("bucket", "releases/app.tgz", "out/app.tgz")]
  {
    var client := new S3Client(u => None, (bucket, key, signed) => "https://" + bucket + "/" + key);
    var cmd := new OutCommand(client);
    var request := OutRequest(Source("bucket", true), Params("app", "releases/"));
    FolderScenario();
    BaseOfReleasesApp();
    response, err := cmd.Run("out", request, ["out", "out/app.tgz"], Literal);
    PrivateScenario(cmd, response.metadata);
    uploads := client.uploads;
  }
}
