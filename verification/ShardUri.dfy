/** Versioned shard URIs: scheme, four path segments, and a file name made of a
    shard id, a hyphen, sixteen hex digits and a suffix. The digest of the
    content is a parameter. */
module ShardUri {
  const SCHEME := "s3://"
  const SUFFIX := ".bin"
  const HASH_LENGTH := 16

  datatype Parts = Parts(bucket: string, tenant: string, dataset: string, shardId: string, hash: string)

  datatype Error = NotS3 | WrongShape | EmptyComponent | WrongSuffix | NoHash | EmptyShardId | BadHash

  datatype Result = Ok(parts: Parts) | Err(error: Error)

  predicate StartsWith(s: string, prefix: string) { |prefix| <= |s| && s[..|prefix|] == prefix }

  predicate EndsWith(s: string, suffix: string) { |suffix| <= |s| && s[|s| - |suffix|..] == suffix }

  predicate IsHexDigit(c: char) { '0' <= c <= '9' || 'a' <= c <= 'f' }

  predicate IsHash(s: string) { |s| == HASH_LENGTH && forall c :: c in s ==> IsHexDigit(c) }

  /** Python's str.split on one character. */
  function Split(s: string, sep: char): (parts: seq<string>)
    ensures |parts| >= 1
  {
    if s == "" then [""]
    else
      var rest := Split(s[1..], sep);
      if s[0] == sep then [""] + rest else [[s[0]] + rest[0]] + rest[1..]
  }

  /** Position of the last separator; rpartition and rsplit cut there. */
  function LastIndex(s: string, sep: char): (k: nat)
    requires sep in s
    ensures k < |s| && s[k] == sep && forall j :: k < j < |s| ==> s[j] != sep
  {
    if s[|s| - 1] == sep then |s| - 1
    else assert s == s[..|s| - 1] + [s[|s| - 1]]; LastIndex(s[..|s| - 1], sep)
  }

  function AfterLast(s: string, sep: char): string {
    if sep in s then s[LastIndex(s, sep) + 1..] else s
  }

  function FileName(shardId: string, hash: string): string { shardId + "-" + hash + SUFFIX }

  function Path(p: Parts): string {
    p.bucket + "/" + p.tenant + "/" + p.dataset + "/" + FileName(p.shardId, p.hash)
  }

  /** The URI of some parts. */
  function Render(p: Parts): string { SCHEME + Path(p) }

  /** Build a URI from the parts and the first hex digits of the content digest. */
  function Build(bucket: string, tenant: string, dataset: string, shardId: string, digest: string): string
    requires |digest| >= HASH_LENGTH
  {
    Render(Parts(bucket, tenant, dataset, shardId, digest[..HASH_LENGTH]))
  }

  function ParseStem(bucket: string, tenant: string, dataset: string, stem: string): Result {
    if '-' !in stem then Err(NoHash)
    else
      var k := LastIndex(stem, '-');
      if k == 0 then Err(EmptyShardId)
      else if !IsHash(stem[k + 1..]) then Err(BadHash)
      else Ok(Parts(bucket, tenant, dataset, stem[..k], stem[k + 1..]))
  }

  function Parse(uri: string): Result {
    if !StartsWith(uri, SCHEME) then Err(NotS3)
    else
      var parts := Split(uri[|SCHEME|..], '/');
      if |parts| != 4 then Err(WrongShape)
      else if "" in parts then Err(EmptyComponent)
      else if !EndsWith(parts[3], SUFFIX) then Err(WrongSuffix)
      else ParseStem(parts[0], parts[1], parts[2], parts[3][..|parts[3]| - |SUFFIX|])
  }

  /** A shard file from before versioning. */
  function IsLegacy(uri: string): bool {
    && StartsWith(uri, SCHEME)
    && EndsWith(uri, SUFFIX)
    && Parse(uri).Err?
    && StartsWith(AfterLast(uri, '/'), "shard-")
  }

  // ----- splitting -----

  function Join(parts: seq<string>, sep: char): string
    requires |parts| >= 1
  {
    if |parts| == 1 then parts[0] else parts[0] + [sep] + Join(parts[1..], sep)
  }

  lemma {:induction false} JoinSplit(s: string, sep: char)
    ensures Join(Split(s, sep), sep) == s
    ensures forall i :: 0 <= i < |Split(s, sep)| ==> sep !in Split(s, sep)[i]
  {
    if s != "" {
      var rest, parts := Split(s[1..], sep), Split(s, sep);
      JoinSplit(s[1..], sep);
      if s[0] == sep {
        assert parts[1..] == rest;
      } else {
        assert parts[1..] == rest[1..];
        assert s == [s[0]] + s[1..];
      }
    }
  }

  lemma {:induction false} SplitPlain(s: string, sep: char)
    requires sep !in s
    ensures Split(s, sep) == [s]
  {
    if s != "" {
      SplitPlain(s[1..], sep);
      assert s == [s[0]] + s[1..];
    }
  }

  lemma {:induction false} SplitCons(a: string, sep: char, b: string)
    requires sep !in a
    ensures Split(a + [sep] + b, sep) == [a] + Split(b, sep)
  {
    var s := a + [sep] + b;
    if a == "" {
      assert s[1..] == b;
    } else {
      assert s[1..] == a[1..] + [sep] + b;
      SplitCons(a[1..], sep, b);
      assert a == [a[0]] + a[1..];
    }
  }

  lemma SplitPath(p: Parts)
    requires '/' !in p.bucket && '/' !in p.tenant && '/' !in p.dataset && '/' !in FileName(p.shardId, p.hash)
    ensures Split(Path(p), '/') == [p.bucket, p.tenant, p.dataset, FileName(p.shardId, p.hash)]
  {
    var name := FileName(p.shardId, p.hash);
    var tail2 := p.dataset + "/" + name;
    var tail1 := p.tenant + "/" + tail2;
    assert Path(p) == p.bucket + "/" + tail1;
    SplitPlain(name, '/');
    SplitCons(p.dataset, '/', name);
    SplitCons(p.tenant, '/', tail2);
    SplitCons(p.bucket, '/', tail1);
  }

  lemma {:induction false} LastIndexIs(s: string, sep: char, k: nat)
    requires k < |s| && s[k] == sep && forall j :: k < j < |s| ==> s[j] != sep
    ensures LastIndex(s, sep) == k
  {
  }

  // ----- round trips -----

  /** Components a URI can carry: no slash anywhere, nothing empty. */
  predicate Plain(p: Parts) {
    && p.bucket != "" && p.tenant != "" && p.dataset != "" && p.shardId != ""
    && '/' !in p.bucket && '/' !in p.tenant && '/' !in p.dataset && '/' !in p.shardId
  }

  lemma HashIsPlain(hash: string)
    requires IsHash(hash)
    ensures '/' !in hash && '-' !in hash
  {
  }

  lemma ParseStemOfParts(p: Parts)
    requires IsHash(p.hash) && p.shardId != ""
    ensures ParseStem(p.bucket, p.tenant, p.dataset, p.shardId + "-" + p.hash) == Ok(p)
  {
    var stem := p.shardId + "-" + p.hash;
    HashIsPlain(p.hash);
    assert stem[|p.shardId|] == '-';
    LastIndexIs(stem, '-', |p.shardId|);
    assert stem[..|p.shardId|] == p.shardId && stem[|p.shardId| + 1..] == p.hash;
  }

  lemma NameAndStem(shardId: string, hash: string)
    ensures var name, stem := FileName(shardId, hash), shardId + "-" + hash;
      EndsWith(name, SUFFIX) && name[..|name| - |SUFFIX|] == stem
  {
    var name, stem := FileName(shardId, hash), shardId + "-" + hash;
    assert name == stem + SUFFIX;
  }

  lemma SplitRendered(p: Parts)
    requires Plain(p) && IsHash(p.hash)
    ensures StartsWith(Render(p), SCHEME)
    ensures Split(Render(p)[|SCHEME|..], '/') == [p.bucket, p.tenant, p.dataset, FileName(p.shardId, p.hash)]
  {
    HashIsPlain(p.hash);
    assert Render(p)[|SCHEME|..] == Path(p) && Render(p)[..|SCHEME|] == SCHEME;
    SplitPath(p);
  }

  lemma ParseRendered(p: Parts)
    requires Plain(p) && IsHash(p.hash)
    ensures Parse(Render(p)) == Ok(p)
  {
    SplitRendered(p);
    NameAndStem(p.shardId, p.hash);
    ParseStemOfParts(p);
  }

  lemma SlashFreePrefix(name: string, k: nat)
    requires '/' !in name && k <= |name|
    ensures '/' !in name[..k]
  {
  }

  lemma JoinFour(parts: seq<string>)
    requires |parts| == 4
    ensures Join(parts, '/') == parts[0] + "/" + parts[1] + "/" + parts[2] + "/" + parts[3]
  {
    assert parts[1..][1..] == parts[2..] && parts[2..][1..] == parts[3..];
    assert Join(parts[3..], '/') == parts[3];
    assert Join(parts[2..], '/') == parts[2] + "/" + parts[3];
    assert Join(parts[1..], '/') == parts[1] + "/" + (parts[2] + "/" + parts[3]);
  }

  /** Every accepted URI is the rendering, character for character, of parts a
      builder could have been given. */
  lemma ParsedIsRendered(uri: string)
    requires Parse(uri).Ok?
    ensures var p := Parse(uri).parts; Plain(p) && IsHash(p.hash) && uri == Render(p)
  {
    var path := uri[|SCHEME|..];
    var parts, p := Split(path, '/'), Parse(uri).parts;
    JoinSplit(path, '/');
    var name := parts[3];
    var stem := name[..|name| - |SUFFIX|];
    var k := LastIndex(stem, '-');
    assert name == stem + SUFFIX;
    assert stem == stem[..k] + "-" + stem[k + 1..];
    assert p == Parts(parts[0], parts[1], parts[2], stem[..k], stem[k + 1..]);
    assert name == FileName(p.shardId, p.hash);
    SlashFreePrefix(name, k);
    JoinFour(parts);
    assert parts[0] in parts && parts[1] in parts && parts[2] in parts;
    assert uri == SCHEME + path;
  }

  /** Building then parsing returns the parts exactly when none is empty and
      none contains a slash; hyphens in the shard id do no harm. */
  lemma BuildParses(bucket: string, tenant: string, dataset: string, shardId: string, digest: string)
    requires |digest| >= HASH_LENGTH && forall c :: c in digest ==> IsHexDigit(c)
    ensures var p := Parts(bucket, tenant, dataset, shardId, digest[..HASH_LENGTH]);
      Parse(Build(bucket, tenant, dataset, shardId, digest)) == Ok(p) <==> Plain(p)
  {
    var p := Parts(bucket, tenant, dataset, shardId, digest[..HASH_LENGTH]);
    assert forall c :: c in digest[..HASH_LENGTH] ==> c in digest;
    if Plain(p) {
      ParseRendered(p);
    }
    if Parse(Render(p)) == Ok(p) {
      ParsedIsRendered(Render(p));
    }
  }

  /** The accepted language: exactly the renderings of plain parts with a hash. */
  lemma AcceptedLanguage(uri: string)
    ensures Parse(uri).Ok? <==> exists p :: Plain(p) && IsHash(p.hash) && uri == Render(p)
  {
    if Parse(uri).Ok? {
      ParsedIsRendered(uri);
    }
    if p :| Plain(p) && IsHash(p.hash) && uri == Render(p) {
      ParseRendered(p);
    }
  }

  /** Two contents with the same parts share a URI exactly when their digests
      begin alike, and URIs of different parts never coincide. */
  lemma RenderingsAreUnique(p: Parts, q: Parts)
    requires Plain(p) && Plain(q) && IsHash(p.hash) && IsHash(q.hash)
    ensures Render(p) == Render(q) <==> p == q
  {
    ParseRendered(p);
    ParseRendered(q);
  }

  const EXAMPLE := Parts("b", "t", "d", "a-1", "0123456789abcdef")

  lemma ExampleIsPlain()
    ensures Plain(EXAMPLE) && IsHash(EXAMPLE.hash)
  {
  }

  lemma ExampleName()
    ensures FileName("a-1", "0123456789abcdef") == "a-1-0123456789abcdef.bin"
  {
  }

  lemma ExamplePath(name: string)
    ensures SCHEME + ("b" + "/" + "t" + "/" + "d" + "/" + name) == "s3://b/t/d/" + name
  {
    assert "b" + "/" + "t" + "/" + "d" + "/" + name == "b/t/d/" + name;
  }

  lemma ExampleIsRendered()
    ensures Render(EXAMPLE) == "s3://b/t/d/" + "a-1-0123456789abcdef.bin"
  {
    ExampleName();
    ExamplePath("a-1-0123456789abcdef.bin");
  }

  lemma HexDigit(c: char)
    ensures IsHexDigit(c) <==> c in "0123456789abcdef"
  {
    var digits := "0123456789abcdef";
    if '0' <= c <= '9' {
      assert digits[c as int - '0' as int] == c;
    } else if 'a' <= c <= 'f' {
      assert digits[10 + c as int - 'a' as int] == c;
    }
  }

  /** A hash is sixteen lower-case hex digits. */
  lemma HashesAreSixteenHexDigits(s: string)
    ensures IsHash(s) <==> |s| == 16 && forall c :: c in s ==> c in "0123456789abcdef"
  {
    forall c: char ensures IsHexDigit(c) <==> c in "0123456789abcdef" {
      HexDigit(c);
    }
  }

  /** One URI, spelt out. */
  lemma ExampleUri()
    ensures var uri := "s3://b/t/d/" + "a-1-0123456789abcdef.bin";
      Render(EXAMPLE) == uri && Parse(uri) == Ok(EXAMPLE)
  {
    ExampleIsPlain();
    ExampleIsRendered();
    ParseRendered(EXAMPLE);
  }

  // ----- legacy names -----

  function LegacyUri(bucket: string, tenant: string, dataset: string, id: string): string {
    SCHEME + (bucket + "/" + tenant + "/" + dataset + "/" + ("shard-" + id + SUFFIX))
  }

  lemma SplitLegacy(bucket: string, tenant: string, dataset: string, id: string)
    requires '/' !in bucket && '/' !in tenant && '/' !in dataset && '/' !in id
    ensures var uri := LegacyUri(bucket, tenant, dataset, id);
      StartsWith(uri, SCHEME) && Split(uri[|SCHEME|..], '/') == [bucket, tenant, dataset, "shard-" + id + SUFFIX]
  {
    var name := "shard-" + id + SUFFIX;
    var tail2 := dataset + "/" + name;
    var tail1 := tenant + "/" + tail2;
    var uri := LegacyUri(bucket, tenant, dataset, id);
    assert uri[|SCHEME|..] == bucket + "/" + tail1;
    SplitPlain(name, '/');
    SplitCons(dataset, '/', name);
    SplitCons(tenant, '/', tail2);
    SplitCons(bucket, '/', tail1);
  }

  lemma ParseLegacy(bucket: string, tenant: string, dataset: string, id: string)
    requires bucket != "" && tenant != "" && dataset != ""
    requires '/' !in bucket && '/' !in tenant && '/' !in dataset && '/' !in id
    ensures Parse(LegacyUri(bucket, tenant, dataset, id)) == ParseStem(bucket, tenant, dataset, "shard-" + id)
  {
    var stem := "shard-" + id;
    var name := stem + SUFFIX;
    SplitLegacy(bucket, tenant, dataset, id);
    assert name[|name| - |SUFFIX|..] == SUFFIX && name[..|name| - |SUFFIX|] == stem;
  }

  lemma LegacyChunk(id: string)
    ensures var stem := "shard-" + id;
      '-' in stem && LastIndex(stem, '-') >= 5 && stem[LastIndex(stem, '-') + 1..] == AfterLast(id, '-')
  {
    var stem := "shard-" + id;
    assert stem[5] == '-';
    if '-' in id {
      var k := LastIndex(id, '-');
      assert forall j :: 6 <= j < |stem| ==> stem[j] == id[j - 6];
      LastIndexIs(stem, '-', k + 6);
      assert stem[k + 7..] == id[k + 1..];
    } else {
      assert forall j :: 6 <= j < |stem| ==> stem[j] == id[j - 6];
      LastIndexIs(stem, '-', 5);
      assert stem[6..] == id;
    }
  }

  lemma LegacyName(bucket: string, tenant: string, dataset: string, id: string)
    requires '/' !in id
    ensures var uri, name := LegacyUri(bucket, tenant, dataset, id), "shard-" + id + SUFFIX;
      EndsWith(uri, SUFFIX) && AfterLast(uri, '/') == name && StartsWith(name, "shard-")
  {
    var uri, name := LegacyUri(bucket, tenant, dataset, id), "shard-" + id + SUFFIX;
    var head := SCHEME + bucket + "/" + tenant + "/" + dataset;
    assert uri == head + "/" + name;
    assert uri[|head|] == '/';
    assert '/' !in name;
    LastIndexIs(uri, '/', |head|);
    assert uri[|head| + 1..] == name;
    assert name[..6] == "shard-";
    assert uri[|uri| - 4..] == SUFFIX;
  }

  /** A file named shard-{id}.bin counts as legacy exactly when the chunk of its
      id after the last hyphen is not sixteen hex digits; otherwise it is taken
      for a versioned shard. */
  lemma LegacyUnlessItLooksHashed(bucket: string, tenant: string, dataset: string, id: string)
    requires bucket != "" && tenant != "" && dataset != ""
    requires '/' !in bucket && '/' !in tenant && '/' !in dataset && '/' !in id
    ensures IsLegacy(LegacyUri(bucket, tenant, dataset, id)) <==> !IsHash(AfterLast(id, '-'))
  {
    ParseLegacy(bucket, tenant, dataset, id);
    LegacyName(bucket, tenant, dataset, id);
    LegacyChunk(id);
  }

  /** No accepted URI is legacy. */
  lemma VersionedIsNotLegacy(p: Parts)
    requires Plain(p) && IsHash(p.hash)
    ensures !IsLegacy(Render(p))
  {
    ParseRendered(p);
  }
}
