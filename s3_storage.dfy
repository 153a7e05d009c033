/**
 * The S3 storage backend of nfui (nfui/utils/storage/s3.py): splitting a path into bucket
 * and key, the `s3://` URIs, the listing of buckets and of one level of a bucket, and the
 * download URL. What S3 answers (the buckets, the pages of a listing, a presigned URL) is
 * given as input, and the bucket-name patterns are matched by a given predicate.
 */
module S3Storage {

  import opened Wrappers
  import opened Strings

  /** `get_uri(path)`. */
  function GetUri(path: string): (uri: string)
    ensures StartsWith(uri, "s3://") && uri[5..] == path
  {
    "s3://" + path
  }

  /** `_parse_path(path)`: `path.split('/', 1)`; the key is empty when there is no `/`. */
  function ParsePath(path: string): (r: (string, string))
    ensures '/' !in r.0
    ensures '/' !in path ==> r == (path, "")
    ensures '/' in path ==> path == r.0 + "/" + r.1
  {
    match IndexOf(path, '/')
    case None => (path, "")
    case Some(i) =>
      assert path == path[..i] + "/" + path[i + 1..];
      (path[..i], path[i + 1..])
  }

  /** A bucket followed by `/` and any key, even one with more `/`s, is split back into the two. */
  lemma ParsePathJoin(bucket: string, key: string)
    requires '/' !in bucket
    ensures ParsePath(bucket + "/" + key) == (bucket, key)
  {
    var path := bucket + "/" + key;
    assert path[|bucket|] == '/';
    assert '/' in path;
    var (b, k) := ParsePath(path);
    if |b| != |bucket| {
      assert false;
    }
    assert b == bucket;
  }

  /** The listing prefix: a non-empty prefix gets a trailing `/` when it has none. */
  function NormalizePrefix(prefix: string): (p: string)
    ensures prefix == "" ==> p == ""
    ensures prefix != "" ==> EndsWith(p, "/")
    ensures prefix != "" && !EndsWith(prefix, "/") ==> p == prefix + "/"
    ensures EndsWith(prefix, "/") ==> p == prefix
  {
    if prefix != "" && !EndsWith(prefix, "/") then
      assert (prefix + "/")[|prefix + "/"| - 1..] == "/";
      prefix + "/"
    else prefix
  }

  lemma NormalizePrefixIdempotent(prefix: string)
    ensures NormalizePrefix(NormalizePrefix(prefix)) == NormalizePrefix(prefix)
  {
  }

  datatype Kind = Directory | File

  /** One listed entry; times are opaque numbers. */
  datatype Entry = Entry(name: string, uri: string, kind: Kind, created: Option<int>, modified: Option<int>,
                         size: Option<int>)

  datatype Bucket = Bucket(name: string, creationDate: int)
  datatype S3Object = S3Object(key: string, lastModified: int, size: int)

  /** One page of `list_objects_v2` with `Delimiter='/'`. */
  datatype Page = Page(commonPrefixes: seq<string>, contents: seq<S3Object>)

  /** The name of a common prefix: its last segment once trailing `/`s are stripped. */
  function DirName(prefix: string): (name: string)
    ensures '/' !in name
  {
    LastPartSuffix(RStripChar(prefix, '/'), '/');
    LastPart(RStripChar(prefix, '/'), '/')
  }

  /** The name of an object: the last `/`-segment of its key. */
  function FileName(key: string): (name: string)
    ensures '/' !in name && EndsWith(key, name)
  {
    LastPartSuffix(key, '/');
    LastPart(key, '/')
  }

  function BucketEntry(b: Bucket): Entry
  {
    Entry(b.name, GetUri(b.name), Directory, Some(b.creationDate), Some(b.creationDate), None)
  }

  function DirEntry(bucket: string, prefix: string): Entry
  {
    Entry(DirName(prefix), GetUri(bucket + "/" + prefix), Directory, None, None, None)
  }

  function FileEntry(bucket: string, obj: S3Object): Entry
  {
    Entry(FileName(obj.key), GetUri(bucket + "/" + obj.key), File, None, Some(obj.lastModified), Some(obj.size))
  }

  /** A bucket is listed when its name matches at least one pattern. */
  predicate Visible(patterns: seq<string>, matches: (string, string) -> bool, name: string)
  {
    exists i :: 0 <= i < |patterns| && matches(patterns[i], name)
  }

  /** Every bucket's name matches some pattern. */
  predicate AllVisible(buckets: seq<Bucket>, patterns: seq<string>, matches: (string, string) -> bool)
  {
    forall i :: 0 <= i < |buckets| ==> Visible(patterns, matches, buckets[i].name)
  }

  /**
   * The bucket listing, in the order S3 gives the buckets: at most one entry per bucket,
   * and one for each when every bucket is visible.
   */
  function BucketEntries(buckets: seq<Bucket>, patterns: seq<string>, matches: (string, string) -> bool)
    : (r: seq<Entry>)
    ensures |r| <= |buckets|
    ensures AllVisible(buckets, patterns, matches) ==> |r| == |buckets|
  {
    if |buckets| == 0 then []
    else
      var rest := BucketEntries(buckets[..|buckets| - 1], patterns, matches);
      var b := buckets[|buckets| - 1];
      if Visible(patterns, matches, b.name) then rest + [BucketEntry(b)] else rest
  }

  /** The entries of one page: its common prefixes first, then its objects. */
  function PageEntries(bucket: string, page: Page): (r: seq<Entry>)
    ensures |r| == |page.commonPrefixes| + |page.contents|
    ensures forall i :: 0 <= i < |page.commonPrefixes| ==> r[i] == DirEntry(bucket, page.commonPrefixes[i])
    ensures forall i :: 0 <= i < |page.contents| ==> r[|page.commonPrefixes| + i] == FileEntry(bucket, page.contents[i])
  {
    seq(|page.commonPrefixes|, i requires 0 <= i < |page.commonPrefixes| => DirEntry(bucket, page.commonPrefixes[i]))
    + seq(|page.contents|, i requires 0 <= i < |page.contents| => FileEntry(bucket, page.contents[i]))
  }

  /** The listing of a bucket level: the pages' entries one after another. */
  function PagesEntries(bucket: string, pages: seq<Page>): seq<Entry>
  {
    if |pages| == 0 then []
    else PagesEntries(bucket, pages[..|pages| - 1]) + PageEntries(bucket, pages[|pages| - 1])
  }

  /**
   * `list(path)`: the visible buckets for an empty path; otherwise the level of the bucket
   * under the normalised prefix, as the pages `paginate(bucket, prefix)` give it. The top
   * level holds only directories without a size; below it, every entry lies in the bucket
   * the path names.
   */
  function List(path: string, buckets: seq<Bucket>, patterns: seq<string>, matches: (string, string) -> bool,
                paginate: (string, string) -> seq<Page>): (r: seq<Entry>)
    ensures path == "" ==> forall e :: e in r ==> e.kind == Directory && e.size.None?
    ensures path != "" ==> forall e :: e in r ==> StartsWith(e.uri, "s3://" + ParsePath(path).0 + "/")
  {
    if path == "" then
      BucketEntriesExact(buckets, patterns, matches);
      BucketEntries(buckets, patterns, matches)
    else
      var (bucket, prefix) := ParsePath(path);
      PagesUris(bucket, paginate(bucket, NormalizePrefix(prefix)));
      PagesEntries(bucket, paginate(bucket, NormalizePrefix(prefix)))
  }

  /**
   * The bucket listing holds exactly the visible buckets, each as a directory with no size,
   * whose URI is `s3://<name>`.
   */
  lemma {:induction false} BucketEntriesExact(buckets: seq<Bucket>, patterns: seq<string>, matches: (string, string) -> bool)
    ensures forall e :: e in BucketEntries(buckets, patterns, matches) ==>
      e.kind == Directory && e.size.None? && e.uri == GetUri(e.name) && Visible(patterns, matches, e.name)
    ensures forall b :: b in buckets ==>
      (BucketEntry(b) in BucketEntries(buckets, patterns, matches) <==> Visible(patterns, matches, b.name))
  {
    if |buckets| > 0 {
      var init := buckets[..|buckets| - 1];
      BucketEntriesExact(init, patterns, matches);
      forall b | b in buckets
        ensures b in init || b == buckets[|buckets| - 1]
      {
        var k :| 0 <= k < |buckets| && buckets[k] == b;
        if k < |buckets| - 1 {
          assert init[k] == b;
        }
      }
    }
  }

  /** Within one page the directories come before the files. */
  lemma PageOrder(bucket: string, page: Page)
    ensures var es := PageEntries(bucket, page);
      forall i, j :: 0 <= i < j < |es| && es[j].kind == Directory ==> es[i].kind == Directory
  {
    var es := PageEntries(bucket, page);
    forall i, j | 0 <= i < j < |es| && es[j].kind == Directory
      ensures es[i].kind == Directory
    {
      if j >= |page.commonPrefixes| {
        assert false;
      }
    }
  }

  /** Every entry of a page has its URI under `s3://<bucket>/`. */
  lemma PageUris(bucket: string, page: Page)
    ensures forall e :: e in PageEntries(bucket, page) ==> StartsWith(e.uri, "s3://" + bucket + "/")
  {
    var es := PageEntries(bucket, page);
    var head := "s3://" + bucket + "/";
    forall k | 0 <= k < |es|
      ensures StartsWith(es[k].uri, head)
    {
      var rest := if k < |page.commonPrefixes| then page.commonPrefixes[k] else page.contents[k - |page.commonPrefixes|].key;
      assert es[k].uri == head + rest;
      assert es[k].uri[..|head|] == head;
    }
  }

  /** Every entry of a run of pages has its URI under `s3://<bucket>/`. */
  lemma {:induction false} PagesUris(bucket: string, pages: seq<Page>)
    ensures forall e :: e in PagesEntries(bucket, pages) ==> StartsWith(e.uri, "s3://" + bucket + "/")
  {
    if |pages| > 0 {
      PagesUris(bucket, pages[..|pages| - 1]);
      PageUris(bucket, pages[|pages| - 1]);
    }
  }

  /** Every file entry is named by the last segment of its key, and no entry name holds a `/`. */
  lemma EntryNames(bucket: string, page: Page)
    ensures forall e :: e in PageEntries(bucket, page) ==> '/' !in e.name
    ensures forall o :: o in page.contents ==> FileEntry(bucket, o).name == LastPart(o.key, '/')
  {
  }

  /** `get_download_url(path)`: the presigned URL, or the app's own download route when presigning raises. */
  function DownloadUrl(storageName: string, path: string, presigned: Result<string, string>): (url: string)
    ensures presigned.Ok? ==> url == presigned.value
    ensures presigned.Err? ==> url == "/api/storage/download?storage=" + storageName + "&path=" + path
  {
    match presigned
    case Ok(u) => u
    case Err(_) => "/api/storage/download?storage=" + storageName + "&path=" + path
  }

  /** `S3File`: the backend's name and bucket patterns. */
  class S3File {
    const name: string
    const bucketPatterns: seq<string>

    constructor(name: string, bucketPatterns: seq<string>)
      ensures this.name == name && this.bucketPatterns == bucketPatterns
    {
      this.name := name;
      this.bucketPatterns := bucketPatterns;
    }

    /** `list(path)`: the entries are appended page by page, directories before files. */
    method ListEntries(path: string, buckets: seq<Bucket>, matches: (string, string) -> bool,
                       paginate: (string, string) -> seq<Page>) returns (items: seq<Entry>)
      ensures items == List(path, buckets, bucketPatterns, matches, paginate)
    {
      items := [];
      if path == "" {
        var i := 0;
        while i < |buckets|
          invariant 0 <= i <= |buckets|
          invariant items == BucketEntries(buckets[..i], bucketPatterns, matches)
        {
          assert buckets[..i + 1][..i] == buckets[..i];
          if exists k :: 0 <= k < |bucketPatterns| && matches(bucketPatterns[k], buckets[i].name) {
            items := items + [BucketEntry(buckets[i])];
          }
          i := i + 1;
        }
        assert buckets[..i] == buckets;
        return;
      }
      var (bucket, prefix) := ParsePath(path);
      if prefix != "" && !EndsWith(prefix, "/") {
        prefix := prefix + "/";
      }
      var pages := paginate(bucket, prefix);
      var i := 0;
      while i < |pages|
        invariant 0 <= i <= |pages|
        invariant items == PagesEntries(bucket, pages[..i])
      {
        assert pages[..i + 1][..i] == pages[..i];
        items := AppendPage(items, bucket, pages[i]);
        i := i + 1;
      }
      assert pages[..i] == pages;
    }

    /** The body of the page loop: the page's directories, then its files. */
    static method AppendPage(items: seq<Entry>, bucket: string, page: Page) returns (r: seq<Entry>)
      ensures r == items + PageEntries(bucket, page)
    {
      ghost var es := PageEntries(bucket, page);
      var dirs := |page.commonPrefixes|;
      r := items;
      var j := 0;
      while j < dirs
        invariant 0 <= j <= dirs
        invariant |r| == |items| + j && r[..|items|] == items
        invariant forall t :: 0 <= t < j ==> r[|items| + t] == es[t]
      {
        r := r + [DirEntry(bucket, page.commonPrefixes[j])];
        j := j + 1;
      }
      var k := 0;
      while k < |page.contents|
        invariant 0 <= k <= |page.contents|
        invariant |r| == |items| + dirs + k && r[..|items|] == items
        invariant forall t :: 0 <= t < dirs + k ==> r[|items| + t] == es[t]
      {
        r := r + [FileEntry(bucket, page.contents[k])];
        k := k + 1;
      }
      assert forall t :: 0 <= t < |r| ==> r[t] == (items + es)[t] by {
        forall t | 0 <= t < |r| ensures r[t] == (items + es)[t] {
          if t < |items| {
            assert r[t] == r[..|items|][t];
          }
        }
      }
    }
  }
}
