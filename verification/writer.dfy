/**
 `writeFiles` as a whole: for each post, in order, make its directory, write
 its markdown document, and for each of its image URLs make the `images`
 folder and schedule the download. The file system is modelled as the set of
 directories that exist; file writes and downloads as the lists of calls made.
 */
module Writer {
  import opened Posts
  import PostPaths
  import FrontMatter
  import Dispatch
  import Dates

  /** A path and every path above it, down from the starting directory `[]`. */
  function Ancestors(dir: Path): set<Path> {
    set n | 0 <= n <= |dir| :: dir[..n]
  }

  /** A set of directories in which every directory's parents exist too. */
  ghost predicate PrefixClosed(dirs: set<Path>) {
    forall d, n :: d in dirs && 0 <= n <= |d| ==> d[..n] in dirs
  }

  lemma AncestorsClosed(dir: Path)
    ensures PrefixClosed(Ancestors(dir))
  {
    forall d, n | d in Ancestors(dir) && 0 <= n <= |d|
      ensures d[..n] in Ancestors(dir)
    {
      var m :| 0 <= m <= |dir| && d == dir[..m];
      assert d[..n] == dir[..n];
    }
  }

  /** `createDir`: nothing when the path exists, otherwise `mkdir -p`. */
  function CreateDir(existing: set<Path>, dir: Path): (r: set<Path>)
    ensures dir in r && existing <= r
    ensures dir in existing ==> r == existing
  {
    assert dir == dir[..|dir|];
    if dir in existing then existing else existing + Ancestors(dir)
  }

  /** On a file system where parents exist, `createDir` adds exactly the
      directory and its missing parents, and parents still exist afterwards. */
  lemma CreateDirClosed(existing: set<Path>, dir: Path)
    requires PrefixClosed(existing)
    ensures PrefixClosed(CreateDir(existing, dir))
    ensures CreateDir(existing, dir) == existing + Ancestors(dir)
  {
    AncestorsClosed(dir);
    if dir in existing {
      assert dir == dir[..|dir|];
    }
  }

  /** Making the same directory twice is the same as making it once. */
  lemma CreateDirIdempotent(existing: set<Path>, dir: Path)
    ensures CreateDir(CreateDir(existing, dir), dir) == CreateDir(existing, dir)
  {
  }

  /** The directories `writeFiles` creates for one post, with their parents:
      the post directory, and the image folder when the post has images. */
  function PostNeeded(post: Post, config: Config): set<Path> {
    Ancestors(PostPaths.PostDir(post, config))
    + (if |post.imageUrls| > 0 then Ancestors(Dispatch.ImageDir(post, config)) else {})
  }

  /** The same for a whole collection of posts. */
  function Needed(posts: seq<Post>, config: Config): set<Path>
    decreases |posts|
  {
    if |posts| == 0 then {} else PostNeeded(posts[0], config) + Needed(posts[1..], config)
  }

  /** One `fs.writeFile(path, data)` call. */
  datatype Written = Written(path: Path, data: string)

  /** The markdown file written for a post. */
  function DocumentOf(post: Post, config: Config): Written {
    Written(PostPaths.DocumentPath(post, config), FrontMatter.Document(post.frontmatter, post.content))
  }

  /** What `writeFiles` has done so far: the directories that exist, the
      documents written and the downloads scheduled, in order, and the
      counter's value. */
  datatype Progress = Progress(dirs: set<Path>, documents: seq<Written>, fetches: seq<Dispatch.Fetch>, delay: nat)

  /** One post's turn: make its directory, write its document, then for each
      URL make the image folder and schedule a download. */
  function Turn(p: Progress, post: Post, config: Config): Progress {
    var dirs := CreateDir(p.dirs, PostPaths.PostDir(post, config));
    var images := Dispatch.DispatchImages(Dispatch.ImageDir(post, config), post.imageUrls, p.delay);
    Progress(
      if |post.imageUrls| > 0 then CreateDir(dirs, Dispatch.ImageDir(post, config)) else dirs,
      p.documents + [DocumentOf(post, config)],
      p.fetches + images.0,
      images.1)
  }

  /** The posts' turns, one after another. */
  function Turns(p: Progress, posts: seq<Post>, config: Config): Progress
    decreases |posts|
  {
    if |posts| == 0 then p else Turns(Turn(p, posts[0], config), posts[1..], config)
  }

  /** The downloads the turns schedule are the dispatch plan, continued from
      the counter's current value. */
  lemma {:induction false} TurnsFetches(p: Progress, posts: seq<Post>, config: Config)
    ensures Turns(p, posts, config).fetches == p.fetches + Dispatch.DispatchPosts(posts, config, p.delay).0
    ensures Turns(p, posts, config).delay == Dispatch.DispatchPosts(posts, config, p.delay).1
    decreases |posts|
  {
    if |posts| == 0 {
      assert p.fetches + [] == p.fetches;
    } else {
      var q := Turn(p, posts[0], config);
      var first := Dispatch.DispatchImages(Dispatch.ImageDir(posts[0], config), posts[0].imageUrls, p.delay);
      assert q.fetches == p.fetches + first.0 && q.delay == first.1;
      TurnsFetches(q, posts[1..], config);
      var rest := Dispatch.DispatchPosts(posts[1..], config, first.1);
      Dispatch.DispatchPostsCons(posts, config, p.delay);
      assert Dispatch.DispatchPosts(posts, config, p.delay) == (first.0 + rest.0, rest.1);
      assert (p.fetches + first.0) + rest.0 == p.fetches + (first.0 + rest.0);
    }
  }

  /** The turns write one document per post, in post order, after the ones
      already written. */
  lemma {:induction false} TurnsDocuments(p: Progress, posts: seq<Post>, config: Config)
    ensures |Turns(p, posts, config).documents| == |p.documents| + |posts|
    ensures Turns(p, posts, config).documents[..|p.documents|] == p.documents
    ensures forall k :: 0 <= k < |posts| ==>
              Turns(p, posts, config).documents[|p.documents| + k] == DocumentOf(posts[k], config)
    decreases |posts|
  {
    if |posts| > 0 {
      var q := Turn(p, posts[0], config);
      TurnsDocuments(q, posts[1..], config);
      var docs := Turns(p, posts, config).documents;
      assert docs[..|q.documents|][..|p.documents|] == docs[..|p.documents|];
      forall k | 0 <= k < |posts|
        ensures docs[|p.documents| + k] == DocumentOf(posts[k], config)
      {
        if k == 0 {
          assert docs[..|q.documents|][|p.documents|] == docs[|p.documents|];
        } else {
          assert posts[1..][k - 1] == posts[k];
        }
      }
    }
  }

  /** The turns keep every directory that existed, make every post directory
      and every image folder of a post with images, and, on a file system
      where parents exist, make exactly those and their parents. */
  lemma {:induction false} TurnsDirs(p: Progress, posts: seq<Post>, config: Config)
    ensures p.dirs <= Turns(p, posts, config).dirs
    ensures forall k :: 0 <= k < |posts| ==> PostPaths.PostDir(posts[k], config) in Turns(p, posts, config).dirs
    ensures forall k :: 0 <= k < |posts| && |posts[k].imageUrls| > 0 ==>
              Dispatch.ImageDir(posts[k], config) in Turns(p, posts, config).dirs
    ensures PrefixClosed(p.dirs) ==>
              PrefixClosed(Turns(p, posts, config).dirs)
              && Turns(p, posts, config).dirs == p.dirs + Needed(posts, config)
    decreases |posts|
  {
    if |posts| > 0 {
      var post := posts[0];
      var q := Turn(p, post, config);
      var middle := CreateDir(p.dirs, PostPaths.PostDir(post, config));
      TurnsDirs(q, posts[1..], config);
      forall k | 0 < k < |posts|
        ensures posts[1..][k - 1] == posts[k]
      {
      }
      if PrefixClosed(p.dirs) {
        CreateDirClosed(p.dirs, PostPaths.PostDir(post, config));
        if |post.imageUrls| > 0 {
          CreateDirClosed(middle, Dispatch.ImageDir(post, config));
        }
      }
    }
  }

  /** The inner loop of `writeFiles` for one post: for each URL, make the
      image folder and schedule the download, the counter going up by
      `Stagger` each time. */
  method SaveImages(dirs: set<Path>, imageDir: Path, urls: seq<string>, delay: nat)
    returns (dirs': set<Path>, planned: seq<Dispatch.Fetch>, delay': nat)
    ensures planned == Dispatch.DispatchImages(imageDir, urls, delay).0
    ensures delay' == Dispatch.DispatchImages(imageDir, urls, delay).1
    ensures dirs' == if |urls| > 0 then CreateDir(dirs, imageDir) else dirs
  {
    dirs', planned, delay' := dirs, [], delay;
    var j := 0;
    while j < |urls|
      invariant j <= |urls|
      invariant delay' == delay + Dispatch.Stagger * j
      invariant |planned| == j
      invariant forall k :: 0 <= k < j ==> planned[k] == Dispatch.Fetch(imageDir, urls[k], delay + Dispatch.Stagger * k)
      invariant dirs' == if j > 0 then CreateDir(dirs, imageDir) else dirs
    {
      dirs' := CreateDir(dirs', imageDir);
      planned := planned + [Dispatch.Fetch(imageDir, urls[j], delay')];
      delay' := delay' + Dispatch.Stagger;
      j := j + 1;
    }
    Dispatch.DispatchImagesAt(imageDir, urls, delay);
  }

  /** `writeFiles` with the directories that exist beforehand: the directories
      that exist afterwards, the documents written in order, and the image
      downloads scheduled in order. */
  method WriteFiles(posts: seq<Post>, config: Config, existing: set<Path>)
    returns (dirs: set<Path>, documents: seq<Written>, fetches: seq<Dispatch.Fetch>)
    ensures fetches == Dispatch.Schedule(posts, config)
    ensures |documents| == |posts|
    ensures forall i :: 0 <= i < |posts| ==> documents[i] == DocumentOf(posts[i], config)
    ensures existing <= dirs
    ensures forall i :: 0 <= i < |posts| ==> PostPaths.PostDir(posts[i], config) in dirs
    ensures forall i :: 0 <= i < |posts| && |posts[i].imageUrls| > 0 ==> Dispatch.ImageDir(posts[i], config) in dirs
    ensures PrefixClosed(existing) ==> PrefixClosed(dirs) && dirs == existing + Needed(posts, config)
  {
    ghost var initial := Progress(existing, [], [], 0);
    var delay: nat := 0;
    dirs, documents, fetches := existing, [], [];
    var i := 0;
    while i < |posts|
      invariant i <= |posts|
      invariant Turns(Progress(dirs, documents, fetches, delay), posts[i..], config)
                == Turns(initial, posts, config)
    {
      assert posts[i..][0] == posts[i] && posts[i..][1..] == posts[i + 1..];
      var post := posts[i];
      var postDir := PostPaths.PostDir(post, config);
      dirs := CreateDir(dirs, postDir);
      documents := documents + [Written(PostPaths.DocumentPath(post, config),
                                        FrontMatter.Document(post.frontmatter, post.content))];
      var imageDir := postDir + ["images"];
      assert imageDir == Dispatch.ImageDir(post, config);
      var planned;
      dirs, planned, delay := SaveImages(dirs, imageDir, post.imageUrls, delay);
      fetches := fetches + planned;
      i := i + 1;
    }
    assert posts[i..] == [];
    TurnsFetches(initial, posts, config);
    TurnsDocuments(initial, posts, config);
    TurnsDirs(initial, posts, config);
  }

  /** A worked example: a post of 1 May 2023 with one image, written with
      year folders, post folders and date prefixes. */
  function ExamplePost(): Post {
    Post([("date", "2023-05-01")], "", "hello-world", ["http://x/a.png"], Dates.Date(2023, 5, 1))
  }

  function ExampleConfig(): Config {
    Config(["out"], false, true, true, true)
  }

  /** Its document goes to `out/2023/2023-05-01-hello-world/index.md`. */
  lemma ExampleDocumentPath()
    ensures PostPaths.PostDir(ExamplePost(), ExampleConfig()) == ["out", "2023", "2023-05-01-hello-world"]
    ensures PostPaths.DocumentPath(ExamplePost(), ExampleConfig())
            == ["out", "2023", "2023-05-01-hello-world", "index.md"]
  {
    var date := ExamplePost().date;
    assert Dates.YearText(date) == "2023";
    assert Dates.MonthText(date) == "05";
    assert Dates.DayText(date) == "01";
    assert Dates.Stamp(date) == "2023-05-01";
    assert PostPaths.WithDatePrefix(ExamplePost(), ExampleConfig(), "hello-world") == "2023-05-01-hello-world";
  }

  /** Its one image is fetched at once into the post folder's `images`. */
  lemma ExampleSchedule()
    ensures Dispatch.Schedule([ExamplePost()], ExampleConfig())
            == [Dispatch.Fetch(["out", "2023", "2023-05-01-hello-world", "images"], "http://x/a.png", 0)]
  {
    ExampleDocumentPath();
    var post, config := ExamplePost(), ExampleConfig();
    var dir := Dispatch.ImageDir(post, config);
    assert dir == ["out", "2023", "2023-05-01-hello-world", "images"];
    Dispatch.DispatchPostsCons([post], config, 0);
    assert [post][1..] == [];
    assert Dispatch.DispatchPosts([post], config, 0).0 == Dispatch.DispatchImages(dir, post.imageUrls, 0).0 + [];
  }
}
