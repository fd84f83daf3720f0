/**
 The image downloads `writeFiles` schedules: one fetch per image URL, in
 post-then-URL order, each delayed by a counter that starts at 0 and goes up
 by 25 after every image of every post.
 */
module Dispatch {
  import opened Posts
  import PostPaths

  /** Milliseconds between two consecutive image requests. */
  const Stagger: nat := 25

  /** One planned `writeImageFile(url, dir, delay)` call. */
  datatype Fetch = Fetch(dir: Path, url: string, delay: nat)

  /** The folder a post's images are saved in. */
  function ImageDir(post: Post, config: Config): Path {
    PostPaths.PostDir(post, config) + ["images"]
  }

  /** The images folder sits next to the post's document, in the same
      directory, and is never the document's own path. */
  lemma ImagesBesideDocument(post: Post, config: Config)
    ensures var d := ImageDir(post, config); var p := PostPaths.DocumentPath(post, config);
            && |d| == |p| && d[..|d| - 1] == p[..|p| - 1] && d[|d| - 1] == "images" && d != p
  {
    var d := ImageDir(post, config);
    var p := PostPaths.DocumentPath(post, config);
    PostPaths.PostFilenameReadsBack(post, config);
    var name := PostPaths.PostFilename(post, config);
    assert p[|p| - 1] == name;
    if !config.postFolders {
      assert name[|name| - 3..] == ".md";
      assert "images"[3..] != ".md";
    }
    assert d[|d| - 1] != p[|p| - 1];
  }

  /** The number of image URLs across `posts`, duplicates included. */
  function ImageCount(posts: seq<Post>): nat
    decreases |posts|
  {
    if |posts| == 0 then 0 else |posts[0].imageUrls| + ImageCount(posts[1..])
  }

  /** The inner loop over one post's URLs, threading the counter: the fetches
      it plans and the counter it leaves. */
  function DispatchImages(dir: Path, urls: seq<string>, delay: nat): (r: (seq<Fetch>, nat))
    ensures |r.0| == |urls|
    ensures r.1 == delay + Stagger * |urls|
    decreases |urls|
  {
    if |urls| == 0 then ([], delay)
    else
      var (rest, last) := DispatchImages(dir, urls[1..], delay + Stagger);
      ([Fetch(dir, urls[0], delay)] + rest, last)
  }

  /** URL `k` of a post is fetched `Stagger * k` after its first one, into the
      post's image folder. */
  lemma {:induction false} DispatchImagesAt(dir: Path, urls: seq<string>, delay: nat)
    ensures forall k :: 0 <= k < |urls| ==>
              DispatchImages(dir, urls, delay).0[k] == Fetch(dir, urls[k], delay + Stagger * k)
    decreases |urls|
  {
    if |urls| > 0 {
      DispatchImagesAt(dir, urls[1..], delay + Stagger);
      var rest := DispatchImages(dir, urls[1..], delay + Stagger).0;
      forall k | 0 < k < |urls|
        ensures DispatchImages(dir, urls, delay).0[k] == Fetch(dir, urls[k], delay + Stagger * k)
      {
        assert urls[1..][k - 1] == urls[k];
        assert delay + Stagger + Stagger * (k - 1) == delay + Stagger * k;
      }
    }
  }

  /** The outer loop over the posts, threading the same counter through every
      post. */
  function DispatchPosts(posts: seq<Post>, config: Config, delay: nat): (r: (seq<Fetch>, nat))
    ensures |r.0| == ImageCount(posts)
    ensures r.1 == delay + Stagger * ImageCount(posts)
    decreases |posts|
  {
    if |posts| == 0 then ([], delay)
    else
      var (first, next) := DispatchImages(ImageDir(posts[0], config), posts[0].imageUrls, delay);
      var (rest, last) := DispatchPosts(posts[1..], config, next);
      (first + rest, last)
  }

  /** The outer loop's first step: the first post's images, then the other
      posts from the counter those images left. */
  lemma DispatchPostsCons(posts: seq<Post>, config: Config, delay: nat)
    requires |posts| > 0
    ensures var first := DispatchImages(ImageDir(posts[0], config), posts[0].imageUrls, delay);
            DispatchPosts(posts, config, delay).0 == first.0 + DispatchPosts(posts[1..], config, first.1).0
  {
  }

  /** The plan starts with the first post's images ... */
  lemma DispatchHead(posts: seq<Post>, config: Config, delay: nat, k: nat)
    requires 0 < |posts| && k < |posts[0].imageUrls|
    ensures DispatchPosts(posts, config, delay).0[k]
            == Fetch(ImageDir(posts[0], config), posts[0].imageUrls[k], delay + Stagger * k)
  {
    var first := DispatchImages(ImageDir(posts[0], config), posts[0].imageUrls, delay);
    var rest := DispatchPosts(posts[1..], config, first.1);
    assert DispatchPosts(posts, config, delay).0 == first.0 + rest.0;
    DispatchImagesAt(ImageDir(posts[0], config), posts[0].imageUrls, delay);
  }

  /** ... and goes on with the plan of the remaining posts, whose counter
      starts where the first post's images left it. */
  lemma DispatchTail(posts: seq<Post>, config: Config, delay: nat, k: nat)
    requires 0 < |posts| && k < ImageCount(posts[1..])
    ensures DispatchPosts(posts, config, delay).0[|posts[0].imageUrls| + k]
            == DispatchPosts(posts[1..], config, delay + Stagger * |posts[0].imageUrls|).0[k]
  {
    var first := DispatchImages(ImageDir(posts[0], config), posts[0].imageUrls, delay);
    var rest := DispatchPosts(posts[1..], config, first.1);
    assert DispatchPosts(posts, config, delay).0 == first.0 + rest.0;
  }

  /** Image `j` of post `i` is planned at position `ImageCount(posts[..i]) + j`,
      fetched into that post's image folder, with the counter's value at that
      position: the counter is never reset between posts. */
  lemma {:induction false} FetchOfImage(posts: seq<Post>, config: Config, delay: nat, i: nat, j: nat)
    requires i < |posts| && j < |posts[i].imageUrls|
    ensures ImageCount(posts[..i]) + j < ImageCount(posts)
    ensures DispatchPosts(posts, config, delay).0[ImageCount(posts[..i]) + j]
            == Fetch(ImageDir(posts[i], config), posts[i].imageUrls[j],
                     delay + Stagger * (ImageCount(posts[..i]) + j))
    decreases i
  {
    if i == 0 {
      assert posts[..0] == [];
      DispatchHead(posts, config, delay, j);
    } else {
      var n := |posts[0].imageUrls|;
      var next := delay + Stagger * n;
      FetchOfImage(posts[1..], config, next, i - 1, j);
      var idx := ImageCount(posts[1..][..i - 1]) + j;
      assert posts[..i][1..] == posts[1..][..i - 1];
      assert ImageCount(posts[..i]) == n + ImageCount(posts[1..][..i - 1]);
      DispatchTail(posts, config, delay, idx);
      assert posts[1..][i - 1] == posts[i];
      assert ImageCount(posts) == n + ImageCount(posts[1..]);
      assert Stagger * (n + idx) == Stagger * n + Stagger * idx;
      var f := DispatchPosts(posts[1..], config, next).0[idx];
      assert f == Fetch(ImageDir(posts[i], config), posts[i].imageUrls[j], delay + Stagger * (n + idx));
    }
  }

  /** The counter carries over from one group of posts to the next: planning
      two groups in a row is planning the first, then the second starting
      where the first stopped. */
  lemma {:induction false} DispatchConcat(a: seq<Post>, b: seq<Post>, config: Config, delay: nat)
    ensures DispatchPosts(a + b, config, delay).0
            == DispatchPosts(a, config, delay).0
               + DispatchPosts(b, config, delay + Stagger * ImageCount(a)).0
    decreases |a|
  {
    if |a| == 0 {
      assert a + b == b;
    } else {
      assert (a + b)[0] == a[0];
      assert (a + b)[1..] == a[1..] + b;
      var first := DispatchImages(ImageDir(a[0], config), a[0].imageUrls, delay);
      DispatchConcat(a[1..], b, config, first.1);
    }
  }

  /** The plan `writeFiles` makes: the counter starts at 0. */
  function Schedule(posts: seq<Post>, config: Config): (fetches: seq<Fetch>)
    ensures |fetches| == ImageCount(posts)
    ensures forall k :: 0 <= k < |fetches| ==> fetches[k].delay == Stagger * k
    ensures forall k, l :: 0 <= k < l < |fetches| ==> fetches[k].delay < fetches[l].delay
  {
    var fetches := DispatchPosts(posts, config, 0).0;
    assert forall k :: 0 <= k < |fetches| ==> fetches[k].delay == Stagger * k by {
      forall k | 0 <= k < |fetches|
        ensures fetches[k].delay == Stagger * k
      {
        DelayAt(posts, config, 0, k);
      }
    }
    fetches
  }

  /** Position `k` of any plan carries the counter's starting value plus
      `Stagger * k`. */
  lemma {:induction false} DelayAt(posts: seq<Post>, config: Config, delay: nat, k: nat)
    requires k < ImageCount(posts)
    ensures DispatchPosts(posts, config, delay).0[k].delay == delay + Stagger * k
    decreases |posts|
  {
    var first := DispatchImages(ImageDir(posts[0], config), posts[0].imageUrls, delay);
    var rest := DispatchPosts(posts[1..], config, first.1);
    assert DispatchPosts(posts, config, delay).0 == first.0 + rest.0;
    if k >= |first.0| {
      DelayAt(posts[1..], config, first.1, k - |first.0|);
    } else {
      DispatchImagesAt(ImageDir(posts[0], config), posts[0].imageUrls, delay);
    }
  }
}
