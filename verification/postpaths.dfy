/**
 Where a post is written: `getPostDir` and `getPostFilename`. The directory
 is the output directory, then the date folders the config asks for, then the
 post's own folder when posts get folders; the file is `index.md` inside a
 post folder, and otherwise the slug with `.md`, date-prefixed on request.
 */
module PostPaths {
  import opened Options
  import opened Posts
  import opened Dates
  import Decimal

  /** The date folders under the output directory; year-and-month wins over
      year-only when both options are set. */
  function DateFolders(post: Post, config: Config): Path {
    if config.yearMonthFolders then [YearText(post.date), MonthText(post.date)]
    else if config.yearFolders then [YearText(post.date)]
    else []
  }

  /** The date folders are two when month folders are asked for (whatever
      `yearFolders` says), one for year folders alone, none otherwise; each is
      a decimal number, the first reads back as the year and the second as the
      month, with four and two digits for a calendar date. */
  lemma DateFoldersReadBack(post: Post, config: Config)
    ensures var segs := DateFolders(post, config);
            && |segs| == (if config.yearMonthFolders then 2 else if config.yearFolders then 1 else 0)
            && (forall k :: 0 <= k < |segs| ==> Decimal.AllDigits(segs[k]))
            && (|segs| >= 1 ==> Decimal.Value(segs[0]) == post.date.year)
            && (|segs| == 2 ==> Decimal.Value(segs[1]) == post.date.month)
            && (Calendar(post.date) && |segs| >= 1 ==> |segs[0]| == 4)
            && (Calendar(post.date) && |segs| == 2 ==> |segs[1]| == 2)
  {
    TokensReadBack(post.date);
  }

  /** `yyyy-LL-dd-` before `name` when the config asks for date prefixes. */
  function WithDatePrefix(post: Post, config: Config, name: string): string {
    if config.prefixDate then Stamp(post.date) + "-" + name else name
  }

  /** For a calendar date the prefix is exactly eleven characters, the date
      followed by `-`, and it reads back as the post's date. */
  lemma DatePrefixReadsBack(post: Post, config: Config, name: string)
    requires config.prefixDate && Calendar(post.date)
    ensures var s := WithDatePrefix(post, config, name);
            && |s| == 11 + |name|
            && ParseStamp(s[..10]) == Some(post.date) && s[10] == '-' && s[11..] == name
  {
    var s := WithDatePrefix(post, config, name);
    StampRoundTrip(post.date);
    assert s[..10] == Stamp(post.date);
  }

  /** The directory a post's document (and its `images` folder) goes in. */
  function PostDir(post: Post, config: Config): Path {
    var dir := config.output + DateFolders(post, config);
    if config.postFolders then dir + [WithDatePrefix(post, config, post.slug)] else dir
  }

  /** The directory is the output directory, then the date folders (reading
      back as year and month), then, iff posts get folders, one folder that
      reads back as the slug, behind the date when names are date-prefixed. */
  lemma PostDirLayout(post: Post, config: Config)
    ensures var dir := PostDir(post, config); var o := |config.output|;
            && |dir| == o + |DateFolders(post, config)| + (if config.postFolders then 1 else 0)
            && dir[..o] == config.output
            && dir[o..o + |DateFolders(post, config)|] == DateFolders(post, config)
            && (config.yearMonthFolders || config.yearFolders ==>
                  Decimal.AllDigits(dir[o]) && Decimal.Value(dir[o]) == post.date.year)
            && (config.yearMonthFolders ==>
                  Decimal.AllDigits(dir[o + 1]) && Decimal.Value(dir[o + 1]) == post.date.month)
            && (config.postFolders && (config.prefixDate ==> Calendar(post.date)) ==>
                  SplitDatePrefix(config, dir[|dir| - 1]) == Some((KeyOf(post, config).stamped, post.slug)))
  {
    var dir := PostDir(post, config);
    var o := |config.output|;
    var segs := DateFolders(post, config);
    DateFoldersReadBack(post, config);
    assert dir[..o + |segs|] == config.output + segs;
    assert dir[o..o + |segs|] == (config.output + segs)[o..];
    if |segs| >= 1 {
      assert dir[o] == segs[0];
    }
    if |segs| == 2 {
      assert dir[o + 1] == segs[1];
    }
    if config.postFolders && (config.prefixDate ==> Calendar(post.date)) {
      SplitWithDatePrefix(post, config, post.slug);
    }
  }

  /** The document's file name inside `PostDir`. */
  function PostFilename(post: Post, config: Config): string {
    if config.postFolders then "index.md"
    else WithDatePrefix(post, config, post.slug + ".md")
  }

  /** Inside a post folder the file is `index.md`, whatever the slug and date;
      otherwise it ends in `.md` and the rest reads back as the slug, behind
      the date when names are date-prefixed. */
  lemma PostFilenameReadsBack(post: Post, config: Config)
    ensures var name := PostFilename(post, config);
            && (config.postFolders ==> name == "index.md")
            && (!config.postFolders ==> |name| >= 3 && name[|name| - 3..] == ".md")
            && (!config.postFolders && (config.prefixDate ==> Calendar(post.date)) ==>
                  SplitDatePrefix(config, name[..|name| - 3]) == Some((KeyOf(post, config).stamped, post.slug)))
  {
    var name := PostFilename(post, config);
    if !config.postFolders {
      var stem := WithDatePrefix(post, config, post.slug);
      assert name == stem + ".md";
      assert name[..|name| - 3] == stem;
      if config.prefixDate ==> Calendar(post.date) {
        SplitWithDatePrefix(post, config, post.slug);
      }
    }
  }

  /** The full path of the post's document. */
  function DocumentPath(post: Post, config: Config): Path {
    PostDir(post, config) + [PostFilename(post, config)]
  }

  /** What a document path tells about its post: the slug, and the date when
      names carry a date prefix. */
  datatype Key = Key(slug: string, stamped: Option<Date>)

  function KeyOf(post: Post, config: Config): Key {
    Key(post.slug, if config.prefixDate then Some(post.date) else None)
  }

  /** Splits an optional `yyyy-LL-dd-` prefix off a folder or file name. */
  function SplitDatePrefix(config: Config, name: string): Option<(Option<Date>, string)> {
    if !config.prefixDate then Some((None, name))
    else if |name| >= 11 && name[10] == '-' && ParseStamp(name[..10]).Some? then
      Some((ParseStamp(name[..10]), name[11..]))
    else None
  }

  /** A name with the config's optional date prefix splits back into the
      post's date (when names are date-prefixed) and the name. */
  lemma SplitWithDatePrefix(post: Post, config: Config, name: string)
    requires config.prefixDate ==> Calendar(post.date)
    ensures SplitDatePrefix(config, WithDatePrefix(post, config, name)) == Some((KeyOf(post, config).stamped, name))
  {
    if config.prefixDate {
      DatePrefixReadsBack(post, config, name);
    }
  }

  /** Reads a document path back: the inverse of `DocumentPath` for a config. */
  function Locate(config: Config, p: Path): Option<Key> {
    if config.postFolders then
      if |p| >= 2 && p[|p| - 1] == "index.md" then
        match SplitDatePrefix(config, p[|p| - 2])
        case None => None
        case Some((stamped, slug)) => Some(Key(slug, stamped))
      else None
    else if |p| >= 1 && |p[|p| - 1]| >= 3 && p[|p| - 1][|p[|p| - 1]| - 3..] == ".md" then
      var name := p[|p| - 1];
      match SplitDatePrefix(config, name[..|name| - 3])
      case None => None
      case Some((stamped, slug)) => Some(Key(slug, stamped))
    else None
  }

  /** Every document path reads back as its post's slug (and date, when names
      are date-prefixed). */
  lemma LocateDocumentPath(post: Post, config: Config)
    requires config.prefixDate ==> Calendar(post.date)
    ensures Locate(config, DocumentPath(post, config)) == Some(KeyOf(post, config))
  {
    var p := DocumentPath(post, config);
    if config.postFolders {
      assert p[|p| - 2] == WithDatePrefix(post, config, post.slug);
      if config.prefixDate {
        DatePrefixReadsBack(post, config, post.slug);
      }
    } else {
      var name := p[|p| - 1];
      assert name == WithDatePrefix(post, config, post.slug + ".md");
      if config.prefixDate {
        DatePrefixReadsBack(post, config, post.slug + ".md");
        assert name[..|name| - 3] == Stamp(post.date) + "-" + post.slug;
        assert name[..|name| - 3][..10] == name[..10];
      } else {
        assert name[..|name| - 3] == post.slug;
      }
    }
  }

  /** Posts with different slugs, or different dates when names are
      date-prefixed, never share a document path. */
  lemma DistinctKeysDistinctPaths(p1: Post, p2: Post, config: Config)
    requires config.prefixDate ==> Calendar(p1.date) && Calendar(p2.date)
    requires KeyOf(p1, config) != KeyOf(p2, config)
    ensures DocumentPath(p1, config) != DocumentPath(p2, config)
  {
    LocateDocumentPath(p1, config);
    LocateDocumentPath(p2, config);
  }
}
