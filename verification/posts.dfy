/**
 The records the writer receives from the parsing stage: one `Post` per
 exported item and the run's `Config`. Both are read-only here.
 */
module Posts {
  import Dates

  /** A file-system path as its list of segments; `path.join` is concatenation. */
  type Path = seq<string>

  /** One front-matter entry, in the order the post's object lists it. */
  type Entry = (string, string)

  /** `date` is the post's `frontmatter.date`, already parsed. In the model
      it is a field of its own, independent of the `date` entry among
      `frontmatter`: nothing here ties the two together. */
  datatype Post = Post(
    frontmatter: seq<Entry>,
    content: string,
    slug: string,
    imageUrls: seq<string>,
    date: Dates.Date)

  datatype Config = Config(
    output: Path,
    yearMonthFolders: bool,
    yearFolders: bool,
    postFolders: bool,
    prefixDate: bool)
}
