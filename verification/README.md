# Output materialisation of wordpress-export-to-markdown, in Dafny

This project models the writer of `wordpress-export-to-markdown` (`src/writer.js`).
The writer takes the parsed posts and the run's configuration and puts each post on disk:

- it works out the post's directory and file name from the configuration (`getPostDir`, `getPostFilename`);
- it serialises the post's front matter and body into a markdown document (`writeMarkdownFile`);
- it makes the directories it needs (`createDir`);
- it schedules one staggered download per image URL (`writeFiles`, `writeImageFile`).

The model keeps the decisions and drops the effects. Paths are lists of segments, so `path.join` is concatenation.
A post's date is the already-parsed `(year, month, day)` of its `frontmatter.date`. The model keeps it in its own field, independent of the `date` entry among the front-matter pairs; no contract relates the two.
The file system is the set of directories that exist.
File writes and downloads are the lists of calls the writer makes, each download with its delay.

Modules, one per concept:

- `Decimal` (`decimal.dfy`): zero-padded decimal text, as luxon writes `yyyy`, `LL` and `dd` with Latin digits, with its inverse `Value`.
- `Dates` (`dates.dfy`): the date tokens and the `yyyy-LL-dd` stamp, with a parser for the stamp.
- `Posts` (`posts.dfy`): the `Post` and `Config` records.
- `PostPaths` (`postpaths.dfy`): `getPostDir` and `getPostFilename`. `Locate` reads a document path back into the slug and date it encodes.
- `FrontMatter` (`frontmatter.dfy`): the document string. `ParseDocument` reads a document back.
- `Dispatch` (`dispatch.dfy`): the download plan, as a fold threading the delay counter.
- `Writer` (`writer.dfy`): `createDir` and `writeFiles`. The method `WriteFiles` is the loop; the fold `Turns` is its reference.
- `Strings`, `Options`: small helpers.

Facts about the code the model follows:

- The code has no date-parse error path. Luxon's `toFormat` is applied to whatever `fromISO` returned (src/writer.js:76, 102), so the model has no date error either and takes the parsed date as given.
- The month token is `LL`, the standalone month. For a number it is two digits, like `MM`.
- Any response status other than 200 is logged (src/writer.js:54). Downloads are outside the model.

## Model

| member | source | states |
|---|---|---|
| Decimal.Pad | src/writer.js:79 | a formatted number is all digits and never shorter than the requested width |
| Decimal.PadValue | src/writer.js:79 | reading the zero-padded text back gives the number: padding loses nothing |
| Decimal.PadLength | src/writer.js:79 | a number below 10^width is written with exactly `width` digits |
| Decimal.PadOrder | src/writer.js:87 | padded texts of one width compare as strings exactly as the numbers compare |
| Dates.TokensReadBack | src/writer.js:79-81 | `yyyy`, `LL` and `dd` read back as year, month and day, and a calendar date gets exactly 4, 2 and 2 digits |
| Dates.YearText | src/writer.js:79 | the `yyyy` token; its contract is `TokensReadBack` |
| Dates.MonthText | src/writer.js:79 | the `LL` token; its contract is `TokensReadBack` |
| Dates.DayText | src/writer.js:87 | the `dd` token; its contract is `TokensReadBack` |
| Dates.Stamp | src/writer.js:87 | the `yyyy-LL-dd` token; its contracts are `StampRoundTrip` and `StampOrder` |
| Dates.StampRoundTrip | src/writer.js:87 | the `yyyy-LL-dd` stamp of a calendar date is 10 characters with dashes at 4 and 7, and parses back to the same date |
| Dates.StampOrder | src/writer.js:101-104 | for calendar dates (years up to 9999), one stamp is string-less than another iff its date is earlier, so date-prefixed names sort chronologically |
| Dates.StampOrderEndsAtYear9999 | src/writer.js:101-104 | the chronological sort ends at year 9999: the stamp `10000-01-01` sorts before `9999-12-31` although its date is later |
| PostPaths.DateFolders | src/writer.js:78-82 | the date folders of `getPostDir`; its contract is `DateFoldersReadBack` |
| PostPaths.DateFoldersReadBack | src/writer.js:78-82 | two date folders when `yearmonthfolders` is set, whatever `yearfolders` says; one for `yearfolders` alone; none otherwise. Each is a decimal number: the first reads back as the year and the second as the month, with 4 and 2 digits for a calendar date |
| PostPaths.WithDatePrefix | src/writer.js:86-88 | the optional `yyyy-LL-dd-` prefix; its contracts are `SplitWithDatePrefix` and `DatePrefixReadsBack` |
| PostPaths.SplitWithDatePrefix | src/writer.js:86-88 | a prefixed name splits back into the post's date (iff `prefixdate` is set) and the unchanged name, for a calendar date when `prefixdate` is set |
| PostPaths.DatePrefixReadsBack | src/writer.js:101-104 | for a calendar date, the first 11 characters are the date and a dash, they parse back to the post's date, and the rest is the name |
| PostPaths.PostDir | src/writer.js:74-93 | `getPostDir`; its contract is `PostDirLayout` |
| PostPaths.PostDirLayout | src/writer.js:74-93 | the directory is `output`, then date folders reading back as year and month, then, iff `postfolders`, one folder that reads back as the slug, behind the post's date iff `prefixdate` (for a calendar date when `prefixdate` is set); the date folders are the `yyyy` and `LL` segments themselves; its length is exactly that |
| PostPaths.PostFilename | src/writer.js:95-107 | `getPostFilename`; its contract is `PostFilenameReadsBack` |
| PostPaths.PostFilenameReadsBack | src/writer.js:95-107 | with `postfolders` the name is `index.md` whatever the slug or date; otherwise it ends in `.md` and the rest reads back as the slug, behind the post's date iff `prefixdate` (for a calendar date when `prefixdate` is set) |
| PostPaths.DocumentPath | src/writer.js:31 | the joined document path; its contract is `LocateDocumentPath` |
| PostPaths.LocateDocumentPath | src/writer.js:84-106 | every document path reads back as its post's slug, and as its date when names are date-prefixed |
| PostPaths.DistinctKeysDistinctPaths | src/writer.js:96-98 | posts with different slugs, or different dates under `prefixdate`, never get the same document path |
| FrontMatter.Line | src/writer.js:27 | one header line is five characters longer than its key and value: `: "`, `"` and a line break, nothing escaped |
| FrontMatter.Reduce | src/writer.js:25-28 | the `reduce` over the entries; its contract is `ReduceIsLines` |
| FrontMatter.ReduceIsLines | src/writer.js:25-28 | the reduce over the entries yields exactly one `key: "value"` line per entry, in input order |
| FrontMatter.LinesSize | src/writer.js:25-28 | the header is exactly as long as its keys and values plus five characters per line: nothing is escaped or dropped |
| FrontMatter.LineAt | src/writer.js:25-28 | the line of entry `i` sits in the header right after the lines of the entries before it |
| FrontMatter.Document | src/writer.js:29 | the document is `---\n`, the entry lines, `---\n\n`, the body and one `\n`; its length is 10 + header + body |
| FrontMatter.DocumentRoundTrip | src/writer.js:25-29 | a document whose keys hold no `:` or line break and whose values hold no `"` parses back to the same entries in order and the same body |
| FrontMatter.QuoteInValueSplitsLine | src/writer.js:27 | because values are not escaped, the line of a value `a"` + line break + `k2: "b` is the line of `(k, a)` followed by the line of `(k2, b)` |
| FrontMatter.ForgedLines | src/writer.js:25-28 | so the header of that one entry is the header of the two entries |
| FrontMatter.QuoteInValueForgesEntry | src/writer.js:25-29 | when `(k, a)` and `(k2, b)` are plain, the document of that one entry equals the document of the two and reads back as the two |
| Dispatch.ImageDir | src/writer.js:16 | the `images` folder of a post; its contracts are `ImagesBesideDocument` and `FetchOfImage` |
| Dispatch.ImagesBesideDocument | src/writer.js:16 | the images folder is in the same directory as the post's document and never coincides with the document's path |
| Dispatch.DispatchImages | src/writer.js:15-20 | one fetch per URL of a post, and the counter ends up 25 per URL higher |
| Dispatch.DispatchImagesAt | src/writer.js:15-20 | URL `k` of a post is fetched into its image folder with the starting counter plus `25 * k` |
| Dispatch.DispatchPosts | src/writer.js:10-21 | the plan holds one fetch per image URL of all posts, duplicates included, and the counter ends up 25 per URL higher |
| Dispatch.FetchOfImage | src/writer.js:9-20 | image `j` of post `i` is fetch number `images-before-post-i + j`, into that post's directory plus `images`, with delay 25 times that number |
| Dispatch.DispatchConcat | src/writer.js:9-19 | the counter is never reset: the plan for two groups of posts is the first group's plan, then the second's starting where the first stopped |
| Dispatch.DelayAt | src/writer.js:9-19 | fetch number `k` of any plan has the starting counter plus `25 * k` as delay |
| Dispatch.Schedule | src/writer.js:8-22 | the plan `writeFiles` makes has one fetch per image URL; fetch `k` has delay `25 * k`; delays strictly increase |
| Writer.CreateDir | src/writer.js:66-72 | the directory exists afterwards, nothing that existed disappears, and an existing directory is left alone |
| Writer.CreateDirClosed | src/writer.js:66-72 | where parents exist, `createDir` adds exactly the directory and its ancestors, and parents still exist afterwards |
| Writer.CreateDirIdempotent | src/writer.js:66-72 | making the same directory twice is the same as making it once |
| Writer.Turn | src/writer.js:11-20 | one post's turn of the loop; its contracts are `TurnsFetches`, `TurnsDocuments` and `TurnsDirs` |
| Writer.Turns | src/writer.js:10-21 | the posts' turns one after another, the outer `forEach`; its contracts are `TurnsFetches`, `TurnsDocuments` and `TurnsDirs` |
| Writer.DocumentOf | src/writer.js:29-32 | the path and text of the one document written for a post; its contract is `TurnsDocuments` |
| Writer.TurnsFetches | src/writer.js:8-22 | the downloads scheduled post by post are the dispatch plan, continued from the counter's current value |
| Writer.TurnsDocuments | src/writer.js:10-13 | one document is written per post, in post order, at the post's document path with the serialised front matter and body |
| Writer.TurnsDirs | src/writer.js:11-17 | every post directory exists afterwards, and so does the image folder of every post with images; where parents exist, exactly those and their ancestors are added |
| Writer.SaveImages | src/writer.js:15-20 | the inner loop makes the image folder iff the post has images and schedules the per-URL plan, leaving the counter 25 per URL higher |
| Writer.WriteFiles | src/writer.js:8-22 | the loop schedules exactly the plan `Schedule` describes, writes one document per post in order, and creates exactly the needed directories |
| Writer.ExampleDocumentPath | src/writer.js:74-107 | a post of 2023-05-01 with year folders, post folders and date prefixes goes to `out/2023/2023-05-01-hello-world/index.md` |
| Writer.ExampleSchedule | src/writer.js:8-22 | that post's one image is fetched at delay 0 into `out/2023/2023-05-01-hello-world/images` |

## Left out

- File writes, streams and their callbacks (`fs.writeFile`, `fs.createWriteStream`, src/writer.js:32-39 and 44-47) are effects. The model records each write as a path and a text, and ignores success, failure and logging.
- The download itself (`request.get(...).pipe(stream)`, the status check and error logging, src/writer.js:50-62) is network I/O. Only the delay computed for each download is modelled.
- `setTimeout` (src/writer.js:50-63) is a timer. The model keeps the delay value, not the firing or completion order.
- The image's own file name comes from `shared.getFilenameFromUrl` (src/writer.js:43). `src/shared.js` is not part of this model, so a fetch records its folder and URL but not the final file name.
- Date parsing with luxon (src/writer.js:76 and 102) is a foreign library. The model takes the parsed date. It does not model what luxon prints for an invalid date or for negative years.
- `path.join` normalisation is not modelled. Empty segments, `..` and embedded `/` are kept as written. Slugs are assumed to be clean.
- Front matter is a list of string pairs in the order `Object.entries` returns them. JavaScript's rule that integer-like keys come first, and its string conversion of non-string values, are not modelled.
- Writer.CreateDir: does not tell files from directories, because `fs.accessSync` succeeds on either and the model has only directories.
- Writer.CreateDir: is total, but `fs.mkdirSync` (src/writer.js:70) can throw: no permission, or a file in the way of a parent. The model has no failing file system, so it never fails.
- Writer.WriteFiles: always finishes the loop. In the code, a throw from `createDir` is not caught. It leaves `writeFiles` partway through, the remaining posts are not written, and downloads already scheduled still fire. The contract describes a run in which every directory can be made.
- Decimal.Pad: assumes Latin digits. Luxon formats numeric tokens through the locale's number formatter, and a locale with other digits writes other characters.
- PostPaths.LocateDocumentPath: stated only for dates with years up to 9999 when names are date-prefixed. For larger years the stamp is longer than ten characters, and the reader expects exactly ten.
- PostPaths.DistinctKeysDistinctPaths: stated under the same restriction, for the same reason.
- PostPaths.SplitWithDatePrefix: the split back is stated only for dates with years up to 9999 when names are date-prefixed, for the same reason.
- PostPaths.PostDirLayout: the read-back of the post folder is stated only for dates with years up to 9999 when names are date-prefixed, for the same reason.
- PostPaths.PostFilenameReadsBack: the read-back of the stem is stated only for dates with years up to 9999 when names are date-prefixed, for the same reason.
- Dates.StampOrder: stated only for years up to 9999; beyond that the order of stamps is not chronological (Dates.StampOrderEndsAtYear9999).
- FrontMatter.DocumentRoundTrip: stated only for entries without `:` or a line break in the key and without `"` in the value. Values are not escaped, so other entries need not read back (see FrontMatter.QuoteInValueForgesEntry).
- Console logging is a side channel and is dropped throughout.
