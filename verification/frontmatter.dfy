/**
 The markdown document `writeMarkdownFile` writes: a `---` delimited header
 with one `key: "value"` line per front-matter entry, a blank line, the body
 and one closing newline. Values are written as they are, without escaping.
 */
module FrontMatter {
  import opened Options
  import opened Posts
  import Strings

  /** One header line. */
  function Line(e: Entry): (s: string)
    ensures |s| == |e.0| + |e.1| + 5
  {
    e.0 + ": \"" + e.1 + "\"\n"
  }

  /** The `reduce` over the entries: appends each entry's line to `acc`,
      first entry first. */
  function Reduce(acc: string, entries: seq<Entry>): string
    decreases |entries|
  {
    if |entries| == 0 then acc else Reduce(acc + Line(entries[0]), entries[1..])
  }

  /** Reference reading of the header: the entries' lines, one after another. */
  function Lines(entries: seq<Entry>): string
    decreases |entries|
  {
    if |entries| == 0 then "" else Line(entries[0]) + Lines(entries[1..])
  }

  /** Total length of the header lines of `entries`. */
  function LinesLength(entries: seq<Entry>): nat
    decreases |entries|
  {
    if |entries| == 0 then 0 else |entries[0].0| + |entries[0].1| + 5 + LinesLength(entries[1..])
  }

  /** The reduce produces exactly the entries' lines in input order. */
  lemma {:induction false} ReduceIsLines(acc: string, entries: seq<Entry>)
    ensures Reduce(acc, entries) == acc + Lines(entries)
    decreases |entries|
  {
    if |entries| > 0 {
      ReduceIsLines(acc + Line(entries[0]), entries[1..]);
    }
  }

  /** The header is as long as its lines add up to: nothing is escaped or dropped. */
  lemma {:induction false} LinesSize(entries: seq<Entry>)
    ensures |Lines(entries)| == LinesLength(entries)
    decreases |entries|
  {
    if |entries| > 0 {
      LinesSize(entries[1..]);
    }
  }

  /** The line of entry `i` sits right after the lines of the entries before it. */
  lemma {:induction false} LineAt(entries: seq<Entry>, i: nat)
    requires i < |entries|
    ensures LinesLength(entries[..i]) + |Line(entries[i])| <= |Lines(entries)|
    ensures Lines(entries)[LinesLength(entries[..i])..LinesLength(entries[..i]) + |Line(entries[i])|]
            == Line(entries[i])
    decreases i
  {
    LinesSize(entries);
    var first := Line(entries[0]);
    assert Lines(entries) == first + Lines(entries[1..]);
    if i == 0 {
      assert entries[..0] == [];
    } else {
      LineAt(entries[1..], i - 1);
      assert entries[1..][..i - 1] == entries[..i][1..];
      assert entries[1..][i - 1] == entries[i];
      assert LinesLength(entries[..i]) == |first| + LinesLength(entries[1..][..i - 1]);
    }
  }

  /** The document written for a post (line 29 of the writer). */
  function Document(entries: seq<Entry>, body: string): (doc: string)
    ensures doc == "---\n" + Lines(entries) + "---\n\n" + body + "\n"
    ensures |doc| == 10 + LinesLength(entries) + |body|
  {
    ReduceIsLines("", entries);
    LinesSize(entries);
    "---\n" + Reduce("", entries) + "---\n\n" + body + "\n"
  }

  /** An entry whose line reads back unchanged: its key has no `:` and no line
      break, and its value has no `"`. */
  predicate Plain(e: Entry) {
    ':' !in e.0 && '\n' !in e.0 && '"' !in e.1
  }

  /** Reads one `key: "value"` line off the front of `s`. */
  function ParseLine(s: string): (r: Option<(Entry, string)>)
    ensures r.Some? ==> |r.value.1| < |s|
  {
    var i := Strings.IndexOf(s, ':');
    if i + 3 <= |s| && s[i..i + 3] == ": \"" then
      var j := i + 3 + Strings.IndexOf(s[i + 3..], '"');
      if j + 2 <= |s| && s[j..j + 2] == "\"\n" then Some(((s[..i], s[i + 3..j]), s[j + 2..]))
      else None
    else None
  }

  /** Reads header lines up to the closing `---` and blank line; the rest,
      minus its final newline, is the body. */
  function ParseEntries(s: string): Option<(seq<Entry>, string)>
    decreases |s|
  {
    if |s| >= 5 && s[..5] == "---\n\n" then
      if |s| >= 6 && s[|s| - 1] == '\n' then Some(([], s[5..|s| - 1])) else None
    else
      match ParseLine(s)
      case None => None
      case Some((e, rest)) =>
        match ParseEntries(rest)
        case None => None
        case Some((entries, body)) => Some(([e] + entries, body))
  }

  /** Reads a whole document back into its entries and body. */
  function ParseDocument(doc: string): Option<(seq<Entry>, string)> {
    if |doc| >= 4 && doc[..4] == "---\n" then ParseEntries(doc[4..]) else None
  }

  /** A plain entry's line never starts like the closing delimiter. */
  lemma LineIsNotDelimiter(e: Entry, rest: string)
    requires Plain(e)
    ensures var s := Line(e) + rest; !(|s| >= 5 && s[..5] == "---\n\n")
  {
    var s := Line(e) + rest;
    if |e.0| <= 3 {
      assert s[|e.0|] == ':';
    } else {
      assert s[3] == e.0[3];
    }
  }

  /** In a plain entry's line, the key ends at the first `:`, which opens
      `: "` and the value. */
  lemma KeyOfLine(e: Entry, rest: string)
    requires Plain(e)
    ensures var s := Line(e) + rest;
            && Strings.IndexOf(s, ':') == |e.0|
            && |e.0| + 3 <= |s| && s[|e.0|..|e.0| + 3] == ": \""
            && s[..|e.0|] == e.0
            && s[|e.0| + 3..] == e.1 + ['"'] + ("\n" + rest)
  {
    var s := Line(e) + rest;
    assert s == e.0 + [':'] + (" \"" + e.1 + "\"\n" + rest);
    Strings.IndexOfAfter(e.0, ':', " \"" + e.1 + "\"\n" + rest);
  }

  /** After the key, the value ends at the first `"`, which closes the line. */
  lemma ValueOfLine(v: string, rest: string)
    requires '"' !in v
    ensures var t := v + ['"'] + ("\n" + rest);
            && Strings.IndexOf(t, '"') == |v|
            && t[|v|..|v| + 2] == "\"\n" && t[..|v|] == v && t[|v| + 2..] == rest
  {
    Strings.IndexOfAfter(v, '"', "\n" + rest);
  }

  /** Reading one plain entry's line gives back the entry and what follows. */
  lemma ParseLineOfLine(e: Entry, rest: string)
    requires Plain(e)
    ensures ParseLine(Line(e) + rest) == Some((e, rest))
  {
    var s := Line(e) + rest;
    var i := |e.0|;
    KeyOfLine(e, rest);
    var t := s[i + 3..];
    ValueOfLine(e.1, rest);
    var j := i + 3 + |e.1|;
    assert s[j..j + 2] == t[|e.1|..|e.1| + 2];
    assert s[i + 3..j] == t[..|e.1|];
    assert s[j + 2..] == t[|e.1| + 2..];
  }

  /** Reading a plain entry's line in front of readable text adds that entry
      in front of what the text reads as. */
  lemma ParseEntriesCons(e: Entry, rest: string, parsed: (seq<Entry>, string))
    requires Plain(e)
    requires ParseEntries(rest) == Some(parsed)
    ensures ParseEntries(Line(e) + rest) == Some(([e] + parsed.0, parsed.1))
  {
    LineIsNotDelimiter(e, rest);
    ParseLineOfLine(e, rest);
  }

  lemma ConsAppend(a: seq<Entry>, b: seq<Entry>)
    requires |a| > 0
    ensures [a[0]] + (a[1..] + b) == a + b
  {
  }

  /** Reading the closing delimiter gives no entries and the body. */
  lemma ParseClosing(body: string)
    ensures ParseEntries("---\n\n" + body + "\n") == Some(([], body))
  {
    var tail := "---\n\n" + body + "\n";
    assert tail[..5] == "---\n\n";
    assert tail[5..|tail| - 1] == body;
  }

  /** Reading plain header lines in front of any readable text gives their
      entries, in order, in front of what that text reads as. */
  lemma {:induction false} ParseAfterLines(entries: seq<Entry>, tail: string, parsed: (seq<Entry>, string))
    requires forall k :: 0 <= k < |entries| ==> Plain(entries[k])
    requires ParseEntries(tail) == Some(parsed)
    ensures ParseEntries(Lines(entries) + tail) == Some((entries + parsed.0, parsed.1))
    decreases |entries|
  {
    if |entries| == 0 {
      assert Lines(entries) + tail == tail;
      assert entries + parsed.0 == parsed.0;
    } else {
      var rest := Lines(entries[1..]) + tail;
      assert Lines(entries) + tail == Line(entries[0]) + rest;
      ParseAfterLines(entries[1..], tail, parsed);
      ParseEntriesCons(entries[0], rest, (entries[1..] + parsed.0, parsed.1));
      ConsAppend(entries, parsed.0);
    }
  }

  /** A document whose entries are all plain reads back as the same entries,
      in the same order, and the same body. */
  lemma DocumentRoundTrip(entries: seq<Entry>, body: string)
    requires forall k :: 0 <= k < |entries| ==> Plain(entries[k])
    ensures ParseDocument(Document(entries, body)) == Some((entries, body))
  {
    var doc := Document(entries, body);
    assert doc[..4] == "---\n";
    assert doc[4..] == Lines(entries) + ("---\n\n" + body + "\n");
    ParseClosing(body);
    ParseAfterLines(entries, "---\n\n" + body + "\n", ([], body));
    assert entries + [] == entries;
  }

  /** Values are not escaped: the line of a value holding `"`, a line break,
      another key and `: "` is the two lines of two separate entries. */
  lemma QuoteInValueSplitsLine(k: string, a: string, k2: string, b: string)
    ensures Line((k, a + "\"\n" + k2 + ": \"" + b)) == Line((k, a)) + Line((k2, b))
  {
  }

  /** The header of the one entry is the header of the two. */
  lemma ForgedLines(k: string, a: string, k2: string, b: string)
    ensures Lines([(k, a + "\"\n" + k2 + ": \"" + b)]) == Lines([(k, a), (k2, b)])
  {
    var two: seq<Entry> := [(k, a), (k2, b)];
    QuoteInValueSplitsLine(k, a, k2, b);
    assert Lines([(k, a + "\"\n" + k2 + ": \"" + b)]) == Line((k, a + "\"\n" + k2 + ": \"" + b)) + Lines([]);
    assert two[1..] == [(k2, b)] && two[1..][1..] == [];
    assert Lines(two) == Line((k, a)) + (Line((k2, b)) + Lines([]));
  }

  /** So when both halves are plain, the document of the one entry is the
      document of the two, and it reads back as the two. */
  lemma QuoteInValueForgesEntry(k: string, a: string, k2: string, b: string, body: string)
    requires Plain((k, a)) && Plain((k2, b))
    ensures var forged := a + "\"\n" + k2 + ": \"" + b;
            && Document([(k, forged)], body) == Document([(k, a), (k2, b)], body)
            && ParseDocument(Document([(k, forged)], body)) == Some(([(k, a), (k2, b)], body))
  {
    var two: seq<Entry> := [(k, a), (k2, b)];
    ForgedLines(k, a, k2, b);
    assert forall j :: 0 <= j < |two| ==> Plain(two[j]);
    DocumentRoundTrip(two, body);
  }
}
