/**
 * The example-notebook generator of the Altair notebooks
 * (`tools/create_example_notebooks.py`): an example script is split into
 * the text of its docstring and its code, the code gets the JSON data
 * transformer enabled after `import altair`, each notebook gets a title and
 * an index entry, and the index lists the entries by file name.
 */
module ExampleNotebooks {
  import Seqs
  import PyText

  /** A line opening or closing a docstring. */
  predicate IsDelimiter(line: string) {
    PyText.StartsWith(line, "\"\"\"")
  }

  predicate IsAltairImport(line: string) {
    PyText.StartsWith(line, "import altair")
  }

  /** The line injected after an `import altair` line. */
  const ENABLE_JSON: string := "alt.data_transformers.enable('json')\n"

  /** The number of delimiter lines. */
  function Delims(lines: seq<string>): (n: nat)
    ensures n <= |lines|
  {
    if lines == [] then 0 else (if IsDelimiter(lines[0]) then 1 else 0) + Delims(lines[1..])
  }

  lemma {:induction false} DelimsAppend(a: seq<string>, b: seq<string>)
    ensures Delims(a + b) == Delims(a) + Delims(b)
    decreases |a|
  {
    if a == [] {
      assert a + b == b;
    } else {
      assert (a + b)[1..] == a[1..] + b;
      DelimsAppend(a[1..], b);
    }
  }

  /** What a code line contributes to the code block. */
  function SourceLines(line: string): (r: seq<string>)
    ensures 1 <= |r| <= 2
    ensures r[0] == line && (|r| == 2 <==> IsAltairImport(line)) && (|r| == 2 ==> r[1] == ENABLE_JSON)
  {
    [line] + if IsAltairImport(line) then [ENABLE_JSON] else []
  }

  /**
   * The docstring block of lines read after `k` delimiters: a line that
   * is not a delimiter belongs to it when an odd number of delimiters
   * precede it, that is, inside a docstring.
   */
  function CommentFrom(k: nat, lines: seq<string>): seq<string>
    decreases |lines|
  {
    if lines == [] then []
    else if IsDelimiter(lines[0]) then CommentFrom(k + 1, lines[1..])
    else (if k % 2 == 1 then [lines[0]] else []) + CommentFrom(k, lines[1..])
  }

  /**
   * The code block of lines read after `k` delimiters: a line that is not a
   * delimiter belongs to it once two delimiters have been read, that is,
   * after the first docstring closed.
   */
  function SourceFrom(k: nat, lines: seq<string>): seq<string>
    decreases |lines|
  {
    if lines == [] then []
    else if IsDelimiter(lines[0]) then SourceFrom(k + 1, lines[1..])
    else (if k >= 2 then SourceLines(lines[0]) else []) + SourceFrom(k, lines[1..])
  }

  /** Reading a file in two parts: the second part starts with the delimiters of the first counted. */
  lemma {:induction false} CommentAppend(k: nat, a: seq<string>, b: seq<string>)
    ensures CommentFrom(k, a + b) == CommentFrom(k, a) + CommentFrom(k + Delims(a), b)
    decreases |a|
  {
    if a == [] {
      assert a + b == b;
    } else {
      var x, rest := a[0], a[1..];
      assert (a + b)[0] == x && (a + b)[1..] == rest + b;
      if IsDelimiter(x) {
        CommentAppend(k + 1, rest, b);
        assert Delims(a) == 1 + Delims(rest);
        assert CommentFrom(k, a + b) == CommentFrom(k + 1, rest + b);
        assert CommentFrom(k, a) == CommentFrom(k + 1, rest);
      } else {
        CommentAppend(k, rest, b);
        var h := if k % 2 == 1 then [x] else [];
        assert Delims(a) == Delims(rest);
        assert CommentFrom(k, a + b) == h + CommentFrom(k, rest + b);
        assert CommentFrom(k, a) == h + CommentFrom(k, rest);
        var tail := CommentFrom(k + Delims(rest), b);
        assert h + (CommentFrom(k, rest) + tail) == (h + CommentFrom(k, rest)) + tail;
      }
    }
  }

  lemma {:induction false} SourceAppend(k: nat, a: seq<string>, b: seq<string>)
    ensures SourceFrom(k, a + b) == SourceFrom(k, a) + SourceFrom(k + Delims(a), b)
    decreases |a|
  {
    if a == [] {
      assert a + b == b;
    } else {
      var x, rest := a[0], a[1..];
      assert (a + b)[0] == x && (a + b)[1..] == rest + b;
      if IsDelimiter(x) {
        SourceAppend(k + 1, rest, b);
        assert Delims(a) == 1 + Delims(rest);
        assert SourceFrom(k, a + b) == SourceFrom(k + 1, rest + b);
        assert SourceFrom(k, a) == SourceFrom(k + 1, rest);
      } else {
        SourceAppend(k, rest, b);
        var h := if k >= 2 then SourceLines(x) else [];
        assert Delims(a) == Delims(rest);
        assert SourceFrom(k, a + b) == h + SourceFrom(k, rest + b);
        assert SourceFrom(k, a) == h + SourceFrom(k, rest);
        var tail := SourceFrom(k + Delims(rest), b);
        assert h + (SourceFrom(k, rest) + tail) == (h + SourceFrom(k, rest)) + tail;
      }
    }
  }

  lemma {:induction false} BlocksAppend(k: nat, a: seq<string>, b: seq<string>)
    ensures CommentFrom(k, a + b) == CommentFrom(k, a) + CommentFrom(k + Delims(a), b)
    ensures SourceFrom(k, a + b) == SourceFrom(k, a) + SourceFrom(k + Delims(a), b)
  {
    CommentAppend(k, a, b);
    SourceAppend(k, a, b);
  }

  /** What reading line i adds to the delimiter count and to each block. */
  lemma {:induction false} ReadLine(lines: seq<string>, i: nat)
    requires i < |lines|
    ensures var d, line := Delims(lines[..i]), lines[i];
      && Delims(lines[..i + 1]) == d + (if IsDelimiter(line) then 1 else 0)
      && CommentFrom(0, lines[..i + 1]) ==
         CommentFrom(0, lines[..i]) + (if !IsDelimiter(line) && d % 2 == 1 then [line] else [])
      && SourceFrom(0, lines[..i + 1]) ==
         SourceFrom(0, lines[..i]) + (if !IsDelimiter(line) && d >= 2 then SourceLines(line) else [])
  {
    var line := lines[i];
    assert lines[..i + 1] == lines[..i] + [line];
    assert [line][1..] == [];
    BlocksAppend(0, lines[..i], [line]);
    DelimsAppend(lines[..i], [line]);
  }

  /**
   * The parsing loop of `create_example_notebook`: the two flags `comment`
   * and `source` and the two blocks, line by line.
   */
  method SplitExample(lines: seq<string>) returns (commentBlock: seq<string>, sourceBlock: seq<string>)
    ensures commentBlock == CommentFrom(0, lines)
    ensures sourceBlock == SourceFrom(0, lines)
  {
    var comment, source := false, false;
    commentBlock, sourceBlock := [], [];
    var i := 0;
    while i < |lines|
      invariant 0 <= i <= |lines|
      invariant comment == (Delims(lines[..i]) % 2 == 1)
      invariant source == (Delims(lines[..i]) >= 2)
      invariant commentBlock == CommentFrom(0, lines[..i])
      invariant sourceBlock == SourceFrom(0, lines[..i])
    {
      var line := lines[i];
      ReadLine(lines, i);
      i := i + 1;
      if IsDelimiter(line) && !comment {
        comment := true;
        continue;
      } else if IsDelimiter(line) && comment {
        comment := false;
        source := true;
        continue;
      }
      if comment {
        commentBlock := commentBlock + [line];
      }
      if source {
        sourceBlock := sourceBlock + [line];
        if IsAltairImport(line) {
          sourceBlock := sourceBlock + [ENABLE_JSON];
        }
      }
    }
    assert lines[..i] == lines;
  }

  /** The injected line is not a delimiter. */
  lemma EnableIsNotDelimiter()
    ensures !IsDelimiter(ENABLE_JSON) && !IsAltairImport(ENABLE_JSON)
  {
    assert ENABLE_JSON[0] == 'a';
  }

  /** Neither block holds a delimiter line. */
  lemma {:induction false} NoDelimiterInBlocks(k: nat, lines: seq<string>)
    ensures forall j :: 0 <= j < |CommentFrom(k, lines)| ==> !IsDelimiter(CommentFrom(k, lines)[j])
    ensures forall j :: 0 <= j < |SourceFrom(k, lines)| ==> !IsDelimiter(SourceFrom(k, lines)[j])
    decreases |lines|
  {
    if lines != [] {
      EnableIsNotDelimiter();
      if IsDelimiter(lines[0]) {
        NoDelimiterInBlocks(k + 1, lines[1..]);
      } else {
        NoDelimiterInBlocks(k, lines[1..]);
      }
    }
  }

  /** Lines with no delimiter among them, read outside a docstring and before any, go nowhere. */
  lemma {:induction false} PlainLinesBeforeDocstring(k: nat, lines: seq<string>)
    requires k % 2 == 0 && k < 2 && Delims(lines) == 0
    ensures CommentFrom(k, lines) == [] && SourceFrom(k, lines) == []
    decreases |lines|
  {
    if lines != [] {
      PlainLinesBeforeDocstring(k, lines[1..]);
    }
  }

  /** Lines read inside the first docstring go, in order, to the docstring block only. */
  lemma {:induction false} DocstringLines(lines: seq<string>)
    requires Delims(lines) == 0
    ensures CommentFrom(1, lines) == lines && SourceFrom(1, lines) == []
    decreases |lines|
  {
    if lines != [] {
      DocstringLines(lines[1..]);
    }
  }

  /**
   * Once the first docstring has closed, every line that is not a delimiter
   * reaches the code block, whatever follows: `source` is never cleared.
   */
  lemma {:induction false} CodeAfterDocstring(k: nat, lines: seq<string>)
    requires k >= 2
    ensures SourceFrom(k, lines) == Seqs.Flatten(seq(|lines|, i requires 0 <= i < |lines| =>
      if IsDelimiter(lines[i]) then [] else SourceLines(lines[i])))
    decreases |lines|
  {
    if lines != [] {
      var parts := seq(|lines|, i requires 0 <= i < |lines| =>
        if IsDelimiter(lines[i]) then [] else SourceLines(lines[i]));
      var rest := seq(|lines| - 1, i requires 0 <= i < |lines| - 1 =>
        if IsDelimiter(lines[1..][i]) then [] else SourceLines(lines[1..][i]));
      assert parts[1..] == rest;
      if IsDelimiter(lines[0]) {
        CodeAfterDocstring(k + 1, lines[1..]);
      } else {
        CodeAfterDocstring(k, lines[1..]);
      }
    }
  }

  /** A docstring between its two delimiters goes to the docstring block only. */
  lemma {:induction false} DocstringSection(open: string, doc: seq<string>, close: string)
    requires Delims(doc) == 0 && IsDelimiter(open) && IsDelimiter(close)
    ensures var section := [open] + doc + [close];
      Delims(section) == 2 && CommentFrom(0, section) == doc && SourceFrom(0, section) == []
  {
    var section := [open] + doc + [close];
    assert section == [open] + (doc + [close]);
    assert section[1..] == doc + [close];
    BlocksAppend(1, doc, [close]);
    DocstringLines(doc);
    DelimsAppend(doc, [close]);
  }

  /** Lines before the first docstring, none of them a delimiter, leave both blocks as they are. */
  lemma {:induction false} SkipPreamble(preamble: seq<string>, rest: seq<string>)
    requires Delims(preamble) == 0
    ensures CommentFrom(0, preamble + rest) == CommentFrom(0, rest)
    ensures SourceFrom(0, preamble + rest) == SourceFrom(0, rest)
  {
    BlocksAppend(0, preamble, rest);
    PlainLinesBeforeDocstring(0, preamble);
  }

  /** A docstring followed by code: the docstring text, then the code read after two delimiters. */
  lemma {:induction false} DocstringThenCode(open: string, doc: seq<string>, close: string, code: seq<string>)
    requires Delims(doc) == 0 && IsDelimiter(open) && IsDelimiter(close)
    ensures CommentFrom(0, [open] + doc + [close] + code) == doc + CommentFrom(2, code)
    ensures SourceFrom(0, [open] + doc + [close] + code) == SourceFrom(2, code)
  {
    DocstringSection(open, doc, close);
    BlocksAppend(0, [open] + doc + [close], code);
  }

  /**
   * A script laid out as a preamble, a docstring and code: the preamble is
   * dropped, the docstring text becomes the docstring block, and the code
   * is what follows the closing delimiter.
   */
  lemma {:induction false} ScriptLayout(preamble: seq<string>, open: string, doc: seq<string>, close: string, code: seq<string>)
    requires Delims(preamble) == 0 && Delims(doc) == 0 && IsDelimiter(open) && IsDelimiter(close)
    ensures var file := preamble + [open] + doc + [close] + code;
      CommentFrom(0, file) == doc + CommentFrom(2, code) && SourceFrom(0, file) == SourceFrom(2, code)
  {
    var tail := [open] + doc + [close] + code;
    assert preamble + [open] + doc + [close] + code == preamble + tail;
    SkipPreamble(preamble, tail);
    DocstringThenCode(open, doc, close, code);
  }

  /**
   * A delimiter after the first docstring reopens the docstring block: a
   * line after an odd number (three or more) of delimiters goes to both
   * blocks.
   */
  lemma ReopenedDocstring(k: nat, line: string)
    requires k >= 3 && k % 2 == 1 && !IsDelimiter(line)
    ensures CommentFrom(k, [line]) == [line]
    ensures SourceFrom(k, [line]) == SourceLines(line)
  {
  }

  /** Every `import altair` line is directly followed by the injected line. */
  predicate ImportsFollowed(src: seq<string>) {
    forall j :: 0 <= j < |src| && IsAltairImport(src[j]) ==> j + 1 < |src| && src[j + 1] == ENABLE_JSON
  }

  /** The code block enables the JSON transformer after every `import altair`. */
  lemma {:induction false} EnableFollowsImport(k: nat, lines: seq<string>)
    ensures ImportsFollowed(SourceFrom(k, lines))
    decreases |lines|
  {
    if lines != [] {
      EnableIsNotDelimiter();
      if IsDelimiter(lines[0]) {
        EnableFollowsImport(k + 1, lines[1..]);
        assert SourceFrom(k, lines) == SourceFrom(k + 1, lines[1..]);
      } else {
        EnableFollowsImport(k, lines[1..]);
        var head := if k >= 2 then SourceLines(lines[0]) else [];
        var rest := SourceFrom(k, lines[1..]);
        var src := SourceFrom(k, lines);
        assert src == head + rest;
        forall j | 0 <= j < |src| && IsAltairImport(src[j])
          ensures j + 1 < |src| && src[j + 1] == ENABLE_JSON
        {
          if j >= |head| {
            var p := j - |head|;
            assert src[j] == rest[p];
            assert IsAltairImport(rest[p]);
            assert p + 1 < |rest| && rest[p + 1] == ENABLE_JSON;
            assert src[j + 1] == rest[p + 1];
          } else if j == 0 {
            assert head == SourceLines(lines[0]) && head[0] == lines[0];
            assert |head| == 2 && src[1] == head[1];
          } else {
            assert false;
          }
        }
      }
    }
  }

  /** `name.replace('_', ' ').title()`. */
  function NotebookTitle(name: string): (title: string)
    ensures |title| == |name|
  {
    PyText.Title(PyText.ReplaceChar(name, '_', ' '))
  }

  /** A title has a space exactly where the name has '_' or ' ', and no '_'. */
  lemma TitleSpaces(name: string)
    ensures forall i :: 0 <= i < |name| ==> (NotebookTitle(name)[i] == ' ' <==> name[i] == '_' || name[i] == ' ')
    ensures '_' !in NotebookTitle(name)
  {
    var s := PyText.ReplaceChar(name, '_', ' ');
    PyText.TitleChars(s);
    forall i | 0 <= i < |name|
      ensures NotebookTitle(name)[i] == ' ' <==> name[i] == '_' || name[i] == ' '
      ensures NotebookTitle(name)[i] != '_'
    {
      assert PyText.TitleRuleAt(s, NotebookTitle(name), i);
    }
  }

  /** `"[{0}]({1})".format(title, name + '.ipynb')`. */
  function IndexEntry(name: string): (entry: string)
    ensures PyText.StartsWith(entry, "[" + NotebookTitle(name) + "](")
  {
    var prefix := "[" + NotebookTitle(name) + "](";
    var entry := prefix + name + ".ipynb)";
    assert entry[..|prefix|] == prefix;
    entry
  }

  /** A generated notebook: its markdown cell and its code cell. */
  datatype Notebook = Notebook(markdown: string, code: string)

  /** `index_dict`, which each generated notebook updates in place. */
  class NotebookIndex {
    var entries: map<string, string>

    constructor()
      ensures entries == map[]
    {
      entries := map[];
    }

    /** `index_dict[filename] = index_entry`: a later example of the same file overwrites the entry. */
    method Record(filename: string, name: string)
      modifies this
      ensures entries == old(entries)[filename := IndexEntry(name)]
    {
      entries := entries[filename := IndexEntry(name)];
    }
  }

  /**
   * `create_example_notebook` on the lines of an example script: the entry
   * is recorded when an index is given, and the notebook's cells are the
   * docstring block and the code block, each joined without separators.
   */
  method CreateExampleNotebook(filename: string, name: string, lines: seq<string>, index: NotebookIndex?)
    returns (outputfile: string, notebook: Notebook)
    modifies if index == null then {} else {index}
    ensures outputfile == name + ".ipynb"
    ensures notebook == Notebook(Seqs.Flatten(CommentFrom(0, lines)), Seqs.Flatten(SourceFrom(0, lines)))
    ensures index != null ==> index.entries == old(index.entries)[filename := IndexEntry(name)]
  {
    outputfile := name + ".ipynb";
    if index != null {
      index.Record(filename, name);
    }
    var commentBlock, sourceBlock := SplitExample(lines);
    notebook := Notebook(Seqs.Flatten(commentBlock), Seqs.Flatten(sourceBlock));
  }

  // ---------------------------------------------------------------- the index listing

  /** `k` sorts before every other key. */
  predicate IsLeast(keys: set<string>, k: string) {
    k in keys && forall j :: j in keys && j != k ==> PyText.StrLess(k, j)
  }

  /** Every non-empty set of names has a least one. */
  lemma LeastOf(keys: set<string>) returns (k: string)
    requires keys != {}
    ensures IsLeast(keys, k)
    decreases keys
  {
    var x :| x in keys;
    var rest := keys - {x};
    if rest == {} {
      assert keys == {x};
      return x;
    }
    var m := LeastOf(rest);
    if PyText.StrLess(x, m) {
      forall j | j in keys && j != x
        ensures PyText.StrLess(x, j)
      {
        if j != m {
          assert j in rest;
          PyText.StrLessTransitive(x, m, j);
        }
      }
      return x;
    }
    PyText.StrLessTotal(x, m);
    forall j | j in keys && j != m
      ensures PyText.StrLess(m, j)
    {
      if j != x {
        assert j in rest;
      }
    }
    return m;
  }

  lemma LeastExists(keys: set<string>)
    requires keys != {}
    ensures exists k :: IsLeast(keys, k)
  {
    var k := LeastOf(keys);
  }

  /** There is only one least name. */
  lemma LeastUnique(keys: set<string>)
    ensures forall a, b :: IsLeast(keys, a) && IsLeast(keys, b) ==> a == b
  {
    forall a, b | IsLeast(keys, a) && IsLeast(keys, b)
      ensures a == b
    {
      if a != b {
        PyText.StrLessTransitive(a, b, a);
        PyText.StrLessIrreflexive(a);
      }
    }
  }

  function Least(keys: set<string>): (k: string)
    requires keys != {}
    ensures IsLeast(keys, k)
  {
    LeastExists(keys);
    LeastUnique(keys);
    var k :| IsLeast(keys, k);
    k
  }

  /** `sorted(...)` over the keys: every key once, in ascending order. */
  function SortedKeys(keys: set<string>): (r: seq<string>)
    ensures |r| == |keys|
    ensures forall k :: k in keys <==> k in r
    decreases keys
  {
    if keys == {} then []
    else
      var k := Least(keys);
      [k] + SortedKeys(keys - {k})
  }

  /** Each name sorts before every later one. */
  predicate StrictlyAscending(r: seq<string>) {
    forall i, j :: 0 <= i < j < |r| ==> PyText.StrLess(r[i], r[j])
  }

  /** The keys come out in strictly ascending order, so each appears once. */
  lemma {:induction false} SortedKeysAscending(keys: set<string>)
    ensures StrictlyAscending(SortedKeys(keys))
    decreases keys
  {
    if keys != {} {
      var k := Least(keys);
      var rest := SortedKeys(keys - {k});
      SortedKeysAscending(keys - {k});
      var r := SortedKeys(keys);
      assert r == [k] + rest;
      forall i, j | 0 <= i < j < |r|
        ensures PyText.StrLess(r[i], r[j])
      {
        assert r[j] == rest[j - 1];
        if i == 0 {
          assert rest[j - 1] in rest;
        } else {
          assert r[i] == rest[i - 1];
        }
      }
    }
  }

  /** The listing lines: "- " and the entry, by ascending file name. */
  function ListingLines(entries: map<string, string>): (lines: seq<string>)
    ensures var keys := SortedKeys(entries.Keys);
      |lines| == |keys| && forall i :: 0 <= i < |keys| ==> lines[i] == "- " + entries[keys[i]]
  {
    var keys := SortedKeys(entries.Keys);
    seq(|keys|, i requires 0 <= i < |keys| => "- " + entries[keys[i]])
  }

  /** `write_index`'s listing: the lines joined by newlines. */
  function IndexListing(entries: map<string, string>): string {
    PyText.Join("\n", ListingLines(entries))
  }

  /**
   * The listing reads back as one line per recorded file, in ascending
   * order of file name, as long as no entry holds a newline.
   */
  lemma IndexListingLines(entries: map<string, string>)
    requires entries != map[]
    requires forall f :: f in entries ==> '\n' !in entries[f]
    ensures PyText.Split(IndexListing(entries), '\n') == ListingLines(entries)
    ensures |ListingLines(entries)| == |entries|
  {
    var lines := ListingLines(entries);
    var keys := SortedKeys(entries.Keys);
    assert keys[0] in entries;
    forall i | 0 <= i < |lines|
      ensures '\n' !in lines[i]
    {
      assert keys[i] in entries;
      assert lines[i] == "- " + entries[keys[i]];
    }
    PyText.SplitOfJoin(lines, '\n');
  }
}
