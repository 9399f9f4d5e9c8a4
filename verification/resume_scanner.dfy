/**
 * The resume scanner: reads the list of job categories from a CSV file, derives keywords
 * from every category name, and reports the categories whose keywords occur in the text
 * of one resume, or of every resume in a folder.
 *
 * File contents enter as parameters: the CSV file as its parsed rows (or `None` when the
 * file does not exist), a resume as the text its reader extracted from it.
 */
module ResumeScanner {
  import opened Wrappers
  import opened Text

  type Row = seq<string>

  // ---------------------------------------------------------------------------------
  // Reading the category list

  /** The first row is a header when one of its non-empty cells mentions "category" in any case. */
  predicate IsHeaderRow(row: Row) {
    row != [] && ((row[0] != "" && IsSubstring("category", Lower(row[0]))) || IsHeaderRow(row[1..]))
  }

  /** A cell that holds more than whitespace. */
  predicate NonBlankCell(cell: string) {
    cell != "" && PyStrip(cell) != ""
  }

  /** The stripped first non-blank cell of a row, if any. */
  function FirstCategory(row: Row): (r: Option<string>)
    ensures r.Some? ==> exists j :: 0 <= j < |row| && NonBlankCell(row[j]) && r.value == PyStrip(row[j])
    ensures r.None? ==> forall j :: 0 <= j < |row| ==> !NonBlankCell(row[j])
    ensures r.Some? ==> r.value != "" && IsTrimmed(r.value, Python)
  {
    if row == [] then None
    else if NonBlankCell(row[0]) then Some(PyStrip(row[0]))
    else
      var r := FirstCategory(row[1..]);
      assert forall j :: 1 <= j < |row| ==> row[j] == row[1..][j - 1];
      r
  }

  /** The categories of a run of data rows: one per row that has a non-blank cell, in order. */
  function CategoriesOfRows(rows: seq<Row>): (cs: seq<string>)
    ensures |cs| <= |rows|
    ensures AllStripped(cs)
  {
    if rows == [] then []
    else
      var before := CategoriesOfRows(rows[..|rows| - 1]);
      var tail := RowCategories(rows[|rows| - 1]);
      AllStrippedAppend(before, tail);
      before + tail
  }

  /** The category of one row, as a list of at most one name. */
  function RowCategories(row: Row): (t: seq<string>)
    ensures |t| <= 1 && AllStripped(t)
  {
    var c := FirstCategory(row);
    if c.Some? then
      AllStrippedSingle(c.value);
      [c.value]
    else []
  }


  /** What reading the category file yields: nothing for a missing or empty file. */
  function CategoriesOfFile(file: Option<seq<Row>>): seq<string> {
    if file.None? || file.value == [] then []
    else if IsHeaderRow(file.value[0]) then CategoriesOfRows(file.value[1..])
    else CategoriesOfRows(file.value)
  }

  /** Rows whose cells are all blank contribute nothing. */
  lemma {:induction false} BlankRowsIgnored(rows: seq<Row>)
    requires forall i, j :: 0 <= i < |rows| && 0 <= j < |rows[i]| ==> !NonBlankCell(rows[i][j])
    ensures CategoriesOfRows(rows) == []
  {
    if rows != [] {
      BlankRowsIgnored(rows[..|rows| - 1]);
      assert FirstCategory(rows[|rows| - 1]).None?;
    }
  }

  lemma CategoriesOfRowsSnoc(rows: seq<Row>, i: nat)
    requires i < |rows|
    ensures CategoriesOfRows(rows[..i + 1]) == CategoriesOfRows(rows[..i]) +
      (if FirstCategory(rows[i]).Some? then [FirstCategory(rows[i]).value] else [])
  {
    assert rows[..i + 1][..i] == rows[..i];
  }

  /** The inner loop of `read_allcategories`: the first non-blank cell of a row, stripped. */
  method RowCategory(r: Row) returns (c: Option<string>)
    ensures c == FirstCategory(r)
  {
    var j := 0;
    while j < |r|
      invariant 0 <= j <= |r|
      invariant FirstCategory(r[j..]) == FirstCategory(r)
    {
      assert r[j..][0] == r[j];
      if NonBlankCell(r[j]) {
        return Some(PyStrip(r[j]));
      }
      assert r[j..][1..] == r[j + 1..];
      j := j + 1;
    }
    assert r[j..] == [];
    return None;
  }

  /** `read_allcategories`. */
  method ReadAllCategories(file: Option<seq<Row>>) returns (cats: seq<string>)
    ensures cats == CategoriesOfFile(file)
  {
    cats := [];
    if file.None? {
      return;
    }
    var rows := file.value;
    if rows == [] {
      return;
    }
    var start := 0;
    if IsHeaderRow(rows[0]) {
      start := 1;
    }
    var data := rows[start..];
    for i := 0 to |data|
      invariant cats == CategoriesOfRows(data[..i])
    {
      var c := RowCategory(data[i]);
      CategoriesOfRowsSnoc(data, i);
      if c.Some? {
        cats := cats + [c.value];
      }
    }
    assert data[..|data|] == data;
    assert cats == CategoriesOfRows(data);
  }

  // ---------------------------------------------------------------------------------
  // Keywords of a category name

  /** `re.sub(r'\([^)]*\)', '', s)`: drops every '(' that has a later ')' through that ')'. */
  function StripParens(s: string): (r: string)
    ensures |r| <= |s|
    decreases |s|
  {
    if s == [] then []
    else if s[0] == '(' && ')' in s[1..] then StripParens(s[IndexOf(s[1..], ')') + 2..])
    else [s[0]] + StripParens(s[1..])
  }

  /** Text without '(' passes through unchanged. */
  lemma {:induction false} StripParensNoOpen(s: string)
    requires '(' !in s
    ensures StripParens(s) == s
  {
    if s != [] {
      StripParensNoOpen(s[1..]);
      assert [s[0]] + s[1..] == s;
    }
  }

  /** A parenthesised piece disappears with its parentheses; the text before it is kept. */
  lemma {:induction false} StripParensDropsGroup(pre: string, inner: string, post: string)
    requires '(' !in pre && ')' !in inner
    ensures StripParens(pre + "(" + inner + ")" + post) == pre + StripParens(post)
  {
    var s := pre + "(" + inner + ")" + post;
    var rest := StripParens(post);
    if pre == [] {
      assert s == "(" + inner + ")" + post;
      StripParensAtGroup(inner, post);
      assert pre + rest == rest;
    } else {
      var t := pre[1..] + "(" + inner + ")" + post;
      assert s == [pre[0]] + t;
      StripParensKeep(pre[0], t);
      StripParensDropsGroup(pre[1..], inner, post);
      assert StripParens(s) == [pre[0]] + (pre[1..] + rest);
      assert [pre[0]] + (pre[1..] + rest) == ([pre[0]] + pre[1..]) + rest;
      assert [pre[0]] + pre[1..] == pre;
    }
  }

  lemma StripParensAtGroup(inner: string, post: string)
    requires ')' !in inner
    ensures StripParens("(" + inner + ")" + post) == StripParens(post)
  {
    var s := "(" + inner + ")" + post;
    assert s[1..] == inner + ")" + post;
    assert s[1..][|inner|] == ')';
    IndexOfFirst(inner, ')', post);
    assert s[|inner| + 2..] == post;
  }

  lemma StripParensKeep(c: char, t: string)
    requires c != '('
    ensures StripParens([c] + t) == [c] + StripParens(t)
  {
    assert ([c] + t)[1..] == t;
  }

  /** In `a + [c] + b` with no `c` in `a`, the first `c` is the one after `a`. */
  lemma {:induction false} IndexOfFirst(a: string, c: char, b: string)
    requires c !in a
    ensures IndexOf(a + [c] + b, c) == |a|
  {
    if a != [] {
      IndexOfFirst(a[1..], c, b);
      assert (a + [c] + b)[1..] == a[1..] + [c] + b;
    }
  }

  /** Characters that split a category name into parts. */
  predicate IsSeparator(c: char) { c == '/' || c == '&' || c == ',' }

  /** The word "and" on its own starts `s`; `afterWord` says a word character precedes `s`. */
  predicate AndWordAt(s: string, afterWord: bool) {
    !afterWord && |s| >= 3 && s[..3] == "and" && (|s| == 3 || !IsWordChar(s[3]))
  }

  /**
   * `re.split(r'[/&,]|\band\b', s)`: splits at '/', '&', ',' and at the whole word "and".
   * `afterWord` says whether a word character comes just before `s`.
   */
  function SplitCategory(s: string, afterWord: bool): (parts: seq<string>)
    ensures |parts| >= 1
    ensures forall k :: 0 <= k < |parts| ==> forall c :: c in parts[k] ==> !IsSeparator(c)
    decreases |s|
  {
    if s == [] then [""]
    else if IsSeparator(s[0]) then [""] + SplitCategory(s[1..], false)
    else if AndWordAt(s, afterWord) then [""] + SplitCategory(s[3..], true)
    else
      var rest := SplitCategory(s[1..], IsWordChar(s[0]));
      [[s[0]] + rest[0]] + rest[1..]
  }

  /** The number of word characters that start `s`. */
  function WordRunLength(s: string): (n: nat)
    ensures n <= |s|
    ensures forall i :: 0 <= i < n ==> IsWordChar(s[i])
    ensures n < |s| ==> !IsWordChar(s[n])
  {
    if s == [] || !IsWordChar(s[0]) then 0 else WordRunLength(s[1..]) + 1
  }

  /** A keyword candidate: three or more ASCII letters. */
  predicate IsLetterWord(w: string) {
    |w| >= 3 && forall i :: 0 <= i < |w| ==> IsAsciiLetter(w[i])
  }

  /**
   * `re.findall(r'\b[a-zA-Z]{3,}\b', s)`: the maximal runs of word characters that consist
   * of three or more letters; a run holding a digit or '_' yields nothing.
   */
  function LetterWords(s: string): (ws: seq<string>)
    ensures forall k :: 0 <= k < |ws| ==> IsLetterWord(ws[k])
    decreases |s|
  {
    if s == [] then []
    else if !IsWordChar(s[0]) then LetterWords(s[1..])
    else
      var n := WordRunLength(s);
      (if IsLetterWord(s[..n]) then [s[..n]] else []) + LetterWords(s[n..])
  }

  /** A word with no letters of its own, after a character that is no word character. */
  lemma {:induction false} LetterWordsOfWord(w: string, rest: string)
    requires IsLetterWord(w)
    requires rest == [] || !IsWordChar(rest[0])
    ensures LetterWords(w + rest) == [w] + LetterWords(rest)
  {
    var s := w + rest;
    var n := WordRunLength(s);
    assert forall i :: 0 <= i < |w| ==> IsWordChar(s[i]);
    assert rest != [] ==> s[|w|] == rest[0];
    assert n == |w|;
    assert s[..n] == w;
    assert s[n..] == rest;
  }

  /** All the words found in the parts of a cleaned category name, in order. */
  function WordsOfParts(parts: seq<string>): (ws: seq<string>)
    ensures forall k :: 0 <= k < |ws| ==> IsLetterWord(ws[k])
  {
    if parts == [] then [] else LetterWords(parts[0]) + WordsOfParts(parts[1..])
  }

  /** Words too common to identify a category. */
  const CommonWords: set<string> := {"the", "and", "for", "with", "using", "via"}

  /** `extract_keywords_from_category`: the distinct lower-cased words, without common words. */
  function Keywords(category: string): (ks: set<string>)
    ensures forall k :: k in ks ==> IsLetterWord(k) && IsLowercase(k) && k !in CommonWords
  {
    var words := WordsOfParts(SplitCategory(StripParens(category), false));
    set w | w in words && Lower(w) !in CommonWords :: Lower(w)
  }

  /** A parenthesised remark never contributes keywords. */
  lemma KeywordsIgnoreParenthesised(pre: string, inner: string, post: string)
    requires '(' !in pre && ')' !in inner && '(' !in post
    ensures Keywords(pre + "(" + inner + ")" + post) == Keywords(pre + post)
  {
    StripParensDropsGroup(pre, inner, post);
    StripParensNoOpen(post);
    StripParensNoOpen(pre + post);
  }

  /** A single word of three or more letters is its own keyword, in lower case. */
  lemma KeywordsOfOneWord(w: string)
    requires IsLetterWord(w) && Lower(w) !in CommonWords
    ensures Keywords(w) == {Lower(w)}
  {
    StripParensNoOpen(w);
    SplitCategoryNoSeparator(w);
    LetterWordsOfWord(w, []);
    assert w + [] == w;
    assert LetterWords([]) == [];
    assert WordsOfParts([w]) == [w] + WordsOfParts([]);
  }

  /** Letters only, so neither a separator nor a lone "and" can occur. */
  lemma {:induction false} SplitCategoryNoSeparator(w: string)
    requires IsLetterWord(w) && Lower(w) !in CommonWords
    ensures SplitCategory(w, false) == [w]
  {
    LowerIsLowercase("and");
    assert w != "and";
    assert |w| == 3 ==> w[..3] == w;
    assert |w| > 3 ==> IsWordChar(w[3]);
    SplitLetters(w[1..], true);
    assert [w[0]] + w[1..] == w;
  }

  /** After a word character, a run of letters stays one part. */
  lemma {:induction false} SplitLetters(s: string, afterWord: bool)
    requires afterWord || s == []
    requires forall i :: 0 <= i < |s| ==> IsAsciiLetter(s[i])
    ensures SplitCategory(s, afterWord) == [s]
  {
    if s != [] {
      SplitLetters(s[1..], true);
      assert [s[0]] + s[1..] == s;
    }
  }

  // ---------------------------------------------------------------------------------
  // Scanning one resume

  /**
   * `os.path.splitext(path)[1]` with '/' as the separator: from the last '.' after the last
   * '/', provided the file name has some character other than '.' before that dot.
   */
  function Extension(path: string): (ext: string)
    ensures ext == [] || (ext[0] == '.' && EndsWith(path, ext))
    ensures forall c :: c in ext ==> c != '/'
    ensures ext != [] ==> forall i :: 1 <= i < |ext| ==> ext[i] != '.'
  {
    var slash := LastIndexOf(path, '/');
    var dot := LastIndexOf(path, '.');
    if dot > slash && exists k :: slash < k < dot && path[k] != '.' then
      assert path[|path| - |path[dot..]|..] == path[dot..];
      path[dot..]
    else []
  }

  /** A file name `stem.ext` has the extension ".ext". */
  lemma ExtensionOfName(stem: string, ext: string)
    requires stem != [] && '.' !in stem && '/' !in stem && '.' !in ext && '/' !in ext
    ensures Extension(stem + "." + ext) == "." + ext
  {
    var p := stem + "." + ext;
    assert forall j :: 0 <= j < |stem| ==> p[j] == stem[j];
    assert forall j :: |stem| < j < |p| ==> p[j] == ext[j - |stem| - 1];
    assert p[|stem|] == '.';
    assert LastIndexOf(p, '/') == -1;
    assert LastIndexOf(p, '.') == |stem|;
    assert p[0] != '.';
    assert p[|stem|..] == "." + ext;
  }

  /**
   * A resume named ".pdf" passes the name filter of the folder scan, but has no extension,
   * so no reader is chosen for it and it matches nothing.
   */
  lemma DotPdfMatchesNothing(dir: string, extracted: string, cats: seq<string>)
    ensures ScannedName(".pdf")
    ensures ScanResult(EntryPath(dir, ".pdf"), extracted, cats) == []
  {
    var p := EntryPath(dir, ".pdf");
    assert p[|dir|] == '/' && p[|dir| + 1] == '.';
    assert p[|dir| + 2..] == "pdf";
    assert LastIndexOf(p, '/') == |dir|;
    assert LastIndexOf(p, '.') == |dir| + 1;
    assert Extension(p) == [];
    assert Lower(".pdf") == ".pdf";
  }

  /** The extensions whose files have a text reader. */
  predicate Readable(ext: string) {
    ext == ".pdf" || ext == ".docx" || ext == ".txt"
  }

  /** Some keyword of the category occurs in the lower-cased resume text. */
  predicate CategoryMatches(category: string, textLower: string) {
    exists k :: k in Keywords(category) && IsSubstring(k, textLower)
  }

  /** The categories that match, in the order of the category list. */
  function MatchingCategories(cats: seq<string>, textLower: string): (found: seq<string>)
    ensures |found| <= |cats|
  {
    if cats == [] then []
    else
      MatchingCategories(cats[..|cats| - 1], textLower) +
        (if CategoryMatches(cats[|cats| - 1], textLower) then [cats[|cats| - 1]] else [])
  }

  /** What scanning a resume reports: no text (an unreadable type or an empty file) finds nothing. */
  function ScanResult(path: string, extracted: string, cats: seq<string>): seq<string> {
    var text := if Readable(Lower(Extension(path))) then extracted else "";
    if text == "" then [] else MatchingCategories(cats, Lower(text))
  }

  /** A category is reported exactly when it is listed and one of its keywords occurs. */
  lemma {:induction false} MatchingCategoriesIff(cats: seq<string>, textLower: string, c: string)
    ensures c in MatchingCategories(cats, textLower) <==> c in cats && CategoryMatches(c, textLower)
  {
    if cats != [] {
      MatchingCategoriesIff(cats[..|cats| - 1], textLower, c);
      assert cats == cats[..|cats| - 1] + [cats[|cats| - 1]];
    }
  }

  /** The report keeps the order of the category list. */
  lemma {:induction false} MatchingCategoriesOrdered(cats: seq<string>, textLower: string)
    ensures IsSubsequence(MatchingCategories(cats, textLower), cats)
  {
    if cats != [] {
      var init := cats[..|cats| - 1];
      MatchingCategoriesOrdered(init, textLower);
      var found := MatchingCategories(cats, textLower);
      if CategoryMatches(cats[|cats| - 1], textLower) {
        assert found[..|found| - 1] == MatchingCategories(init, textLower);
      } else {
        assert found == MatchingCategories(init, textLower);
        SubsequenceOfPrefix(found, init, cats[|cats| - 1]);
      }
    }
  }

  /** The keywords that occur in the text. */
  function Hits(keywords: set<string>, textLower: string): set<string> {
    set k | k in keywords && IsSubstring(k, textLower)
  }

  /** The keyword loop of `scan_single_resume`: counts the keywords that occur in the text. */
  method CountMatching(keywords: set<string>, textLower: string) returns (matching: nat)
    ensures matching == |Hits(keywords, textLower)|
    ensures matching >= 1 <==> exists k :: k in keywords && IsSubstring(k, textLower)
  {
    matching := 0;
    var rest := keywords;
    while rest != {}
      invariant rest <= keywords
      invariant matching == |Hits(keywords - rest, textLower)|
      decreases |rest|
    {
      var k :| k in rest;
      if IsSubstring(k, textLower) {
        assert Hits(keywords - (rest - {k}), textLower) == Hits(keywords - rest, textLower) + {k};
        matching := matching + 1;
      } else {
        assert Hits(keywords - (rest - {k}), textLower) == Hits(keywords - rest, textLower);
      }
      rest := rest - {k};
    }
    assert keywords - rest == keywords;
    if exists k :: k in keywords && IsSubstring(k, textLower) {
      var k :| k in keywords && IsSubstring(k, textLower);
      assert k in Hits(keywords, textLower);
    }
  }

  /** `scan_single_resume`, given the text its reader extracted from the file at `path`. */
  method ScanSingleResume(path: string, extracted: string, cats: seq<string>) returns (found: seq<string>)
    ensures found == ScanResult(path, extracted, cats)
  {
    var ext := Lower(Extension(path));
    var text: string;
    if ext == ".pdf" || ext == ".docx" || ext == ".txt" {
      text := extracted;
    } else {
      text := "";
    }
    if text == "" {
      return [];
    }
    var textLower := Lower(text);
    found := [];
    for i := 0 to |cats|
      invariant found == MatchingCategories(cats[..i], textLower)
    {
      var matching := CountMatching(Keywords(cats[i]), textLower);
      assert cats[..i + 1][..i] == cats[..i];
      if matching >= 1 {
        found := found + [cats[i]];
      }
    }
    assert cats[..|cats|] == cats;
  }

  // ---------------------------------------------------------------------------------
  // The command

  /** A directory entry of the resumes folder, with the text its reader would extract. */
  datatype Entry = Entry(name: string, isFile: bool, extracted: string)

  /** What `main` writes: the matched categories, as rows under the header "Category". */
  datatype Report = Report(matched: seq<string>, rows: seq<Row>)

  /** The rows of the output CSV file. */
  function OutputRows(matched: seq<string>): (rows: seq<Row>)
    ensures |rows| == |matched| + 1 && rows[0] == ["Category"]
    ensures forall k :: 0 <= k < |matched| ==> rows[k + 1] == [matched[k]]
  {
    [["Category"]] + seq(|matched|, k requires 0 <= k < |matched| => [matched[k]])
  }

  /** `acc` followed by the elements of `xs` it does not hold yet, each once, first first. */
  function MergeNew(acc: seq<string>, xs: seq<string>): (r: seq<string>)
    decreases |xs|
    ensures |acc| <= |r| && r[..|acc|] == acc
    ensures forall c :: c in r <==> c in acc || c in xs
    ensures NoDuplicates(acc) ==> NoDuplicates(r)
  {
    if xs == [] then acc
    else
      var next := if xs[0] in acc then acc else acc + [xs[0]];
      var r := MergeNew(next, xs[1..]);
      assert r[..|acc|] == next[..|next|][..|acc|];
      r
  }

  /** Names the folder scan accepts: ending in .pdf, .docx or .txt, in any case. */
  predicate ScannedName(name: string) {
    var lower := Lower(name);
    EndsWith(lower, ".pdf") || EndsWith(lower, ".docx") || EndsWith(lower, ".txt")
  }

  /** The path `os.path.join(dir, name)` of an entry. */
  function EntryPath(dir: string, name: string): string {
    dir + "/" + name
  }

  /** What one folder entry contributes: nothing unless it is a file with a resume's name. */
  function EntryMatches(dir: string, e: Entry, cats: seq<string>): seq<string> {
    if e.isFile && ScannedName(e.name) then ScanResult(EntryPath(dir, e.name), e.extracted, cats) else []
  }

  /** What each entry of a folder listing contributes, in listing order. */
  function FolderResults(dir: string, entries: seq<Entry>, cats: seq<string>): (results: seq<seq<string>>)
    ensures |results| == |entries|
    ensures forall i :: 0 <= i < |entries| ==> results[i] == EntryMatches(dir, entries[i], cats)
  {
    if entries == [] then []
    else FolderResults(dir, entries[..|entries| - 1], cats) + [EntryMatches(dir, entries[|entries| - 1], cats)]
  }

  /** The lists merged in order: each element once, at its first appearance. */
  function MergeAll(lists: seq<seq<string>>): seq<string> {
    if lists == [] then [] else MergeNew(MergeAll(lists[..|lists| - 1]), lists[|lists| - 1])
  }

  /** A merged report names no category twice. */
  lemma {:induction false} MergeAllDistinct(lists: seq<seq<string>>)
    ensures NoDuplicates(MergeAll(lists))
  {
    if lists != [] {
      MergeAllDistinct(lists[..|lists| - 1]);
    }
  }

  /** Whether some list holds `c`. */
  predicate InSome(lists: seq<seq<string>>, c: string) {
    exists i :: 0 <= i < |lists| && c in lists[i]
  }

  /** A merged report names exactly the elements of the lists. */
  lemma {:induction false} MergeAllIff(lists: seq<seq<string>>, c: string)
    ensures c in MergeAll(lists) <==> InSome(lists, c)
  {
    if lists != [] {
      var n := |lists| - 1;
      MergeAllIff(lists[..n], c);
      InSomeSnoc(lists, c);
    }
  }

  lemma InSomeSnoc(lists: seq<seq<string>>, c: string)
    requires lists != []
    ensures InSome(lists, c) <==> InSome(lists[..|lists| - 1], c) || c in lists[|lists| - 1]
  {
    var init := lists[..|lists| - 1];
    if InSome(lists, c) {
      var i :| 0 <= i < |lists| && c in lists[i];
      if i < |init| {
        assert init[i] == lists[i];
      }
    }
    if InSome(init, c) {
      var i :| 0 <= i < |init| && c in init[i];
      assert lists[i] == init[i];
    }
  }

  /** The categories found in a folder: per entry, merged in listing order. */
  function FolderMatches(dir: string, entries: seq<Entry>, cats: seq<string>): seq<string> {
    MergeAll(FolderResults(dir, entries, cats))
  }

  /** The folder report names each category once, and exactly those some scanned resume matched. */
  lemma FolderMatchesSpec(dir: string, entries: seq<Entry>, cats: seq<string>, c: string)
    ensures NoDuplicates(FolderMatches(dir, entries, cats))
    ensures c in FolderMatches(dir, entries, cats) <==>
      exists i :: 0 <= i < |entries| && entries[i].isFile && ScannedName(entries[i].name) &&
        c in ScanResult(EntryPath(dir, entries[i].name), entries[i].extracted, cats)
  {
    MergeAllDistinct(FolderResults(dir, entries, cats));
    MergeAllIff(FolderResults(dir, entries, cats), c);
  }

  /** The merge loop of `main`: appends the categories not reported yet. */
  method MergeInto(matched: seq<string>, found: seq<string>) returns (r: seq<string>)
    ensures r == MergeNew(matched, found)
  {
    r := matched;
    for j := 0 to |found|
      invariant MergeNew(r, found[j..]) == MergeNew(matched, found)
    {
      if found[j] !in r {
        r := r + [found[j]];
      }
      assert found[j..][1..] == found[j + 1..];
    }
    assert found[|found|..] == [];
  }

  /** The folder loop of `main`: scans every resume in the listing and merges what they match. */
  method ScanFolder(dir: string, entries: seq<Entry>, cats: seq<string>) returns (matched: seq<string>)
    ensures matched == FolderMatches(dir, entries, cats)
  {
    matched := [];
    for i := 0 to |entries|
      invariant matched == MergeAll(FolderResults(dir, entries[..i], cats))
    {
      FolderResultsStep(dir, entries, i, cats);
      var e := entries[i];
      if !e.isFile {
        continue;
      }
      var lower := Lower(e.name);
      if !(EndsWith(lower, ".pdf") || EndsWith(lower, ".docx") || EndsWith(lower, ".txt")) {
        continue;
      }
      var found := ScanSingleResume(EntryPath(dir, e.name), e.extracted, cats);
      matched := MergeInto(matched, found);
    }
    assert entries[..|entries|] == entries;
  }

  /** One more entry merges its own matches into the report so far. */
  lemma FolderResultsStep(dir: string, entries: seq<Entry>, i: nat, cats: seq<string>)
    requires i < |entries|
    ensures MergeAll(FolderResults(dir, entries[..i + 1], cats)) ==
      MergeNew(MergeAll(FolderResults(dir, entries[..i], cats)), EntryMatches(dir, entries[i], cats))
  {
    assert entries[..i + 1][..i] == entries[..i];
  }

  /** The writing loop of `main`: a header row, then one row per category. */
  method WriteRows(matched: seq<string>) returns (rows: seq<Row>)
    ensures rows == OutputRows(matched)
  {
    rows := [["Category"]];
    for k := 0 to |matched|
      invariant rows == OutputRows(matched[..k])
    {
      rows := rows + [[matched[k]]];
      assert rows == OutputRows(matched[..k + 1]);
    }
    assert matched[..|matched|] == matched;
  }

  /**
   * `main`: no report at all when no category could be read; otherwise the categories of the
   * named resume (none when it does not exist), or of every resume in the folder.
   * `specific` is the optional command-line path with whether it exists and its text;
   * `folder` is the listing of the resumes folder, `None` when it is not a directory.
   */
  method Run(categoryFile: Option<seq<Row>>, specific: Option<(string, bool, string)>,
             dir: string, folder: Option<seq<Entry>>) returns (report: Option<Report>)
    ensures CategoriesOfFile(categoryFile) == [] <==> report.None?
    ensures report.Some? ==> report.value.rows == OutputRows(report.value.matched)
    ensures report.Some? && specific.Some? && specific.value.0 != "" ==>
      report.value.matched ==
        (if specific.value.1 then ScanResult(specific.value.0, specific.value.2, CategoriesOfFile(categoryFile)) else [])
    ensures report.Some? && (specific.None? || specific.value.0 == "") ==>
      report.value.matched ==
        (if folder.Some? then FolderMatches(dir, folder.value, CategoriesOfFile(categoryFile)) else [])
  {
    var cats := ReadAllCategories(categoryFile);
    if cats == [] {
      return None;
    }
    var matched: seq<string>;
    if specific.Some? && specific.value.0 != "" {
      var (path, exists_, text) := specific.value;
      if exists_ {
        matched := ScanSingleResume(path, text, cats);
      } else {
        matched := [];
      }
    } else {
      matched := [];
      if folder.Some? {
        matched := ScanFolder(dir, folder.value, cats);
      }
    }
    var rows := WriteRows(matched);
    return Some(Report(matched, rows));
  }
}
