/**
 * The exact skill extractor: reads category names from the first column of a CSV file and
 * reports those whose lower-cased name occurs in the lower-cased text.
 */
module NlpExtractor {
  import opened Wrappers
  import opened Text

  /** A row names a category when its first cell is not blank and does not mention "category". */
  predicate IsCategoryRow(row: seq<string>) {
    row != [] && PyStrip(row[0]) != "" && !IsSubstring("category", Lower(row[0]))
  }

  /** The stripped first cells of the category rows, in file order. */
  function CategoriesOf(rows: seq<seq<string>>): (cats: seq<string>)
    ensures |cats| <= |rows|
    ensures AllStripped(cats)
  {
    if rows == [] then []
    else
      var before := CategoriesOf(rows[..|rows| - 1]);
      var tail := RowCategory(rows[|rows| - 1]);
      AllStrippedAppend(before, tail);
      before + tail
  }

  /** What one row contributes: its stripped first cell when it names a category. */
  function RowCategory(row: seq<string>): (t: seq<string>)
    ensures |t| <= 1 && AllStripped(t)
  {
    if IsCategoryRow(row) then
      AllStrippedSingle(PyStrip(row[0]));
      [PyStrip(row[0])]
    else []
  }

  /** The categories of the file; none when it does not exist. */
  function CategoriesOfFile(file: Option<seq<seq<string>>>): seq<string> {
    if file.None? then [] else CategoriesOf(file.value)
  }

  /** The reading loop of `extract_skills`. */
  method ReadCategories(file: Option<seq<seq<string>>>) returns (cats: seq<string>)
    ensures cats == CategoriesOfFile(file)
  {
    cats := [];
    if file.Some? {
      var rows := file.value;
      for i := 0 to |rows|
        invariant cats == CategoriesOf(rows[..i])
      {
        var row := rows[i];
        CategoriesOfSnoc(rows, i);
        if IsCategoryRow(row) {
          cats := cats + [PyStrip(row[0])];
        }
      }
      assert rows[..|rows|] == rows;
    }
  }

  lemma CategoriesOfSnoc(rows: seq<seq<string>>, i: nat)
    requires i < |rows|
    ensures CategoriesOf(rows[..i + 1]) ==
            CategoriesOf(rows[..i]) + if IsCategoryRow(rows[i]) then [PyStrip(rows[i][0])] else []
  {
    assert rows[..i + 1][..i] == rows[..i];
  }

  /** The categories whose lower-cased name occurs in the lower-cased text, in order. */
  function Found(cats: seq<string>, textLower: string): (found: seq<string>)
    ensures |found| <= |cats|
  {
    if cats == [] then []
    else
      var c := cats[|cats| - 1];
      Found(cats[..|cats| - 1], textLower) + (if IsSubstring(Lower(c), textLower) then [c] else [])
  }

  /** `extract_skills`: `file` is the parsed categories file, `None` when it does not exist. */
  method ExtractSkills(text: string, file: Option<seq<seq<string>>>) returns (found: seq<string>)
    ensures found == Found(CategoriesOfFile(file), Lower(text))
    ensures file.None? ==> found == []
  {
    var categories := ReadCategories(file);
    var textLower := Lower(text);
    found := [];
    for i := 0 to |categories|
      invariant found == Found(categories[..i], textLower)
    {
      var categoryLower := Lower(categories[i]);
      FoundSnoc(categories, textLower, i);
      if IsSubstring(categoryLower, textLower) {
        found := found + [categories[i]];
      }
    }
    assert categories[..|categories|] == categories;
  }

  lemma FoundSnoc(cats: seq<string>, textLower: string, i: nat)
    requires i < |cats|
    ensures Found(cats[..i + 1], textLower) ==
            Found(cats[..i], textLower) + if IsSubstring(Lower(cats[i]), textLower) then [cats[i]] else []
  {
    assert cats[..i + 1][..i] == cats[..i];
  }

  /** A category is reported exactly when it is listed and occurs in the text, ignoring case. */
  lemma {:induction false} FoundIff(cats: seq<string>, textLower: string, c: string)
    ensures c in Found(cats, textLower) <==> c in cats && IsSubstring(Lower(c), textLower)
  {
    if cats != [] {
      FoundIff(cats[..|cats| - 1], textLower, c);
      assert cats == cats[..|cats| - 1] + [cats[|cats| - 1]];
    }
  }

  /** The report keeps the order of the category list. */
  lemma {:induction false} FoundOrdered(cats: seq<string>, textLower: string)
    ensures IsSubsequence(Found(cats, textLower), cats)
  {
    if cats != [] {
      var init := cats[..|cats| - 1];
      FoundOrdered(init, textLower);
      var found := Found(cats, textLower);
      if IsSubstring(Lower(cats[|cats| - 1]), textLower) {
        assert found[..|found| - 1] == Found(init, textLower);
      } else {
        assert found == Found(init, textLower);
        SubsequenceOfPrefix(found, init, cats[|cats| - 1]);
      }
    }
  }

  /** A category listed several times is reported as many times. */
  lemma {:induction false} FoundRepeats(cats: seq<string>, textLower: string, c: string)
    ensures multiset(Found(cats, textLower))[c] ==
      if IsSubstring(Lower(c), textLower) then multiset(cats)[c] else 0
  {
    if cats != [] {
      var init := cats[..|cats| - 1];
      FoundRepeats(init, textLower, c);
      assert cats == init + [cats[|cats| - 1]];
    }
  }
}
