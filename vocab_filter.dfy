/**
 * The vocabulary table and the word-type/lesson filter of the trainer
 * (`RootWidget.create_vocablist` in main.py).
 *
 * A row is the list of fields of one CSV record: column 0 is the term in
 * the first language, column 1 the term in the second, column 2 the word
 * type and column 3 the lesson.
 */
module VocabFilter {

  type Row = seq<string>

  const Lang1Col: nat := 0
  const Lang2Col: nat := 1
  const WordtypeCol: nat := 2
  const LessonCol: nat := 3

  /** The filter value that lets every row through. */
  const All: string := "All"

  /** Every data row has the four columns the trainer indexes. */
  predicate WellFormed(rows: seq<Row>)
  {
    forall row :: row in rows ==> |row| > LessonCol
  }

  /** The distinct values of one column of the rows. */
  ghost function ColumnValues(rows: seq<Row>, col: nat): set<string>
    requires forall row :: row in rows ==> col < |row|
  {
    set row | row in rows :: row[col]
  }

  /**
   * What a row must satisfy to stay in the list: a filter other than
   * `All` must equal the row's column.
   */
  predicate Matches(row: Row, wordtype: string, lesson: string)
    requires |row| > LessonCol
  {
    && (wordtype == All || row[WordtypeCol] == wordtype)
    && (lesson == All || row[LessonCol] == lesson)
  }

  /** `s` is obtained from `t` by deleting elements, keeping the rest in order. */
  ghost predicate IsSubsequence<T>(s: seq<T>, t: seq<T>)
  {
    || s == []
    || (t != [] && ((s[0] == t[0] && IsSubsequence(s[1..], t[1..])) || IsSubsequence(s, t[1..])))
  }

  lemma {:induction false} SubsequenceTransitive<T>(a: seq<T>, b: seq<T>, c: seq<T>)
    requires IsSubsequence(a, b) && IsSubsequence(b, c)
    ensures IsSubsequence(a, c)
    decreases |c|
  {
    if a != [] {
      if b[0] == c[0] && IsSubsequence(b[1..], c[1..]) {
        if a[0] == b[0] && IsSubsequence(a[1..], b[1..]) {
          SubsequenceTransitive(a[1..], b[1..], c[1..]);
        } else {
          SubsequenceTransitive(a, b[1..], c[1..]);
        }
      } else {
        SubsequenceTransitive(a, b, c[1..]);
      }
    }
  }

  /** The list comprehension `[voc for voc in rows if voc[col] == key]`. */
  function KeepWhere(rows: seq<Row>, col: nat, key: string): (kept: seq<Row>)
    requires forall row :: row in rows ==> col < |row|
    ensures forall row :: row in kept ==> row in rows && row[col] == key
    ensures |kept| <= |rows|
  {
    if rows == [] then []
    else if rows[0][col] == key then [rows[0]] + KeepWhere(rows[1..], col, key)
    else KeepWhere(rows[1..], col, key)
  }

  /** The comprehension keeps the order of the rows it keeps. */
  lemma {:induction false} KeepWhereSubsequence(rows: seq<Row>, col: nat, key: string)
    requires forall row :: row in rows ==> col < |row|
    ensures IsSubsequence(KeepWhere(rows, col, key), rows)
  {
    if rows != [] {
      KeepWhereSubsequence(rows[1..], col, key);
      var kept := KeepWhere(rows, col, key);
      if rows[0][col] == key {
        assert kept[0] == rows[0] && kept[1..] == KeepWhere(rows[1..], col, key);
      }
    }
  }

  /**
   * The comprehension keeps every occurrence of a matching row and no
   * occurrence of any other row.
   */
  lemma {:induction false} KeepWhereCount(rows: seq<Row>, col: nat, key: string, x: Row)
    requires forall row :: row in rows ==> col < |row|
    requires col < |x|
    ensures multiset(KeepWhere(rows, col, key))[x] ==
            if x[col] == key then multiset(rows)[x] else 0
  {
    if rows != [] {
      KeepWhereCount(rows[1..], col, key, x);
      assert rows == [rows[0]] + rows[1..];
      assert multiset(rows) == multiset([rows[0]]) + multiset(rows[1..]);
    }
  }

  /**
   * The active list for the chosen word type and lesson, branch by branch
   * as `create_vocablist` computes it before its emptiness check.
   */
  function Filtered(base: seq<Row>, wordtype: string, lesson: string): (r: seq<Row>)
    requires WellFormed(base)
    ensures forall row :: row in r ==> row in base && Matches(row, wordtype, lesson)
    ensures wordtype == All && lesson == All ==> r == base
  {
    if wordtype == All && lesson == All then base
    else if wordtype == All then KeepWhere(base, LessonCol, lesson)
    else if lesson == All then KeepWhere(base, WordtypeCol, wordtype)
    // `[voc for voc in base if voc[2] == wordtype if voc[3] == lesson]`
    else KeepWhere(KeepWhere(base, WordtypeCol, wordtype), LessonCol, lesson)
  }

  /**
   * A row of the table occurs in the filtered list exactly as often as in
   * the table when it matches both filters, and not at all otherwise.
   */
  lemma FilteredCount(base: seq<Row>, wordtype: string, lesson: string, x: Row)
    requires WellFormed(base)
    requires |x| > LessonCol
    ensures multiset(Filtered(base, wordtype, lesson))[x] ==
            if Matches(x, wordtype, lesson) then multiset(base)[x] else 0
  {
    if wordtype == All && lesson != All {
      KeepWhereCount(base, LessonCol, lesson, x);
    } else if wordtype != All && lesson == All {
      KeepWhereCount(base, WordtypeCol, wordtype, x);
    } else if wordtype != All && lesson != All {
      var byType := KeepWhere(base, WordtypeCol, wordtype);
      KeepWhereCount(base, WordtypeCol, wordtype, x);
      KeepWhereCount(byType, LessonCol, lesson, x);
    }
  }

  /** No matching row of the table is dropped. */
  lemma FilteredComplete(base: seq<Row>, wordtype: string, lesson: string)
    requires WellFormed(base)
    ensures forall row :: row in base && Matches(row, wordtype, lesson) ==>
              row in Filtered(base, wordtype, lesson)
  {
    forall row | row in base && Matches(row, wordtype, lesson)
      ensures row in Filtered(base, wordtype, lesson)
    {
      FilteredCount(base, wordtype, lesson, row);
    }
  }

  /** The filtered list keeps the table's order. */
  lemma FilteredSubsequence(base: seq<Row>, wordtype: string, lesson: string)
    requires WellFormed(base)
    ensures IsSubsequence(Filtered(base, wordtype, lesson), base)
  {
    if wordtype == All && lesson == All {
      SubsequenceReflexive(base);
    } else if wordtype == All {
      KeepWhereSubsequence(base, LessonCol, lesson);
    } else if lesson == All {
      KeepWhereSubsequence(base, WordtypeCol, wordtype);
    } else {
      var byType := KeepWhere(base, WordtypeCol, wordtype);
      KeepWhereSubsequence(base, WordtypeCol, wordtype);
      KeepWhereSubsequence(byType, LessonCol, lesson);
      SubsequenceTransitive(Filtered(base, wordtype, lesson), byType, base);
    }
  }

  lemma {:induction false} SubsequenceReflexive<T>(s: seq<T>)
    ensures IsSubsequence(s, s)
  {
    if s != [] {
      SubsequenceReflexive(s[1..]);
    }
  }

  /**
   * The filtered list is empty exactly when no row of the table matches:
   * the condition under which `create_vocablist` resets the filters.
   */
  lemma FilteredEmptyIff(base: seq<Row>, wordtype: string, lesson: string)
    requires WellFormed(base)
    ensures Filtered(base, wordtype, lesson) == [] <==>
            forall row :: row in base ==> !Matches(row, wordtype, lesson)
  {
    FilteredComplete(base, wordtype, lesson);
    var r := Filtered(base, wordtype, lesson);
    if r != [] {
      assert r[0] in r;
    }
  }
}
