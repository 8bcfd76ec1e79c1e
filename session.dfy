/**
 * The trainer session held by `RootWidget` in main.py: the loaded table,
 * the active filtered list, the filters, the test direction, the drawn
 * row and the two text boxes that show the prompt and the answer.
 */
module Session {
  import opened VocabFilter
  import opened StringOrder

  datatype Option<T> = None | Some(value: T)

  /**
   * The choice lists offered for the two filters: `All` together with
   * every word type (column 2) and every lesson (column 3) of the rows,
   * each in ascending order and each value once.
   */
  method CollectChoices(rows: seq<Row>) returns (wordtypes: seq<string>, lessons: seq<string>)
    requires WellFormed(rows)
    ensures StrictlySorted(wordtypes) && StrictlySorted(lessons)
    ensures forall x :: x in wordtypes <==> x == All || x in ColumnValues(rows, WordtypeCol)
    ensures forall x :: x in lessons <==> x == All || x in ColumnValues(rows, LessonCol)
  {
    var wordtypeSet: set<string> := {All};
    var lessonSet: set<string> := {All};
    for i := 0 to |rows|
      invariant wordtypeSet == {All} + ColumnValues(rows[..i], WordtypeCol)
      invariant lessonSet == {All} + ColumnValues(rows[..i], LessonCol)
    {
      assert rows[..i + 1] == rows[..i] + [rows[i]];
      wordtypeSet := wordtypeSet + {rows[i][WordtypeCol]};
      lessonSet := lessonSet + {rows[i][LessonCol]};
    }
    assert rows[..|rows|] == rows;
    wordtypes := SortedList(wordtypeSet);
    lessons := SortedList(lessonSet);
  }

  class RootWidget {
    const headers: Row
    const baseVocabulary: seq<Row>
    /** Column captions of the two languages. */
    const lang1Head: string
    const lang2Head: string
    const wordtypes: seq<string>
    const lessons: seq<string>

    var vocablist: seq<Row>
    var vocab: Option<Row>
    /** 0: ask in the first language; 1: ask in the second. */
    var langdir: int
    var wordtype: string
    var lesson: string
    /** The text boxes of the first and of the second language. */
    var txtLang1: string
    var txtLang2: string

    /** Everything except that the active list is non-empty. */
    ghost predicate Consistent()
      reads this
    {
      && WellFormed(baseVocabulary)
      && (langdir == 0 || langdir == 1)
      && vocablist == Filtered(baseVocabulary, wordtype, lesson)
      && (vocab.Some? ==> vocab.value in baseVocabulary)
    }

    ghost predicate Valid()
      reads this
    {
      Consistent() && (baseVocabulary != [] ==> vocablist != [])
    }

    /**
     * `table` is the whole CSV file: the header record, then the data rows.
     * The two text boxes start empty; their initial text belongs to the
     * widget layout, not to this constructor.
     */
    constructor (table: seq<Row>)
      requires table != [] && |table[0]| > Lang2Col
      requires WellFormed(table[1..])
      ensures Valid()
      ensures headers == table[0] && baseVocabulary == table[1..]
      ensures lang1Head == headers[Lang1Col] && lang2Head == headers[Lang2Col]
      ensures vocablist == baseVocabulary && vocab == None
      ensures langdir == 0 && wordtype == All && lesson == All
      ensures txtLang1 == "" && txtLang2 == ""
      ensures StrictlySorted(wordtypes) && StrictlySorted(lessons)
      ensures forall x :: x in wordtypes <==> x == All || x in ColumnValues(baseVocabulary, WordtypeCol)
      ensures forall x :: x in lessons <==> x == All || x in ColumnValues(baseVocabulary, LessonCol)
    {
      headers := table[0];
      baseVocabulary := table[1..];
      vocablist := table[1..];
      vocab := None;
      var w, l := CollectChoices(table[1..]);
      lang1Head := table[0][Lang1Col];
      lang2Head := table[0][Lang2Col];
      wordtypes, lessons := w, l;
      langdir := 0;
      wordtype := All;
      lesson := All;
      txtLang1, txtLang2 := "", "";
    }

    /**
     * Applies the word type and lesson chosen in the two spinners; when no
     * row matches them, falls back to the unfiltered table.
     */
    method CreateVocablist(selectedWordtype: string, selectedLesson: string)
      requires Valid()
      modifies this`wordtype, this`lesson, this`vocablist
      ensures Valid()
      ensures var picked := Filtered(baseVocabulary, selectedWordtype, selectedLesson);
              if picked == [] then
                wordtype == All && lesson == All && vocablist == baseVocabulary
              else
                wordtype == selectedWordtype && lesson == selectedLesson && vocablist == picked
    {
      wordtype := selectedWordtype;
      lesson := selectedLesson;
      vocablist := Filtered(baseVocabulary, wordtype, lesson);
      if vocablist == [] {
        ResetSettings();
      }
    }

    /** Both filters back to `All` and the whole table active. */
    method ResetSettings()
      requires Consistent()
      modifies this`wordtype, this`lesson, this`vocablist
      ensures Valid()
      ensures wordtype == All && lesson == All && vocablist == baseVocabulary
    {
      wordtype := All;
      lesson := All;
      vocablist := baseVocabulary;
    }

    /** Shows the withheld term of the drawn row in its empty text box. */
    method ShowAnswer()
      requires Valid() && vocab.Some?
      modifies this`txtLang1, this`txtLang2
      ensures Valid()
      ensures langdir == 1 ==> txtLang1 == vocab.value[Lang1Col] && txtLang2 == old(txtLang2)
      ensures langdir == 0 ==> txtLang2 == vocab.value[Lang2Col] && txtLang1 == old(txtLang1)
    {
      if langdir != 0 {
        txtLang1 := vocab.value[langdir - 1];
      } else {
        txtLang2 := vocab.value[langdir + 1];
      }
    }

    /** Reverses the test direction. */
    method SwitchLangdir()
      requires Valid()
      modifies this`langdir
      ensures Valid()
      ensures langdir != old(langdir)
    {
      if langdir == 0 {
        langdir := 1;
      } else {
        langdir := 0;
      }
    }

    /**
     * Draws a row of the active list (any one: the choice is random) and
     * shows its term in the prompt language, leaving the other box empty.
     */
    method TestVocab()
      requires Valid() && baseVocabulary != []
      modifies this`vocab, this`txtLang1, this`txtLang2
      ensures Valid()
      ensures vocab.Some? && vocab.value in vocablist
      ensures langdir == 0 ==> txtLang1 == vocab.value[Lang1Col] && txtLang2 == ""
      ensures langdir == 1 ==> txtLang1 == "" && txtLang2 == vocab.value[Lang2Col]
    {
      assert vocablist[0] in vocablist;
      var picked :| picked in vocablist;
      vocab := Some(picked);
      if langdir != 0 {
        txtLang1 := "";
        txtLang2 := picked[langdir];
      } else {
        txtLang1 := picked[langdir];
        txtLang2 := "";
      }
    }
  }

  /** Switching the direction twice gives back the state it started from. */
  method SwitchTwice(w: RootWidget)
    requires w.Valid()
    modifies w
    ensures unchanged(w)
  {
    w.SwitchLangdir();
    w.SwitchLangdir();
  }

  /**
   * Drawing a row and then revealing it fills both boxes with that row's
   * two terms, whichever the direction.
   */
  method DrawThenReveal(w: RootWidget)
    requires w.Valid() && w.baseVocabulary != []
    modifies w
    ensures w.Valid() && w.vocab.Some? && w.vocab.value in w.vocablist
    ensures w.txtLang1 == w.vocab.value[Lang1Col] && w.txtLang2 == w.vocab.value[Lang2Col]
    ensures w.vocablist == old(w.vocablist) && w.langdir == old(w.langdir)
  {
    w.TestVocab();
    w.ShowAnswer();
  }

  /**
   * A session over a two-word table: filtering on the verbs leaves one
   * row, which is then drawn (its first-language term is the prompt in
   * the initial direction, and revealing leaves it in place) and
   * revealed.
   */
  method VerbSession() returns (query: string, answer: string)
    ensures query == "gehen" && answer == "идти"
  {
    var noun := ["Hund", "собака", "Noun", "1"];
    var verb := ["gehen", "идти", "Verb", "2"];
    var table := [["L1", "L2", "Type", "Lesson"], noun, verb];
    assert table[1..] == [noun, verb];
    var w := new RootWidget(table);
    assert Filtered(w.baseVocabulary, "Verb", All) == [verb] by {
      assert "Verb" != All && noun[WordtypeCol] != "Verb";
      assert [noun, verb][1..] == [verb];
      assert KeepWhere([verb], WordtypeCol, "Verb") == [verb];
    }
    w.CreateVocablist("Verb", All);
    DrawThenReveal(w);
    assert w.vocab.value in [verb];
    query, answer := w.txtLang1, w.txtLang2;
  }
}
