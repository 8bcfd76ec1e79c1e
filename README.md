# Vocabulary trainer session, modelled in Dafny

This project models the trainer session of a flashcard vocabulary trainer. The session is the `RootWidget` class of `main.py`. The trainer loads a table whose first record is a header. Every data row holds a term in the first language, its translation, a word type and a lesson. The user may filter the rows by word type and lesson, where `All` means no filter. When no row matches the chosen filters, the session falls back to the whole table. The session draws a random row and shows its term in the prompt language. It reveals the translation on demand. The test direction can be switched.

The model has three modules:

- `StringOrder` (`string_order.dfy`): Python's code-point ordering of strings, and `sorted()` over a set of strings. The choice lists of the two filters are built with it.
- `VocabFilter` (`vocab_filter.dfy`): rows, the filter predicate `Matches`, and the list comprehensions of `create_vocablist` as the pure functions `KeepWhere` and `Filtered`. Lemmas prove the filtered list exact: every kept row matches, each matching row keeps all its occurrences, and the table's order is kept.
- `Session` (`session.dfy`): the class `RootWidget`. Its `const` fields are the header, the table and the two choice lists, which are set once at construction. Its `var` fields are the active list, the filters, the direction, the drawn row and two text slots. The slots stand for the `txt_lang1` and `txt_lang2` text boxes. The invariant `Valid()` says that the active list is always `Filtered(table, wordtype, lesson)`. It also says the active list is non-empty whenever the table is.

The spinner values read by `create_vocablist` are method parameters. `random.choice` becomes a nondeterministic choice (`:|`) of a member of the active list. The CSV file becomes the constructor's `table` parameter.

The model follows the code on these points:

- `show_answer` only writes a text box. The code keeps no flag recording that the answer was revealed, and neither does the model.
- The code does not check that data rows have as many fields as the header. The model requires every data row to have at least the four columns the code indexes.

## Model

| member | source | states |
|---|---|---|
| `StringOrder.Less` | main.py:63-64 | Python's `<` on `str`, the order `sorted` uses: the first differing code point decides, and a proper prefix is smaller |
| `VocabFilter.Matches` | main.py:105-115 | the pair of filter conditions: a word-type filter other than `All` must equal column 2, and a lesson filter other than `All` must equal column 3 |
| `StringOrder.LessIrreflexive` | main.py:63-64 | no string sorts before itself under Python's string order |
| `StringOrder.LessTransitive` | main.py:63-64 | Python's string order is transitive |
| `StringOrder.LessTotal` | main.py:63-64 | any two distinct strings are ordered one way or the other |
| `StringOrder.StrictlySortedDistinct` | main.py:63-64 | a list sorted from a set holds each value once |
| `StringOrder.SortedUnique` | main.py:63-64 | two strictly ascending lists with the same elements are equal, so the choice lists do not depend on the sorting algorithm |
| `StringOrder.Insert` | main.py:63-64 | inserting into a strictly ascending list keeps it strictly ascending; its elements become the old ones plus the new value; it grows by one exactly when the value is new |
| `StringOrder.SortedList` | main.py:63-64 | `sorted(list(s))` for a set `s`: strictly ascending, holds exactly the members of `s`, and has `s`'s size |
| `VocabFilter.KeepWhere` | main.py:108-112 | every row the comprehension keeps comes from the input and has the key in the tested column; it is no longer than the input |
| `VocabFilter.KeepWhereSubsequence` | main.py:108-112 | the comprehension keeps its rows in input order |
| `VocabFilter.KeepWhereCount` | main.py:108-112 | a row with the key in the column is kept as often as it occurs in the input; any other row is dropped |
| `VocabFilter.Filtered` | main.py:105-115 | every row of the active list comes from the table and matches both filters; with both filters `All` the active list is the table itself |
| `VocabFilter.FilteredCount` | main.py:105-115 | a table row occurs in the active list exactly as often as in the table when it matches both filters, and never otherwise |
| `VocabFilter.FilteredComplete` | main.py:105-115 | no table row that matches both filters is left out |
| `VocabFilter.FilteredSubsequence` | main.py:105-115 | the active list keeps the table's order |
| `VocabFilter.FilteredEmptyIff` | main.py:117-121 | the filtered list is empty, and the reset is triggered, exactly when no table row matches both filters |
| `Session.CollectChoices` | main.py:52-64 | the word-type and lesson choice lists are strictly ascending; they hold `All` and the column 2 (resp. column 3) value of every row, and nothing else |
| `Session.RootWidget.constructor` | main.py:44-79 | the header is the first record and the table the rest; the active list is the table; no row is drawn; direction 0; both filters `All`; the two language captions come from the header; the choice lists are as `CollectChoices` states; the two text boxes are assumed to start empty (`__init__` does not write them) |
| `Session.RootWidget.CreateVocablist` | main.py:95-122 | when some row matches, the filters become the chosen ones and the active list is `Filtered` of them; otherwise both filters are `All` and the active list is the whole table; drawn row, direction and text boxes are untouched; the invariant, including a non-empty active list for a non-empty table, is kept |
| `Session.RootWidget.ResetSettings` | main.py:125-135 | both filters become `All` and the active list the whole table; the result satisfies the invariant |
| `Session.RootWidget.ShowAnswer` | main.py:137-144 | in direction 1 the first-language box shows column 0 of the drawn row; in direction 0 the second-language box shows column 1; the other box and every other field are unchanged |
| `Session.RootWidget.SwitchLangdir` | main.py:146-156 | the direction flips to the other of 0 and 1; nothing else changes |
| `Session.RootWidget.TestVocab` | main.py:158-181 | the drawn row is a member of the active list; in direction 0 the first box shows its column 0 and the second is cleared; in direction 1 the first is cleared and the second shows column 1; filters, active list and direction are unchanged |
| `Session.SwitchTwice` | main.py:146-156 | switching the direction twice restores the whole state |
| `Session.DrawThenReveal` | main.py:137-181 | drawing and then revealing leaves both boxes showing the drawn row's two terms, in either direction |
| `Session.VerbSession` | main.py:95-181 | over the table Hund/собака (Noun) and gehen/идти (Verb), filtering on `Verb` and drawing in direction 0 prompts `gehen` and reveals `идти` |

## Left out

- `read_csv` (main.py:17-26) and the whole of `vocab.py` are left out. They are file I/O and CSV parsing by Python's `csv` module. The parsed table is the constructor's parameter.
- Kivy widget plumbing is UI and is left out:
  - the spinner texts that `reset_settings` sets back to `All` (main.py:130, 133);
  - the `Start`/`Next` and `<-`/`->` button captions;
  - the `btn_show.disabled` flag;
  - `post_warning`, `remove_warning_label` and `quit_app`;
  - the `VocabApp` class.
- The warning posted when the filters match nothing, and the `Clock.schedule_once` timer that clears it after 30 seconds, are left out. They are host event-loop callbacks. The reset itself is modelled.
- `random.choice` draws uniformly at random. The model picks an arbitrary member of the active list and says nothing about the distribution.
- The empty table is left out. `random.choice` on an empty list raises, so `TestVocab` requires a non-empty table.
- A table without a header record, a header with fewer than two fields, or a data row with fewer than four fields makes the code raise `IndexError`. The model excludes these inputs by preconditions.
- ShowAnswer: the case where no row has been drawn yet is left out. `vocab` is then `None`, and `self.vocab[...]` (main.py:142, 144) raises `TypeError`. `ShowAnswer` requires a drawn row; the UI keeps the reveal button disabled until the first draw.
- RootWidget.constructor: the initial text of the two text boxes comes from the widget layout file, which is not part of this model. `__init__` does not write them, and the model takes them to start empty.
- `vocablist` and `base_vocabulary` share one Python list object. Neither is ever changed in place, so the model treats both as values.
