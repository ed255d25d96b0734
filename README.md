# sigMaker signature generator, modelled in Dafny

`scripts/generate_signatures.py` is sigMaker's interactive signature generator:

1. It loads the user records of `users.json`.
2. It asks the operator for a selection such as `1-3,5,7`.
3. For each selected record it renders an HTML e-mail signature from a Jinja2 template into `output/<email>.html`.
4. It repeats from step 2 until the operator types `q`.

This project models the four parts of that script that hold logic. Each is modelled in the form the script gives it.

- **Selection parsing** (`parse_selection`), in module `Selection`.
  - The function `SelectionOf` states what the parser returns or raises.
  - The method `ParseSelection` builds the set token by token, as the script's loop does, and is proved to compute `SelectionOf`.
  - A range token that does not split into exactly two integers raises `ValueError` in the script. Here it is an error result, `SelectionError`.
  - The Python string primitives it relies on are modelled in module `Text`: `str.strip`, `str.split`, `str.isdigit` and base-10 `int()`.
- **Context and file name**, in module `Users`.
  - `ContextOf` is the 17-key mapping from a record to the template's keyword arguments. Its phone list uses `str.join`, also modelled in module `Text`.
  - `FileName` is `email + ".html"`.
  - `LoadUsers` covers `load_users`'s three ways of exiting.
- **Batch rendering** (`render_signatures`), in module `Renderer`.
  - A method updates an `OutputDir` object whose `files` field maps file names to contents.
  - The template is a function parameter `render`, and whether it loads is a boolean.
  - What becomes of each write is given by an oracle `results`.
  - Python's `users[idx - 1]` is modelled exactly, including negative positions and `IndexError`.
- **The interactive loop** (`main`), in module `Session`.
  - `Decide` classifies one input line.
  - `RunMain` runs the loop over a finite list of input lines. It is proved equal to the specification function `MainOf`.

Modules `SelectionExamples` and `RendererExamples` hold worked examples: range expressions, among them `1-3,5,7` from `main`'s input prompt (scripts/generate_signatures.py:97), and the repository's own test.

A range token that does not split into exactly two integers raises `ValueError`. `start, end = part.split('-')` raises it for a token such as `1-2-3`, and `int(...)` raises it for a token such as `-1` or `a-3`. `main` does not catch it, so the program stops. In the model, `Decide` returns `Raise` and the session ends in `SelectionRaised`.

`int()` is modelled with its own rules, which differ from `str.strip()`'s. It skips only tab, line feed, vertical tab, form feed, carriage return and space around the literal, so a range endpoint such as `1\x1f` raises even though `strip()` would have removed the `\x1f`. It also refuses a literal of more than 4300 digits, CPython's default `sys.int_info.default_max_str_digits`. So an all-digit token that long raises too, although `isdigit()` accepted it.

## Model

| member | source | states |
|---|---|---|
| Text.Strip | scripts/generate_signatures.py:46 | `s.strip()`: `s` without the whitespace at its two ends, as `lstrip` then `rstrip`; its shape is stated by the lemmas below |
| Text.StripShape | scripts/generate_signatures.py:46 | `part.strip()` removes only whitespace, and only from the two ends: `s == lead + strip(s) + trail` with `lead` and `trail` all whitespace |
| Text.StripEnds | scripts/generate_signatures.py:46 | a stripped text is empty or starts and ends with a non-whitespace character |
| Text.StripIdempotent | scripts/generate_signatures.py:97 | a text is its own strip exactly when it is empty or neither starts nor ends with whitespace, and stripping twice is stripping once: the selection stripped here is not changed by a further `strip()` |
| Text.TrimStartShape | scripts/generate_signatures.py:46 | `lstrip` keeps the longest suffix that does not start with whitespace, and drops only whitespace |
| Text.TrimEndShape | scripts/generate_signatures.py:46 | `rstrip` keeps the longest prefix that does not end with whitespace, and drops only whitespace |
| Text.Split | scripts/generate_signatures.py:45-48 | `s.split(sep)` for a one-character separator: the pieces between separators, empty ones included, and never an empty list |
| Text.Join | scripts/generate_signatures.py:73 | `sep.join(parts)`: the parts with `sep` between neighbours, `''` for no parts |
| Text.SplitCount | scripts/generate_signatures.py:45 | `s.split(sep)` yields one more piece than `s` has separators |
| Text.SplitPiecesFree | scripts/generate_signatures.py:45 | no piece of `s.split(sep)` contains `sep` |
| Text.JoinSplit | scripts/generate_signatures.py:45 | `sep.join(s.split(sep)) == s` |
| Text.SplitJoin | scripts/generate_signatures.py:48 | splitting a join of separator-free pieces gives back the pieces |
| Text.SplitPiece | scripts/generate_signatures.py:45 | a text without the separator splits to itself |
| Text.OccurrencesConcat | scripts/generate_signatures.py:73 | separator counts add up over a concatenation |
| Text.IsDigits | scripts/generate_signatures.py:50 | `part.isdigit()` over ASCII: the text is non-empty and every character is a decimal digit |
| Text.DigitsAreLiteral | scripts/generate_signatures.py:50-51 | text `isdigit()` accepts is accepted by `int()` with the same value when it has at most 4300 digits, and refused when it has more |
| Text.IntLiteral | scripts/generate_signatures.py:49-51 | `int(text)` in base 10: `None`, the `ValueError`, unless the text is an optional sign and digit groups with single `_` between digits, at most 4300 digits in all, surrounded only by tab, line feed, vertical tab, form feed, carriage return or space |
| Text.Decimal | scripts/generate_signatures.py:50 | the decimal spelling of a number passes `isdigit()` |
| Text.DecimalValue | scripts/generate_signatures.py:51 | the value of the decimal spelling of `n` is `n` |
| Selection.Classify | scripts/generate_signatures.py:46-51 | one part: it is ignored exactly when its stripped text has no `-` and is not all digits; a number is the decimal value of its all-digit text; a range has exactly one `-` in its text |
| Selection.Interval | scripts/generate_signatures.py:49 | `range(a, b + 1)` holds exactly the integers from `a` to `b`, none when `a > b` |
| Selection.Named | scripts/generate_signatures.py:49-51 | the integers one token adds: `{int(part)}` for a number (line 51), `range(a, b + 1)` for a range (line 49), nothing otherwise |
| Selection.Tokens | scripts/generate_signatures.py:45 | one token per comma-separated part, so one more token than the selection has commas |
| Selection.Ascending | scripts/generate_signatures.py:52 | `sorted(i for i in s if lo <= i <= hi)` is strictly ascending and holds exactly the members of `s` within the bounds |
| Selection.Collect | scripts/generate_signatures.py:44-51 | the set the loop has built after the given tokens, or the error of the first token that raises |
| Selection.SelectionOf | scripts/generate_signatures.py:43-52 | `parse_selection(selection, max_index)`: the collected set sorted and bounded by `1..max_index`, or the error raised; its properties are the lemmas below |
| Selection.ParseSelection | scripts/generate_signatures.py:43-52 | the loop returns exactly `SelectionOf`: the sorted bounded set, or the error of the first token that raises |
| Selection.FirstErrorStands | scripts/generate_signatures.py:48-49 | once a token raises, later tokens do not change the outcome |
| Selection.CollectOk | scripts/generate_signatures.py:44-51 | the loop finishes exactly when no token is invalid, and then the set holds exactly the integers some token names |
| Selection.CollectErr | scripts/generate_signatures.py:48-49 | when the loop raises, the error is that of the first invalid token, and all tokens before it are valid |
| Selection.SelectionAccepts | scripts/generate_signatures.py:43-52 | `parse_selection` returns, rather than raises, exactly when every token is valid |
| Selection.SelectionContents | scripts/generate_signatures.py:52 | the result is strictly ascending (so duplicate-free), and holds `k` exactly when `1 <= k <= max_index` and some token names `k` |
| Selection.SelectionRaises | scripts/generate_signatures.py:48-49 | a raised error is that of the first invalid token |
| Selection.TokenWithoutHyphen | scripts/generate_signatures.py:50-51 | a token without `-` raises exactly when its stripped text is all digits and longer than 4300 digits; otherwise it names `int(part)` if that text is all digits, and nothing if it is not |
| Selection.TokenWithManyHyphens | scripts/generate_signatures.py:48 | a token with two or more hyphens raises the unpacking error |
| Selection.TokenWithOneHyphen | scripts/generate_signatures.py:47-49 | a token `a-b` raises if `int(a)` or `int(b)` fails, first checking `a`; otherwise it names exactly the integers from `int(a)` to `int(b)` |
| Selection.ClassifyDigits | scripts/generate_signatures.py:50-51 | an all-digit token names its decimal value, or raises when it has more than 4300 digits |
| Selection.ClassifyRange | scripts/generate_signatures.py:47-49 | a token made of two digit runs joined by `-` is that inclusive range, or raises for the first run of more than 4300 digits |
| Selection.AscendingUnique | scripts/generate_signatures.py:52 | a strictly ascending list is determined by its members |
| Selection.AscendingIs | scripts/generate_signatures.py:52 | the sorted bounded result is the one strictly ascending list of the in-range members |
| Selection.ListingTokens | scripts/generate_signatures.py:45-51 | the tokens of record numbers typed out with commas are those numbers |
| Selection.ParseListing | scripts/generate_signatures.py:43-52 | typing out an ascending list of record numbers in `1..max_index`, each short enough for `int()`, and parsing it gives the list back |
| SelectionExamples.SingleTokenResult | scripts/generate_signatures.py:43-52 | a comma-free selection's result is read off its one token |
| SelectionExamples.ListingExample | scripts/generate_signatures.py:43-52 | `"1-3,5,7"` with 10 records gives `[1, 2, 3, 5, 7]` |
| SelectionExamples.ReversedRangeExample | scripts/generate_signatures.py:49 | `"5-2"` gives `[]` and raises nothing |
| SelectionExamples.WordIgnoredExample | scripts/generate_signatures.py:50-51 | `"abc,2"` gives `[2]` |
| SelectionExamples.EmptyExample | scripts/generate_signatures.py:45-52 | `""` gives `[]` |
| SelectionExamples.MissingStartExample | scripts/generate_signatures.py:49 | `"-1"` raises, because `int('')` fails |
| SelectionExamples.ThreePiecesExample | scripts/generate_signatures.py:48 | `"1-2-3"` raises, because it splits into three pieces |
| SelectionExamples.WordStartExample | scripts/generate_signatures.py:49 | `"a-3"` raises, because `int('a')` fails |
| SelectionExamples.SeparatorInRangeExample | scripts/generate_signatures.py:48-49 | `"1\x1f-3"` raises on `int('1\x1f')`, although `strip()` removes `\x1f`: `int()` does not skip that separator |
| Users.Get | scripts/generate_signatures.py:66-82 | `user.get(key, '')`: the record's field when it has one, `''` when it does not |
| Users.ContextOf | scripts/generate_signatures.py:65-83 | the context's keys are exactly the seventeen template keys |
| Users.ContextHasSeventeenKeys | scripts/generate_signatures.py:65-83 | a context has seventeen keys |
| Users.KeyCount | scripts/generate_signatures.py:65-83 | the context literal lists seventeen distinct keys |
| Users.KeyNamesDistinct | scripts/generate_signatures.py:66-82 | the seventeen template names are pairwise distinct |
| Users.FieldNamesDistinct | scripts/generate_signatures.py:66-82 | the sixteen JSON keys read are pairwise distinct |
| Users.ContextCopiesFields | scripts/generate_signatures.py:66-72 | every copied key holds the record's field when present and `''` when absent (lines 74-82 likewise) |
| Users.ContextJoinsPhones | scripts/generate_signatures.py:73 | `business_phones` is `''` for a missing or empty list and the phone itself for one phone; for comma-free phones it has one comma fewer than there are phones |
| Users.JoinCommaCount | scripts/generate_signatures.py:73 | `', '.join` of comma-free phones has one comma fewer than there are phones |
| Users.MissingIsEmpty | scripts/generate_signatures.py:66-82 | a missing field gives the same context as an empty one |
| Users.FileName | scripts/generate_signatures.py:84 | `context['email'] + ".html"`, with a missing `UserPrincipalName` read as `''` |
| Users.FileNameFromContext | scripts/generate_signatures.py:84 | the file name is the context's `email` value followed by `.html` |
| Users.FileNameInjective | scripts/generate_signatures.py:69 | two records share a file exactly when their `UserPrincipalName`s agree, with a missing one counting as `''`; the name is the e-mail followed by `.html` |
| Users.LoadUsers | scripts/generate_signatures.py:23-36 | the records are returned exactly when the file exists, parses and is non-empty; otherwise the result names which check failed |
| Renderer.WriteOne | scripts/generate_signatures.py:84-91 | one turn of the loop on the files: a write puts the rendered context under `email.html`, a failed open leaves the files as they were, a failure after the open leaves that file empty |
| Renderer.Resolves | scripts/generate_signatures.py:64 | `users[idx - 1]` is defined, rather than raising `IndexError`, exactly when `-len(users) <= idx - 1 < len(users)` |
| Renderer.Record | scripts/generate_signatures.py:64 | `users[idx - 1]`, a negative position counting from the end; the record picked is always one of the loaded records |
| Renderer.Resolved | scripts/generate_signatures.py:63-64 | counts the leading indices for which `users[idx - 1]` is defined; the next index, if any, is not |
| Renderer.Batch | scripts/generate_signatures.py:54-91 | how `render_signatures` ends and the files it leaves: without a template nothing is written; otherwise the resolving leading indices are written in order, and the first that does not resolve raises `IndexError` |
| Renderer.OutputDir.constructor | scripts/generate_signatures.py:55 | an output directory holding the given files |
| Renderer.WriteSignature | scripts/generate_signatures.py:84-91 | one turn of the loop changes the directory exactly as `WriteOne` says, with the path read from the context's `email` |
| Renderer.RenderSignatures | scripts/generate_signatures.py:54-91 | the outcome and the new files are `Batch` of the old files: without a template nothing is written; otherwise records are written in order until an index fails to resolve |
| Renderer.WriteOneEffect | scripts/generate_signatures.py:84-91 | one write changes at most its own file, and creates it unless the open failed |
| Renderer.OnlyTouchedChange | scripts/generate_signatures.py:63-91 | only the files of the selected records whose open succeeded change, appear or disappear; each of those exists afterwards |
| Renderer.TouchedMembers | scripts/generate_signatures.py:84-86 | the touched files are exactly those of the selected records whose open did not fail |
| Renderer.LastWriteWins | scripts/generate_signatures.py:84-91 | the last selected record to open a file decides its content: the rendered signature, or empty after a failure past the open; a later index for the same e-mail overwrites an earlier one |
| Renderer.UnopenedUnchanged | scripts/generate_signatures.py:85-91 | a file that no selected record managed to open keeps its old content, and keeps its existence or absence |
| Renderer.CleanBatch | scripts/generate_signatures.py:63-88 | with a template, in-range indices, distinct e-mails and no failure, the batch completes and leaves the old files plus one `email.html` per selected record, holding `render(context)`; every other file is unchanged |
| Renderer.InRangeResolves | scripts/generate_signatures.py:64 | indices in `1..len(users)` never raise `IndexError` |
| RendererExamples.TestUserFileName | tests/test_generate_signatures.py:13 | the test record's file is `test.user@example.com.html` |
| RendererExamples.TestUserDisplayName | tests/test_generate_signatures.py:10 | the test record's `display_name` is "Test User" |
| RendererExamples.TestUserPhones | tests/test_generate_signatures.py:17 | the test record's one phone is its `business_phones` |
| RendererExamples.TestUserCity | tests/test_generate_signatures.py:8-24 | `city`, which the test record lacks, is `''` |
| RendererExamples.DisplayNameRendered | tests/test_generate_signatures.py:39 | the test's template renders any record as its `display_name` between `<div>` tags |
| RendererExamples.TestUserRendered | tests/test_generate_signatures.py:39 | the template `<div>{{ display_name }}</div>` renders the test record as `<div>Test User</div>` |
| RendererExamples.TestUserSignature | tests/test_generate_signatures.py:58-67 | rendering record 1 of the test data writes `test.user@example.com.html`, and its content contains "Test User" |
| Session.IsQuit | scripts/generate_signatures.py:98 | `selection.lower() == 'q'`: only `q` and `Q` lower-case to `q` |
| Session.Decide | scripts/generate_signatures.py:97-104 | one input line: `q` or `Q` after stripping quits, a raising selection raises, an empty one reprompts, anything else renders |
| Session.DecideCases | scripts/generate_signatures.py:97-105 | `q`/`Q` quits; otherwise an error raises, an empty parse reprompts, and anything else renders exactly the parsed indices, which are non-empty, ascending and within `1..len(users)` |
| Session.Rounds | scripts/generate_signatures.py:95-106 | the session from one input line on: how it ends and the files it leaves; running out of lines is `EOFError` |
| Session.MainOf | scripts/generate_signatures.py:93-106 | the whole program: a failed load ends it at once, otherwise the rounds from the first line |
| Session.RunMain | scripts/generate_signatures.py:93-106 | the loop's ending and files are `MainOf` of the data file, the input lines and the old files |
| Session.NoIndexError | scripts/generate_signatures.py:101-105 | no session ends in `IndexError`: every index `main` passes on resolves |
| Session.RoundsNoIndexError | scripts/generate_signatures.py:95-106 | from any round on, the loop never reaches `IndexError` |
| Session.OnlyRecordFilesChange | scripts/generate_signatures.py:93-106 | whatever the operator types, only files named after a loaded record's e-mail change, appear or disappear |
| Session.RoundsKeepOtherFiles | scripts/generate_signatures.py:95-106 | from any round on, files that belong to no record stay as they were |
| Session.BatchKeepsOtherFiles | scripts/generate_signatures.py:63-91 | one batch leaves every file that belongs to no record as it was |
| Session.ExitedOnlyOnQuit | scripts/generate_signatures.py:98-100 | the program ends with "Exiting." only after a line that strips to `q` or `Q` |
| Session.RoundsExitOnQuit | scripts/generate_signatures.py:95-100 | from any round on, an exit comes from a `q`/`Q` line at or after that round |

## Left out

- Console output (`print_user_index`, every `print`, the prompt text) is not modelled. The model assumes printing never fails. This matters because `print(f"Generated: ...")` at scripts/generate_signatures.py:88 sits inside the `try`: if it failed, control would go to the `except` branch after the file was written, and a failing print there would end the program. The operator's input is a finite list of lines, and running out of them is `input()` raising `EOFError`.
- The pip auto-install block (scripts/generate_signatures.py:8-15) is not modelled, because it is subprocess plumbing.
- The Jinja2 engine is not modelled, because its semantics are not part of this code. It is the parameter `render: Context -> string`, and a boolean per round says whether the template loads. Its other exceptions are folded into `WriteFailed`. A template that exists but does not compile raises `TemplateSyntaxError` in `get_template` (line 58), which line 59 does not catch, so the program ends with a traceback before any write. The model can express this only as a template that does not load, so the session's ending then reads `TemplateNotFound`.
- `os.makedirs` is not modelled: the output directory always exists.
- File names are relative to the output directory, so the effect of `os.path.join` is not modelled. An e-mail containing `/` or starting at the root would place the file elsewhere.
- Filesystem failures are supplied by the oracle `results(j)`; the model does not reason about why they happen.
  - `OpenFailed` leaves the file as it was.
  - `WriteFailed` means `open(path, 'w')` succeeded, and so emptied the file, before rendering or writing raised. The model leaves the file empty.
  - Partially written contents are not modelled.
- Renderer.UnopenedUnchanged: a failed write leaves the file unchanged only when the open itself failed. After a successful open the file is empty, so "unchanged" is not promised then.
- JSON values other than strings are not modelled, because the script only reads strings. This covers `null`, numbers, a `BusinessPhones` that is not a list, and a top-level value that is not a list of objects. A record's fields are absent or strings. JSON keys the context does not read cannot be expressed, because they have no effect.
- Users.ContextJoinsPhones: states the joined phone list's value for zero or one phone, and its separator count for more; the full text is the definition itself.
- Python's Unicode behaviour is not modelled; only ASCII is.
  - `strip()` also removes non-ASCII whitespace.
  - `isdigit()` accepts non-ASCII digits. For example, `'²'.isdigit()` is true and then `int('²')` raises.
  - `int()` accepts non-ASCII decimal digits.
  - Here these characters are ordinary text: such a token is ignored, and such a range endpoint is rejected.
- Users.FileNameInjective and Session.OnlyRecordFilesChange compare file names as exact strings. On a case-insensitive filesystem, e-mails differing only in case share one file, and that sharing is not captured.
- The digit limit of `int()` is fixed at its default of 4300. The `PYTHONINTMAXSTRDIGITS` setting and `sys.set_int_max_str_digits` can change it at run time, and that is not modelled.
- The memory needed to build a huge range is not modelled, because integers are unbounded.
- `scripts/all_in_one.py`, `scripts/render_signatures.py` and `scripts/copy_output_to_docs.py` are not part of this model. They are orchestration, a duplicate of the context mapping, and a file copy.
