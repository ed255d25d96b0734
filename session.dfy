/** `main`: load the records, then read selections until the operator quits,
    rendering the signatures of each non-empty selection. */
module Session {
  import opened Wrappers
  import opened Text
  import opened Selection
  import opened Users
  import opened Renderer

  /** What `main` does with one line the operator typed. */
  datatype Decision =
    | Quit                            // "Exiting." and leave the loop
    | Reprompt                        // "No valid selection. Try again."
    | RenderIndices(indices: seq<int>)
    | Raise(error: SelectionError)    // `parse_selection` raised; nothing catches it

  /** `selection.lower() == 'q'`: only "q" and "Q" lower-case to "q". */
  predicate IsQuit(selection: string) {
    selection == "q" || selection == "Q"
  }

  /** The decision for one input line, given how many records were loaded. */
  function Decide(line: string, userCount: nat): Decision {
    var selection := Strip(line);
    if IsQuit(selection) then Quit
    else
      match SelectionOf(selection, userCount)
      case Err(e) => Raise(e)
      case Ok(indices) => if indices == [] then Reprompt else RenderIndices(indices)
  }

  /** Each decision, and when it is taken. A selection that is rendered is
      non-empty, strictly ascending and within `1..userCount`. */
  lemma DecideCases(line: string, userCount: nat)
    ensures Decide(line, userCount) == Quit <==> IsQuit(Strip(line))
    ensures Decide(line, userCount) == Reprompt <==>
              !IsQuit(Strip(line)) && SelectionOf(Strip(line), userCount) == Ok([])
    ensures Decide(line, userCount).Raise? <==>
              !IsQuit(Strip(line)) && SelectionOf(Strip(line), userCount).Err?
    ensures Decide(line, userCount).RenderIndices? ==>
              SelectionOf(Strip(line), userCount) == Ok(Decide(line, userCount).indices)
    ensures Decide(line, userCount).RenderIndices? ==>
              var indices := Decide(line, userCount).indices;
              indices != [] && StrictlyAscending(indices) &&
              forall j :: 0 <= j < |indices| ==> 1 <= indices[j] <= userCount
  {
    var selection := Strip(line);
    if !IsQuit(selection) && SelectionOf(selection, userCount).Ok? {
      SelectionContents(selection, userCount);
      var indices := SelectionOf(selection, userCount).value;
      assert forall j :: 0 <= j < |indices| ==> indices[j] in indices;
    }
  }

  /** How the program ends. */
  datatype Ending =
    | Exited                            // the operator quit
    | LoadFailed(reason: LoadError)     // `load_users` exited
    | SelectionRaised(error: SelectionError)
    | TemplateNotFound                  // `render_signatures` exited
    | IndexError(index: int)            // `users[idx - 1]` raised
    | InputClosed                       // `input()` raised `EOFError`

  /** The session from input line `i` on: how it ends and the files it leaves.
      `templates(i)` says whether the template loads in round `i`, and
      `results(i)` gives the fates of that round's writes. */
  function Rounds(files: Files, users: seq<User>, lines: seq<string>, i: nat,
                  templates: nat -> bool, render: Context -> string,
                  results: nat -> nat -> WriteResult): (Ending, Files)
    requires i <= |lines|
    decreases |lines| - i
  {
    if i == |lines| then (InputClosed, files)
    else
      match Decide(lines[i], |users|)
      case Quit => (Exited, files)
      case Raise(e) => (SelectionRaised(e), files)
      case Reprompt => Rounds(files, users, lines, i + 1, templates, render, results)
      case RenderIndices(indices) =>
        var (outcome, after) := Batch(files, users, indices, templates(i), render, results(i));
        match outcome
        case Completed => Rounds(after, users, lines, i + 1, templates, render, results)
        case TemplateMissing => (TemplateNotFound, after)
        case IndexOutOfRange(x) => (IndexError(x), after)
  }

  /** The whole program, from the data file and the operator's input lines. */
  function MainOf(files: Files, data: UsersFile, lines: seq<string>,
                  templates: nat -> bool, render: Context -> string,
                  results: nat -> nat -> WriteResult): (Ending, Files)
  {
    match LoadUsers(data)
    case Err(e) => (LoadFailed(e), files)
    case Ok(users) => Rounds(files, users, lines, 0, templates, render, results)
  }

  /** `main()`, reading the operator's input from `lines`. */
  method RunMain(dir: OutputDir, data: UsersFile, lines: seq<string>,
                 templates: nat -> bool, render: Context -> string,
                 results: nat -> nat -> WriteResult)
    returns (ending: Ending)
    modifies dir
    ensures (ending, dir.files) == MainOf(old(dir.files), data, lines, templates, render, results)
  {
    var loaded := LoadUsers(data);
    if loaded.Err? {
      return LoadFailed(loaded.error);
    }
    var users := loaded.value;
    var i := 0;
    while i < |lines|
      invariant 0 <= i <= |lines|
      invariant Rounds(dir.files, users, lines, i, templates, render, results) ==
                MainOf(old(dir.files), data, lines, templates, render, results)
    {
      var selection := Strip(lines[i]);
      if IsQuit(selection) {
        return Exited;
      }
      var parsed := ParseSelection(selection, |users|);
      if parsed.Err? {
        return SelectionRaised(parsed.error);
      }
      if parsed.value == [] {
        i := i + 1;
        continue;
      }
      var outcome := RenderSignatures(dir, users, parsed.value, templates(i), render, results(i));
      if outcome.TemplateMissing? {
        return TemplateNotFound;
      }
      if outcome.IndexOutOfRange? {
        return IndexError(outcome.index);
      }
      i := i + 1;
    }
    return InputClosed;
  }

  /** `main` never indexes past the records: no session ends in `IndexError`. */
  lemma NoIndexError(files: Files, data: UsersFile, lines: seq<string>,
                     templates: nat -> bool, render: Context -> string,
                     results: nat -> nat -> WriteResult)
    ensures !MainOf(files, data, lines, templates, render, results).0.IndexError?
  {
    if LoadUsers(data).Ok? {
      RoundsNoIndexError(files, LoadUsers(data).value, lines, 0, templates, render, results);
    }
  }

  lemma {:induction false} RoundsNoIndexError(files: Files, users: seq<User>, lines: seq<string>, i: nat,
                                              templates: nat -> bool, render: Context -> string,
                                              results: nat -> nat -> WriteResult)
    requires i <= |lines|
    ensures !Rounds(files, users, lines, i, templates, render, results).0.IndexError?
    decreases |lines| - i
  {
    if i < |lines| {
      DecideCases(lines[i], |users|);
      match Decide(lines[i], |users|)
      case Quit =>
      case Raise(_) =>
      case Reprompt =>
        RoundsNoIndexError(files, users, lines, i + 1, templates, render, results);
      case RenderIndices(indices) =>
        InRangeResolves(users, indices, templates(i), files, render, results(i));
        var after := Batch(files, users, indices, templates(i), render, results(i)).1;
        RoundsNoIndexError(after, users, lines, i + 1, templates, render, results);
    }
  }

  /** The files of the loaded records, `email + ".html"`. */
  ghost predicate RecordFile(users: seq<User>, name: string) {
    exists u :: u in users && FileName(u) == name
  }

  /** Whatever the operator types, the program changes, creates or removes no
      file other than those of the loaded records. */
  lemma OnlyRecordFilesChange(files: Files, data: UsersFile, lines: seq<string>,
                              templates: nat -> bool, render: Context -> string,
                              results: nat -> nat -> WriteResult, name: string)
    requires data.Records? ==> !RecordFile(data.users, name)
    ensures name in MainOf(files, data, lines, templates, render, results).1 <==> name in files
    ensures name in files ==> MainOf(files, data, lines, templates, render, results).1[name] == files[name]
  {
    if LoadUsers(data).Ok? {
      RoundsKeepOtherFiles(files, LoadUsers(data).value, lines, 0, templates, render, results, name);
    }
  }

  lemma {:induction false} RoundsKeepOtherFiles(files: Files, users: seq<User>, lines: seq<string>, i: nat,
                                                templates: nat -> bool, render: Context -> string,
                                                results: nat -> nat -> WriteResult, name: string)
    requires i <= |lines|
    requires !RecordFile(users, name)
    ensures name in Rounds(files, users, lines, i, templates, render, results).1 <==> name in files
    ensures name in files ==> Rounds(files, users, lines, i, templates, render, results).1[name] == files[name]
    decreases |lines| - i
  {
    if i < |lines| {
      match Decide(lines[i], |users|)
      case Quit =>
      case Raise(_) =>
      case Reprompt =>
        RoundsKeepOtherFiles(files, users, lines, i + 1, templates, render, results, name);
      case RenderIndices(indices) =>
        var (outcome, after) := Batch(files, users, indices, templates(i), render, results(i));
        BatchKeepsOtherFiles(files, users, indices, templates(i), render, results(i), name);
        if outcome.Completed? {
          RoundsKeepOtherFiles(after, users, lines, i + 1, templates, render, results, name);
        }
    }
  }

  /** One batch leaves every file that belongs to no record as it was. */
  lemma BatchKeepsOtherFiles(files: Files, users: seq<User>, selected: seq<int>, templateFound: bool,
                             render: Context -> string, results: nat -> WriteResult, name: string)
    requires !RecordFile(users, name)
    ensures name in Batch(files, users, selected, templateFound, render, results).1 <==> name in files
    ensures name in files ==> Batch(files, users, selected, templateFound, render, results).1[name] == files[name]
  {
    if templateFound {
      var n := Resolved(|users|, selected);
      OnlyTouchedChange(files, users, selected, n, render, results);
      TouchedMembers(users, selected, n, results, name);
      forall j | 0 <= j < n
        ensures FileName(Record(users, selected[j])) != name
      {
        assert Record(users, selected[j]) in users;
      }
    }
  }

  /** A session ends with "Exiting." only when some line was `q` or `Q`. */
  lemma ExitedOnlyOnQuit(files: Files, data: UsersFile, lines: seq<string>,
                         templates: nat -> bool, render: Context -> string,
                         results: nat -> nat -> WriteResult)
    requires MainOf(files, data, lines, templates, render, results).0 == Exited
    ensures exists i :: 0 <= i < |lines| && IsQuit(Strip(lines[i]))
  {
    RoundsExitOnQuit(files, LoadUsers(data).value, lines, 0, templates, render, results);
  }

  lemma {:induction false} RoundsExitOnQuit(files: Files, users: seq<User>, lines: seq<string>, i: nat,
                                            templates: nat -> bool, render: Context -> string,
                                            results: nat -> nat -> WriteResult)
    requires i <= |lines|
    requires Rounds(files, users, lines, i, templates, render, results).0 == Exited
    ensures exists k :: i <= k < |lines| && IsQuit(Strip(lines[k]))
    decreases |lines| - i
  {
    DecideCases(lines[i], |users|);
    match Decide(lines[i], |users|)
    case Quit =>
    case Raise(_) =>
    case Reprompt =>
      RoundsExitOnQuit(files, users, lines, i + 1, templates, render, results);
    case RenderIndices(indices) =>
      var after := Batch(files, users, indices, templates(i), render, results(i)).1;
      RoundsExitOnQuit(after, users, lines, i + 1, templates, render, results);
  }
}
