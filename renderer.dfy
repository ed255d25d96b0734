/** `render_signatures`: one signature file per selected record, written into
    the output directory with the template rendered over the record's context. */
module Renderer {
  import opened Users

  /** The output directory's files: file name to content. */
  type Files = map<string, string>

  /** What became of one attempted write. */
  datatype WriteResult =
    | Written       // the file now holds the rendered signature
    | OpenFailed    // `open(output_path, 'w')` raised: the file is as it was
    | WriteFailed   // the file was opened, and so emptied, then rendering or writing raised

  /** How `render_signatures` ended. */
  datatype BatchOutcome =
    | Completed
    | TemplateMissing               // `TemplateNotFound`: the program exits before the loop
    | IndexOutOfRange(index: int)   // `users[idx - 1]` raised `IndexError`

  /** Whether `users[idx - 1]` is defined for `count` records: Python also
      accepts a negative position, counted from the end. */
  predicate Resolves(count: nat, idx: int) {
    -(count as int) <= idx - 1 < count
  }

  /** `users[idx - 1]`: a negative position counts from the end, so the
      record picked is always one of the loaded ones. */
  function Record(users: seq<User>, idx: int): (u: User)
    requires Resolves(|users|, idx)
    ensures u in users
  {
    if idx >= 1 then users[idx - 1] else users[|users| + idx - 1]
  }

  /** One turn of the loop: the files after trying to write `u`'s signature. */
  function WriteOne(files: Files, u: User, render: Context -> string, result: WriteResult): Files {
    match result
    case Written => files[FileName(u) := render(ContextOf(u))]
    case OpenFailed => files
    case WriteFailed => files[FileName(u) := ""]
  }

  /** How many of the selected indices, from the first on, resolve. */
  function Resolved(count: nat, selected: seq<int>): (n: nat)
    ensures n <= |selected|
    ensures forall j :: 0 <= j < n ==> Resolves(count, selected[j])
    ensures n < |selected| ==> !Resolves(count, selected[n])
  {
    if selected == [] || !Resolves(count, selected[0]) then 0
    else 1 + Resolved(count, selected[1..])
  }

  /** The files after the first `n` selected records were tried, the `j`-th
      with the fate `results(j)`. */
  function AfterWrites(files: Files, users: seq<User>, selected: seq<int>, n: nat,
                       render: Context -> string, results: nat -> WriteResult): Files
    requires n <= |selected|
    requires forall j :: 0 <= j < n ==> Resolves(|users|, selected[j])
  {
    if n == 0 then files
    else
      WriteOne(AfterWrites(files, users, selected, n - 1, render, results),
               Record(users, selected[n - 1]), render, results(n - 1))
  }

  /** How `render_signatures(users, selected)` ends and the files it leaves. */
  function Batch(files: Files, users: seq<User>, selected: seq<int>, templateFound: bool,
                 render: Context -> string, results: nat -> WriteResult): (BatchOutcome, Files)
  {
    if !templateFound then (TemplateMissing, files)
    else
      var n := Resolved(|users|, selected);
      (if n == |selected| then Completed else IndexOutOfRange(selected[n]),
       AfterWrites(files, users, selected, n, render, results))
  }

  /** The output directory. */
  class OutputDir {
    var files: Files

    constructor (files: Files)
      ensures this.files == files
    {
      this.files := files;
    }
  }

  /** One turn of the loop: render `user`'s context into `email + ".html"`,
      with `result` the fate of that write. */
  method WriteSignature(dir: OutputDir, user: User, render: Context -> string, result: WriteResult)
    modifies dir
    ensures dir.files == WriteOne(old(dir.files), user, render, result)
  {
    var context := ContextOf(user);
    var outputPath := context[Copied(UserPrincipalName)] + ".html";
    FileNameFromContext(user);
    match result {
      case Written =>
        dir.files := dir.files[outputPath := render(context)];
      case OpenFailed =>
      case WriteFailed =>
        dir.files := dir.files[outputPath := ""];
    }
  }

  /** `render_signatures(users, selected_indices)`. `templateFound` says whether
      the template loads; `render` is the template; `results(j)` is the fate of
      the write for the `j`-th selected index. */
  method RenderSignatures(dir: OutputDir, users: seq<User>, selected: seq<int>, templateFound: bool,
                          render: Context -> string, results: nat -> WriteResult)
    returns (outcome: BatchOutcome)
    modifies dir
    ensures (outcome, dir.files) == Batch(old(dir.files), users, selected, templateFound, render, results)
    ensures !templateFound ==> outcome == TemplateMissing && dir.files == old(dir.files)
  {
    if !templateFound {
      return TemplateMissing;
    }
    var k := 0;
    while k < |selected|
      invariant 0 <= k <= |selected|
      invariant forall j :: 0 <= j < k ==> Resolves(|users|, selected[j])
      invariant dir.files == AfterWrites(old(dir.files), users, selected, k, render, results)
    {
      var idx := selected[k];
      if !Resolves(|users|, idx) {
        assert Resolved(|users|, selected) == k;
        return IndexOutOfRange(idx);
      }
      var user := Record(users, idx);
      WriteSignature(dir, user, render, results(k));
      k := k + 1;
    }
    assert Resolved(|users|, selected) == k;
    return Completed;
  }

  /** The files the first `n` selected records may change: those of the records
      whose write got as far as opening the file. */
  function Touched(users: seq<User>, selected: seq<int>, n: nat, results: nat -> WriteResult): set<string>
    requires n <= |selected|
    requires forall j :: 0 <= j < n ==> Resolves(|users|, selected[j])
  {
    if n == 0 then {}
    else if results(n - 1) == OpenFailed then Touched(users, selected, n - 1, results)
    else Touched(users, selected, n - 1, results) + {FileName(Record(users, selected[n - 1]))}
  }

  /** No file outside the touched ones changes, appears or disappears; every
      touched one exists afterwards. */
  lemma {:induction false} OnlyTouchedChange(files: Files, users: seq<User>, selected: seq<int>, n: nat,
                                             render: Context -> string, results: nat -> WriteResult)
    requires n <= |selected|
    requires forall j :: 0 <= j < n ==> Resolves(|users|, selected[j])
    ensures forall name :: name !in Touched(users, selected, n, results) ==>
              (name in AfterWrites(files, users, selected, n, render, results) <==> name in files)
    ensures forall name :: name !in Touched(users, selected, n, results) && name in files ==>
              AfterWrites(files, users, selected, n, render, results)[name] == files[name]
    ensures forall name :: name in Touched(users, selected, n, results) ==>
              name in AfterWrites(files, users, selected, n, render, results)
  {
    if n > 0 {
      OnlyTouchedChange(files, users, selected, n - 1, render, results);
      var prev := AfterWrites(files, users, selected, n - 1, render, results);
      var u := Record(users, selected[n - 1]);
      assert AfterWrites(files, users, selected, n, render, results) == WriteOne(prev, u, render, results(n - 1));
      WriteOneEffect(prev, u, render, results(n - 1));
    }
  }

  /** One write changes at most its own file, and creates it unless the open failed. */
  lemma WriteOneEffect(files: Files, u: User, render: Context -> string, result: WriteResult)
    ensures forall name :: name != FileName(u) || result == OpenFailed ==>
              (name in WriteOne(files, u, render, result) <==> name in files)
    ensures forall name :: (name != FileName(u) || result == OpenFailed) && name in files ==>
              WriteOne(files, u, render, result)[name] == files[name]
    ensures result != OpenFailed ==> FileName(u) in WriteOne(files, u, render, result)
  {
  }

  /** The last selected record to open a file decides its content: the rendered
      signature if its write succeeded, empty if it failed after opening. A later
      index for the same e-mail overwrites an earlier one. */
  lemma {:induction false} LastWriteWins(files: Files, users: seq<User>, selected: seq<int>, n: nat,
                                         render: Context -> string, results: nat -> WriteResult, j: nat)
    requires n <= |selected|
    requires forall i :: 0 <= i < n ==> Resolves(|users|, selected[i])
    requires j < n && results(j) != OpenFailed
    requires forall i :: j < i < n && results(i) != OpenFailed ==>
               FileName(Record(users, selected[i])) != FileName(Record(users, selected[j]))
    ensures FileName(Record(users, selected[j])) in AfterWrites(files, users, selected, n, render, results)
    ensures AfterWrites(files, users, selected, n, render, results)[FileName(Record(users, selected[j]))] ==
            if results(j) == Written then render(ContextOf(Record(users, selected[j]))) else ""
  {
    var prev := AfterWrites(files, users, selected, n - 1, render, results);
    var u := Record(users, selected[n - 1]);
    assert AfterWrites(files, users, selected, n, render, results) == WriteOne(prev, u, render, results(n - 1));
    if j < n - 1 {
      LastWriteWins(files, users, selected, n - 1, render, results, j);
      WriteOneEffect(prev, u, render, results(n - 1));
    }
  }

  /** A record whose every write failed to open leaves its file as it was, as long
      as no other selected record with the same e-mail opened it. */
  lemma UnopenedUnchanged(files: Files, users: seq<User>, selected: seq<int>, n: nat,
                          render: Context -> string, results: nat -> WriteResult, name: string)
    requires n <= |selected|
    requires forall i :: 0 <= i < n ==> Resolves(|users|, selected[i])
    requires forall i :: 0 <= i < n && FileName(Record(users, selected[i])) == name ==> results(i) == OpenFailed
    ensures name in AfterWrites(files, users, selected, n, render, results) <==> name in files
    ensures name in files ==> AfterWrites(files, users, selected, n, render, results)[name] == files[name]
  {
    OnlyTouchedChange(files, users, selected, n, render, results);
    TouchedMembers(users, selected, n, results, name);
  }

  /** The touched files are those of the records whose open did not fail. */
  lemma {:induction false} TouchedMembers(users: seq<User>, selected: seq<int>, n: nat,
                                          results: nat -> WriteResult, name: string)
    requires n <= |selected|
    requires forall j :: 0 <= j < n ==> Resolves(|users|, selected[j])
    ensures name in Touched(users, selected, n, results) <==>
            exists j :: 0 <= j < n && results(j) != OpenFailed && FileName(Record(users, selected[j])) == name
  {
    if n > 0 {
      TouchedMembers(users, selected, n - 1, results, name);
    }
  }

  /** A batch over in-range indices, with a template and no failed write, whose
      records have distinct e-mails, completes. Afterwards the directory holds
      the files it held and one file per selected record, `email + ".html"`,
      holding that record's rendered signature; every other file is unchanged. */
  lemma CleanBatch(files: Files, users: seq<User>, selected: seq<int>,
                   render: Context -> string, results: nat -> WriteResult)
    requires forall j :: 0 <= j < |selected| ==> 1 <= selected[j] <= |users|
    requires forall j :: 0 <= j < |selected| ==> results(j) == Written
    requires forall i, j :: 0 <= i < j < |selected| ==>
               FileName(Record(users, selected[i])) != FileName(Record(users, selected[j]))
    ensures Batch(files, users, selected, true, render, results).0 == Completed
    ensures Batch(files, users, selected, true, render, results).1.Keys ==
            files.Keys + Touched(users, selected, |selected|, results)
    ensures forall j :: 0 <= j < |selected| ==>
              FileName(Record(users, selected[j])) in Batch(files, users, selected, true, render, results).1
    ensures forall j :: 0 <= j < |selected| ==>
              Batch(files, users, selected, true, render, results).1[FileName(Record(users, selected[j]))] ==
              render(ContextOf(Record(users, selected[j])))
    ensures forall name :: name in files && name !in Touched(users, selected, |selected|, results) ==>
              Batch(files, users, selected, true, render, results).1[name] == files[name]
  {
    var n := |selected|;
    InRangeResolves(users, selected, true, files, render, results);
    OnlyTouchedChange(files, users, selected, n, render, results);
    forall j | 0 <= j < n
      ensures FileName(Record(users, selected[j])) in AfterWrites(files, users, selected, n, render, results)
      ensures AfterWrites(files, users, selected, n, render, results)[FileName(Record(users, selected[j]))] ==
              render(ContextOf(Record(users, selected[j])))
    {
      LastWriteWins(files, users, selected, n, render, results, j);
    }
  }

  /** Indices within `1..count` always resolve, so such a batch never raises
      `IndexError`. */
  lemma InRangeResolves(users: seq<User>, selected: seq<int>, templateFound: bool,
                        files: Files, render: Context -> string, results: nat -> WriteResult)
    requires forall j :: 0 <= j < |selected| ==> 1 <= selected[j] <= |users|
    ensures Resolved(|users|, selected) == |selected|
    ensures !Batch(files, users, selected, templateFound, render, results).0.IndexOutOfRange?
  {
  }
}
