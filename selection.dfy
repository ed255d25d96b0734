/** The operator's range expression, such as "1-3,5,7", read into the ascending
    1-based record numbers it names (`parse_selection`). */
module Selection {
  import opened Wrappers
  import opened Text

  /** The `ValueError`s that escape `parse_selection`. */
  datatype SelectionError =
    | RangeArity(pieces: nat)       // `start, end = part.split('-')` met other than two pieces
    | InvalidLiteral(text: string)  // `int(text)` refused a range endpoint or an over-long number

  /** How one comma-separated token is read. */
  datatype Token =
    | Number(n: int)                // all digits: `indices.add(int(part))`
    | Span(first: int, last: int)   // `a-b`: `indices.update(range(a, b + 1))`
    | Ignored                       // anything else without a hyphen
    | Invalid(error: SelectionError)

  /** How `parse_selection` reads one comma-separated part. Only a part holding a
      hyphen is a range; an all-digit part is read by `int()`; anything else adds
      nothing. */
  function Classify(raw: string): (t: Token)
    ensures t.Ignored? <==> '-' !in Strip(raw) && !IsDigits(Strip(raw))
    ensures t.Number? ==> IsDigits(Strip(raw)) && t.n == DigitsValue(Strip(raw))
    ensures t.Span? ==> Occurrences(Strip(raw), '-') == 1
  {
    var part := Strip(raw);
    if '-' in part then
      var pieces := Split(part, '-');
      SplitCount(part, '-');
      if |pieces| != 2 then Invalid(RangeArity(|pieces|))
      else
        match IntLiteral(pieces[0])
        case None => Invalid(InvalidLiteral(pieces[0]))
        case Some(a) =>
          match IntLiteral(pieces[1])
          case None => Invalid(InvalidLiteral(pieces[1]))
          case Some(b) => Span(a, b)
    else if IsDigits(part) then
      DigitsAreLiteral(part);
      match IntLiteral(part)
      case None => Invalid(InvalidLiteral(part))
      case Some(n) => Number(n)
    else Ignored
  }

  /** `range(first, last + 1)` as a set. */
  function Interval(first: int, last: int): (r: set<int>)
    ensures forall k :: k in r <==> first <= k <= last
    decreases last - first
  {
    if first > last then {} else {first} + Interval(first + 1, last)
  }

  /** The integers a token adds to the set being built. */
  function Named(t: Token): set<int> {
    match t
    case Number(n) => {n}
    case Span(a, b) => Interval(a, b)
    case _ => {}
  }

  /** The tokens of `selection.split(',')`, each read by `Classify`. */
  function Tokens(selection: string): (r: seq<Token>)
    ensures |r| == Occurrences(selection, ',') + 1
  {
    var parts := Split(selection, ',');
    SplitCount(selection, ',');
    seq(|parts|, i requires 0 <= i < |parts| => Classify(parts[i]))
  }

  /** The set the loop has built after the given tokens, or the error of the
      first invalid one (the exception stops the loop). */
  function Collect(tokens: seq<Token>): Result<set<int>, SelectionError>
    decreases |tokens|
  {
    if tokens == [] then Ok({})
    else
      match Collect(tokens[..|tokens| - 1])
      case Err(e) => Err(e)
      case Ok(s) =>
        match tokens[|tokens| - 1]
        case Invalid(e) => Err(e)
        case t => Ok(s + Named(t))
  }

  predicate StrictlyAscending(r: seq<int>) {
    forall i, j :: 0 <= i < j < |r| ==> r[i] < r[j]
  }

  /** `sorted(i for i in s if lo <= i <= hi)`. */
  function Ascending(s: set<int>, lo: int, hi: int): (r: seq<int>)
    ensures StrictlyAscending(r)
    ensures forall k :: k in r <==> k in s && lo <= k <= hi
    decreases hi - lo
  {
    if lo > hi then []
    else
      var rest := Ascending(s, lo + 1, hi);
      assert forall j :: 0 <= j < |rest| ==> rest[j] in rest;
      (if lo in s then [lo] else []) + rest
  }

  /** What `parse_selection(selection, max_index)` returns or raises. */
  function SelectionOf(selection: string, maxIndex: int): Result<seq<int>, SelectionError> {
    match Collect(Tokens(selection))
    case Err(e) => Err(e)
    case Ok(s) => Ok(Ascending(s, 1, maxIndex))
  }

  /** `parse_selection`: a set filled token by token, then sorted and bounded. */
  method ParseSelection(selection: string, maxIndex: int) returns (r: Result<seq<int>, SelectionError>)
    ensures r == SelectionOf(selection, maxIndex)
  {
    var parts := Split(selection, ',');
    ghost var tokens := Tokens(selection);
    var indices: set<int> := {};
    var i := 0;
    assert tokens[..0] == [];
    while i < |parts|
      invariant 0 <= i <= |parts|
      invariant Collect(tokens[..i]) == Ok(indices)
    {
      ghost var token := Classify(parts[i]);
      assert tokens[i] == token;
      var part := Strip(parts[i]);
      if '-' in part {
        var pieces := Split(part, '-');
        if |pieces| != 2 {
          r := Err(RangeArity(|pieces|));
          assert token == Invalid(r.error);
          CollectStep(tokens, i);
          FirstErrorStands(tokens, i + 1);
          return;
        }
        var start := IntLiteral(pieces[0]);
        if start.None? {
          r := Err(InvalidLiteral(pieces[0]));
          assert token == Invalid(r.error);
          CollectStep(tokens, i);
          FirstErrorStands(tokens, i + 1);
          return;
        }
        var end := IntLiteral(pieces[1]);
        if end.None? {
          r := Err(InvalidLiteral(pieces[1]));
          assert token == Invalid(r.error);
          CollectStep(tokens, i);
          FirstErrorStands(tokens, i + 1);
          return;
        }
        assert token == Span(start.value, end.value);
        CollectStep(tokens, i);
        indices := indices + Interval(start.value, end.value);
      } else if IsDigits(part) {
        var n := IntLiteral(part);
        if n.None? {
          r := Err(InvalidLiteral(part));
          assert token == Invalid(r.error);
          CollectStep(tokens, i);
          FirstErrorStands(tokens, i + 1);
          return;
        }
        assert token == Number(n.value);
        CollectStep(tokens, i);
        indices := indices + {n.value};
      } else {
        assert token == Ignored;
        CollectStep(tokens, i);
        assert indices + Named(token) == indices;
      }
      i := i + 1;
    }
    assert tokens[..i] == tokens;
    r := Ok(Ascending(indices, 1, maxIndex));
  }

  /** One more turn of the loop. */
  lemma CollectStep(tokens: seq<Token>, i: nat)
    requires i < |tokens| && Collect(tokens[..i]).Ok?
    ensures Collect(tokens[..i + 1]) ==
              if tokens[i].Invalid? then Err(tokens[i].error)
              else Ok(Collect(tokens[..i]).value + Named(tokens[i]))
  {
    assert tokens[..i + 1][..i] == tokens[..i];
  }

  /** Once a prefix of the tokens raises, so does the whole list, with the same error. */
  lemma {:induction false} FirstErrorStands(tokens: seq<Token>, n: nat)
    requires n <= |tokens|
    requires Collect(tokens[..n]).Err?
    ensures Collect(tokens) == Collect(tokens[..n])
    decreases |tokens|
  {
    if n < |tokens| {
      var init := tokens[..|tokens| - 1];
      assert init[..n] == tokens[..n];
      FirstErrorStands(init, n);
    } else {
      assert tokens[..n] == tokens;
    }
  }

  /** Some token names `k`. */
  ghost predicate Mentions(tokens: seq<Token>, k: int) {
    exists i :: 0 <= i < |tokens| && k in Named(tokens[i])
  }

  predicate AllValid(tokens: seq<Token>) {
    forall i :: 0 <= i < |tokens| ==> !tokens[i].Invalid?
  }

  /** The loop finishes exactly when no token is invalid, and then holds every
      integer some token names and nothing else. */
  lemma {:induction false} CollectOk(tokens: seq<Token>)
    ensures Collect(tokens).Ok? <==> AllValid(tokens)
    ensures Collect(tokens).Ok? ==> forall k :: k in Collect(tokens).value <==> Mentions(tokens, k)
    decreases |tokens|
  {
    if tokens != [] {
      var init := tokens[..|tokens| - 1];
      var last := tokens[|tokens| - 1];
      CollectOk(init);
      assert forall i :: 0 <= i < |init| ==> init[i] == tokens[i];
      if Collect(tokens).Ok? {
        forall k
          ensures k in Collect(tokens).value <==> Mentions(tokens, k)
        {
          if Mentions(tokens, k) {
            var i :| 0 <= i < |tokens| && k in Named(tokens[i]);
            if i < |init| {
              assert Mentions(init, k);
            }
          }
        }
      }
    }
  }

  /** The first invalid token decides the error. */
  lemma {:induction false} CollectErr(tokens: seq<Token>)
    requires Collect(tokens).Err?
    ensures exists i :: 0 <= i < |tokens| && AllValid(tokens[..i]) &&
                        tokens[i] == Invalid(Collect(tokens).error)
    decreases |tokens|
  {
    var init := tokens[..|tokens| - 1];
    var n := |tokens| - 1;
    CollectOk(init);
    if Collect(init).Err? {
      CollectErr(init);
      var i :| 0 <= i < |init| && AllValid(init[..i]) && init[i] == Invalid(Collect(init).error);
      assert init[..i] == tokens[..i];
      assert init[i] == tokens[i];
    } else {
      assert init == tokens[..n];
    }
  }

  /** `parse_selection` returns rather than raises exactly when no token is invalid. */
  lemma SelectionAccepts(selection: string, maxIndex: int)
    ensures SelectionOf(selection, maxIndex).Ok? <==> AllValid(Tokens(selection))
  {
    CollectOk(Tokens(selection));
  }

  /** What `parse_selection` returns: strictly ascending (so free of duplicates),
      within `1..max_index`, and holding every in-range integer a token names. */
  lemma SelectionContents(selection: string, maxIndex: int)
    requires SelectionOf(selection, maxIndex).Ok?
    ensures StrictlyAscending(SelectionOf(selection, maxIndex).value)
    ensures forall k :: k in SelectionOf(selection, maxIndex).value <==>
                        1 <= k <= maxIndex && Mentions(Tokens(selection), k)
  {
    CollectOk(Tokens(selection));
  }

  /** What `parse_selection` raises: the error of the first invalid token. */
  lemma SelectionRaises(selection: string, maxIndex: int)
    requires SelectionOf(selection, maxIndex).Err?
    ensures exists i :: 0 <= i < |Tokens(selection)| && AllValid(Tokens(selection)[..i]) &&
                        Tokens(selection)[i] == Invalid(SelectionOf(selection, maxIndex).error)
  {
    CollectErr(Tokens(selection));
  }

  /** A token without a hyphen raises only when it is all digits and longer than
      `int()` converts; otherwise it names `int(part)` when its stripped text is
      all digits and nothing when it is not. */
  lemma TokenWithoutHyphen(raw: string)
    requires '-' !in Strip(raw)
    ensures Classify(raw).Invalid? <==> IsDigits(Strip(raw)) && |Strip(raw)| > MaxStrDigits
    ensures Classify(raw).Invalid? ==> Classify(raw) == Invalid(InvalidLiteral(Strip(raw)))
    ensures IsDigits(Strip(raw)) && |Strip(raw)| <= MaxStrDigits ==>
              Named(Classify(raw)) == {IntLiteral(Strip(raw)).value}
    ensures !IsDigits(Strip(raw)) ==> Named(Classify(raw)) == {}
  {
    if IsDigits(Strip(raw)) {
      DigitsAreLiteral(Strip(raw));
    }
  }

  /** A token whose stripped text holds two or more hyphens raises. */
  lemma TokenWithManyHyphens(raw: string)
    requires Occurrences(Strip(raw), '-') >= 2
    ensures Classify(raw) == Invalid(RangeArity(Occurrences(Strip(raw), '-') + 1))
  {
    SplitCount(Strip(raw), '-');
    assert '-' in Strip(raw) by {
      if '-' !in Strip(raw) {
        NoOccurrences(Strip(raw), '-');
      }
    }
  }

  /** A token `a-b` with one hyphen names the integers from `int(a)` to `int(b)`
      inclusive, none when the range is reversed, and raises when either side is
      not an integer. */
  lemma TokenWithOneHyphen(raw: string, a: string, b: string)
    requires Strip(raw) == a + "-" + b && '-' !in a && '-' !in b
    ensures IntLiteral(a).None? ==> Classify(raw) == Invalid(InvalidLiteral(a))
    ensures IntLiteral(a).Some? && IntLiteral(b).None? ==> Classify(raw) == Invalid(InvalidLiteral(b))
    ensures IntLiteral(a).Some? && IntLiteral(b).Some? ==>
              Classify(raw) == Span(IntLiteral(a).value, IntLiteral(b).value) &&
              forall k :: k in Named(Classify(raw)) <==> IntLiteral(a).value <= k <= IntLiteral(b).value
  {
    assert (a + "-" + b)[|a|] == '-';
    SplitJoin([a, b], '-');
    assert Join([a, b], "-") == a + "-" + b;
  }

  /** A strictly ascending list is determined by its members. */
  lemma {:induction false} AscendingUnique(a: seq<int>, b: seq<int>)
    requires StrictlyAscending(a) && StrictlyAscending(b)
    requires forall k :: k in a <==> k in b
    ensures a == b
  {
    assert a != [] ==> a[0] in a && a[0] in b;
    assert b != [] ==> b[0] in b && b[0] in a;
    if a != [] && b != [] {
      assert a[0] == b[0] by {
        assert a[0] in b && b[0] in a;
        var i :| 0 <= i < |a| && a[i] == b[0];
        var j :| 0 <= j < |b| && b[j] == a[0];
        assert a[0] <= a[i] && b[0] <= b[j];
      }
      forall k
        ensures k in a[1..] <==> k in b[1..]
      {
        if k in a[1..] {
          var i :| 1 <= i < |a| && a[i] == k;
          assert k in b && k != b[0];
          var j :| 0 <= j < |b| && b[j] == k;
          assert b[1..][j - 1] == k;
        }
        if k in b[1..] {
          var j :| 1 <= j < |b| && b[j] == k;
          assert k in a && k != a[0];
          var i :| 0 <= i < |a| && a[i] == k;
          assert a[1..][i - 1] == k;
        }
      }
      AscendingUnique(a[1..], b[1..]);
      assert a == [a[0]] + a[1..] && b == [b[0]] + b[1..];
    }
  }

  /** `sorted(...)` of a bounded set is the one strictly ascending list of its members. */
  lemma AscendingIs(s: set<int>, lo: int, hi: int, r: seq<int>)
    requires StrictlyAscending(r) && forall k :: k in r <==> k in s && lo <= k <= hi
    ensures Ascending(s, lo, hi) == r
  {
    AscendingUnique(Ascending(s, lo, hi), r);
  }

  /** An all-digit token names its decimal value, or raises when it has more
      digits than `int()` converts. */
  lemma ClassifyDigits(s: string)
    requires IsDigits(s)
    ensures Classify(s) == if |s| <= MaxStrDigits then Number(DigitsValue(s)) else Invalid(InvalidLiteral(s))
  {
    DigitsAreLiteral(s);
    assert TrimStart(s) == s && TrimEnd(s) == s;
    assert forall i :: 0 <= i < |s| ==> s[i] != '-';
  }

  /** A token of two digit runs around one hyphen is read as that range, unless
      a run has more digits than `int()` converts; the start is converted first. */
  lemma ClassifyRange(a: string, b: string)
    requires IsDigits(a) && IsDigits(b)
    ensures Classify(a + "-" + b) ==
              if |a| > MaxStrDigits then Invalid(InvalidLiteral(a))
              else if |b| > MaxStrDigits then Invalid(InvalidLiteral(b))
              else Span(DigitsValue(a), DigitsValue(b))
  {
    var t := a + "-" + b;
    assert t[0] == a[0] && t[|t| - 1] == b[|b| - 1];
    assert TrimStart(t) == t;
    assert TrimEnd(t) == t;
    DigitsAreLiteral(a);
    DigitsAreLiteral(b);
    assert forall i :: 0 <= i < |a| ==> a[i] != '-';
    assert forall i :: 0 <= i < |b| ==> b[i] != '-';
    TokenWithOneHyphen(t, a, b);
  }

  /** The record numbers written out as the operator would type them: decimal
      numbers separated by commas. */
  function Listing(indices: seq<nat>): string {
    Join(seq(|indices|, i requires 0 <= i < |indices| => Decimal(indices[i])), [','])
  }

  /** Typing out an ascending list of record numbers within `1..max_index` and
      parsing it gives the list back, as long as each number is short enough for
      `int()` to convert. */
  lemma ParseListing(indices: seq<nat>, maxIndex: int)
    requires StrictlyAscending(indices)
    requires forall i :: 0 <= i < |indices| ==> 1 <= indices[i] <= maxIndex
    requires forall i :: 0 <= i < |indices| ==> |Decimal(indices[i])| <= MaxStrDigits
    ensures SelectionOf(Listing(indices), maxIndex) == Ok(indices)
  {
    var tokens := Tokens(Listing(indices));
    ListingTokens(indices);
    CollectOk(tokens);
    var s := Collect(tokens).value;
    forall k
      ensures k in s <==> k in indices
    {
      if k in indices {
        var i :| 0 <= i < |indices| && indices[i] == k;
        assert k in Named(tokens[i]);
      }
    }
    AscendingIs(s, 1, maxIndex, indices);
  }

  /** The tokens of a typed-out list are its numbers. */
  lemma ListingTokens(indices: seq<nat>)
    requires forall i :: 0 <= i < |indices| ==> |Decimal(indices[i])| <= MaxStrDigits
    ensures |Tokens(Listing(indices))| == if indices == [] then 1 else |indices|
    ensures indices == [] ==> Tokens(Listing(indices)) == [Ignored]
    ensures forall i :: 0 <= i < |indices| ==> Tokens(Listing(indices))[i] == Number(indices[i])
  {
    var parts := seq(|indices|, i requires 0 <= i < |indices| => Decimal(indices[i]));
    if indices == [] {
      assert Listing(indices) == "";
      assert Classify("") == Ignored;
    } else {
      forall i | 0 <= i < |parts|
        ensures ',' !in parts[i]
      {
        assert IsDigits(parts[i]);
      }
      SplitJoin(parts, ',');
      forall i | 0 <= i < |indices|
        ensures Classify(parts[i]) == Number(indices[i])
      {
        ClassifyDigits(parts[i]);
        DecimalValue(indices[i]);
      }
    }
  }
}
