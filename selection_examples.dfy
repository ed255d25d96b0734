/** Worked examples of range expressions, among them "1-3,5,7" from `main`'s
    input prompt (scripts/generate_signatures.py:97), worked through `SelectionOf`. */
module SelectionExamples {
  import opened Wrappers
  import opened Text
  import opened Selection

  /** A selection of one comma-free token is that token alone. */
  lemma SingleToken(selection: string)
    requires ',' !in selection
    ensures Tokens(selection) == [Classify(selection)]
  {
    SplitPiece(selection, ',');
  }

  /** The result of a single token, read off its reading. */
  lemma SingleTokenResult(selection: string, maxIndex: int)
    requires ',' !in selection
    ensures SelectionOf(selection, maxIndex) ==
              if Classify(selection).Invalid? then Err(Classify(selection).error)
              else Ok(Ascending(Named(Classify(selection)), 1, maxIndex))
  {
    SingleToken(selection);
    var tokens := [Classify(selection)];
    assert tokens[..0] == [] && tokens[..1] == tokens;
    CollectStep(tokens, 0);
    assert {} + Named(tokens[0]) == Named(tokens[0]);
  }

  lemma ListingText()
    ensures Join(["1-3", "5", "7"], [',']) == "1-3,5,7"
    ensures "1" + "-" + "3" == "1-3"
  {
  }

  lemma ListingDigits()
    ensures DigitsValue("1") == 1 && DigitsValue("3") == 3
    ensures DigitsValue("5") == 5 && DigitsValue("7") == 7
  {
  }

  lemma SplitListing()
    ensures Split("1-3,5,7", ',') == ["1-3", "5", "7"]
  {
    ListingText();
    SplitJoin(["1-3", "5", "7"], ',');
  }

  lemma ClassifyListing()
    ensures Classify("1-3") == Span(1, 3)
    ensures Classify("5") == Number(5) && Classify("7") == Number(7)
  {
    ListingText();
    ListingDigits();
    ClassifyRange("1", "3");
    ClassifyDigits("5");
    ClassifyDigits("7");
  }

  lemma TokensOfListing()
    ensures Tokens("1-3,5,7") == [Span(1, 3), Number(5), Number(7)]
  {
    SplitListing();
    ClassifyListing();
  }

  lemma CollectOfListing()
    ensures Collect([Span(1, 3), Number(5), Number(7)]) == Ok(Interval(1, 3) + {5} + {7})
  {
    var tokens := [Span(1, 3), Number(5), Number(7)];
    assert tokens[..0] == [] && tokens[..3] == tokens;
    CollectStep(tokens, 0);
    CollectStep(tokens, 1);
    CollectStep(tokens, 2);
    assert {} + Interval(1, 3) == Interval(1, 3);
  }

  lemma AscendingOfListing()
    ensures Ascending(Interval(1, 3) + {5} + {7}, 1, 10) == [1, 2, 3, 5, 7]
  {
    var r := [1, 2, 3, 5, 7];
    assert StrictlyAscending(r);
    assert forall k :: k in r <==> k in Interval(1, 3) + {5} + {7} && 1 <= k <= 10;
    AscendingIs(Interval(1, 3) + {5} + {7}, 1, 10, r);
  }

  /** "1-3,5,7" with ten records selects 1, 2, 3, 5 and 7. */
  lemma ListingExample()
    ensures SelectionOf("1-3,5,7", 10) == Ok([1, 2, 3, 5, 7])
  {
    TokensOfListing();
    CollectOfListing();
    AscendingOfListing();
  }

  lemma ReversedRangeText()
    ensures "5" + "-" + "2" == "5-2"
    ensures DigitsValue("5") == 5 && DigitsValue("2") == 2
  {
  }

  /** A reversed range "5-2" selects nothing and raises nothing. */
  lemma ReversedRangeExample()
    ensures SelectionOf("5-2", 10) == Ok([])
  {
    ReversedRangeText();
    SingleTokenResult("5-2", 10);
    ClassifyRange("5", "2");
    AscendingIs(Interval(5, 2), 1, 10, []);
  }

  lemma WordListText()
    ensures Join(["abc", "2"], [',']) == "abc,2"
    ensures DigitsValue("2") == 2
  {
  }

  lemma WordIsIgnored()
    ensures Classify("abc") == Ignored
  {
    assert Strip("abc") == "abc" && "abc"[0] == 'a' && '-' !in "abc";
  }

  lemma TokensOfWordList()
    ensures Tokens("abc,2") == [Ignored, Number(2)]
  {
    WordListText();
    WordIsIgnored();
    SplitJoin(["abc", "2"], ',');
    ClassifyDigits("2");
  }

  lemma CollectOfWordList()
    ensures Collect([Ignored, Number(2)]) == Ok({2})
  {
    var tokens := [Ignored, Number(2)];
    assert tokens[..0] == [] && tokens[..2] == tokens;
    CollectStep(tokens, 0);
    CollectStep(tokens, 1);
    assert {} + {} + {2} == {2};
  }

  /** "abc,2" drops the word and keeps 2. */
  lemma WordIgnoredExample()
    ensures SelectionOf("abc,2", 10) == Ok([2])
  {
    TokensOfWordList();
    CollectOfWordList();
    AscendingIs({2}, 1, 10, [2]);
  }

  /** The empty expression selects nothing. */
  lemma EmptyExample()
    ensures SelectionOf("", 10) == Ok([])
  {
    assert Classify("") == Ignored;
    SingleTokenResult("", 10);
    AscendingIs({}, 1, 10, []);
  }

  lemma MissingStartText()
    ensures Strip("-1") == "" + "-" + "1" && IntLiteral("") == None
  {
    assert Strip("") == [];
  }

  /** "-1" raises: its start `int('')` is not an integer. */
  lemma MissingStartExample()
    ensures SelectionOf("-1", 10) == Err(InvalidLiteral(""))
  {
    MissingStartText();
    SingleTokenResult("-1", 10);
    TokenWithOneHyphen("-1", "", "1");
  }

  lemma ThreePiecesText()
    ensures Strip("1-2-3") == "1-2-3" && Occurrences("1-2-3", '-') == 2
  {
  }

  /** "1-2-3" raises: it splits into three pieces, not two. */
  lemma ThreePiecesExample()
    ensures SelectionOf("1-2-3", 10) == Err(RangeArity(3))
  {
    ThreePiecesText();
    TokenWithManyHyphens("1-2-3");
    SingleTokenResult("1-2-3", 10);
  }

  lemma WordStartText()
    ensures Strip("a-3") == "a" + "-" + "3"
    ensures IntLiteral("a") == None
  {
    assert Strip("a") == "a" && "a"[0] == 'a';
  }

  /** "a-3" raises: its start `int('a')` is not an integer. */
  lemma WordStartExample()
    ensures SelectionOf("a-3", 10) == Err(InvalidLiteral("a"))
  {
    WordStartText();
    SingleTokenResult("a-3", 10);
    TokenWithOneHyphen("a-3", "a", "3");
  }

  lemma SeparatorText()
    ensures Strip("1\U{1F}-3") == "1\U{1F}" + "-" + "3"
    ensures IntLiteral("1\U{1F}") == None
  {
    var r := "1\U{1F}-3";
    assert r[0] == '1' && r[|r| - 1] == '3';
    assert TrimStart(r) == r;
    assert TrimEnd(r) == r;
    assert r == "1\U{1F}" + "-" + "3";
    var t := "1\U{1F}";
    assert t[0] == '1' && t[|t| - 1] == '\U{1F}';
    assert IntTrim(t) == t;
    assert !IsDigit(t[1]) && t[1] != '_';
  }

  /** "1\x1f-3" raises: `str.strip()` would remove the unit separator 0x1F, but
      `int()` does not skip it, so the start `int('1\x1f')` is not an integer. */
  lemma SeparatorInRangeExample()
    ensures SelectionOf("1\U{1F}-3", 10) == Err(InvalidLiteral("1\U{1F}"))
  {
    SeparatorText();
    SingleTokenResult("1\U{1F}-3", 10);
    TokenWithOneHyphen("1\U{1F}-3", "1\U{1F}", "3");
  }
}
