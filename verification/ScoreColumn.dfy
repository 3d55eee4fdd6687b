/** Reading a column of scores out of the tokens of an EC8A form. */
module ScoreColumn {
  import opened Wrappers
  import opened NumberParser
  import opened Spelling

  /** One pass of the reader: the score it finds, if any, and how many tokens it takes. */
  datatype Pass = Pass(found: Option<nat>, used: nat)

  /**
   * Words are read as a number; digits are taken together with the same number in words behind
   * them; any other token is passed over.
   */
  function PassFrom(ts: seq<Token>, i: nat): (p: Pass)
    requires i < |ts|
    ensures 1 <= p.used && i + p.used <= |ts|
  {
    var parsed := ParseFrom(ts, i);
    if parsed.Some? then Pass(Some(parsed.value.value), parsed.value.consumed)
    else
      var next := ParseFrom(ts, i + 1);
      if next.Some? && ts[i].figure == Some(next.value.value)
      then Pass(Some(next.value.value), 1 + next.value.consumed)
      else Pass(None, 1)
  }

  /** The scores found from position `i` on, up to `limit` of them. */
  function CollectFrom(ts: seq<Token>, i: nat, limit: nat): seq<nat>
    decreases |ts| - i
  {
    if i >= |ts| || limit == 0 then []
    else
      var p := PassFrom(ts, i);
      if p.found.None? then CollectFrom(ts, i + p.used, limit)
      else [p.found.value] + CollectFrom(ts, i + p.used, limit - 1)
  }

  /** One score too many is the column's total; anything further is cut off. */
  function CutTo(scores: seq<nat>, expected: nat): seq<nat> {
    var kept := if |scores| == expected + 1 then scores[..expected] else scores;
    if expected == 0 || |kept| <= expected then kept else kept[..expected]
  }

  function Extract(ts: seq<Token>, expected: nat): seq<nat> {
    CutTo(CollectFrom(ts, 0, expected + 2), expected)
  }

  /** A score found at `i` joins those found before. */
  lemma JoinsScores(ts: seq<Token>, i: nat, limit: nat, scores: seq<nat>, n: nat, used: nat)
    requires i < |ts| && |scores| < limit && PassFrom(ts, i) == Pass(Some(n), used)
    ensures scores + CollectFrom(ts, i, limit - |scores|)
         == scores + [n] + CollectFrom(ts, i + used, limit - |scores| - 1)
  {
    hide PassFrom;
  }

  lemma PassesOver(ts: seq<Token>, i: nat, limit: nat)
    requires i < |ts| && PassFrom(ts, i) == Pass(None, 1)
    ensures CollectFrom(ts, i, limit) == CollectFrom(ts, i + 1, limit)
  {
    hide PassFrom;
  }

  method ExtractWordScoresFrom(tokens: seq<Token>, expectedCount: nat) returns (scores: seq<nat>)
    ensures scores == Extract(tokens, expectedCount)
  {
    hide CollectFrom, ParseFrom;
    scores := [];
    var i: nat := 0;
    var limit := expectedCount + 2;
    while i < |tokens| && |scores| < limit
      invariant i <= |tokens| && |scores| <= limit
      invariant scores + CollectFrom(tokens, i, limit - |scores|) == CollectFrom(tokens, 0, limit)
      decreases |tokens| - i
    {
      var parsed := ParseNumberWords(tokens, i);
      if parsed.Some? {
        JoinsScores(tokens, i, limit, scores, parsed.value.value, parsed.value.consumed);
        scores := scores + [parsed.value.value];
        i := i + parsed.value.consumed;
        continue;
      }
      if tokens[i].figure.Some? {
        var digit := tokens[i].figure.value;
        var next := ParseNumberWords(tokens, i + 1);
        if next.Some? && next.value.value == digit {
          JoinsScores(tokens, i, limit, scores, digit, 1 + next.value.consumed);
          scores := scores + [digit];
          i := i + 1 + next.value.consumed;
          continue;
        }
        PassesOver(tokens, i, limit - |scores|);
        i := i + 1;
        continue;
      }
      PassesOver(tokens, i, limit - |scores|);
      i := i + 1;
    }
    NothingLeft(tokens, i, limit - |scores|);
    if |scores| == expectedCount + 1 {
      scores := scores[..|scores| - 1];
    }
    if expectedCount != 0 && expectedCount < |scores| {
      scores := scores[..expectedCount];
    }
  }

  lemma NothingLeft(ts: seq<Token>, i: nat, limit: nat)
    requires i >= |ts| || limit == 0
    ensures CollectFrom(ts, i, limit) == []
  {
  }

  // ---------------------------------------------------------------- columns as written

  /** A token that no number contains: a number in figures, a party code, other print. */
  predicate Inert(token: Token) {
    token.lexeme == Blank || token.lexeme == Foreign
  }

  /** A score in words, in any spelling the word tables accept, after any inert tokens. */
  datatype Item = Item(separators: seq<Token>, words: seq<Token>, score: nat, conj: bool)

  datatype Column = End | More(item: Item, rest: Column)

  ghost predicate Written(it: Item) {
    && it.score <= 999_999
    && Words(it.words) == Lexemes(it.score, it.conj)
    && forall s :: s in it.separators ==> Inert(s)
  }

  ghost predicate AllWritten(c: Column) {
    c.More? ==> Written(c.item) && AllWritten(c.rest)
  }

  function Tokens(c: Column): seq<Token> {
    if c.End? then [] else c.item.separators + (c.item.words + Tokens(c.rest))
  }

  function Scores(c: Column): seq<nat> {
    if c.End? then [] else [c.item.score] + Scores(c.rest)
  }

  function Length(c: Column): (n: nat)
    ensures n == |Scores(c)|
  {
    if c.End? then 0 else 1 + Length(c.rest)
  }

  /** Whether the first score is told apart from the second, if there is one. */
  predicate Apart(c: Column) {
    c.More? && c.rest.More? ==>
      c.rest.item.separators != [] || Separate(c.item.score, c.rest.item.score)
  }

  /** Neighbours without a separator between them can all be told apart. */
  predicate Segmentable(c: Column) {
    c.More? ==> Apart(c) && Segmentable(c.rest)
  }

  // ---------------------------------------------------------------- what the reader finds

  lemma WordsConcat(a: seq<Token>, b: seq<Token>)
    ensures Words(a + b) == Words(a) + Words(b)
  {
  }

  /** An inert token is skipped, or taken together with the same number in words after it. */
  lemma InertIsSkipped(ts: seq<Token>, i: nat, limit: nat)
    requires i < |ts| && Inert(ts[i])
    ensures CollectFrom(ts, i, limit) == CollectFrom(ts, i + 1, limit)
  {
  }

  lemma {:induction false} SeparatorsAreSkipped(ts: seq<Token>, i: nat, j: nat, limit: nat)
    requires i <= j <= |ts| && forall k :: i <= k < j ==> Inert(ts[k])
    ensures CollectFrom(ts, i, limit) == CollectFrom(ts, j, limit)
    decreases j - i
  {
    hide CollectFrom;
    if i < j {
      InertIsSkipped(ts, i, limit);
      SeparatorsAreSkipped(ts, i + 1, j, limit);
    }
  }

  lemma ParsedBeforeEnd(it: Item, rest: seq<Token>)
    requires Written(it) && (rest == [] || Inert(rest[0]))
    ensures ParseAt(it.words + rest) == Some(Parsed(it.score, |it.words|))
  {
    WordsConcat(it.words, rest);
    ParseBeforeEnd(it.score, it.conj, Words(rest));
  }

  lemma ParsedBeforeItem(it: Item, next: Item, beyond: seq<Token>)
    requires Written(it) && Written(next)
    ensures
      var r := ParseAt(it.words + (next.words + beyond));
      r.Some? &&
      if Separate(it.score, next.score) then r.value == Parsed(it.score, |it.words|) else r.value.value > it.score
  {
    WordsConcat(next.words, beyond);
    WordsConcat(it.words, next.words + beyond);
    ParseBeforeNumber(it.score, it.conj, next.score, next.conj, Words(beyond));
  }

  /** What is parsed at the words of the first item, given the items after it. */
  lemma FirstItemParsed(c: Column)
    requires c.More? && AllWritten(c)
    ensures
      var r := ParseAt(c.item.words + Tokens(c.rest));
      r.Some? &&
      if Apart(c) then r.value == Parsed(c.item.score, |c.item.words|) else r.value.value > c.item.score
  {
    if c.rest.End? {
      ParsedBeforeEnd(c.item, []);
    } else {
      var next, beyond := c.rest.item, Tokens(c.rest.rest);
      if next.separators != [] {
        assert Tokens(c.rest)[0] == next.separators[0];
        ParsedBeforeEnd(c.item, Tokens(c.rest));
      } else {
        assert Tokens(c.rest) == next.words + beyond;
        ParsedBeforeItem(c.item, next, beyond);
      }
    }
  }

  /** From position `i` on, `ts` is the column `c`. */
  predicate Stands(ts: seq<Token>, i: nat, c: Column) {
    i <= |ts| && ts[i..] == Tokens(c)
  }

  /** The position of the first item's words, and of the items after it. */
  function WordsAt(i: nat, c: Column): nat
    requires c.More?
  {
    i + |c.item.separators|
  }

  function RestAt(i: nat, c: Column): nat
    requires c.More?
  {
    WordsAt(i, c) + |c.item.words|
  }

  lemma ItemStands(ts: seq<Token>, i: nat, c: Column)
    requires Stands(ts, i, c) && c.More?
    ensures RestAt(i, c) <= |ts|
    ensures forall k :: i <= k < WordsAt(i, c) ==> ts[k] in c.item.separators
    ensures ts[WordsAt(i, c)..] == c.item.words + Tokens(c.rest)
    ensures Stands(ts, RestAt(i, c), c.rest)
  {
    var x, y := c.item.separators, c.item.words;
    assert |ts[i..]| == |x| + (|y| + |Tokens(c.rest)|);
    forall k | i <= k < WordsAt(i, c)
      ensures ts[k] in x
    {
      assert ts[k] == ts[i..][k - i] == x[k - i];
    }
    assert ts[WordsAt(i, c)..] == ts[i..][|x|..];
    assert ts[RestAt(i, c)..] == ts[WordsAt(i, c)..][|y|..];
  }

  lemma CollectsParsed(ts: seq<Token>, i: nat, limit: nat, r: Parsed)
    requires i < |ts| && limit > 0 && ParseFrom(ts, i) == Some(r)
    ensures CollectFrom(ts, i, limit) == [r.value] + CollectFrom(ts, i + r.consumed, limit - 1)
  {
    hide ParseFrom;
  }

  /** The first score that is found, and the rest from behind its words. */
  lemma CollectsFirst(ts: seq<Token>, i: nat, c: Column, limit: nat, r: Parsed)
    requires Stands(ts, i, c) && AllWritten(c) && c.More? && limit > 0
    requires ParseAt(c.item.words + Tokens(c.rest)) == Some(r)
    ensures CollectFrom(ts, i, limit) == [r.value] + CollectFrom(ts, WordsAt(i, c) + r.consumed, limit - 1)
  {
    hide CollectFrom, ParseAt, ParseFrom;
    var j := WordsAt(i, c);
    ItemStands(ts, i, c);
    SeparatorsAreSkipped(ts, i, j, limit);
    ParseFromIsParse(ts, j);
    CollectsParsed(ts, j, limit, r);
  }

  /** A first score that is told apart is found, and the reader goes on behind it. */
  lemma CollectsHead(ts: seq<Token>, i: nat, c: Column, limit: nat)
    requires Stands(ts, i, c) && AllWritten(c) && c.More? && Apart(c) && limit > 0
    ensures Stands(ts, RestAt(i, c), c.rest)
    ensures CollectFrom(ts, i, limit) == [c.item.score] + CollectFrom(ts, RestAt(i, c), limit - 1)
  {
    hide CollectFrom, ParseAt, Stands;
    ItemStands(ts, i, c);
    FirstItemParsed(c);
    CollectsFirst(ts, i, c, limit, Parsed(c.item.score, |c.item.words|));
  }

  /** At `p`, which is not the last score, too large a number is found. */
  predicate TooMuchAt(found: seq<nat>, scores: seq<nat>, p: nat) {
    p + 1 < |scores| && p < |found| && found[p] > scores[p]
  }

  /** A first score that is not told apart is found too large. */
  lemma HeadTooMuch(ts: seq<Token>, i: nat, c: Column, limit: nat)
    requires Stands(ts, i, c) && AllWritten(c) && c.More? && !Apart(c) && limit > 0
    ensures TooMuchAt(CollectFrom(ts, i, limit), Scores(c), 0)
  {
    hide CollectFrom, ParseAt, Stands;
    FirstItemParsed(c);
    CollectsFirst(ts, i, c, limit, ParseAt(c.item.words + Tokens(c.rest)).value);
  }

  lemma NothingStands(ts: seq<Token>, i: nat, c: Column, limit: nat)
    requires Stands(ts, i, c) && c.End?
    ensures CollectFrom(ts, i, limit) == []
  {
    NothingLeft(ts, i, limit);
  }

  /** The first of the scores, at most `limit` of them. */
  function AtMost(scores: seq<nat>, limit: nat): seq<nat> {
    if |scores| <= limit then scores else scores[..limit]
  }

  /** A column whose neighbours can be told apart is collected score by score, as far as the limit. */
  lemma {:induction false} CollectsUpTo(ts: seq<Token>, i: nat, c: Column, limit: nat)
    requires Stands(ts, i, c) && AllWritten(c) && Segmentable(c)
    ensures CollectFrom(ts, i, limit) == AtMost(Scores(c), limit)
    decreases c
  {
    hide CollectFrom, Stands;
    if c.End? {
      NothingStands(ts, i, c, limit);
    } else if limit == 0 {
      NothingLeft(ts, i, limit);
    } else {
      CollectsHead(ts, i, c, limit);
      CollectsUpTo(ts, RestAt(i, c), c.rest, limit - 1);
    }
  }

  lemma TooMuchLater(head: nat, found: seq<nat>, scores: seq<nat>, p: nat)
    requires TooMuchAt(found, scores, p)
    ensures TooMuchAt([head] + found, [head] + scores, p + 1)
  {
  }

  /** Otherwise some score but the last is found too large. */
  lemma {:induction false} CollectsTooMuch(ts: seq<Token>, i: nat, c: Column, limit: nat) returns (p: nat)
    requires Stands(ts, i, c) && AllWritten(c) && !Segmentable(c) && Length(c) <= limit
    ensures TooMuchAt(CollectFrom(ts, i, limit), Scores(c), p)
    decreases c
  {
    hide CollectFrom, Stands;
    if !Apart(c) {
      HeadTooMuch(ts, i, c, limit);
      p := 0;
    } else {
      CollectsHead(ts, i, c, limit);
      p := CollectsTooMuch(ts, RestAt(i, c), c.rest, limit - 1);
      TooMuchLater(c.item.score, CollectFrom(ts, RestAt(i, c), limit - 1), Scores(c.rest), p);
      p := p + 1;
    }
  }

  /** Cutting keeps the first `n` scores, whether or not one more was found. */
  lemma CutKeeps(found: seq<nat>, n: nat)
    requires n > 0 && n <= |found| <= n + 1
    ensures CutTo(found, n) == found[..n]
  {
  }

  lemma CutDiffers(found: seq<nat>, n: nat, scores: seq<nat>, p: nat)
    requires TooMuchAt(found, scores, p) && n <= |scores| <= n + 1
    ensures CutTo(found, n) != scores[..n]
  {
    assert scores[..n][p] == scores[p];
    assert p < |CutTo(found, n)| ==> CutTo(found, n)[p] == found[p];
  }

  /** A column of n scores, with or without one more number after them for their total. */
  lemma ColumnOfIsRead(c: Column, n: nat)
    requires 0 < n <= Length(c) <= n + 1 && AllWritten(c)
    ensures Extract(Tokens(c), n) == Scores(c)[..n] <==> Segmentable(c)
  {
    hide CollectFrom, Tokens, CutTo, Segmentable, AllWritten, Scores;
    if Segmentable(c) {
      CollectsUpTo(Tokens(c), 0, c, n + 2);
      CutKeeps(Scores(c), n);
    } else {
      var p := CollectsTooMuch(Tokens(c), 0, c, n + 2);
      CutDiffers(CollectFrom(Tokens(c), 0, n + 2), n, Scores(c), p);
    }
  }

  /**
   * A column of n scores is read as exactly those scores if and only if no two neighbours without
   * a separator run together.
   */
  lemma ColumnIsRead(c: Column)
    requires c.More? && AllWritten(c)
    ensures Extract(Tokens(c), Length(c)) == Scores(c) <==> Segmentable(c)
  {
    ColumnOfIsRead(c, Length(c));
    assert Scores(c)[..Length(c)] == Scores(c);
  }

  /** The same when one more number, the column's total, follows the n scores. */
  lemma ColumnWithTotalIsRead(c: Column)
    requires Length(c) >= 2 && AllWritten(c)
    ensures Extract(Tokens(c), Length(c) - 1) == Scores(c)[..Length(c) - 1] <==> Segmentable(c)
  {
    ColumnOfIsRead(c, Length(c) - 1);
  }

  /**
   * Whatever count is expected, the first that many scores are kept; of a column that is expected to
   * be empty the first two, unless there is only one.
   */
  lemma AnyCountIsRead(c: Column, n: nat)
    requires AllWritten(c) && Segmentable(c)
    ensures Extract(Tokens(c), n)
      == if n > 0 then AtMost(Scores(c), n) else if Length(c) == 1 then [] else AtMost(Scores(c), 2)
  {
    hide CollectFrom, Tokens, AllWritten, Segmentable, Scores;
    CollectsUpTo(Tokens(c), 0, c, n + 2);
  }

  /** Every score has a separator in front. */
  predicate AllSeparated(c: Column) {
    c.More? ==> c.item.separators != [] && AllSeparated(c.rest)
  }

  lemma {:induction false} SeparatedIsSegmentable(c: Column)
    requires AllSeparated(c)
    ensures Segmentable(c)
  {
    if c.More? {
      SeparatedIsSegmentable(c.rest);
    }
  }

  /** A separator, such as a number in figures, in front of every score keeps any scores apart. */
  lemma SeparatedColumnIsRead(c: Column)
    requires c.More? && AllWritten(c) && AllSeparated(c)
    ensures Extract(Tokens(c), Length(c)) == Scores(c)
  {
    SeparatedIsSegmentable(c);
    ColumnIsRead(c);
  }
}
