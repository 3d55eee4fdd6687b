/** The word tables: how a token of the scanned text becomes a word the parser knows. */
module NumberWords {
  import opened Wrappers
  import opened NumberParser
  import opened Spelling
  import opened ScoreColumn

  const ONES: map<string, nat> := map[
    "zero" := 0, "zebo" := 0, "zevo" := 0, "zaro" := 0, "lero" := 0,
    "one" := 1, "ohe" := 1, "two" := 2, "tho" := 2, "three" := 3, "four" := 4, "five" := 5,
    "six" := 6, "seven" := 7, "eight" := 8, "nine" := 9, "ten" := 10, "eleven" := 11,
    "twelve" := 12, "thirteen" := 13, "fourteen" := 14, "fifteen" := 15, "sixteen" := 16,
    "seventeen" := 17, "eighteen" := 18, "nineteen" := 19]

  const TENS: map<string, nat> := map[
    "twenty" := 20, "thirty" := 30, "forty" := 40, "fourty" := 40, "fifty" := 50, "sixty" := 60,
    "seventy" := 70, "seventh" := 70, "eighty" := 80, "ninety" := 90, "ninty" := 90]

  const WORD_ALIASES: map<string, string> := map[
    "tho" := "two", "ohe" := "one", "lero" := "zero", "zaro" := "zero",
    "seventh" := "seventy", "ninty" := "ninety"]

  const ZEROS: set<string> := {"zero", "zebo", "zevo", "zaro", "lero"}

  function Lower(c: char): char {
    if 'A' <= c <= 'Z' then c + ('a' - 'A') else c
  }

  /** The letters of a token, in lower case. */
  function Letters(s: string): string {
    if s == "" then ""
    else if 'a' <= Lower(s[0]) <= 'z' then [Lower(s[0])] + Letters(s[1..])
    else Letters(s[1..])
  }

  function NormalizeWord(token: string): string {
    var raw := Letters(token);
    if raw in WORD_ALIASES then WORD_ALIASES[raw] else raw
  }

  // ---------------------------------------------------------------- tokens

  function Meaning(word: string): Lexeme {
    if word == "" then Blank
    else if word == "and" then And
    else if word in ONES then (if word in ZEROS then Zero else Unit(ONES[word]))
    else if word in TENS then Ten(TENS[word])
    else if word == "hundred" then Hundred
    else if word == "thousand" then Thousand
    else Foreign
  }

  function Lex(token: string): Lexeme {
    Meaning(NormalizeWord(token))
  }

  predicate IsDigits(token: string) {
    token != "" && forall i | 0 <= i < |token| :: '0' <= token[i] <= '9'
  }

  function NumberOf(token: string): nat
    requires IsDigits(token)
  {
    var digit := token[|token| - 1] as int - '0' as int;
    if |token| == 1 then digit else 10 * NumberOf(token[..|token| - 1]) + digit
  }

  function View(token: string): Token {
    Token(Lex(token), if IsDigits(token) then Some(NumberOf(token)) else None)
  }

  function ViewAll(tokens: seq<string>): seq<Token> {
    seq(|tokens|, i requires 0 <= i < |tokens| => View(tokens[i]))
  }

  lemma {:induction false} DigitsHaveNoLetters(token: string)
    requires forall i | 0 <= i < |token| :: '0' <= token[i] <= '9'
    ensures Letters(token) == ""
  {
    if token == "" {
    } else {
      DigitsHaveNoLetters(token[1..]);
    }
  }

  /** No number in words runs across a number in figures. */
  lemma FiguresAreInert(token: string)
    requires IsDigits(token)
    ensures Inert(View(token))
  {
    DigitsHaveNoLetters(token);
  }

  // ---------------------------------------------------------------- the canonical vocabulary

  const UNIT_WORDS: seq<string> := [
    "zero", "one", "two", "three", "four", "five", "six", "seven", "eight", "nine",
    "ten", "eleven", "twelve", "thirteen", "fourteen", "fifteen", "sixteen", "seventeen",
    "eighteen", "nineteen"]

  const TEN_WORDS: seq<string> := [
    "twenty", "thirty", "forty", "fifty", "sixty", "seventy", "eighty", "ninety"]

  predicate Lowercase(w: string) {
    forall i | 0 <= i < |w| :: 'a' <= w[i] <= 'z'
  }

  lemma {:induction false} LettersOfLowercase(w: string)
    requires Lowercase(w)
    ensures Letters(w) == w
  {
    if w == "" {
    } else {
      LettersOfLowercase(w[1..]);
      assert w == [w[0]] + w[1..];
    }
  }

  predicate Spells(w: string, l: Lexeme) {
    Lex(w) == l
  }

  lemma SpellsAsWritten(w: string, l: Lexeme)
    requires Lowercase(w) && w !in WORD_ALIASES && Meaning(w) == l
    ensures Spells(w, l)
  {
    LettersOfLowercase(w);
  }

  lemma ZeroWord() ensures Spells("zero", Lexeme.Zero) {
    assert "zero" in ZEROS && "zero" in ONES;
    SpellsAsWritten("zero", Lexeme.Zero);
  }
  lemma OneWord() ensures Spells("one", Unit(1)) { SpellsAsWritten("one", Unit(1)); }
  lemma TwoWord() ensures Spells("two", Unit(2)) { SpellsAsWritten("two", Unit(2)); }
  lemma ThreeWord() ensures Spells("three", Unit(3)) { SpellsAsWritten("three", Unit(3)); }
  lemma FourWord() ensures Spells("four", Unit(4)) { SpellsAsWritten("four", Unit(4)); }
  lemma FiveWord() ensures Spells("five", Unit(5)) { SpellsAsWritten("five", Unit(5)); }
  lemma SixWord() ensures Spells("six", Unit(6)) { SpellsAsWritten("six", Unit(6)); }
  lemma SevenWord() ensures Spells("seven", Unit(7)) { SpellsAsWritten("seven", Unit(7)); }
  lemma EightWord() ensures Spells("eight", Unit(8)) { SpellsAsWritten("eight", Unit(8)); }
  lemma NineWord() ensures Spells("nine", Unit(9)) { SpellsAsWritten("nine", Unit(9)); }
  lemma TenWord() ensures Spells("ten", Unit(10)) { SpellsAsWritten("ten", Unit(10)); }
  lemma ElevenWord() ensures Spells("eleven", Unit(11)) { SpellsAsWritten("eleven", Unit(11)); }
  lemma TwelveWord() ensures Spells("twelve", Unit(12)) { SpellsAsWritten("twelve", Unit(12)); }
  lemma ThirteenWord() ensures Spells("thirteen", Unit(13)) { SpellsAsWritten("thirteen", Unit(13)); }
  lemma FourteenWord() ensures Spells("fourteen", Unit(14)) { SpellsAsWritten("fourteen", Unit(14)); }
  lemma FifteenWord() ensures Spells("fifteen", Unit(15)) { SpellsAsWritten("fifteen", Unit(15)); }
  lemma SixteenWord() ensures Spells("sixteen", Unit(16)) { SpellsAsWritten("sixteen", Unit(16)); }
  lemma SeventeenWord() ensures Spells("seventeen", Unit(17)) { SpellsAsWritten("seventeen", Unit(17)); }
  lemma EighteenWord() ensures Spells("eighteen", Unit(18)) { SpellsAsWritten("eighteen", Unit(18)); }
  lemma NineteenWord() ensures Spells("nineteen", Unit(19)) { SpellsAsWritten("nineteen", Unit(19)); }
  lemma TwentyWord() ensures Spells("twenty", Ten(20)) { SpellsAsWritten("twenty", Ten(20)); }
  lemma ThirtyWord() ensures Spells("thirty", Ten(30)) { SpellsAsWritten("thirty", Ten(30)); }
  lemma FortyWord() ensures Spells("forty", Ten(40)) { SpellsAsWritten("forty", Ten(40)); }
  lemma FiftyWord() ensures Spells("fifty", Ten(50)) { SpellsAsWritten("fifty", Ten(50)); }
  lemma SixtyWord() ensures Spells("sixty", Ten(60)) { SpellsAsWritten("sixty", Ten(60)); }
  lemma SeventyWord() ensures Spells("seventy", Ten(70)) { SpellsAsWritten("seventy", Ten(70)); }
  lemma EightyWord() ensures Spells("eighty", Ten(80)) { SpellsAsWritten("eighty", Ten(80)); }
  lemma NinetyWord() ensures Spells("ninety", Ten(90)) { SpellsAsWritten("ninety", Ten(90)); }
  lemma HundredWord() ensures Spells("hundred", Lexeme.Hundred) { SpellsAsWritten("hundred", Lexeme.Hundred); }
  lemma ThousandWord() ensures Spells("thousand", Lexeme.Thousand) { SpellsAsWritten("thousand", Lexeme.Thousand); }
  lemma AndWord() ensures Spells("and", Lexeme.And) { SpellsAsWritten("and", Lexeme.And); }

  lemma UnitWords(n: nat)
    requires 1 <= n <= 19
    ensures Spells(UNIT_WORDS[n], Unit(n))
  {
    hide Spells;
    if n == 1 { OneWord(); } if n == 2 { TwoWord(); } if n == 3 { ThreeWord(); } if n == 4 { FourWord(); }
    if n == 5 { FiveWord(); } if n == 6 { SixWord(); } if n == 7 { SevenWord(); } if n == 8 { EightWord(); }
    if n == 9 { NineWord(); } if n == 10 { TenWord(); } if n == 11 { ElevenWord(); } if n == 12 { TwelveWord(); }
    if n == 13 { ThirteenWord(); } if n == 14 { FourteenWord(); } if n == 15 { FifteenWord(); }
    if n == 16 { SixteenWord(); }
    if n == 17 { SeventeenWord(); } if n == 18 { EighteenWord(); } if n == 19 { NineteenWord(); }
  }

  lemma TenWords(n: nat)
    requires 2 <= n <= 9
    ensures Spells(TEN_WORDS[n - 2], Ten(10 * n))
  {
    hide Spells;
    if n == 2 { TwentyWord(); } if n == 3 { ThirtyWord(); } if n == 4 { FortyWord(); } if n == 5 { FiftyWord(); }
    if n == 6 { SixtyWord(); } if n == 7 { SeventyWord(); } if n == 8 { EightyWord(); } if n == 9 { NinetyWord(); }
  }

  predicate InVocabulary(l: Lexeme) {
    match l
    case And | Zero | Hundred | Thousand => true
    case Unit(n) => 1 <= n <= 19
    case Ten(n) => 20 <= n <= 90 && n % 10 == 0
    case _ => false
  }

  function WordFor(l: Lexeme): string
    requires InVocabulary(l)
  {
    match l
    case And => "and"
    case Zero => "zero"
    case Hundred => "hundred"
    case Thousand => "thousand"
    case Unit(n) => UNIT_WORDS[n]
    case Ten(n) => TEN_WORDS[n / 10 - 2]
  }

  lemma WordForSpells(l: Lexeme)
    requires InVocabulary(l)
    ensures Spells(WordFor(l), l)
  {
    match l
    case And => AndWord();
    case Zero => ZeroWord();
    case Hundred => HundredWord();
    case Thousand => ThousandWord();
    case Unit(n) => UnitWords(n);
    case Ten(n) => TenWords(n / 10);
  }

  predicate AllInVocabulary(ls: seq<Lexeme>) {
    forall i | 0 <= i < |ls| :: InVocabulary(ls[i])
  }

  lemma HundredsInVocabulary(n: nat, conj: bool)
    requires 1 <= n <= 999
    ensures AllInVocabulary(HundredsLexemes(n, conj))
  {
  }

  lemma CanonicalInVocabulary(n: nat, conj: bool)
    requires n <= 999_999
    ensures AllInVocabulary(Lexemes(n, conj))
  {
    if 1 <= n <= 999 {
      HundredsInVocabulary(n, conj);
    } else if n > 999 {
      HundredsInVocabulary(n / 1000, conj);
      if n % 1000 > 0 {
        HundredsInVocabulary(n % 1000, conj);
      }
    }
  }

  /** The canonical words of `n`. */
  function CanonicalWords(n: nat, conj: bool): seq<string>
    requires n <= 999_999
  {
    CanonicalInVocabulary(n, conj);
    var ls := Lexemes(n, conj);
    seq(|ls|, i requires 0 <= i < |ls| => WordFor(ls[i]))
  }

  lemma CanonicalWordsSpell(n: nat, conj: bool)
    requires n <= 999_999
    ensures Words(ViewAll(CanonicalWords(n, conj))) == Lexemes(n, conj)
  {
    CanonicalInVocabulary(n, conj);
    var ls := Lexemes(n, conj);
    forall i | 0 <= i < |ls|
      ensures Lex(CanonicalWords(n, conj)[i]) == ls[i]
    {
      WordForSpells(ls[i]);
    }
  }

  // ---------------------------------------------------------------- round trip

  /** The words of a number, in any spelling the tables accept, are all read and give it back. */
  lemma RoundTrip(n: nat, conj: bool, words: seq<string>)
    requires n <= 999_999 && Words(ViewAll(words)) == Lexemes(n, conj)
    ensures ParseAt(ViewAll(words)) == Some(Parsed(n, |words|))
  {
    ParsedBeforeEnd(Item([], ViewAll(words), n, conj), []);
    assert ViewAll(words) + [] == ViewAll(words);
  }

  lemma CanonicalRoundTrip(n: nat, conj: bool)
    requires n <= 999_999
    ensures ParseAt(ViewAll(CanonicalWords(n, conj))) == Some(Parsed(n, |CanonicalWords(n, conj)|))
  {
    CanonicalWordsSpell(n, conj);
    RoundTrip(n, conj, CanonicalWords(n, conj));
  }
}
