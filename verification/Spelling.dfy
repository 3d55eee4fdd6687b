/**
 * The canonical spelling of 0..999,999 and what the parser makes of it: it reads back the number and
 * stops at the next one exactly where the two cannot be read as one.
 */
module Spelling {
  import opened Wrappers
  import opened NumberParser

  // ---------------------------------------------------------------- canonical spelling

  function SmallLexemes(n: nat): seq<Lexeme>
    requires 1 <= n <= 99
  {
    if n <= 19 then [Unit(n)]
    else [Ten(10 * (n / 10))] + if n % 10 == 0 then [] else [Unit(n % 10)]
  }

  function Joined(conj: bool): seq<Lexeme> {
    if conj then [And] else []
  }

  function HundredsLexemes(n: nat, conj: bool): seq<Lexeme>
    requires 1 <= n <= 999
  {
    if n <= 99 then SmallLexemes(n)
    else [Unit(n / 100), Hundred] + if n % 100 == 0 then [] else Joined(conj) + SmallLexemes(n % 100)
  }

  /** Below-thousand part after "thousand", if any. */
  function RestLexemes(n: nat, conj: bool): seq<Lexeme>
    requires n <= 999
  {
    if n == 0 then [] else if n <= 99 then Joined(conj) + SmallLexemes(n) else HundredsLexemes(n, conj)
  }

  /** With `conj`, "and" joins the hundreds or thousands to what follows below a hundred. */
  function Lexemes(n: nat, conj: bool): seq<Lexeme>
    requires n <= 999_999
  {
    if n == 0 then [Zero]
    else if n <= 999 then HundredsLexemes(n, conj)
    else HundredsLexemes(n / 1000, conj) + [Thousand] + RestLexemes(n % 1000, conj)
  }

  // ---------------------------------------------------------------- reading it back

  /** The accumulators after reading all of `ls` as part of the number; None if it ends before. */
  function ReadAll(ls: seq<Lexeme>, a: Acc): Option<Acc> {
    if ls == [] then Some(a)
    else if Step(a, ls[0]).None? then None
    else ReadAll(ls[1..], Step(a, ls[0]).value)
  }

  predicate Reads(ls: seq<Lexeme>, a: Acc, b: Acc) {
    ReadAll(ls, a) == Some(b)
  }

  lemma {:induction false} ScanAfter(ls: seq<Lexeme>, rest: seq<Lexeme>, a: Acc, b: Acc)
    requires Reads(ls, a, b)
    ensures Scan(ls + rest, a) == Scan(rest, b)
  {
    if ls == [] {
      assert ls + rest == rest;
    } else {
      assert (ls + rest)[1..] == ls[1..] + rest;
      ScanAfter(ls[1..], rest, Step(a, ls[0]).value, b);
    }
  }

  lemma {:induction false} ReadsThen(x: seq<Lexeme>, y: seq<Lexeme>, a: Acc, b: Acc, c: Acc)
    requires Reads(x, a, b) && Reads(y, b, c)
    ensures Reads(x + y, a, c)
  {
    if x == [] {
      assert x + y == y;
    } else {
      assert (x + y)[1..] == x[1..] + y;
      ReadsThen(x[1..], y, Step(a, x[0]).value, b, c);
    }
  }

  lemma ReadsOne(l: Lexeme, a: Acc, b: Acc)
    requires Step(a, l) == Some(b)
    ensures Reads([l], a, b)
  {
  }

  function Advanced(a: Acc, n: nat, words: nat): Acc {
    Acc(a.total, a.current + n, a.consumed + words)
  }

  lemma MultiplesOfAHundred(q: nat, r: nat)
    ensures (100 * q + r) % 100 == r % 100
  {
  }

  lemma MultiplesOfTen(q: nat, r: nat)
    ensures (10 * q + r) % 10 == r % 10
  {
  }

  lemma WholeHundreds(c: nat, tens: nat)
    requires c % 100 == 0
    ensures (c + 10 * tens) % 10 == 0
  {
    MultiplesOfTen(10 * (c / 100) + tens, 0);
  }

  lemma ReadsTens(t: nat, u: nat, a: Acc)
    requires t >= 20 && u > 0 && a.current % 100 == 0 && (a.current + t) % 10 == 0
    ensures Reads([Ten(t)] + [Unit(u)], a, Advanced(a, t + u, 2))
  {
    var b := Advanced(a, t, 1);
    ReadsOne(Ten(t), a, b);
    ReadsOne(Unit(u), b, Advanced(a, t + u, 2));
    ReadsThen([Ten(t)], [Unit(u)], a, b, Advanced(a, t + u, 2));
  }

  lemma ReadsUnit(n: nat, a: Acc)
    requires 1 <= n <= 19 && a.current % 100 == 0
    ensures Reads([Unit(n)], a, Advanced(a, n, 1))
  {
    WholeHundreds(a.current, 0);
    ReadsOne(Unit(n), a, Advanced(a, n, 1));
  }

  lemma ReadsSmall(n: nat, a: Acc)
    requires 1 <= n <= 99 && a.current % 100 == 0
    ensures Reads(SmallLexemes(n), a, Advanced(a, n, |SmallLexemes(n)|))
  {
    var t, u := n / 10, n % 10;
    if n <= 19 {
      ReadsUnit(n, a);
    } else if u == 0 {
      ReadsOne(Ten(10 * t), a, Advanced(a, 10 * t, 1));
    } else {
      WholeHundreds(a.current, t);
      ReadsTens(10 * t, u, a);
    }
  }

  lemma ReadsJoined(conj: bool, n: nat, a: Acc)
    requires 1 <= n <= 99 && a.current % 100 == 0 && a.consumed > 0
    ensures Reads(Joined(conj) + SmallLexemes(n), a, Advanced(a, n, |Joined(conj) + SmallLexemes(n)|))
  {
    var b := Advanced(a, 0, |Joined(conj)|);
    if conj {
      ReadsOne(And, a, b);
    }
    ReadsSmall(n, b);
    ReadsThen(Joined(conj), SmallLexemes(n), a, b, Advanced(b, n, |SmallLexemes(n)|));
  }

  lemma ReadsHundreds(n: nat, conj: bool, a: Acc)
    requires 1 <= n <= 999 && a.current == 0
    ensures Reads(HundredsLexemes(n, conj), a, Advanced(a, n, |HundredsLexemes(n, conj)|))
  {
    if n <= 99 {
      ReadsSmall(n, a);
    } else {
      var h, low := n / 100, n % 100;
      var b := Advanced(a, h * 100, 2);
      ReadsOne(Unit(h), a, Advanced(a, h, 1));
      ReadsOne(Hundred, Advanced(a, h, 1), b);
      ReadsThen([Unit(h)], [Hundred], a, Advanced(a, h, 1), b);
      assert [Unit(h)] + [Hundred] == [Unit(h), Hundred];
      var tail := if low == 0 then [] else Joined(conj) + SmallLexemes(low);
      if low > 0 {
        ReadsJoined(conj, low, b);
      }
      ReadsThen([Unit(h), Hundred], tail, a, b, Advanced(b, low, |tail|));
    }
  }

  lemma ReadsRest(n: nat, conj: bool, a: Acc)
    requires n <= 999 && a.current == 0 && a.consumed > 0
    ensures Reads(RestLexemes(n, conj), a, Advanced(a, n, |RestLexemes(n, conj)|))
  {
    if n == 0 {
    } else if n <= 99 {
      ReadsJoined(conj, n, a);
    } else {
      ReadsHundreds(n, conj, a);
    }
  }

  /** The accumulators after the words of `n`. */
  function After(n: nat, conj: bool): Acc
    requires 1 <= n <= 999_999
  {
    Acc(n / 1000 * 1000, n % 1000, |Lexemes(n, conj)|)
  }

  lemma ReadsThousands(h: nat, l: nat, conj: bool)
    requires 1 <= h <= 999 && l <= 999
    ensures
      var words := HundredsLexemes(h, conj) + [Thousand] + RestLexemes(l, conj);
      Reads(words, Acc(0, 0, 0), Acc(h * 1000, l, |words|))
  {
    var high, low := HundredsLexemes(h, conj), RestLexemes(l, conj);
    var a, b := Acc(0, h, |high|), Acc(h * 1000, 0, |high| + 1);
    ReadsHundreds(h, conj, Acc(0, 0, 0));
    ReadsOne(Thousand, a, b);
    ReadsThen(high, [Thousand], Acc(0, 0, 0), a, b);
    ReadsRest(l, conj, b);
    ReadsThen(high + [Thousand], low, Acc(0, 0, 0), b, Advanced(b, l, |low|));
  }

  lemma ReadsLexemes(n: nat, conj: bool)
    requires 1 <= n <= 999_999
    ensures Reads(Lexemes(n, conj), Acc(0, 0, 0), After(n, conj))
  {
    if n <= 999 {
      ReadsHundreds(n, conj, Acc(0, 0, 0));
    } else {
      ReadsThousands(n / 1000, n % 1000, conj);
    }
  }

  /** "hundred" or "thousand" behind a number below a thousand multiplies all of it. */
  lemma MultiplierAfter(n: nat, conj: bool, m: Lexeme)
    requires 1 <= n <= 999 && m in {Hundred, Thousand}
    ensures
      var words := HundredsLexemes(n, conj) + [m];
      Parse(words) == Some(Parsed(if m == Hundred then n * 100 else n * 1000, |words|))
  {
    var words := HundredsLexemes(n, conj);
    var b := Acc(0, n, |words|);
    var c := if m == Hundred then Acc(0, n * 100, |words| + 1) else Acc(n * 1000, 0, |words| + 1);
    assert words[0].Unit? || words[0].Ten?;
    assert Scan([], c) == c;
    hide HundredsLexemes, Scan, ReadAll;
    ReadsHundreds(n, conj, Acc(0, 0, 0));
    ReadsOne(m, b, c);
    ReadsThen(words, [m], Acc(0, 0, 0), b, c);
    ScanAfter(words + [m], [], Acc(0, 0, 0), c);
    assert words + [m] + [] == words + [m];
    assert (words + [m])[0] == words[0];
  }

  // ---------------------------------------------------------------- where a number ends

  /** Whether the spelling of `n` starts with a word for twenty to ninety. */
  predicate LeadsWithTen(n: nat) {
    20 <= n <= 99 || 20_000 <= n <= 99_999
  }

  /** Whether `a` and `b`, written one after the other, are read as two numbers. */
  predicate Separate(a: nat, b: nat) {
    a == 0 || b == 0 || if LeadsWithTen(b) then a % 100 != 0 else a % 10 != 0 || a % 1000 == 10
  }

  lemma FirstLexeme(n: nat, conj: bool)
    requires n <= 999_999
    ensures Lexemes(n, conj) != []
    ensures var l := Lexemes(n, conj)[0];
      if n == 0 then l == Zero else if LeadsWithTen(n) then l.Ten? && l.n > 0 else l.Unit? && l.n > 0
  {
  }

  lemma LowDigits(a: nat)
    ensures a % 1000 % 100 == a % 100 && a % 1000 % 10 == a % 10
  {
    MultiplesOfAHundred(10 * (a / 1000), a % 1000);
    MultiplesOfTen(100 * (a / 1000), a % 1000);
  }

  lemma StopsBefore(a: nat, b: nat, conj: bool, conj': bool)
    requires 1 <= a <= 999_999 && b <= 999_999
    ensures Step(After(a, conj), Lexemes(b, conj')[0]).None? <==> Separate(a, b)
  {
    FirstLexeme(b, conj');
    LowDigits(a);
  }

  /** Reading on never makes the number smaller, and reading a unit or tens word makes it larger. */
  lemma {:induction false} ScanGrows(ls: seq<Lexeme>, a: Acc)
    ensures Scan(ls, a).Value() >= a.Value()
  {
    if ls != [] && Step(a, ls[0]).Some? {
      ScanGrows(ls[1..], Step(a, ls[0]).value);
    }
  }

  /** What follows a number: nothing, a word no number contains, or the words of another number. */
  predicate Ends(rest: seq<Lexeme>) {
    rest == [] || rest[0] in {Blank, Foreign}
  }

  lemma ParseBeforeEnd(a: nat, conj: bool, rest: seq<Lexeme>)
    requires a <= 999_999 && Ends(rest)
    ensures Parse(Lexemes(a, conj) + rest) == Some(Parsed(a, |Lexemes(a, conj)|))
  {
    FirstLexeme(a, conj);
    if a > 0 {
      ReadsLexemes(a, conj);
      ScanAfter(Lexemes(a, conj), rest, Acc(0, 0, 0), After(a, conj));
    }
  }

  /** Of two numbers in a row the first is read exactly if they are separate, else more is read. */
  lemma ParseBeforeNumber(a: nat, conj: bool, b: nat, conj': bool, rest: seq<Lexeme>)
    requires a <= 999_999 && b <= 999_999
    ensures
      var r := Parse(Lexemes(a, conj) + (Lexemes(b, conj') + rest));
      r.Some? && if Separate(a, b) then r.value == Parsed(a, |Lexemes(a, conj)|) else r.value.value > a
  {
    FirstLexeme(a, conj);
    FirstLexeme(b, conj');
    if a > 0 {
      var next := Lexemes(b, conj') + rest;
      ReadsLexemes(a, conj);
      ScanAfter(Lexemes(a, conj), next, Acc(0, 0, 0), After(a, conj));
      StopsBefore(a, b, conj, conj');
      if !Separate(a, b) {
        ScanGrows(next[1..], Step(After(a, conj), next[0]).value);
      }
    }
  }
}
