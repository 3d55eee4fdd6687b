/** Number words as the parser sees them, and the parser itself. */
module NumberParser {
  import opened Wrappers

  /** What a normalized word means to the parser. */
  datatype Lexeme = Blank | And | Zero | Unit(n: nat) | Ten(n: nat) | Hundred | Thousand | Foreign

  datatype Parsed = Parsed(value: nat, consumed: nat)

  /** The accumulators of the parser. */
  datatype Acc = Acc(total: nat, current: nat, consumed: nat) {
    function Value(): nat { total + current }
  }

  function OneIfZero(n: nat): nat {
    if n == 0 then 1 else n
  }

  /** One word: the accumulators after it, or None where the number ends before it. */
  function Step(a: Acc, l: Lexeme): Option<Acc> {
    match l
    case And => if a.consumed > 0 then Some(a.(consumed := a.consumed + 1)) else None
    case Unit(n) =>
      if 1 <= a.current <= 19 || a.current % 10 != 0 then None
      else Some(Acc(a.total, a.current + n, a.consumed + 1))
    case Ten(n) =>
      if a.current % 100 != 0 then None
      else Some(Acc(a.total, a.current + n, a.consumed + 1))
    case Hundred => Some(Acc(a.total, OneIfZero(a.current) * 100, a.consumed + 1))
    case Thousand => Some(Acc(a.total + OneIfZero(a.current) * 1000, 0, a.consumed + 1))
    case Blank | Zero | Foreign => None
  }

  /** Read words as long as they continue the number. */
  function Scan(ls: seq<Lexeme>, a: Acc): (r: Acc)
    ensures a.consumed <= r.consumed <= a.consumed + |ls|
  {
    if ls == [] || Step(a, ls[0]).None? then a
    else Scan(ls[1..], Step(a, ls[0]).value)
  }

  /** The number at the front of `ls` and how many words it takes. */
  function Parse(ls: seq<Lexeme>): (r: Option<Parsed>)
    ensures r.Some? ==> 1 <= r.value.consumed <= |ls|
  {
    if ls == [] || ls[0] == Blank then None
    else if ls[0] == Zero then Some(Parsed(0, 1))
    else
      var a := Scan(ls, Acc(0, 0, 0));
      if a.consumed == 0 then None else Some(Parsed(a.Value(), a.consumed))
  }

  /** A token: the word it is after normalization, and its value if it is printed in figures. */
  datatype Token = Token(lexeme: Lexeme, figure: Option<nat>)

  function Words(ts: seq<Token>): (ls: seq<Lexeme>)
    ensures |ls| == |ts|
  {
    seq(|ts|, i requires 0 <= i < |ts| => ts[i].lexeme)
  }

  function ParseAt(ts: seq<Token>): (r: Option<Parsed>)
    ensures r.Some? ==> 1 <= r.value.consumed <= |ts|
  {
    Parse(Words(ts))
  }

  // ---------------------------------------------------------------- multipliers without a number

  /** How many words were read before does not matter, once there was one. */
  lemma {:induction false} ScanShifts(ls: seq<Lexeme>, a: Acc)
    requires a.consumed > 0
    ensures Scan(ls, a.(consumed := a.consumed + 1)) == Scan(ls, a).(consumed := Scan(ls, a).consumed + 1)
    decreases |ls|
  {
    if ls == [] || Step(a, ls[0]).None? {
    } else {
      ScanShifts(ls[1..], Step(a, ls[0]).value);
    }
  }

  /** Where nothing is there to multiply, "hundred" and "thousand" count as "one hundred" and "one thousand". */
  lemma ScanOfBareMultiplier(ls: seq<Lexeme>, a: Acc, m: Lexeme)
    requires a.current == 0 && m in {Hundred, Thousand}
    ensures
      var bare, full := Scan([m] + ls, a), Scan([Unit(1), m] + ls, a);
      full == bare.(consumed := bare.consumed + 1)
  {
    assert ([m] + ls)[1..] == ls && ([Unit(1), m] + ls)[1..] == [m] + ls;
    ScanShifts(ls, Step(a, m).value);
  }

  lemma ParseOfBareMultiplier(ls: seq<Lexeme>, m: Lexeme)
    requires m in {Hundred, Thousand}
    ensures
      var bare, full := Parse([m] + ls), Parse([Unit(1), m] + ls);
      bare.Some? && full == Some(Parsed(bare.value.value, bare.value.consumed + 1))
  {
    ScanOfBareMultiplier(ls, Acc(0, 0, 0), m);
    assert ([m] + ls)[1..] == ls;
  }

  lemma OnlyMultiplier()
    ensures Parse([Hundred]) == Some(Parsed(100, 1)) && Parse([Thousand]) == Some(Parsed(1000, 1))
  {
    assert [Hundred][1..] == [] && [Thousand][1..] == [];
  }

  /** "and", or a word no number contains, begins no number, and "zero" is a number by itself. */
  lemma FirstWord(l: Lexeme, ls: seq<Lexeme>)
    requires l in {Blank, And, Foreign, Zero}
    ensures Parse([l] + ls) == if l == Zero then Some(Parsed(0, 1)) else None
  {
    assert ([l] + ls)[0] == l;
  }

  // ---------------------------------------------------------------- the parser, as it runs

  /** Scan, by position. */
  function ScanFrom(ts: seq<Token>, i: nat, a: Acc): (r: Acc)
    ensures i <= |ts| ==> a.consumed <= r.consumed <= a.consumed + |ts| - i
    decreases |ts| - i
  {
    if i >= |ts| || Step(a, ts[i].lexeme).None? then a
    else ScanFrom(ts, i + 1, Step(a, ts[i].lexeme).value)
  }

  /** Parse, by position. */
  function ParseFrom(ts: seq<Token>, i: nat): (r: Option<Parsed>)
    ensures r.Some? ==> i < i + r.value.consumed <= |ts|
  {
    if i >= |ts| || ts[i].lexeme == Blank then None
    else if ts[i].lexeme == Zero then Some(Parsed(0, 1))
    else
      var a := ScanFrom(ts, i, Acc(0, 0, 0));
      if a.consumed == 0 then None else Some(Parsed(a.Value(), a.consumed))
  }

  lemma {:induction false} ScanFromIsScan(ts: seq<Token>, i: nat, a: Acc)
    requires i <= |ts|
    ensures ScanFrom(ts, i, a) == Scan(Words(ts[i..]), a)
    decreases |ts| - i
  {
    if i < |ts| && Step(a, ts[i].lexeme).Some? {
      ScanFromIsScan(ts, i + 1, Step(a, ts[i].lexeme).value);
      assert Words(ts[i..])[1..] == Words(ts[i + 1..]);
    }
  }

  lemma ParseFromIsParse(ts: seq<Token>, i: nat)
    requires i <= |ts|
    ensures ParseFrom(ts, i) == ParseAt(ts[i..])
  {
    ScanFromIsScan(ts, i, Acc(0, 0, 0));
  }

  /** The body of the parser's loop: read one word, or stop before it. */
  method ReadWord(word: Lexeme, total: nat, current: nat, consumed: nat)
    returns (more: bool, newTotal: nat, newCurrent: nat, newConsumed: nat)
    ensures Step(Acc(total, current, consumed), word)
         == if more then Some(Acc(newTotal, newCurrent, newConsumed)) else None
  {
    more, newTotal, newCurrent, newConsumed := true, total, current, consumed;
    if word == Blank {
      more := false;
    } else if word == And && consumed > 0 {
      newConsumed := consumed + 1;
    } else if word == Zero || word.Unit? {
      if word == Zero || (current >= 1 && current <= 19) || current % 10 != 0 {
        more := false;
      } else {
        newCurrent, newConsumed := current + word.n, consumed + 1;
      }
    } else if word.Ten? {
      if current % 100 != 0 {
        more := false;
      } else {
        newCurrent, newConsumed := current + word.n, consumed + 1;
      }
    } else if word == Hundred {
      newCurrent, newConsumed := (if current == 0 then 1 else current) * 100, consumed + 1;
    } else if word == Thousand {
      newTotal := total + (if current == 0 then 1 else current) * 1000;
      newCurrent, newConsumed := 0, consumed + 1;
    } else {
      more := false;
    }
  }

  method ParseNumberWords(tokens: seq<Token>, start: nat) returns (r: Option<Parsed>)
    ensures r == ParseFrom(tokens, start)
  {
    if start >= |tokens| {
      return None;
    }
    var first := tokens[start].lexeme;
    if first == Blank {
      return None;
    }
    if first == Zero {
      return Some(Parsed(0, 1));
    }
    var total: nat, current: nat, consumed: nat, i := 0, 0, 0, start;
    while i < |tokens|
      invariant start <= i <= |tokens|
      invariant ScanFrom(tokens, start, Acc(0, 0, 0)) == ScanFrom(tokens, i, Acc(total, current, consumed))
    {
      var more, newTotal, newCurrent, newConsumed := ReadWord(tokens[i].lexeme, total, current, consumed);
      if !more {
        break;
      }
      total, current, consumed, i := newTotal, newCurrent, newConsumed, i + 1;
    }
    if consumed == 0 {
      return None;
    }
    return Some(Parsed(total + current, consumed));
  }
}
