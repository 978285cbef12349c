/**
 The seed script backend/scripts/generate_market_symbols_seed_sql.py: `Collector.add` keeps one
 row for every market and symbol, `sql_quote` and the VALUES part of `build_sql` print the rows
 as SQL. The reader follows the character string literal of section 5.3 of ISO/IEC 9075-2: a
 quote inside a literal is written twice.
 */
module SqlSeed {
  import opened Basics
  import opened Text

  datatype Row = Row(market: string, symbol: string, name: string, exchange: string, currency: string)

  /** `str.upper` and `repair_mojibake`. */
  datatype Spelling = Spelling(upper: string -> string, repair: string -> string)

  datatype Input = Input(market: string, symbol: string, name: string, exchange: string, currency: string)

  // ---------------------------------------------------------------- collecting

  function Candidate(sp: Spelling, x: Input): Row {
    Row(x.market, sp.upper(Strip(x.symbol)), sp.repair(x.name), Strip(x.exchange), Strip(x.currency))
  }

  predicate Acceptable(r: Row) {
    r.market != "" && r.symbol != "" && r.name != ""
  }

  datatype Key = Key(market: string, symbol: string)

  function KeyOf(r: Row): Key {
    Key(r.market, r.symbol)
  }

  function KeysOf(rows: seq<Row>): set<Key> {
    set r | r in rows :: KeyOf(r)
  }

  function Added(rows: seq<Row>, r: Row): seq<Row> {
    if !Acceptable(r) || KeyOf(r) in KeysOf(rows) then rows else rows + [r]
  }

  class Collector {
    var rows: seq<Row>
    var seen: set<Key>

    ghost predicate Valid()
      reads this
    {
      seen == KeysOf(rows)
    }

    constructor ()
      ensures Valid() && rows == []
    {
      rows, seen := [], {};
    }

    method Add(sp: Spelling, market: string, symbol: string, name: string, exchange: string, currency: string)
      requires Valid()
      modifies this
      ensures Valid() && rows == Added(old(rows), Candidate(sp, Input(market, symbol, name, exchange, currency)))
    {
      var sym := sp.upper(Strip(symbol));
      var nm := sp.repair(name);
      if market == "" || sym == "" || nm == "" {
        return;
      }
      var key := Key(market, sym);
      if key in seen {
        return;
      }
      ghost var was := rows;
      seen := seen + {key};
      var r := Row(market, sym, nm, Strip(exchange), Strip(currency));
      rows := rows + [r];
      assert KeyOf(r) == key && KeysOf(was + [r]) == KeysOf(was) + {key};
    }
  }

  function Collected(sp: Spelling, inputs: seq<Input>): seq<Row> {
    if inputs == [] then [] else Added(Collected(sp, inputs[..|inputs| - 1]), Candidate(sp, inputs[|inputs| - 1]))
  }

  ghost predicate KeysDiffer(rows: seq<Row>) {
    forall i, j :: 0 <= i < j < |rows| ==> KeyOf(rows[i]) != KeyOf(rows[j])
  }

  /** The first acceptable candidate with the given key. */
  function First(sp: Spelling, inputs: seq<Input>, k: Key): Option<Row> {
    if inputs == [] then None
    else
      var before, r := First(sp, inputs[..|inputs| - 1], k), Candidate(sp, inputs[|inputs| - 1]);
      if before.Some? then before else if Acceptable(r) && KeyOf(r) == k then Some(r) else None
  }

  /** The collector holds, once for every key, the first acceptable row with that key. */
  lemma {:induction false} CollectedFirsts(sp: Spelling, inputs: seq<Input>)
    ensures KeysDiffer(Collected(sp, inputs))
    ensures forall r :: r in Collected(sp, inputs) <==> First(sp, inputs, KeyOf(r)) == Some(r)
    ensures forall k :: k in KeysOf(Collected(sp, inputs)) <==> First(sp, inputs, k).Some?
  {
    if inputs != [] {
      var front, c := inputs[..|inputs| - 1], Candidate(sp, inputs[|inputs| - 1]);
      CollectedFirsts(sp, front);
      FirstHasKey(sp, front);
      FirstHasKey(sp, inputs);
      var rows := Collected(sp, front);
      hide Candidate;
      if Acceptable(c) && KeyOf(c) !in KeysOf(rows) {
        forall i | 0 <= i < |rows|
          ensures KeyOf(rows[i]) != KeyOf(c)
        {
          assert rows[i] in rows;
        }
        assert Collected(sp, inputs) == rows + [c];
        assert KeysOf(rows + [c]) == KeysOf(rows) + {KeyOf(c)};
      } else {
        assert Collected(sp, inputs) == rows;
      }
    }
  }

  lemma {:induction false} FirstHasKey(sp: Spelling, inputs: seq<Input>)
    ensures forall k :: First(sp, inputs, k).Some? ==> KeyOf(First(sp, inputs, k).value) == k
  {
    if inputs != [] {
      FirstHasKey(sp, inputs[..|inputs| - 1]);
    }
  }

  // ---------------------------------------------------------------- order

  predicate StrLeq(a: string, b: string) {
    a == "" || (b != "" && (a[0] < b[0] || (a[0] == b[0] && StrLeq(a[1..], b[1..]))))
  }

  predicate RowLeq(r: Row, s: Row) {
    if r.market != s.market then StrLeq(r.market, s.market) else StrLeq(r.symbol, s.symbol)
  }

  lemma {:induction false} StrOrder(a: string, b: string)
    ensures StrLeq(a, b) || StrLeq(b, a)
    ensures StrLeq(a, b) && StrLeq(b, a) ==> a == b
  {
    if a != "" && b != "" && a[0] == b[0] {
      StrOrder(a[1..], b[1..]);
      assert a == [a[0]] + a[1..] && b == [b[0]] + b[1..];
    }
  }

  lemma {:induction false} StrTransitive(a: string, b: string, c: string)
    requires StrLeq(a, b) && StrLeq(b, c)
    ensures StrLeq(a, c)
  {
    if a != "" && a[0] == b[0] == c[0] {
      StrTransitive(a[1..], b[1..], c[1..]);
    }
  }

  lemma {:induction false} RowOrder(r: Row, s: Row, t: Row)
    ensures RowLeq(r, s) || RowLeq(s, r)
    ensures RowLeq(r, s) && RowLeq(s, t) ==> RowLeq(r, t)
  {
    StrOrder(r.market, s.market);
    StrOrder(s.market, t.market);
    StrOrder(r.symbol, s.symbol);
    if StrLeq(r.market, s.market) && StrLeq(s.market, t.market) {
      StrTransitive(r.market, s.market, t.market);
    }
    if StrLeq(r.symbol, s.symbol) && StrLeq(s.symbol, t.symbol) {
      StrTransitive(r.symbol, s.symbol, t.symbol);
    }
  }

  function Insert(rows: seq<Row>, r: Row): seq<Row> {
    if rows == [] then [r]
    else if RowLeq(rows[|rows| - 1], r) then rows + [r]
    else Insert(rows[..|rows| - 1], r) + [rows[|rows| - 1]]
  }

  /** The stable sort by market and symbol. */
  function Sorted(rows: seq<Row>): seq<Row> {
    if rows == [] then [] else Insert(Sorted(rows[..|rows| - 1]), rows[|rows| - 1])
  }

  ghost predicate InOrder(rows: seq<Row>) {
    forall i, j :: 0 <= i < j < |rows| ==> RowLeq(rows[i], rows[j])
  }

  lemma {:induction false} InOrderSnoc(rows: seq<Row>, r: Row)
    ensures InOrder(rows + [r]) <==> InOrder(rows) && forall x :: x in rows ==> RowLeq(x, r)
  {
    var all := rows + [r];
    if InOrder(all) {
      forall x | x in rows
        ensures RowLeq(x, r)
      {
        var i: nat :| i < |rows| && rows[i] == x;
        assert all[i] == x && all[|rows|] == r;
      }
      assert forall i :: 0 <= i < |rows| ==> rows[i] == all[i];
    }
  }

  lemma {:induction false} InsertMeans(rows: seq<Row>, r: Row)
    requires InOrder(rows)
    ensures InOrder(Insert(rows, r)) && multiset(Insert(rows, r)) == multiset(rows) + multiset{r}
  {
    if rows != [] {
      var front, last := rows[..|rows| - 1], rows[|rows| - 1];
      assert rows == front + [last];
      InOrderSnoc(front, last);
      RowOrder(last, r, r);
      if RowLeq(last, r) {
        forall x | x in front
          ensures RowLeq(x, r)
        {
          RowOrder(x, last, r);
        }
        InOrderSnoc(rows, r);
      } else {
        InsertMeans(front, r);
        var more := Insert(front, r);
        assert forall x :: x in more ==> x in multiset(more);
        InOrderSnoc(more, last);
      }
    }
  }

  lemma {:induction false} SortedMeans(rows: seq<Row>)
    ensures InOrder(Sorted(rows)) && multiset(Sorted(rows)) == multiset(rows)
  {
    if rows != [] {
      var front, last := rows[..|rows| - 1], rows[|rows| - 1];
      assert rows == front + [last];
      SortedMeans(front);
      InsertMeans(Sorted(front), last);
    }
  }

  // ---------------------------------------------------------------- printing

  datatype Item = Chars(value: string) | Digits(value: string)

  function Escape(s: string): string {
    if s == "" then "" else (if s[0] == '\'' then "''" else [s[0]]) + Escape(s[1..])
  }

  function SqlQuote(s: string): string {
    "'" + Escape(Strip(s)) + "'"
  }

  function PrintItem(i: Item): string {
    match i
    case Chars(s) => SqlQuote(s)
    case Digits(s) => s
  }

  function PrintItems(items: seq<Item>): string
    requires items != []
  {
    if |items| == 1 then PrintItem(items[0]) else PrintItem(items[0]) + ", " + PrintItems(items[1..])
  }

  function Items(r: Row): seq<Item> {
    [Chars(r.market), Chars(r.symbol), Chars(r.name), Chars(r.exchange), Chars(r.currency),
     Chars("spot"), Chars(""), Digits("1"), Digits("0"), Digits("0")]
  }

  function PrintRow(r: Row): string {
    "  (" + PrintItems(Items(r)) + ")"
  }

  function PrintRows(rows: seq<Row>): string {
    if rows == [] then ""
    else if |rows| == 1 then PrintRow(rows[0])
    else PrintRow(rows[0]) + ",\n" + PrintRows(rows[1..])
  }

  /** The list after VALUES. */
  function ValuesPart(rows: seq<Row>): string {
    PrintRows(Sorted(rows))
  }

  // ---------------------------------------------------------------- reading

  datatype Read<T> = Bad | Got(value: T, rest: string)

  /** The rest of a literal, after its opening quote. */
  function ReadChars(s: string): (r: Read<string>)
    ensures r.Got? ==> |r.rest| < |s|
    decreases |s|
  {
    if s == "" then Bad
    else if s[0] == '\'' then
      if |s| > 1 && s[1] == '\'' then
        match ReadChars(s[2..])
        case Bad => Bad
        case Got(v, rest) => Got("'" + v, rest)
      else Got("", s[1..])
    else
      match ReadChars(s[1..])
      case Bad => Bad
      case Got(v, rest) => Got([s[0]] + v, rest)
  }

  predicate IsDigit(c: char) {
    '0' <= c <= '9'
  }

  function DigitRun(s: string): (n: nat)
    ensures n <= |s|
  {
    if s != "" && IsDigit(s[0]) then 1 + DigitRun(s[1..]) else 0
  }

  function ReadItem(s: string): (r: Read<Item>)
    ensures r.Got? ==> |r.rest| < |s|
  {
    if s == "" then Bad
    else if s[0] == '\'' then
      match ReadChars(s[1..])
      case Bad => Bad
      case Got(v, rest) => Got(Chars(v), rest)
    else if IsDigit(s[0]) then Got(Digits(s[..DigitRun(s)]), s[DigitRun(s)..])
    else Bad
  }

  lemma {:induction false} SkipShortens(s: string)
    ensures |StripLeft(s)| <= |s|
  {
    if s != "" && IsSpace(s[0]) {
      SkipShortens(s[1..]);
    }
  }

  /** Items up to the closing bracket, separated by commas and spaces. */
  function ReadItems(s: string): (r: Read<seq<Item>>)
    ensures r.Got? ==> |r.rest| < |s|
    decreases |s|
  {
    SkipShortens(s);
    match ReadItem(StripLeft(s))
    case Bad => Bad
    case Got(i, rest) =>
      SkipShortens(rest);
      var next := StripLeft(rest);
      if next != "" && next[0] == ')' then Got([i], next[1..])
      else if next != "" && next[0] == ',' then
        match ReadItems(next[1..])
        case Bad => Bad
        case Got(more, end) => Got([i] + more, end)
      else Bad
  }

  /** Bracketed rows separated by commas; what follows the last row is left over. */
  function ReadRows(s: string): (r: Read<seq<seq<Item>>>)
    decreases |s|
  {
    SkipShortens(s);
    var start := StripLeft(s);
    if start == "" || start[0] != '(' then Bad
    else
      match ReadItems(start[1..])
      case Bad => Bad
      case Got(row, rest) =>
        SkipShortens(rest);
        var next := StripLeft(rest);
        if next != "" && next[0] == ',' then
          match ReadRows(next[1..])
          case Bad => Bad
          case Got(more, end) => Got([row] + more, end)
        else Got([row], next)
  }

  // ---------------------------------------------------------------- round trip

  /** Doubled quotes are read back, whatever the string holds. */
  lemma {:induction false} ReadEscaped(s: string, rest: string)
    requires rest == "" || rest[0] != '\''
    ensures ReadChars(Escape(s) + "'" + rest) == Got(s, rest)
  {
    var text := Escape(s) + "'" + rest;
    if s == "" {
      assert text == "'" + rest;
      assert text[1..] == rest;
    } else {
      ReadEscaped(s[1..], rest);
      var tail := Escape(s[1..]) + "'" + rest;
      assert s == [s[0]] + s[1..];
      if s[0] == '\'' {
        assert text == "''" + tail && text[2..] == tail;
      } else {
        assert text == [s[0]] + tail && text[1..] == tail;
      }
    }
  }

  function CleanItem(i: Item): Item {
    match i
    case Chars(s) => Chars(Strip(s))
    case Digits(_) => i
  }

  predicate Printable(i: Item) {
    i.Digits? ==> i.value != "" && forall k :: 0 <= k < |i.value| ==> IsDigit(i.value[k])
  }

  lemma {:induction false} RunEnds(digits: string, rest: string)
    requires (forall k :: 0 <= k < |digits| ==> IsDigit(digits[k])) && (rest == "" || !IsDigit(rest[0]))
    ensures DigitRun(digits + rest) == |digits|
  {
    if digits == "" {
      assert digits + rest == rest;
    } else {
      assert (digits + rest)[1..] == digits[1..] + rest;
      RunEnds(digits[1..], rest);
    }
  }

  /** An item is read back from its print when something other than a digit or a quote follows. */
  lemma {:induction false} ReadPrinted(i: Item, rest: string)
    requires Printable(i) && rest != "" && rest[0] != '\'' && !IsDigit(rest[0])
    ensures ReadItem(PrintItem(i) + rest) == Got(CleanItem(i), rest)
    ensures PrintItem(i) != "" && !IsSpace(PrintItem(i)[0])
  {
    if i.Chars? {
      ReadPrintedChars(i.value, rest);
    } else {
      ReadPrintedDigits(i.value, rest);
    }
  }

  lemma {:induction false} ReadPrintedChars(v: string, rest: string)
    requires rest != "" && rest[0] != '\''
    ensures ReadItem(SqlQuote(v) + rest) == Got(Chars(Strip(v)), rest)
    ensures SqlQuote(v) != "" && !IsSpace(SqlQuote(v)[0])
  {
    var s, text := Strip(v), SqlQuote(v) + rest;
    hide Strip;
    ReadEscaped(s, rest);
    assert text == "'" + (Escape(s) + "'" + rest);
    assert text[0] == '\'' && text[1..] == Escape(s) + "'" + rest;
    hide ReadChars, Escape;
  }

  lemma {:induction false} ReadPrintedDigits(v: string, rest: string)
    requires v != "" && (forall k :: 0 <= k < |v| ==> IsDigit(v[k])) && rest != "" && !IsDigit(rest[0])
    ensures ReadItem(v + rest) == Got(Digits(v), rest) && !IsSpace(v[0])
  {
    var text := v + rest;
    RunEnds(v, rest);
    assert IsDigit(v[0]) && text[0] == v[0];
    assert text[..|v|] == v && text[|v|..] == rest;
    hide DigitRun;
  }

  function CleanItems(items: seq<Item>): seq<Item> {
    if items == [] then [] else [CleanItem(items[0])] + CleanItems(items[1..])
  }

  lemma {:induction false} NoSkip(s: string)
    requires s != "" && !IsSpace(s[0])
    ensures StripLeft(s) == s
  {
  }

  lemma {:induction false} SkipOne(s: string)
    requires s != "" && !IsSpace(s[0])
    ensures StripLeft(" " + s) == s
  {
    assert (" " + s)[1..] == s;
  }

  lemma {:induction false} PrintStarts(items: seq<Item>)
    requires items != [] && Printable(items[0])
    ensures PrintItems(items) != "" && !IsSpace(PrintItems(items)[0])
  {
    ReadPrinted(items[0], ",");
  }

  /** One step of the item reader. */
  lemma {:induction false} ItemStep(s: string, i: Item, rest: string)
    requires ReadItem(StripLeft(s)) == Got(i, rest) && rest != "" && !IsSpace(rest[0])
    ensures rest[0] == ')' ==> ReadItems(s) == Got([i], rest[1..])
    ensures rest[0] == ',' ==>
              ReadItems(s) == match ReadItems(rest[1..]) case Bad => Bad case Got(more, end) => Got([i] + more, end)
  {
    NoSkip(rest);
    hide ReadItem, StripLeft;
  }

  lemma {:induction false} Bracketed(c: char, s: string)
    ensures ([c] + s)[0] == c && ([c] + s)[1..] == s
  {
  }

  lemma {:induction false} ReadPrintedItems(items: seq<Item>, rest: string)
    requires items != [] && forall k :: 0 <= k < |items| ==> Printable(items[k])
    ensures ReadItems(PrintItems(items) + ")" + rest) == Got(CleanItems(items), rest)
    ensures ReadItems(" " + (PrintItems(items) + ")" + rest)) == Got(CleanItems(items), rest)
    decreases |items|
  {
    var first, text := PrintItem(items[0]), PrintItems(items) + ")" + rest;
    PrintStarts(items);
    NoSkip(text);
    SkipOne(text);
    hide ReadItem, PrintItem, CleanItem, StripLeft, ReadItems;
    if |items| == 1 {
      assert text == first + ([')'] + rest);
      Bracketed(')', rest);
      ReadPrinted(items[0], [')'] + rest);
      ItemStep(text, CleanItem(items[0]), [')'] + rest);
      ItemStep(" " + text, CleanItem(items[0]), [')'] + rest);
      assert CleanItems(items[1..]) == [];
      assert CleanItems(items) == [CleanItem(items[0])];
    } else {
      var more := " " + (PrintItems(items[1..]) + ")" + rest);
      assert text == first + ([','] + more);
      Bracketed(',', more);
      ReadPrinted(items[0], [','] + more);
      ReadPrintedItems(items[1..], rest);
      ItemStep(text, CleanItem(items[0]), [','] + more);
      ItemStep(" " + text, CleanItem(items[0]), [','] + more);
    }
  }

  function CleanRows(rows: seq<Row>): seq<seq<Item>> {
    if rows == [] then [] else [CleanItems(Items(rows[0]))] + CleanRows(rows[1..])
  }

  lemma {:induction false} ItemsPrintable(r: Row)
    ensures Items(r) != [] && forall k :: 0 <= k < |Items(r)| ==> Printable(Items(r)[k])
  {
    assert IsDigit('0') && IsDigit('1');
  }

  lemma {:induction false} SkipTwo(s: string)
    requires s != "" && !IsSpace(s[0])
    ensures StripLeft("  " + s) == s && StripLeft("\n  " + s) == s
  {
    assert ("  " + s)[1..] == " " + s;
    SkipOne(s);
    assert ("\n  " + s)[1..] == "  " + s;
  }

  /** One step of the row reader. */
  lemma {:induction false} RowStep(s: string, inner: string, row: seq<Item>, rest: string)
    requires StripLeft(s) == ['('] + inner && ReadItems(inner) == Got(row, rest)
    ensures StripLeft(rest) == "" || StripLeft(rest)[0] != ',' ==> ReadRows(s) == Got([row], StripLeft(rest))
    ensures rest != "" && rest[0] == ',' ==>
              ReadRows(s) == match ReadRows(rest[1..]) case Bad => Bad case Got(more, end) => Got([row] + more, end)
  {
    Bracketed('(', inner);
    if rest != "" && rest[0] == ',' {
      NoSkip(rest);
    }
    hide ReadItems, StripLeft;
  }

  /** The text of the rows, cut after the first opening bracket. */
  lemma {:induction false} RowsText(rows: seq<Row>, tail: string)
    requires rows != []
    ensures var after := if |rows| == 1 then tail else [','] + ("\n" + (PrintRows(rows[1..]) + tail));
      var inner := PrintItems(Items(rows[0])) + ")" + after;
      && PrintRows(rows) + tail == "  " + (['('] + inner)
      && "\n" + (PrintRows(rows) + tail) == "\n  " + (['('] + inner)
  {
    ItemsPrintable(rows[0]);
    hide PrintItems, Items;
    var p := PrintItems(Items(rows[0]));
    if |rows| == 1 {
      RowAlone(p, tail);
    } else {
      RowAnd(p, PrintRows(rows[1..]), tail);
    }
    var text := PrintRows(rows) + tail;
    hide PrintRows;
    LineBreak(text, ['('] + (p + ")" + if |rows| == 1 then tail else [','] + ("\n" + (PrintRows(rows[1..]) + tail))));
  }

  lemma {:induction false} RowAlone(p: string, tail: string)
    ensures ("  (" + p + ")") + tail == "  " + (['('] + (p + ")" + tail))
  {
  }

  lemma {:induction false} RowAnd(p: string, q: string, tail: string)
    ensures ("  (" + p + ")" + ",\n" + q) + tail == "  " + (['('] + (p + ")" + ([','] + ("\n" + (q + tail)))))
  {
    assert ",\n" + q + tail == [','] + ("\n" + (q + tail));
    RowAlone(p, ",\n" + q + tail);
  }

  lemma {:induction false} LineBreak(text: string, inner: string)
    requires text == "  " + inner
    ensures "\n" + text == "\n  " + inner
  {
  }

  /**
   Print and read undo each other: whatever quotes, commas, brackets or line ends the fields
   hold, reading the printed rows gives every row's cleaned fields, in order, and leaves what
   follows them.
   */
  lemma {:induction false} ReadPrintedRows(rows: seq<Row>, tail: string)
    requires rows != [] && (StripLeft(tail) == "" || StripLeft(tail)[0] != ',')
    ensures ReadRows(PrintRows(rows) + tail) == Got(CleanRows(rows), StripLeft(tail))
    ensures ReadRows("\n" + (PrintRows(rows) + tail)) == Got(CleanRows(rows), StripLeft(tail))
    decreases |rows|
  {
    var items, more := Items(rows[0]), "\n" + (PrintRows(rows[1..]) + tail);
    var after := if |rows| == 1 then tail else [','] + more;
    var inner := PrintItems(items) + ")" + after;
    ItemsPrintable(rows[0]);
    RowsText(rows, tail);
    hide PrintItems, ReadItems, Items, CleanItems, ReadRows, PrintRows, StripLeft, Printable;
    ReadPrintedItems(items, after);
    Bracketed('(', inner);
    SkipTwo(['('] + inner);
    RowStep("  " + (['('] + inner), inner, CleanItems(items), after);
    RowStep("\n  " + (['('] + inner), inner, CleanItems(items), after);
    if |rows| == 1 {
      assert CleanRows(rows[1..]) == [];
      assert CleanRows(rows) == [CleanItems(items)];
    } else {
      Bracketed(',', more);
      ReadPrintedRows(rows[1..], tail);
    }
  }

  /** The emitted list is read back exactly when there is a row to print. */
  lemma {:induction false} ValuesRoundTrip(rows: seq<Row>)
    ensures var tail := "\nON CONFLICT";
      ReadRows(ValuesPart(rows) + tail) == if rows == [] then Bad else Got(CleanRows(Sorted(rows)), "ON CONFLICT")
  {
    var tail := "\nON CONFLICT";
    SortedMeans(rows);
    assert |multiset(Sorted(rows))| == |multiset(rows)|;
    assert tail[1..] == "ON CONFLICT";
    NoSkip("ON CONFLICT");
    assert StripLeft(tail) == "ON CONFLICT";
    if rows == [] {
      assert ValuesPart(rows) + tail == tail;
    } else {
      ReadPrintedRows(Sorted(rows), tail);
    }
  }

  // ---------------------------------------------------------------- conflict keys

  function PrintedKey(r: Row): Key {
    Key(Strip(r.market), Strip(r.symbol))
  }

  ghost predicate PrintedKeysDiffer(rows: seq<Row>) {
    forall i, j :: 0 <= i < j < |rows| ==> PrintedKey(rows[i]) != PrintedKey(rows[j])
  }

  /** Upper case introduces no space at either end. */
  ghost predicate KeepsStripped(sp: Spelling) {
    forall s :: Stripped(s) ==> Stripped(sp.upper(s))
  }

  /** An acceptable input that is the first with its market and symbol, so that its row is the one kept. */
  predicate Leads(sp: Spelling, inputs: seq<Input>, x: Input) {
    Acceptable(Candidate(sp, x)) && First(sp, inputs, KeyOf(Candidate(sp, x))) == Some(Candidate(sp, x))
  }

  predicate Accepted(sp: Spelling, x: Input) {
    Acceptable(Candidate(sp, x))
  }

  /** Two markets that differ only in outer space, with the same symbol. */
  predicate Twins(sp: Spelling, x: Input, y: Input) {
    x.market != y.market && Strip(x.market) == Strip(y.market) && Candidate(sp, x).symbol == Candidate(sp, y).symbol
  }

  /** Every row collected comes from an input that leads, and every acceptable input has a row with its key. */
  lemma {:induction false} RowComesFrom(sp: Spelling, inputs: seq<Input>, r: Row) returns (x: Input)
    requires r in Collected(sp, inputs)
    ensures x in inputs && Candidate(sp, x) == r && Acceptable(r)
  {
    var front, last := inputs[..|inputs| - 1], inputs[|inputs| - 1];
    if r in Collected(sp, front) {
      x := RowComesFrom(sp, front, r);
    } else {
      x := last;
    }
  }

  lemma {:induction false} KeyCollected(sp: Spelling, inputs: seq<Input>, x: Input) returns (r: Row)
    requires x in inputs && Acceptable(Candidate(sp, x))
    ensures r in Collected(sp, inputs) && KeyOf(r) == KeyOf(Candidate(sp, x))
    ensures Leads(sp, inputs, x) ==> r == Candidate(sp, x)
  {
    AcceptableFound(sp, inputs, x);
    CollectedFirsts(sp, inputs);
    FirstHasKey(sp, inputs);
    r := First(sp, inputs, KeyOf(Candidate(sp, x))).value;
  }

  lemma {:induction false} AcceptableFound(sp: Spelling, inputs: seq<Input>, x: Input)
    requires x in inputs && Acceptable(Candidate(sp, x))
    ensures First(sp, inputs, KeyOf(Candidate(sp, x))).Some?
  {
    if x != inputs[|inputs| - 1] {
      AcceptableFound(sp, inputs[..|inputs| - 1], x);
    }
  }

  /** A collected symbol is printed as it is. */
  lemma {:induction false} SymbolPrinted(sp: Spelling, x: Input)
    requires KeepsStripped(sp)
    ensures Strip(Candidate(sp, x).symbol) == Candidate(sp, x).symbol
  {
    StripMeans(x.symbol);
    StripMeans(sp.upper(Strip(x.symbol)));
  }

  /** Two acceptable twins make two rows with one printed key. */
  lemma {:induction false} TwinsCollide(sp: Spelling, inputs: seq<Input>, x: Input, y: Input)
    requires x in inputs && y in inputs && Accepted(sp, x) && Accepted(sp, y) && Twins(sp, x, y)
    requires KeepsStripped(sp)
    ensures !PrintedKeysDiffer(Collected(sp, inputs))
  {
    var r := KeyCollected(sp, inputs, x);
    var t := KeyCollected(sp, inputs, y);
    KeyIs(sp, x);
    KeyIs(sp, y);
    hide Collected, Candidate, First, Acceptable, Strip, PrintedKeysDiffer;
    NotDiffer(Collected(sp, inputs), r, t);
  }

  /** Two rows with one printed key come from two acceptable twins. */
  lemma {:induction false} CollidersAreTwins(sp: Spelling, inputs: seq<Input>, r: Row, t: Row)
    returns (x: Input, y: Input)
    requires r in Collected(sp, inputs) && t in Collected(sp, inputs) && KeyOf(r) != KeyOf(t)
    requires PrintedKey(r) == PrintedKey(t) && KeepsStripped(sp)
    ensures x in inputs && y in inputs && Candidate(sp, x) == r && Candidate(sp, y) == t
    ensures Accepted(sp, x) && Accepted(sp, y) && Twins(sp, x, y)
  {
    x := RowComesFrom(sp, inputs, r);
    y := RowComesFrom(sp, inputs, t);
    SymbolPrinted(sp, x);
    SymbolPrinted(sp, y);
    KeyIs(sp, x);
    KeyIs(sp, y);
    hide Collected, Candidate, Acceptable, Strip;
  }

  /**
   Market and symbol are printed twice exactly when two acceptable inputs have the same symbol
   and markets that differ only in outer space.
   */
  lemma {:induction false} PrintedKeysExactly(sp: Spelling, inputs: seq<Input>)
    requires KeepsStripped(sp)
    ensures PrintedKeysDiffer(Sorted(Collected(sp, inputs))) <==>
              forall x, y :: x in inputs && y in inputs && Accepted(sp, x) && Accepted(sp, y) ==> !Twins(sp, x, y)
  {
    var rows := Collected(sp, inputs);
    CollectedFirsts(sp, inputs);
    SortedMeans(rows);
    DifferAlike(rows, Sorted(rows));
    hide Collected, Sorted, Accepted, Twins, First, KeyOf, PrintedKey, KeepsStripped;
    if PrintedKeysDiffer(rows) {
      forall x, y | x in inputs && y in inputs && Accepted(sp, x) && Accepted(sp, y)
        ensures !Twins(sp, x, y)
      {
        if Twins(sp, x, y) {
          TwinsCollide(sp, inputs, x, y);
        }
      }
    } else {
      var i, j :| 0 <= i < j < |rows| && PrintedKey(rows[i]) == PrintedKey(rows[j]);
      var x, y := CollidersAreTwins(sp, inputs, rows[i], rows[j]);
    }
  }

  lemma {:induction false} KeyIs(sp: Spelling, x: Input)
    ensures KeyOf(Candidate(sp, x)) == Key(x.market, Candidate(sp, x).symbol)
    ensures PrintedKey(Candidate(sp, x)) == Key(Strip(x.market), Strip(Candidate(sp, x).symbol))
  {
  }

  lemma {:induction false} NotDiffer(rows: seq<Row>, r: Row, t: Row)
    requires r in rows && t in rows && r != t && PrintedKey(r) == PrintedKey(t)
    ensures !PrintedKeysDiffer(rows)
  {
    var i: nat :| i < |rows| && rows[i] == r;
    var j: nat :| j < |rows| && rows[j] == t;
    assert PrintedKey(rows[i]) == PrintedKey(rows[j]);
  }

  /** In particular, market names without outer space collide with no other. */
  lemma {:induction false} NoKeyTwice(sp: Spelling, inputs: seq<Input>)
    requires KeepsStripped(sp) && forall x :: x in inputs ==> Stripped(x.market)
    ensures PrintedKeysDiffer(Sorted(Collected(sp, inputs)))
  {
    forall x | x in inputs
      ensures Strip(x.market) == x.market
    {
      StripMeans(x.market);
    }
    PrintedKeysExactly(sp, inputs);
    hide PrintedKeysDiffer, Sorted, Collected;
  }

  lemma {:induction false} DifferAlike(a: seq<Row>, b: seq<Row>)
    requires multiset(a) == multiset(b)
    ensures PrintedKeysDiffer(a) <==> PrintedKeysDiffer(b)
  {
    hide PrintedKeysDiffer;
    if PrintedKeysDiffer(a) {
      DifferShuffled(a, b);
    }
    if PrintedKeysDiffer(b) {
      DifferShuffled(b, a);
    }
  }

  // The constraint that ON CONFLICT names also has the exchange.

  datatype ConflictKey = ConflictKey(market: string, symbol: string, exchange: string)

  function PrintedConflict(r: Row): ConflictKey {
    ConflictKey(Strip(r.market), Strip(r.symbol), Strip(r.exchange))
  }

  ghost predicate ConflictsDiffer(rows: seq<Row>) {
    forall r, t :: r in rows && t in rows && r != t ==> PrintedConflict(r) != PrintedConflict(t)
  }

  lemma {:induction false} LeadersConflict(sp: Spelling, inputs: seq<Input>, x: Input, y: Input)
    requires x in inputs && y in inputs && Leads(sp, inputs, x) && Leads(sp, inputs, y) && Twins(sp, x, y)
    requires Strip(x.exchange) == Strip(y.exchange)
    ensures !ConflictsDiffer(Collected(sp, inputs))
  {
    var r := KeyCollected(sp, inputs, x);
    var t := KeyCollected(sp, inputs, y);
    ConflictIs(sp, x);
    ConflictIs(sp, y);
    hide Collected, Candidate, First, Acceptable, Strip;
    assert r != t && PrintedConflict(r) == PrintedConflict(t);
  }

  lemma {:induction false} ConflictingLeaders(sp: Spelling, inputs: seq<Input>, r: Row, t: Row)
    returns (x: Input, y: Input)
    requires r in Collected(sp, inputs) && t in Collected(sp, inputs) && r != t
    requires PrintedConflict(r) == PrintedConflict(t) && KeepsStripped(sp)
    ensures x in inputs && y in inputs && Leads(sp, inputs, x) && Leads(sp, inputs, y) && Twins(sp, x, y)
    ensures Strip(x.exchange) == Strip(y.exchange)
  {
    CollectedFirsts(sp, inputs);
    hide Collected, First, Acceptable, Strip;
    RowsKeyed(Collected(sp, inputs), r, t);
    x, y := CollidersAreTwins(sp, inputs, r, t);
    ConflictIs(sp, x);
    ConflictIs(sp, y);
  }

  /**
   The rows printed repeat a conflict key exactly when two inputs, each the first acceptable one
   with its market and symbol, have the same symbol and exchange and markets that differ only in
   outer space.
   */
  lemma {:induction false} ConflictKeysExactly(sp: Spelling, inputs: seq<Input>)
    requires KeepsStripped(sp)
    ensures ConflictsDiffer(Sorted(Collected(sp, inputs))) <==>
              forall x, y :: x in inputs && y in inputs && Leads(sp, inputs, x) && Leads(sp, inputs, y) ==>
                               Twins(sp, x, y) ==> Strip(x.exchange) != Strip(y.exchange)
  {
    var rows := Collected(sp, inputs);
    SortedMeans(rows);
    ConflictsAlike(rows, Sorted(rows));
    hide Collected, Sorted, Leads, Twins, Strip, KeepsStripped, PrintedConflict;
    if ConflictsDiffer(rows) {
      forall x, y | x in inputs && y in inputs && Leads(sp, inputs, x) && Leads(sp, inputs, y) && Twins(sp, x, y)
        ensures Strip(x.exchange) != Strip(y.exchange)
      {
        if Strip(x.exchange) == Strip(y.exchange) {
          LeadersConflict(sp, inputs, x, y);
        }
      }
    } else {
      var r, t :| r in rows && t in rows && r != t && PrintedConflict(r) == PrintedConflict(t);
      var x, y := ConflictingLeaders(sp, inputs, r, t);
    }
  }

  lemma {:induction false} ConflictsAlike(a: seq<Row>, b: seq<Row>)
    requires multiset(a) == multiset(b)
    ensures ConflictsDiffer(a) <==> ConflictsDiffer(b)
  {
    assert forall r :: r in a <==> r in multiset(a);
    assert forall r :: r in b <==> r in multiset(b);
    hide PrintedConflict;
  }

  lemma {:induction false} ConflictIs(sp: Spelling, x: Input)
    ensures KeyOf(Candidate(sp, x)) == Key(x.market, Candidate(sp, x).symbol)
    ensures PrintedConflict(Candidate(sp, x)) ==
              ConflictKey(Strip(x.market), Strip(Candidate(sp, x).symbol), Strip(x.exchange))
  {
    StripTwice(x.exchange);
  }

  lemma {:induction false} RowsKeyed(rows: seq<Row>, r: Row, t: Row)
    requires KeysDiffer(rows) && r in rows && t in rows && r != t
    ensures KeyOf(r) != KeyOf(t)
  {
    var i: nat :| i < |rows| && rows[i] == r;
    var j: nat :| j < |rows| && rows[j] == t;
  }

  lemma {:induction false} DifferMeans(rows: seq<Row>)
    ensures PrintedKeysDiffer(rows) <==> |PrintedKeys(rows)| == |rows|
    ensures |PrintedKeys(rows)| <= |rows|
  {
    if rows != [] {
      var front, r := rows[..|rows| - 1], rows[|rows| - 1];
      assert rows == front + [r];
      DifferMeans(front);
      DifferSnoc(front, r);
      assert PrintedKeys(rows) == PrintedKeys(front) + {PrintedKey(r)};
      hide PrintedKeysDiffer, PrintedKeys, PrintedKey;
    }
  }

  lemma {:induction false} DifferSnoc(front: seq<Row>, r: Row)
    ensures PrintedKeysDiffer(front + [r]) <==> PrintedKeysDiffer(front) && PrintedKey(r) !in PrintedKeys(front)
  {
    var rows := front + [r];
    hide PrintedKey;
    if PrintedKeysDiffer(rows) {
      forall x | x in front
        ensures PrintedKey(x) != PrintedKey(r)
      {
        var i: nat :| i < |front| && front[i] == x;
        assert rows[i] == x && rows[|front|] == r;
      }
      assert forall i :: 0 <= i < |front| ==> front[i] == rows[i];
    }
    if PrintedKeysDiffer(front) && PrintedKey(r) !in PrintedKeys(front) {
      forall i, j | 0 <= i < j < |rows|
        ensures PrintedKey(rows[i]) != PrintedKey(rows[j])
      {
        assert rows[i] == front[i] && rows[i] in front;
        if j < |front| {
          assert rows[j] == front[j];
        }
      }
    }
  }

  function PrintedKeys(rows: seq<Row>): set<Key> {
    set r | r in rows :: PrintedKey(r)
  }

  lemma {:induction false} DifferShuffled(a: seq<Row>, b: seq<Row>)
    requires multiset(a) == multiset(b) && PrintedKeysDiffer(a)
    ensures PrintedKeysDiffer(b)
  {
    DifferMeans(a);
    DifferMeans(b);
    assert forall r :: r in a <==> r in multiset(a);
    assert forall r :: r in b <==> r in multiset(b);
    assert PrintedKeys(a) == PrintedKeys(b);
    assert |multiset(a)| == |a| && |multiset(b)| == |b|;
  }

  /** Markets are compared as given and printed cleaned, so two spellings of one market collide. */
  lemma {:induction false} SpacedMarketsCollide(sp: Spelling, m: string, symbol: string, name: string)
    requires Stripped(m) && m != "" && sp.upper(Strip(symbol)) != "" && sp.repair(name) != ""
    ensures var rows := Collected(sp, [Input(m, symbol, name, "", ""), Input(" " + m, symbol, name, "", "")]);
      |rows| == 2 && PrintedKey(rows[0]) == PrintedKey(rows[1])
  {
    var a, b := Input(m, symbol, name, "", ""), Input(" " + m, symbol, name, "", "");
    assert [a, b][..1] == [a] && [a][..0] == [];
    var r := Candidate(sp, a);
    assert Collected(sp, [a]) == [r];
    assert Candidate(sp, b).market != r.market;
    SkipOne(m);
    StripMeans(m);
  }

  // ---------------------------------------------------------------- columns by name

  /** The ten columns of a printed row, in the order of the statement. */
  function Columns(market: string, symbol: string, name: string, exchange: string, currency: string): seq<Item> {
    [Chars(Strip(market)), Chars(Strip(symbol)), Chars(Strip(name)), Chars(Strip(exchange)), Chars(Strip(currency)),
     Chars("spot"), Chars(""), Digits("1"), Digits("0"), Digits("0")]
  }

  lemma {:induction false} ConstantsStripped()
    ensures Strip("spot") == "spot" && Strip("") == ""
  {
    StripMeans("spot");
    StripMeans("");
  }

  lemma {:induction false} CleanRowIs(r: Row)
    ensures CleanItems(Items(r)) == Columns(r.market, r.symbol, r.name, r.exchange, r.currency)
  {
    ConstantsStripped();
    CleanTen(Items(r));
    hide Strip, CleanItems;
    var clean, columns := CleanItems(Items(r)), Columns(r.market, r.symbol, r.name, r.exchange, r.currency);
    forall k | 0 <= k < 10
      ensures clean[k] == columns[k]
    {
      assert clean[k] == CleanItem(Items(r)[k]);
    }
  }

  lemma {:induction false} CleanTen(items: seq<Item>)
    ensures |CleanItems(items)| == |items|
    ensures forall k :: 0 <= k < |items| ==> CleanItems(items)[k] == CleanItem(items[k])
  {
    if items != [] {
      CleanTen(items[1..]);
    }
  }

  lemma {:induction false} CleanRowsAre(rows: seq<Row>)
    ensures |CleanRows(rows)| == |rows|
    ensures forall k :: 0 <= k < |rows| ==> CleanRows(rows)[k] == CleanItems(Items(rows[k]))
  {
    if rows != [] {
      CleanRowsAre(rows[1..]);
    }
  }

  /**
   From the inputs to the reader: the emitted list is read back as one row for every row collected,
   and each holds, column by column, what one of the inputs says: its market, upper-cased symbol,
   repaired name, exchange and currency, all stripped, and the five constants.
   */
  lemma {:induction false} InputsReadBack(sp: Spelling, inputs: seq<Input>) returns (read: seq<seq<Item>>)
    requires Collected(sp, inputs) != []
    ensures ReadRows(ValuesPart(Collected(sp, inputs)) + "\nON CONFLICT") == Got(read, "ON CONFLICT")
    ensures |read| == |Collected(sp, inputs)|
    ensures forall row :: row in read ==>
              exists x :: x in inputs && x.market != "" && sp.upper(Strip(x.symbol)) != "" && sp.repair(x.name) != ""
                && row == Columns(x.market, sp.upper(Strip(x.symbol)), sp.repair(x.name), x.exchange, x.currency)
  {
    var rows := Collected(sp, inputs);
    var sorted := Sorted(rows);
    ValuesRoundTrip(rows);
    read := CleanRows(sorted);
    SortedMeans(rows);
    CleanRowsAre(sorted);
    assert |multiset(sorted)| == |multiset(rows)|;
    hide ReadRows, ValuesPart, Sorted, CleanRows, Collected, Columns;
    forall row | row in read
      ensures exists x :: x in inputs && x.market != "" && sp.upper(Strip(x.symbol)) != "" && sp.repair(x.name) != ""
                && row == Columns(x.market, sp.upper(Strip(x.symbol)), sp.repair(x.name), x.exchange, x.currency)
    {
      var k: nat :| k < |read| && read[k] == row;
      assert sorted[k] in multiset(sorted) && sorted[k] in rows;
      var x := InputOf(sp, inputs, sorted[k]);
    }
  }

  lemma {:induction false} InputOf(sp: Spelling, inputs: seq<Input>, r: Row) returns (x: Input)
    requires r in Collected(sp, inputs)
    ensures x in inputs && x.market != "" && sp.upper(Strip(x.symbol)) != "" && sp.repair(x.name) != ""
    ensures CleanItems(Items(r)) == Columns(x.market, sp.upper(Strip(x.symbol)), sp.repair(x.name), x.exchange, x.currency)
  {
    x := RowComesFrom(sp, inputs, r);
    CleanRowIs(r);
    StripTwice(x.exchange);
    StripTwice(x.currency);
    hide Collected, CleanItems, Items, Strip;
  }

  /** Every input with a market, a symbol and a name is collected, under its market and upper-cased symbol. */
  lemma {:induction false} InputsCollected(sp: Spelling, inputs: seq<Input>, x: Input) returns (r: Row)
    requires x in inputs && x.market != "" && sp.upper(Strip(x.symbol)) != "" && sp.repair(x.name) != ""
    ensures r in Collected(sp, inputs) && r.market == x.market && r.symbol == sp.upper(Strip(x.symbol))
  {
    r := KeyCollected(sp, inputs, x);
  }
}
