/** JSON values, the compact text `serde_json` prints for them, and a reader of JSON texts
    (RFC 8259) that gives every printed value back. */
module JsonText {

  /** A JSON value. A number is the text `serde_json` prints for it; an object is its
      entries in the order its map yields them. */
  datatype Json =
    | Null
    | Bool(b: bool)
    | Number(text: string)
    | String(s: string)
    | Array(items: seq<Json>)
    | Object(entries: seq<Entry>)

  datatype Entry = Entry(key: string, value: Json)

  predicate NumberChar(c: char) { '0' <= c <= '9' || c in {'-', '+', '.', 'e', 'E'} }

  predicate NumberText(t: string) {
    t != [] && ('0' <= t[0] <= '9' || t[0] == '-') && forall i :: 0 <= i < |t| ==> NumberChar(t[i])
  }

  predicate DistinctKeys(es: seq<Entry>) {
    forall i, j :: 0 <= i < j < |es| ==> es[i].key != es[j].key
  }

  predicate WellFormed(v: Json) {
    match v
    case Number(t) => NumberText(t)
    case Array(xs) => forall i :: 0 <= i < |xs| ==> WellFormed(xs[i])
    case Object(es) => DistinctKeys(es) && forall i :: 0 <= i < |es| ==> WellFormed(es[i].value)
    case _ => true
  }

  // ----- compact printing, as serde_json does it -----

  const HEX := "0123456789abcdef"

  function EscapeChar(c: char): string {
    if c == '\"' then "\\\""
    else if c == '\\' then "\\\\"
    else if c as int == 0x08 then "\\b"
    else if c as int == 0x0C then "\\f"
    else if c == '\n' then "\\n"
    else if c == '\r' then "\\r"
    else if c == '\t' then "\\t"
    else if (c as int) < 0x20 then "\\u00" + [HEX[c as int / 16], HEX[c as int % 16]]
    else [c]
  }

  function Escape(s: string): string {
    if s == [] then [] else EscapeChar(s[0]) + Escape(s[1..])
  }

  function Quote(s: string): string { "\"" + (Escape(s) + "\"") }

  function JoinComma(parts: seq<string>): string {
    if parts == [] then []
    else if |parts| == 1 then parts[0]
    else parts[0] + "," + JoinComma(parts[1..])
  }

  function Print(v: Json): string
    decreases v, 1
  {
    match v
    case Null => "null"
    case Bool(b) => if b then "true" else "false"
    case Number(t) => t
    case String(s) => Quote(s)
    case Array(xs) => "[" + JoinComma(PrintItems(xs)) + "]"
    case Object(es) => "{" + JoinComma(PrintEntries(es)) + "}"
  }

  function PrintItems(xs: seq<Json>): (r: seq<string>)
    ensures |r| == |xs|
    decreases xs, 0
  {
    if xs == [] then [] else [Print(xs[0])] + PrintItems(xs[1..])
  }

  function PrintEntries(es: seq<Entry>): (r: seq<string>)
    ensures |r| == |es|
    decreases es, 0
  {
    if es == [] then [] else [Quote(es[0].key) + ":" + Print(es[0].value)] + PrintEntries(es[1..])
  }

  // ----- reading -----

  /** A value read off the front of a text, and what follows it. */
  datatype Parsed<T> = Got(value: T, rest: string) | Bad

  predicate Blank(c: char) { c in {' ', '\t', '\n', '\r'} }

  function Skip(s: string): (r: string)
    ensures |r| <= |s|
  {
    if s != [] && Blank(s[0]) then Skip(s[1..]) else s
  }

  /** The value of a hexadecimal digit, negative when `c` is none. */
  function HexValue(c: char): (n: int)
    ensures -1 <= n < 16
  {
    if '0' <= c <= '9' then c as int - '0' as int
    else if 'a' <= c <= 'f' then c as int - 'a' as int + 10
    else if 'A' <= c <= 'F' then c as int - 'A' as int + 10
    else -1
  }

  function FourHex(s: string): (r: Parsed<int>)
    ensures r.Got? ==> 0 <= r.value < 0x10000 && |s| == |r.rest| + 4
  {
    if |s| < 4 then Bad
    else
      var a, b, c, d := HexValue(s[0]), HexValue(s[1]), HexValue(s[2]), HexValue(s[3]);
      if a < 0 || b < 0 || c < 0 || d < 0 then Bad else Got(0x1000 * a + 0x100 * b + 0x10 * c + d, s[4..])
  }

  /** What follows `\u`: one unit, or two that make a surrogate pair. */
  function UnicodeEscape(s: string): (r: Parsed<char>)
    ensures r.Got? ==> |r.rest| < |s|
  {
    var high := FourHex(s);
    if high.Bad? then Bad
    else if high.value < 0xD800 || high.value >= 0xE000 then Got(high.value as char, high.rest)
    else if high.value >= 0xDC00 || |high.rest| < 2 || high.rest[..2] != "\\u" then Bad
    else
      var low := FourHex(high.rest[2..]);
      if low.Bad? || low.value < 0xDC00 || low.value >= 0xE000 then Bad
      else Got((0x10000 + (high.value - 0xD800) * 0x400 + (low.value - 0xDC00)) as char, low.rest)
  }

  /** One character of a string, escaped or not. */
  function ReadChar(s: string): (r: Parsed<char>)
    requires s != []
    ensures r.Got? ==> |r.rest| < |s|
  {
    if s[0] != '\\' then if (s[0] as int) < 0x20 then Bad else Got(s[0], s[1..])
    else if |s| == 1 then Bad
    else
      match s[1]
      case '\"' => Got('\"', s[2..])
      case '\\' => Got('\\', s[2..])
      case '/' => Got('/', s[2..])
      case 'b' => Got(0x08 as char, s[2..])
      case 'f' => Got(0x0C as char, s[2..])
      case 'n' => Got('\n', s[2..])
      case 'r' => Got('\r', s[2..])
      case 't' => Got('\t', s[2..])
      case 'u' => UnicodeEscape(s[2..])
      case _ => Bad
  }

  /** The characters of a string up to its closing quote. */
  function ReadText(s: string): (r: Parsed<string>)
    ensures r.Got? ==> |r.rest| < |s|
  {
    if s == [] then Bad
    else if s[0] == '\"' then Got([], s[1..])
    else
      var c := ReadChar(s);
      if c.Bad? then Bad
      else
        var t := ReadText(c.rest);
        if t.Bad? then Bad else Got([c.value] + t.value, t.rest)
  }

  function NumberRun(s: string): (n: nat)
    ensures n <= |s|
  {
    if s != [] && NumberChar(s[0]) then 1 + NumberRun(s[1..]) else 0
  }

  function ReadWord(word: string, v: Json, s: string): (r: Parsed<Json>)
    requires word != []
    ensures r.Got? ==> |r.rest| < |s|
  {
    if word <= s then Got(v, s[|word|..]) else Bad
  }

  function ReadNumber(s: string): (r: Parsed<Json>)
    ensures r.Got? ==> |r.rest| < |s|
  {
    var n := NumberRun(s);
    if NumberText(s[..n]) then Got(Number(s[..n]), s[n..]) else Bad
  }

  function ReadValue(text: string): (r: Parsed<Json>)
    ensures r.Got? ==> |r.rest| < |text|
    decreases |text|, 1
  {
    var s := Skip(text);
    if s == [] then Bad
    else
      match s[0]
      case 'n' => ReadWord("null", Null, s)
      case 't' => ReadWord("true", Bool(true), s)
      case 'f' => ReadWord("false", Bool(false), s)
      case '\"' => (var t := ReadText(s[1..]); if t.Bad? then Bad else Got(String(t.value), t.rest))
      case '[' => ReadArray(s[1..])
      case '{' => ReadObject(s[1..])
      case _ => ReadNumber(s)
  }

  /** An array, or an object, after its opening bracket. */
  function ReadArray(text: string): (r: Parsed<Json>)
    ensures r.Got? ==> |r.rest| < |text|
    decreases |text|, 3
  {
    var s := Skip(text);
    if s != [] && s[0] == ']' then Got(Array([]), s[1..])
    else
      var xs := ReadItems(s);
      if xs.Bad? then Bad else Got(Array(xs.value), xs.rest)
  }

  function ReadItems(text: string): (r: Parsed<seq<Json>>)
    ensures r.Got? ==> |r.rest| < |text|
    decreases |text|, 2
  {
    var v := ReadValue(text);
    if v.Bad? then Bad
    else
      var s := Skip(v.rest);
      if s != [] && s[0] == ']' then Got([v.value], s[1..])
      else if s != [] && s[0] == ',' then
        var more := ReadItems(s[1..]);
        if more.Bad? then Bad else Got([v.value] + more.value, more.rest)
      else Bad
  }

  function ReadObject(text: string): (r: Parsed<Json>)
    ensures r.Got? ==> |r.rest| < |text|
    decreases |text|, 3
  {
    var s := Skip(text);
    if s != [] && s[0] == '}' then Got(Object([]), s[1..])
    else
      var es := ReadEntries(s);
      if es.Bad? then Bad else Got(Object(es.value), es.rest)
  }

  /** A key, a colon and a value. */
  function ReadEntry(text: string): (r: Parsed<Entry>)
    ensures r.Got? ==> |r.rest| < |text|
    decreases |text|, 1
  {
    var s := Skip(text);
    if s == [] || s[0] != '\"' then Bad
    else
      var key := ReadText(s[1..]);
      if key.Bad? then Bad
      else
        var after := Skip(key.rest);
        if after == [] || after[0] != ':' then Bad
        else
          var v := ReadValue(after[1..]);
          if v.Bad? then Bad else Got(Entry(key.value, v.value), v.rest)
  }

  function ReadEntries(text: string): (r: Parsed<seq<Entry>>)
    ensures r.Got? ==> |r.rest| < |text|
    decreases |text|, 2
  {
    var e := ReadEntry(text);
    if e.Bad? then Bad
    else
      var s := Skip(e.rest);
      if s != [] && s[0] == '}' then Got([e.value], s[1..])
      else if s != [] && s[0] == ',' then
        var more := ReadEntries(s[1..]);
        if more.Bad? then Bad else Got([e.value] + more.value, more.rest)
      else Bad
  }

  /** The one value of a whole text. */
  function Read(text: string): Parsed<Json> {
    var v := ReadValue(text);
    if v.Got? && Skip(v.rest) == [] then Got(v.value, []) else Bad
  }

  // ----- what was printed is read -----

  lemma Assoc(a: string, b: string, c: string)
    ensures (a + b) + c == a + (b + c)
  {
  }

  lemma SplitAt(p: string, x: string)
    ensures (p + x)[..|p|] == p && (p + x)[|p|..] == x
  {
  }

  lemma HexReads(n: int)
    requires 0 <= n < 16
    ensures HexValue(HEX[n]) == n
  {
    assert HEX == ['0', '1', '2', '3', '4', '5', '6', '7', '8', '9', 'a', 'b', 'c', 'd', 'e', 'f'];
  }

  lemma CharReads(c: char, x: string)
    ensures (EscapeChar(c) + x)[0] != '\"' && ReadChar(EscapeChar(c) + x) == Got(c, x)
  {
    var e := EscapeChar(c);
    var s := e + x;
    SplitAt(e, x);
    if |e| == 6 {
      ControlReads(c, x);
    } else if |e| == 2 {
      assert s[0] == e[0] && s[1] == e[1] && s[2..] == x;
    } else {
      assert s[0] == c && s[1..] == x;
    }
  }

  lemma ControlReads(c: char, x: string)
    requires |EscapeChar(c)| == 6
    ensures ReadChar(EscapeChar(c) + x) == Got(c, x)
  {
    var n := c as int;
    var s := EscapeChar(c) + x;
    assert s[0] == '\\' && s[1] == 'u' && s[2..] == ['0', '0', HEX[n / 16], HEX[n % 16]] + x;
    HexReads(n / 16);
    HexReads(n % 16);
    assert s[2..][4..] == x;
    assert FourHex(s[2..]) == Got(n, x);
  }

  lemma {:induction false} TextReads(t: string, x: string)
    ensures ReadText(Escape(t) + ("\"" + x)) == Got(t, x)
  {
    var s := Escape(t) + ("\"" + x);
    if t == [] {
      assert s == "\"" + x && s[1..] == x;
    } else {
      var rest := Escape(t[1..]) + ("\"" + x);
      Assoc(EscapeChar(t[0]), Escape(t[1..]), "\"" + x);
      CharReads(t[0], rest);
      TextReads(t[1..], x);
      assert [t[0]] + t[1..] == t;
    }
  }

  lemma QuoteReads(t: string, x: string)
    ensures var s := Quote(t) + x; s[0] == '\"' && ReadText(s[1..]) == Got(t, x)
  {
    var s := Quote(t) + x;
    assert s[1..] == Escape(t) + ("\"" + x);
    TextReads(t, x);
  }

  /** What may follow a value in a compact text. */
  predicate Delimiter(x: string) { x == [] || x[0] in {',', ']', '}'} }

  lemma {:induction false} RunStops(t: string, x: string)
    requires Delimiter(x) && forall i :: 0 <= i < |t| ==> NumberChar(t[i])
    ensures NumberRun(t + x) == |t|
  {
    if t == [] {
      assert t + x == x;
    } else {
      assert (t + x)[1..] == t[1..] + x;
      RunStops(t[1..], x);
    }
  }

  lemma FirstChar(v: Json)
    requires WellFormed(v)
    ensures Print(v) != []
    ensures var c := Print(v)[0];
      && (v.Null? <==> c == 'n') && (v.Bool? && v.b <==> c == 't') && (v.Bool? && !v.b <==> c == 'f')
      && (v.Number? <==> c == '-' || '0' <= c <= '9') && (v.String? <==> c == '\"')
      && (v.Array? <==> c == '[') && (v.Object? <==> c == '{')
  {
  }

  lemma LeafReads(v: Json, x: string)
    requires WellFormed(v) && Delimiter(x) && !v.Array? && !v.Object?
    ensures ReadValue(Print(v) + x) == Got(v, x)
  {
    var p := Print(v);
    FirstChar(v);
    SplitAt(p, x);
    assert (p + x)[0] == p[0];
    if v.String? {
      QuoteReads(v.s, x);
    } else if v.Number? {
      RunStops(v.text, x);
    }
  }

  /** Reading what was printed, with whatever may follow it, gives the value and leaves the rest. */
  lemma {:induction false} PrintReads(v: Json, x: string)
    requires WellFormed(v) && Delimiter(x)
    ensures ReadValue(Print(v) + x) == Got(v, x)
    decreases v, 1
  {
    if v.Array? {
      ArrayReads(v.items, x);
    } else if v.Object? {
      ObjectReads(v.entries, x);
    } else {
      LeafReads(v, x);
    }
  }

  lemma OpensArray(s: string)
    ensures ReadValue("[" + s) == ReadArray(s)
  {
    assert ("[" + s)[1..] == s;
  }

  lemma OpensObject(s: string)
    ensures ReadValue("{" + s) == ReadObject(s)
  {
    assert ("{" + s)[1..] == s;
  }

  lemma NoItems(x: string)
    ensures ReadArray("]" + x) == Got(Array([]), x)
  {
    assert ("]" + x)[1..] == x;
  }

  lemma NoEntries(x: string)
    ensures ReadObject("}" + x) == Got(Object([]), x)
  {
    assert ("}" + x)[1..] == x;
  }

  lemma ArrayText(xs: seq<Json>, x: string)
    ensures Print(Array(xs)) + x == "[" + (JoinComma(PrintItems(xs)) + ("]" + x))
  {
    var p := JoinComma(PrintItems(xs));
    assert ("[" + p + "]") + x == "[" + (p + ("]" + x));
  }

  lemma ObjectText(es: seq<Entry>, x: string)
    ensures Print(Object(es)) + x == "{" + (JoinComma(PrintEntries(es)) + ("}" + x))
  {
    var p := JoinComma(PrintEntries(es));
    assert ("{" + p + "}") + x == "{" + (p + ("}" + x));
  }

  lemma SomeItems(s: string, xs: seq<Json>, x: string)
    requires s != [] && s[0] != ']' && Skip(s) == s && ReadItems(s) == Got(xs, x)
    ensures ReadArray(s) == Got(Array(xs), x)
  {
  }

  lemma SomeEntries(s: string, es: seq<Entry>, x: string)
    requires s != [] && s[0] != '}' && Skip(s) == s && ReadEntries(s) == Got(es, x)
    ensures ReadObject(s) == Got(Object(es), x)
  {
  }

  lemma {:induction false} ArrayReads(xs: seq<Json>, x: string)
    requires WellFormed(Array(xs))
    ensures ReadValue(Print(Array(xs)) + x) == Got(Array(xs), x)
    decreases xs, 3
  {
    var s := JoinComma(PrintItems(xs)) + ("]" + x);
    ArrayText(xs, x);
    OpensArray(s);
    if xs == [] {
      NoItems(x);
      assert s == "]" + x;
    } else {
      ItemsHead(xs, x);
      ItemsRead(xs, x);
      SomeItems(s, xs, x);
    }
  }

  lemma ItemsHead(xs: seq<Json>, x: string)
    requires xs != [] && WellFormed(xs[0])
    ensures var s := JoinComma(PrintItems(xs)) + ("]" + x); s[0] == Print(xs[0])[0] && s[0] != ']' && Skip(s) == s
  {
    FirstChar(xs[0]);
  }

  lemma LastItem(s: string, v: Json, x: string)
    requires ReadValue(s) == Got(v, "]" + x)
    ensures ReadItems(s) == Got([v], x)
  {
    assert ("]" + x)[1..] == x;
  }

  lemma MoreItems(s: string, v: Json, more: string, vs: seq<Json>, x: string)
    requires ReadValue(s) == Got(v, "," + more) && ReadItems(more) == Got(vs, x)
    ensures ReadItems(s) == Got([v] + vs, x)
  {
    assert ("," + more)[1..] == more;
  }

  lemma JoinOne(p: string)
    ensures JoinComma([p]) == p
  {
  }

  lemma JoinMore(p: string, parts: seq<string>)
    requires parts != []
    ensures JoinComma([p] + parts) == p + "," + JoinComma(parts)
  {
    assert ([p] + parts)[1..] == parts;
  }

  lemma Regroup(p: string, q: string, x: string)
    ensures (p + "," + q) + x == p + ("," + (q + x))
  {
  }

  lemma {:induction false} ItemsRead(xs: seq<Json>, x: string)
    requires xs != [] && forall i :: 0 <= i < |xs| ==> WellFormed(xs[i])
    ensures ReadItems(JoinComma(PrintItems(xs)) + ("]" + x)) == Got(xs, x)
    decreases xs, 2
  {
    var p, parts := Print(xs[0]), PrintItems(xs[1..]);
    if |xs| == 1 {
      assert PrintItems(xs) == [p] && xs == [xs[0]];
      JoinOne(p);
      PrintReads(xs[0], "]" + x);
      LastItem(p + ("]" + x), xs[0], x);
    } else {
      var more := JoinComma(parts) + ("]" + x);
      JoinMore(p, parts);
      Regroup(p, JoinComma(parts), "]" + x);
      PrintReads(xs[0], "," + more);
      ItemsRead(xs[1..], x);
      MoreItems(p + ("," + more), xs[0], more, xs[1..], x);
      assert xs == [xs[0]] + xs[1..];
    }
  }

  lemma {:induction false} ObjectReads(es: seq<Entry>, x: string)
    requires WellFormed(Object(es))
    ensures ReadValue(Print(Object(es)) + x) == Got(Object(es), x)
    decreases es, 3
  {
    var s := JoinComma(PrintEntries(es)) + ("}" + x);
    ObjectText(es, x);
    OpensObject(s);
    if es == [] {
      NoEntries(x);
      assert s == "}" + x;
    } else {
      EntriesHead(es, x);
      EntriesRead(es, x);
      SomeEntries(s, es, x);
    }
  }

  lemma EntriesHead(es: seq<Entry>, x: string)
    requires es != []
    ensures var s := JoinComma(PrintEntries(es)) + ("}" + x); s[0] == '\"' && Skip(s) == s
  {
    assert PrintEntries(es)[0][0] == '\"';
  }

  lemma EntryReads(e: Entry, x: string)
    requires ReadValue(Print(e.value) + x) == Got(e.value, x)
    ensures ReadEntry((Quote(e.key) + ":" + Print(e.value)) + x) == Got(e, x)
  {
    var after := ":" + (Print(e.value) + x);
    assert (Quote(e.key) + ":" + Print(e.value)) + x == Quote(e.key) + after;
    assert after[1..] == Print(e.value) + x;
    QuoteReads(e.key, after);
  }

  lemma LastEntry(s: string, e: Entry, x: string)
    requires ReadEntry(s) == Got(e, "}" + x)
    ensures ReadEntries(s) == Got([e], x)
  {
    assert ("}" + x)[1..] == x;
  }

  lemma MoreEntries(s: string, e: Entry, more: string, es: seq<Entry>, x: string)
    requires ReadEntry(s) == Got(e, "," + more) && ReadEntries(more) == Got(es, x)
    ensures ReadEntries(s) == Got([e] + es, x)
  {
    assert ("," + more)[1..] == more;
  }

  lemma {:induction false} EntriesRead(es: seq<Entry>, x: string)
    requires es != [] && forall i :: 0 <= i < |es| ==> WellFormed(es[i].value)
    ensures ReadEntries(JoinComma(PrintEntries(es)) + ("}" + x)) == Got(es, x)
    decreases es, 2
  {
    var p, parts := Quote(es[0].key) + ":" + Print(es[0].value), PrintEntries(es[1..]);
    if |es| == 1 {
      assert PrintEntries(es) == [p] && es == [es[0]];
      JoinOne(p);
      PrintReads(es[0].value, "}" + x);
      EntryReads(es[0], "}" + x);
      LastEntry(p + ("}" + x), es[0], x);
    } else {
      var more := JoinComma(parts) + ("}" + x);
      JoinMore(p, parts);
      Regroup(p, JoinComma(parts), "}" + x);
      PrintReads(es[0].value, "," + more);
      EntryReads(es[0], "," + more);
      EntriesRead(es[1..], x);
      MoreEntries(p + ("," + more), es[0], more, es[1..], x);
      assert es == [es[0]] + es[1..];
    }
  }

  /** Every value is read back from its compact text. */
  lemma ReadInvertsPrint(v: Json)
    requires WellFormed(v)
    ensures Read(Print(v)) == Got(v, [])
  {
    PrintReads(v, []);
    assert Print(v) + [] == Print(v);
  }

  /** The texts of two values are told apart in any context. */
  lemma PrintCancels(v: Json, w: Json, x: string, y: string)
    requires WellFormed(v) && WellFormed(w) && Delimiter(x) && Delimiter(y)
    ensures Print(v) + x == Print(w) + y <==> v == w && x == y
  {
    PrintReads(v, x);
    PrintReads(w, y);
  }
}
