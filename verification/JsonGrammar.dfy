/**
 JSON text as section 2 of RFC 8259 draws it: every value with the whitespace around its tokens, so
 that a `Value` is one spelling of a document and `Print` is what that spelling looks like.
 Bytes are written as characters below 256.
 */
module JsonGrammar {
  // ---- strings ---------------------------------------------------------------------------

  /** One character of a string: its own UTF-8 bytes, a one-letter escape, or four hex digits. */
  datatype Glyph = Raw(bytes: string) | Short(letter: char) | Unicode(hex: string)

  predicate Tail(c: char) {
    0x80 <= c as int < 0xC0
  }

  /** How many bytes the character that begins with `c` takes. */
  function Width(c: char): nat {
    if c as int >= 0xF0 then 4 else if c as int >= 0xE0 then 3 else if c as int >= 0xC0 then 2 else 1
  }

  /** A lead byte and as many continuation bytes as it promises. */
  predicate Character(s: string) {
    s != "" && !Tail(s[0]) && |s| == Width(s[0]) && forall i :: 1 <= i < |s| ==> Tail(s[i])
  }

  predicate HexDigit(c: char) {
    '0' <= c <= '9' || 'a' <= c <= 'f' || 'A' <= c <= 'F'
  }

  function HexOf(c: char): (digit: nat)
    requires HexDigit(c)
    ensures digit < 16
  {
    if '0' <= c <= '9' then c as int - '0' as int
    else if 'a' <= c <= 'f' then c as int - 'a' as int + 10
    else c as int - 'A' as int + 10
  }

  predicate Hex4(s: string) {
    |s| == 4 && forall i :: 0 <= i < 4 ==> HexDigit(s[i])
  }

  function HexValue(s: string): (value: nat)
    requires Hex4(s)
    ensures value < 0x10000
  {
    ((HexOf(s[0]) * 16 + HexOf(s[1])) * 16 + HexOf(s[2])) * 16 + HexOf(s[3])
  }

  /** Section 3 of RFC 3629, as far as one escape reaches. */
  function Utf8(value: nat): (s: string)
    requires value < 0x10000
    ensures Character(s)
  {
    if value < 0x80 then
      [value as char]
    else if value < 0x800 then
      [(0xC0 + value / 64) as char, (0x80 + value % 64) as char]
    else
      [(0xE0 + value / 4096) as char, (0x80 + value / 64 % 64) as char, (0x80 + value % 64) as char]
  }

  /** What an escape of four hex digits stands for; one from a surrogate pair is shown as a question mark. */
  function Escaped(value: nat): (s: string)
    requires value < 0x10000
    ensures Character(s)
  {
    Utf8(if 0xD800 <= value <= 0xDFFF then '?' as nat else value)
  }

  function Unescaped(letter: char): char {
    match letter
    case 'n' => '\n'
    case 't' => '\t'
    case 'r' => '\r'
    case 'b' => 8 as char
    case 'f' => 12 as char
    case _ => letter
  }

  predicate ValidGlyph(g: Glyph) {
    match g
    case Raw(s) => Character(s) && s[0] as int >= 0x20 && s[0] != '"' && s[0] != '\\'
    case Short(c) => c in "\"\\/bfnrt"
    case Unicode(h) => Hex4(h)
  }

  predicate ValidGlyphs(gs: seq<Glyph>) {
    forall i :: 0 <= i < |gs| ==> ValidGlyph(gs[i])
  }

  function Spelled(g: Glyph): string {
    match g
    case Raw(s) => s
    case Short(c) => ['\\', c]
    case Unicode(h) => "\\u" + h
  }

  /** The bytes a character stands for. */
  function Meaning(g: Glyph): (s: string)
    requires ValidGlyph(g)
    ensures Character(s)
  {
    match g
    case Raw(s) => s
    case Short(c) => [Unescaped(c)]
    case Unicode(h) => Escaped(HexValue(h))
  }

  function Content(gs: seq<Glyph>): string
    requires ValidGlyphs(gs)
  {
    if gs == [] then "" else Content(gs[..|gs| - 1]) + Meaning(gs[|gs| - 1])
  }

  /** An escape stands for the character it names exactly if it is no half of a surrogate pair. */
  lemma EscapedRightly(value: nat)
    requires value < 0x10000
    ensures Escaped(value) == Utf8(value) <==> !(0xD800 <= value <= 0xDFFF)
  {
    if 0xD800 <= value <= 0xDFFF {
      assert |Escaped(value)| == 1 && |Utf8(value)| == 3;
    }
  }

  /** So a pair, which stands for one character, reads as two question marks. */
  lemma PairLost()
    ensures ValidGlyphs([Unicode("d83d"), Unicode("de00")]) && Content([Unicode("d83d"), Unicode("de00")]) == "??"
  {
    assert HexValue("d83d") == 0xD83D && HexValue("de00") == 0xDE00;
    assert [Unicode("d83d"), Unicode("de00")][..1] == [Unicode("d83d")];
    assert [Unicode("d83d"), Unicode("de00")][1..] == [Unicode("de00")];
  }

  function PrintGlyphs(gs: seq<Glyph>, rest: string): string {
    if gs == [] then rest else Spelled(gs[0]) + PrintGlyphs(gs[1..], rest)
  }

  /** A whole string: its characters between quotes, and then `rest`. */
  function Quoted(gs: seq<Glyph>, rest: string): string {
    "\"" + PrintGlyphs(gs, "\"" + rest)
  }

  // ---- values ----------------------------------------------------------------------------

  datatype Word = True | False | Null | Number(minus: bool, whole: string, fraction: string, exponent: string)

  datatype Value = Literal(word: Word) | Text(glyphs: seq<Glyph>) | Nest(keyed: bool, gap: string, items: Items)

  /** The members of an object or the elements of an array; `gap` is the space after the comma. */
  datatype Items = Done | Item(name: Name, value: Value, after: string, gap: string, rest: Items)

  /** What stands before a value: nothing in an array, a key and its colon in an object. */
  datatype Name = Unnamed | Named(key: seq<Glyph>, before: string, after: string)

  predicate Space(c: char) {
    c == ' ' || c == '\t' || c == '\n' || c == '\r'
  }

  predicate Blank(s: string) {
    forall i :: 0 <= i < |s| ==> Space(s[i])
  }

  predicate Digits(s: string) {
    s != "" && forall i :: 0 <= i < |s| ==> '0' <= s[i] <= '9'
  }

  /** Section 6 of RFC 8259. */
  predicate ValidWord(w: Word) {
    w.Number? ==>
      && Digits(w.whole) && (w.whole[0] == '0' ==> |w.whole| == 1)
      && (w.fraction != "" ==> w.fraction[0] == '.' && Digits(w.fraction[1..]))
      && (w.exponent != "" ==>
            && (w.exponent[0] == 'e' || w.exponent[0] == 'E')
            && (Digits(w.exponent[1..])
                || (|w.exponent| > 1 && (w.exponent[1] == '+' || w.exponent[1] == '-') && Digits(w.exponent[2..]))))
  }

  function Spelling(w: Word): string {
    match w
    case True => "true"
    case False => "false"
    case Null => "null"
    case Number(minus, whole, fraction, exponent) => (if minus then "-" else "") + whole + fraction + exponent
  }

  predicate Valid(v: Value) {
    match v
    case Literal(w) => ValidWord(w)
    case Text(gs) => ValidGlyphs(gs)
    case Nest(keyed, gap, items) => Blank(gap) && ValidItems(items, keyed)
  }

  predicate ValidItems(items: Items, keyed: bool) {
    match items
    case Done => true
    case Item(name, value, after, gap, rest) =>
      && (name.Named? <==> keyed) && ValidName(name) && Valid(value) && Blank(after) && Blank(gap)
      && ValidItems(rest, keyed)
  }

  predicate ValidName(n: Name) {
    n.Named? ==> ValidGlyphs(n.key) && Blank(n.before) && Blank(n.after)
  }

  /** How deeply objects and arrays nest. */
  function Depth(v: Value): nat {
    if v.Nest? then 1 + DepthOf(v.items) else 0
  }

  function DepthOf(items: Items): nat {
    if items.Done? then 0 else Max(Depth(items.value), DepthOf(items.rest))
  }

  function Max(a: nat, b: nat): nat {
    if a < b then b else a
  }

  function Opener(keyed: bool): char {
    if keyed then '{' else '['
  }

  function Closer(keyed: bool): char {
    if keyed then '}' else ']'
  }

  /** The text of `v`, and then `rest`. */
  function Print(v: Value, rest: string): string
    decreases v, 0
  {
    match v
    case Literal(w) => Spelling(w) + rest
    case Text(gs) => Quoted(gs, rest)
    case Nest(keyed, gap, items) => [Opener(keyed)] + (gap + PrintItems(items, [Closer(keyed)] + rest))
  }

  function PrintItems(items: Items, rest: string): string
    decreases items, 1
  {
    match items
    case Done => rest
    case Item(name, value, _, _, _) => PrintName(name, Print(value, Beyond(items, rest)))
  }

  /** What follows the value of the first of `items`. */
  function Beyond(items: Items, rest: string): string
    requires items.Item?
    decreases items, 0
  {
    items.after + (if items.rest.Done? then rest else "," + (items.gap + PrintItems(items.rest, rest)))
  }

  function PrintName(n: Name, rest: string): string {
    match n
    case Unnamed => rest
    case Named(key, before, after) => Quoted(key, before + (":" + (after + rest)))
  }

  // ---- printing is concatenation ---------------------------------------------------------

  lemma {:induction false} GlyphsAppend(gs: seq<Glyph>, a: string, b: string)
    ensures PrintGlyphs(gs, a + b) == PrintGlyphs(gs, a) + b
  {
    if gs != [] {
      GlyphsAppend(gs[1..], a, b);
      assert Spelled(gs[0]) + (PrintGlyphs(gs[1..], a) + b) == Spelled(gs[0]) + PrintGlyphs(gs[1..], a) + b;
    }
  }

  lemma QuotedAppends(gs: seq<Glyph>, a: string, b: string)
    ensures Quoted(gs, a + b) == Quoted(gs, a) + b
  {
    assert "\"" + (a + b) == ("\"" + a) + b;
    GlyphsAppend(gs, "\"" + a, b);
  }

  /** The text of a value does not depend on what follows it. */
  lemma {:induction false} PrintAppends(v: Value, a: string, b: string)
    ensures Print(v, a + b) == Print(v, a) + b
    decreases v
  {
    match v
    case Literal(w) => assert Spelling(w) + (a + b) == Spelling(w) + a + b;
    case Text(gs) => QuotedAppends(gs, a, b);
    case Nest(keyed, gap, items) =>
      var c := [Closer(keyed)];
      assert c + (a + b) == (c + a) + b;
      ItemsAppend(items, c + a, b);
      var body := PrintItems(items, c + a);
      assert [Opener(keyed)] + (gap + (body + b)) == [Opener(keyed)] + (gap + body) + b;
  }

  lemma {:induction false} ItemsAppend(items: Items, a: string, b: string)
    ensures PrintItems(items, a + b) == PrintItems(items, a) + b
    decreases items
  {
    if items.Item? {
      ItemsAppend(items.rest, a, b);
      var more := if items.rest.Done? then a else "," + (items.gap + PrintItems(items.rest, a));
      assert Beyond(items, a + b) == Beyond(items, a) + b by {
        if items.rest.Item? {
          var tail := PrintItems(items.rest, a);
          assert "," + (items.gap + (tail + b)) == "," + (items.gap + tail) + b;
        }
        assert items.after + (more + b) == items.after + more + b;
      }
      PrintAppends(items.value, Beyond(items, a), b);
      var text := Print(items.value, Beyond(items, a));
      if items.name.Named? {
        var n := items.name;
        assert n.before + (":" + (n.after + (text + b))) == n.before + (":" + (n.after + text)) + b;
        QuotedAppends(n.key, n.before + (":" + (n.after + text)), b);
      }
    }
  }
}
