/**
 What the reader of src/codec/json.c does to the text still unread, as functions of that text, and
 what those functions make of a printed value.
 */
module JsonScan {
  import opened Base
  import opened JsonGrammar

  const MAX_DEPTH := 32

  predicate Starts(s: string, c: char) {
    s != "" && s[0] == c
  }

  function AfterSpace(s: string): (r: string)
    ensures |r| <= |s| && (r != "" ==> !Space(r[0]))
  {
    if s != "" && Space(s[0]) then AfterSpace(s[1..]) else s
  }

  /** What follows a string whose opening quote has been read. */
  function AfterString(s: string): (r: Option<string>)
    ensures r.Some? ==> |r.value| < |s|
  {
    if s == "" then None
    else if s[0] == '"' then Some(s[1..])
    else if s[0] != '\\' then AfterString(s[1..])
    else if |s| < 2 then None
    else AfterString(s[2..])
  }

  /** The bytes that end a number or a literal. */
  predicate Stop(c: char) {
    Space(c) || c == ',' || c == '}' || c == ']'
  }

  function AfterWord(s: string): (r: string)
    ensures |r| <= |s|
  {
    if s != "" && !Stop(s[0]) then AfterWord(s[1..]) else s
  }

  /** What follows the bracket that closes the outermost of `depth` open ones. */
  function AfterNest(s: string, depth: nat): (r: Option<string>)
    requires depth > 0
    ensures r.Some? ==> |r.value| < |s|
    decreases |s|
  {
    if s == "" then None
    else if s[0] == '"' then
      var r := AfterString(s[1..]);
      if r.None? then None else AfterNest(r.value, depth)
    else if s[0] == '{' || s[0] == '[' then
      if depth + 1 > MAX_DEPTH then None else AfterNest(s[1..], depth + 1)
    else if s[0] == '}' || s[0] == ']' then
      if depth == 1 then Some(s[1..]) else AfterNest(s[1..], depth - 1)
    else AfterNest(s[1..], depth)
  }

  function AfterValue(s: string): (r: Option<string>)
    ensures r.Some? ==> |r.value| <= |s|
  {
    var t := AfterSpace(s);
    if t == "" || t[0] == '\0' then None
    else if t[0] == '"' then AfterString(t[1..])
    else if t[0] == '{' || t[0] == '[' then AfterNest(t[1..], 1)
    else Some(AfterWord(t))
  }

  // ---- strings read into a buffer --------------------------------------------------------

  /** What a string decodes to, one piece for each byte or escape of it, and what follows it. */
  datatype Body = Body(pieces: seq<string>, rest: string)

  function Pieces(s: string, seen: seq<string>): (b: Option<Body>)
    ensures b.Some? ==> |b.value.rest| < |s|
    decreases |s|
  {
    if s == "" then None
    else if s[0] == '"' then Some(Body(seen, s[1..]))
    else if s[0] != '\\' then Pieces(s[1..], seen + [[s[0]]])
    else if |s| < 2 then None
    else if s[1] == 'u' then
      if |s| < 6 || !Hex4(s[2..6]) then None else Pieces(s[6..], seen + [Escaped(HexValue(s[2..6]))])
    else Pieces(s[2..], seen + [[Unescaped(s[1])]])
  }

  /** A buffer being filled: nothing is added after the first piece that does not fit. */
  datatype Filling = Filling(out: string, full: bool)

  function Fill(pieces: seq<string>, room: nat): Filling {
    if pieces == [] then Filling("", false)
    else Add(Fill(pieces[..|pieces| - 1], room), pieces[|pieces| - 1], room)
  }

  function Add(f: Filling, piece: string, room: nat): Filling {
    if !f.full && |f.out| + |piece| <= room then Filling(f.out + piece, false) else f.(full := true)
  }

  /** How many of the last `limit` bytes are continuation bytes, counted from the end. */
  function Trailing(out: string, limit: nat): (n: nat)
    ensures n <= limit && n <= |out|
  {
    if limit > 0 && out != "" && Tail(out[|out| - 1]) then 1 + Trailing(out[..|out| - 1], limit - 1) else 0
  }

  /** Where a truncated buffer should end so as not to end inside a character. */
  function WholeLength(out: string): (n: nat)
    ensures n <= |out|
  {
    var lead := |out| - Trailing(out, 3);
    if lead == 0 then |out|
    else if |out| - (lead - 1) < Width(out[lead - 1]) then lead - 1
    else |out|
  }

  function Held(pieces: seq<string>, room: nat): string {
    var f := Fill(pieces, room);
    if f.full then f.out[..WholeLength(f.out)] else f.out
  }

  // ---- members and elements --------------------------------------------------------------

  datatype Step = Here(name: string, rest: string) | Ended(rest: string) | Broken

  /** Past the comma that every member but the first needs. */
  function AfterComma(s: string, first: bool): Option<string> {
    if first then Some(s) else if Starts(s, ',') then Some(s[1..]) else None
  }

  function NextMember(s: string, first: bool, room: nat): (step: Step)
    ensures step.Here? ==> |step.rest| < |s|
  {
    var t := AfterSpace(s);
    if Starts(t, '}') then Ended(t[1..])
    else
      var u := AfterComma(t, first);
      if u.None? then Broken
      else
        var q := AfterSpace(u.value);
        if !Starts(q, '"') then Broken
        else
          var b := Pieces(q[1..], []);
          if b.None? then Broken
          else
            var c := AfterSpace(b.value.rest);
            if Starts(c, ':') then Here(Held(b.value.pieces, room), c[1..]) else Broken
  }

  function NextElement(s: string, first: bool): Step {
    var t := AfterSpace(s);
    if Starts(t, ']') then Ended(t[1..])
    else
      var u := AfterComma(t, first);
      if u.None? then Broken
      else
        var e := AfterSpace(u.value);
        if e == "" || e[0] == '\0' then Broken else Here("", e)
  }

  // ---- whitespace and words --------------------------------------------------------------

  lemma {:induction false} SpaceSkipped(w: string, s: string)
    requires Blank(w) && (s == "" || !Space(s[0]))
    ensures AfterSpace(w + s) == s
  {
    if w == "" {
      assert w + s == s;
    } else {
      assert (w + s)[1..] == w[1..] + s;
      SpaceSkipped(w[1..], s);
    }
  }

  /** The bytes of a number or a literal: none of them opens, closes, separates or quotes anything. */
  predicate Wordy(c: char) {
    '0' <= c <= '9' || 'a' <= c <= 'z' || c == 'E' || c == '+' || c == '-' || c == '.'
  }

  predicate AllWordy(s: string) {
    forall i :: 0 <= i < |s| ==> Wordy(s[i])
  }

  lemma SpellingIsWordy(w: Word)
    requires ValidWord(w)
    ensures Spelling(w) != "" && AllWordy(Spelling(w))
  {
    if w.Number? {
      var f, e := w.fraction, w.exponent;
      assert AllWordy(w.whole);
      assert f != "" ==> f == [f[0]] + f[1..];
      if e != "" {
        assert e == [e[0]] + e[1..];
        if !Digits(e[1..]) {
          assert e == [e[0], e[1]] + e[2..];
        }
      }
    }
  }

  lemma {:induction false} WordSkipped(w: string, s: string)
    requires AllWordy(w) && (s == "" || Stop(s[0]))
    ensures AfterWord(w + s) == s
  {
    if w == "" {
      assert w + s == s;
    } else {
      assert (w + s)[0] == w[0] && (w + s)[1..] == w[1..] + s;
      WordSkipped(w[1..], s);
    }
  }

  // ---- skipping --------------------------------------------------------------------------

  /** Bytes that mean nothing to the string skip. */
  predicate Inert(s: string) {
    forall i :: 0 <= i < |s| ==> s[i] != '"' && s[i] != '\\'
  }

  lemma {:induction false} InertSkipped(w: string, s: string)
    requires Inert(w)
    ensures AfterString(w + s) == AfterString(s)
  {
    if w == "" {
      assert w + s == s;
    } else {
      assert (w + s)[0] == w[0] && (w + s)[1..] == w[1..] + s;
      InertSkipped(w[1..], s);
    }
  }

  lemma GlyphSkipped(g: Glyph, s: string)
    requires ValidGlyph(g)
    ensures AfterString(Spelled(g) + s) == AfterString(s)
  {
    match g
    case Raw(bytes) =>
      assert Inert(bytes);
      InertSkipped(bytes, s);
    case Short(c) =>
      assert (Spelled(g) + s)[2..] == s;
    case Unicode(h) =>
      assert (Spelled(g) + s)[2..] == h + s;
      InertSkipped(h, s);
  }

  lemma {:induction false} StringSkipped(gs: seq<Glyph>, s: string)
    requires ValidGlyphs(gs)
    ensures AfterString(PrintGlyphs(gs, "\"" + s)) == Some(s)
  {
    if gs == [] {
      assert ("\"" + s)[1..] == s;
    } else {
      StringSkipped(gs[1..], s);
      GlyphSkipped(gs[0], PrintGlyphs(gs[1..], "\"" + s));
    }
  }

  /** Bytes that mean nothing to the bracket count. */
  predicate Level(s: string) {
    forall i :: 0 <= i < |s| ==> s[i] !in "\"{}[]"
  }

  lemma {:induction false} LevelSkipped(w: string, s: string, depth: nat)
    requires Level(w) && depth > 0
    ensures AfterNest(w + s, depth) == AfterNest(s, depth)
  {
    if w == "" {
      assert w + s == s;
    } else {
      assert (w + s)[0] == w[0] && (w + s)[1..] == w[1..] + s;
      LevelSkipped(w[1..], s, depth);
    }
  }

  lemma QuotedSkipped(gs: seq<Glyph>, s: string, depth: nat)
    requires ValidGlyphs(gs) && depth > 0
    ensures AfterNest(Quoted(gs, s), depth) == AfterNest(s, depth)
  {
    assert Quoted(gs, s)[1..] == PrintGlyphs(gs, "\"" + s);
    StringSkipped(gs, s);
  }

  lemma LiteralSkipped(w: Word, s: string, depth: nat)
    requires ValidWord(w) && depth > 0
    ensures AfterNest(Spelling(w) + s, depth) == AfterNest(s, depth)
  {
    hide AfterNest;
    SpellingIsWordy(w);
    hide Spelling;
    hide ValidWord;
    LevelSkipped(Spelling(w), s, depth);
  }

  /** Inside brackets a whole value counts for nothing, unless it nests too deeply. */
  lemma {:induction false} ValueSkipped(v: Value, s: string, depth: nat)
    requires Valid(v) && 0 < depth <= MAX_DEPTH
    ensures AfterNest(Print(v, s), depth) == if depth + Depth(v) <= MAX_DEPTH then AfterNest(s, depth) else None
    decreases v
  {
    hide AfterNest;
    hide Quoted;
    hide Spelling;
    match v
    case Literal(w) => LiteralSkipped(w, s, depth);
    case Text(gs) => QuotedSkipped(gs, s, depth);
    case Nest(keyed, gap, items) =>
      var inner := PrintItems(items, [Closer(keyed)] + s);
      NestTurn(keyed, gap + inner, s, depth);
      if depth + 1 <= MAX_DEPTH {
        LevelSkipped(gap, inner, depth + 1);
        ItemsSkipped(items, keyed, [Closer(keyed)] + s, depth + 1);
      }
  }

  /** A bracket opened and one closed, each by itself. */
  lemma NestTurn(keyed: bool, inner: string, s: string, depth: nat)
    requires 0 < depth <= MAX_DEPTH
    ensures AfterNest([Opener(keyed)] + inner, depth) ==
              if depth + 1 <= MAX_DEPTH then AfterNest(inner, depth + 1) else None
    ensures AfterNest([Closer(keyed)] + s, depth + 1) == AfterNest(s, depth)
  {
    assert ([Opener(keyed)] + inner)[1..] == inner;
    assert ([Closer(keyed)] + s)[1..] == s;
  }

  lemma {:induction false} ItemsSkipped(items: Items, keyed: bool, s: string, depth: nat)
    requires ValidItems(items, keyed) && 0 < depth <= MAX_DEPTH
    ensures AfterNest(PrintItems(items, s), depth)
         == if depth + DepthOf(items) <= MAX_DEPTH then AfterNest(s, depth) else None
    decreases items
  {
    hide AfterNest;
    if items.Item? {
      var more := Beyond(items, s);
      NameSkipped(items.name, Print(items.value, more), depth);
      ValueSkipped(items.value, more, depth);
      CommaSkipped(items, s, depth);
      ItemsSkipped(items.rest, keyed, s, depth);
    }
  }

  /** Between one value and the next there is nothing to count. */
  lemma CommaSkipped(items: Items, s: string, depth: nat)
    requires items.Item? && Blank(items.after) && Blank(items.gap) && depth > 0
    ensures AfterNest(Beyond(items, s), depth) == AfterNest(PrintItems(items.rest, s), depth)
  {
    hide AfterNest;
    if items.rest.Done? {
      LevelSkipped(items.after, s, depth);
    } else {
      var next := PrintItems(items.rest, s);
      assert Beyond(items, s) == (items.after + "," + items.gap) + next;
      LevelSkipped(items.after + "," + items.gap, next, depth);
    }
  }

  lemma NameSkipped(n: Name, s: string, depth: nat)
    requires ValidName(n) && depth > 0
    ensures AfterNest(PrintName(n, s), depth) == AfterNest(s, depth)
  {
    if n.Named? {
      var colon := n.before + ":" + n.after;
      assert n.before + (":" + (n.after + s)) == colon + s;
      QuotedSkipped(n.key, colon + s, depth);
      LevelSkipped(colon, s, depth);
    }
  }

  /** A number or a literal at the end of the text, or before whatever ends it. */
  predicate Follows(v: Value, s: string) {
    v.Literal? ==> s == "" || Stop(s[0])
  }

  lemma PrintBegins(v: Value, s: string)
    requires Valid(v)
    ensures var t := Print(v, s);
            && t != "" && t[0] != '\0' && !Stop(t[0])
            && (t[0] == '"' <==> v.Text?)
            && (t[0] == '{' <==> v.Nest? && v.keyed) && (t[0] == '[' <==> v.Nest? && !v.keyed)
  {
    if v.Literal? {
      SpellingIsWordy(v.word);
      assert Print(v, s)[0] == Spelling(v.word)[0];
    }
  }

  /** Skipping a printed value stops exactly after it; one nested too deeply is refused. */
  lemma SkipsExactly(v: Value, space: string, s: string)
    requires Valid(v) && Blank(space) && Follows(v, s)
    ensures AfterValue(space + Print(v, s)) == if Depth(v) <= MAX_DEPTH then Some(s) else None
  {
    PrintBegins(v, s);
    SpaceSkipped(space, Print(v, s));
    match v
    case Literal(w) =>
      SpellingIsWordy(w);
      WordSkipped(Spelling(w), s);
    case Text(gs) =>
      assert Quoted(gs, s)[1..] == PrintGlyphs(gs, "\"" + s);
      StringSkipped(gs, s);
    case Nest(keyed, gap, items) =>
      var close := [Closer(keyed)] + s;
      assert Print(v, s)[1..] == gap + PrintItems(items, close);
      assert close[1..] == s;
      LevelSkipped(gap, PrintItems(items, close), 1);
      ItemsSkipped(items, keyed, close, 1);
  }
}
