/**
 What reading strings and stepping through members comes to on printed text: a name held in a buffer
 is whole characters of the name, and the steps visit exactly what was printed.
 */
module JsonWalk {
  import opened Base
  import opened JsonGrammar
  import opened JsonScan

  // ---- a string in pieces ----------------------------------------------------------------

  function Singles(s: string): seq<string> {
    if s == "" then [] else Singles(s[..|s| - 1]) + [[s[|s| - 1]]]
  }

  function GlyphPieces(g: Glyph): seq<string>
    requires ValidGlyph(g)
  {
    if g.Raw? then Singles(g.bytes) else [Meaning(g)]
  }

  function AllPieces(gs: seq<Glyph>): seq<string>
    requires ValidGlyphs(gs)
  {
    if gs == [] then [] else AllPieces(gs[..|gs| - 1]) + GlyphPieces(gs[|gs| - 1])
  }

  lemma {:induction false} RawPieces(w: string, s: string, seen: seq<string>)
    requires Inert(w)
    ensures Pieces(w + s, seen) == Pieces(s, seen + Singles(w))
    decreases |w|
  {
    if w == "" {
      assert w + s == s && seen + Singles(w) == seen;
    } else {
      var front, last := w[..|w| - 1], w[|w| - 1];
      RawPieces(front, [last] + s, seen);
      assert w + s == front + ([last] + s);
      assert ([last] + s)[1..] == s;
      assert seen + Singles(front) + [[last]] == seen + Singles(w);
    }
  }

  lemma GlyphInPieces(g: Glyph, s: string, seen: seq<string>)
    requires ValidGlyph(g)
    ensures Pieces(Spelled(g) + s, seen) == Pieces(s, seen + GlyphPieces(g))
  {
    var t := Spelled(g) + s;
    match g
    case Raw(bytes) =>
      assert Inert(bytes);
      RawPieces(bytes, s, seen);
    case Short(c) =>
      assert t[0] == '\\' && t[1] == c && t[2..] == s;
    case Unicode(h) =>
      assert t[0] == '\\' && t[1] == 'u' && t[2..6] == h && t[6..] == s;
  }

  lemma {:induction false} StringInPieces(done: seq<Glyph>, todo: seq<Glyph>, s: string)
    requires ValidGlyphs(done) && ValidGlyphs(todo)
    ensures Pieces(PrintGlyphs(todo, "\"" + s), AllPieces(done)) == Some(Body(AllPieces(done + todo), s))
    decreases |todo|
  {
    hide Pieces;
    hide GlyphPieces;
    hide AllPieces;
    hide ValidGlyph;
    hide Spelled;
    if todo == [] {
      assert done + todo == done;
      assert ("\"" + s)[1..] == s;
      QuoteEnds("\"" + s, AllPieces(done));
    } else {
      var rest := PrintGlyphs(todo[1..], "\"" + s);
      GlyphInPieces(todo[0], rest, AllPieces(done));
      PiecesGrow(done, todo[0]);
      StringInPieces(done + [todo[0]], todo[1..], s);
      assert done + [todo[0]] + todo[1..] == done + todo;
    }
  }

  lemma QuoteEnds(s: string, seen: seq<string>)
    requires Starts(s, '"')
    ensures Pieces(s, seen) == Some(Body(seen, s[1..]))
  {
  }

  lemma PiecesGrow(gs: seq<Glyph>, g: Glyph)
    requires ValidGlyphs(gs) && ValidGlyph(g)
    ensures ValidGlyphs(gs + [g]) && AllPieces(gs + [g]) == AllPieces(gs) + GlyphPieces(g)
  {
    assert (gs + [g])[..|gs|] == gs;
  }

  // ---- a buffer filled with pieces -------------------------------------------------------

  lemma {:induction false} SinglesFilled(ps: seq<string>, w: string, room: nat)
    requires |Fill(ps, room).out| <= room
    ensures Fill(ps + Singles(w), room) == Spill(Fill(ps, room), w, room)
    decreases |w|
  {
    hide Fill;
    if w == "" {
      assert ps + Singles(w) == ps;
    } else {
      var n := |w| - 1;
      SinglesFilled(ps, w[..n], room);
      OneFilled(ps + Singles(w[..n]), [w[n]], room);
      assert ps + Singles(w) == ps + Singles(w[..n]) + [[w[n]]];
      SpillMore(Fill(ps, room), w[..n], w[n], room);
      assert w == w[..n] + [w[n]];
    }
  }

  /** What adding bytes one at a time comes to: as many of them as fit. */
  function Spill(f: Filling, w: string, room: nat): Filling
    requires |f.out| <= room
  {
    if w == "" || f.full then f
    else if |f.out| + |w| <= room then Filling(f.out + w, false)
    else Filling(f.out + w[..room - |f.out|], true)
  }

  lemma SpillMore(f: Filling, w: string, c: char, room: nat)
    requires |f.out| <= room
    ensures Add(Spill(f, w, room), [c], room) == Spill(f, w + [c], room)
  {
    if !f.full {
      assert f.out + w + [c] == f.out + (w + [c]);
      if |f.out| + |w| + 1 > room {
        assert (w + [c])[..room - |f.out|] == w[..room - |f.out|];
        assert w == "" ==> f.out + w[..0] == f.out;
        assert |f.out| + |w| == room ==> w[..room - |f.out|] == w;
      }
    }
  }

  lemma NothingFilled(room: nat)
    ensures Fill([], room) == Filling("", false)
  {
  }

  lemma OneFilled(ps: seq<string>, piece: string, room: nat)
    ensures Fill(ps + [piece], room) == Add(Fill(ps, room), piece, room)
  {
    assert (ps + [piece])[..|ps|] == ps;
  }

  // ---- where a truncated buffer ends -----------------------------------------------------

  lemma {:induction false} TrailingTails(a: string, tails: string, limit: nat)
    requires a != "" && !Tail(a[|a| - 1]) && |tails| <= limit && forall i :: 0 <= i < |tails| ==> Tail(tails[i])
    ensures Trailing(a + tails, limit) == |tails|
    decreases |tails|
  {
    if tails == "" {
      assert a + tails == a;
    } else {
      var n := |tails| - 1;
      TrailingTails(a, tails[..n], limit - 1);
      assert (a + tails)[..|a| + n] == a + tails[..n];
    }
  }

  /** After whole characters and the first `k` bytes of one more, the buffer ends before those bytes. */
  lemma CharacterCut(a: string, ch: string, k: nat)
    requires Character(ch) && 0 < k <= |ch|
    ensures WholeLength(a + ch[..k]) == if k < |ch| then |a| else |a| + |ch|
  {
    var head := a + [ch[0]];
    assert a + ch[..k] == head + ch[1..k];
    TrailingTails(head, ch[1..k], 3);
  }

  // ---- a name held in a buffer -----------------------------------------------------------

  /** As many whole characters as fit. */
  function Fitting(gs: seq<Glyph>, room: nat): (kept: seq<Glyph>)
    requires ValidGlyphs(gs)
    ensures kept <= gs && ValidGlyphs(kept)
  {
    if gs == [] then []
    else
      var front := gs[..|gs| - 1];
      var kept := Fitting(front, room);
      if kept == front && |Content(front)| + |Meaning(gs[|gs| - 1])| <= room then gs else kept
  }

  lemma {:induction false} FittingFits(gs: seq<Glyph>, room: nat)
    requires ValidGlyphs(gs)
    ensures var kept := Fitting(gs, room);
            |Content(kept)| <= room && (kept != gs ==> |Content(kept)| + |Meaning(gs[|kept|])| > room)
  {
    if gs != [] {
      FittingFits(gs[..|gs| - 1], room);
    }
  }

  ghost predicate FilledWith(f: Filling, gs: seq<Glyph>, room: nat)
    requires ValidGlyphs(gs)
  {
    var kept := Fitting(gs, room);
    && (f.full <==> kept != gs)
    && |f.out| <= room && Content(kept) <= f.out
    && (if f.full then WholeLength(f.out) == |Content(kept)| else f.out == Content(gs))
  }

  lemma {:induction false} BufferFilled(gs: seq<Glyph>, room: nat)
    requires ValidGlyphs(gs)
    ensures FilledWith(Fill(AllPieces(gs), room), gs, room)
  {
    hide WholeLength;
    hide GlyphPieces;
    hide Fill;
    hide Character;
    if gs != [] {
      var front, g := gs[..|gs| - 1], gs[|gs| - 1];
      BufferFilled(front, room);
      var f := Fill(AllPieces(front), room);
      GlyphFilled(AllPieces(front), g, room);
      if !f.full && |f.out| + |Meaning(g)| > room {
        var cut := if g.Raw? then g.bytes[..room - |f.out|] else "";
        assert Content(front) <= f.out + cut;
        CutLength(front, g, cut);
      }
    } else {
      NothingFilled(room);
    }
  }

  /** One more character into the buffer: all of it, or what fits of its bytes. */
  lemma GlyphFilled(ps: seq<string>, g: Glyph, room: nat)
    requires ValidGlyph(g) && |Fill(ps, room).out| <= room
    ensures var f := Fill(ps, room);
            && (g.Raw? && |f.out| + |Meaning(g)| > room ==> room - |f.out| <= |g.bytes|)
            && Fill(ps + GlyphPieces(g), room) ==
                 if f.full then f
                 else if |f.out| + |Meaning(g)| <= room then Filling(f.out + Meaning(g), false)
                 else Filling(f.out + (if g.Raw? then g.bytes[..room - |f.out|] else ""), true)
  {
    var f := Fill(ps, room);
    if g.Raw? {
      SinglesFilled(ps, g.bytes, room);
    } else {
      OneFilled(ps, Meaning(g), room);
      assert f.out + "" == f.out;
    }
  }

  lemma CutLength(front: seq<Glyph>, g: Glyph, cut: string)
    requires ValidGlyphs(front) && ValidGlyph(g)
    requires cut == "" || (g.Raw? && cut < g.bytes)
    ensures WholeLength(Content(front) + cut) == |Content(front)|
  {
    var a := Content(front);
    if cut != "" {
      CharacterCut(a, g.bytes, |cut|);
      assert cut == g.bytes[..|cut|];
    } else if front != [] {
      var before, ch := Content(front[..|front| - 1]), Meaning(front[|front| - 1]);
      assert a == before + ch && ch == ch[..|ch|] && a + cut == a;
      CharacterCut(before, ch, |ch|);
    }
  }

  /** The buffer ends up holding as many whole characters as fit in it, and no part of another. */
  lemma HeldWhole(gs: seq<Glyph>, room: nat)
    requires ValidGlyphs(gs)
    ensures Held(AllPieces(gs), room) == Content(Fitting(gs, room))
  {
    BufferFilled(gs, room);
  }

  // ---- members and elements --------------------------------------------------------------

  /**
   The text from which the next of `items` is read: at the start of a container, right after its
   bracket; later, right after the value before it, with a comma unless that was the last.
   */
  function Ahead(first: bool, space: string, gap: string, items: Items, rest: string): string {
    space + (if first || items.Done? then PrintItems(items, rest) else "," + (gap + PrintItems(items, rest)))
  }

  lemma ItemBegins(items: Items, keyed: bool, post: string)
    requires ValidItems(items, keyed)
    ensures var t := PrintItems(items, [Closer(keyed)] + post);
            && t != "" && !Space(t[0]) && t[0] != '\0' && t[0] != ',' && (t[0] == Closer(keyed) <==> items.Done?)
            && (items.Item? && keyed ==> t[0] == '"')
  {
    if items.Item? && items.name.Unnamed? {
      PrintBegins(items.value, Beyond(items, [Closer(keyed)] + post));
    }
  }

  /** Up to the item itself: the space, and the comma if there is to be one. */
  lemma CommaRead(first: bool, space: string, gap: string, items: Items, keyed: bool, post: string)
    requires Blank(space) && Blank(gap) && ValidItems(items, keyed)
    ensures var close := [Closer(keyed)] + post;
            var t := AfterSpace(Ahead(first, space, gap, items, close));
            if items.Done? then t == close
            else
              && t != "" && t[0] != Closer(keyed)
              && AfterComma(t, first).Some? && AfterSpace(AfterComma(t, first).value) == PrintItems(items, close)
  {
    var close := [Closer(keyed)] + post;
    var t := PrintItems(items, close);
    ItemBegins(items, keyed, post);
    if first || items.Done? {
      SpaceSkipped(space, t);
    } else {
      SpaceSkipped(space, "," + (gap + t));
      assert ("," + (gap + t))[1..] == gap + t;
      SpaceSkipped(gap, t);
    }
    SpaceSkipped("", t);
    assert "" + t == t;
  }

  /** After its quote, a key reads back as as much of itself as fits, and leaves its value next. */
  lemma KeyRead(n: Name, text: string, room: nat)
    requires n.Named? && ValidName(n)
    ensures var q := PrintName(n, text);
            && Starts(q, '"') && Pieces(q[1..], []).Some?
            && var b := Pieces(q[1..], []).value;
               && Held(b.pieces, room) == Content(Fitting(n.key, room))
               && AfterSpace(b.rest) == ":" + (n.after + text)
  {
    hide Pieces;
    hide Held;
    var s := n.before + (":" + (n.after + text));
    var q := PrintName(n, text);
    assert q[1..] == PrintGlyphs(n.key, "\"" + s);
    assert [] + n.key == n.key;
    StringInPieces([], n.key, s);
    HeldWhole(n.key, room);
    SpaceSkipped(n.before, ":" + (n.after + text));
  }

  lemma MemberRead(first: bool, space: string, gap: string, items: Items, post: string, room: nat)
    requires Blank(space) && Blank(gap) && ValidItems(items, true)
    ensures NextMember(Ahead(first, space, gap, items, "}" + post), first, room) ==
              if items.Done? then Ended(post)
              else Here(Content(Fitting(items.name.key, room)),
                        items.name.after + Print(items.value, Beyond(items, "}" + post)))
  {
    hide Pieces;
    hide Held;
    hide AfterSpace;
    hide AfterComma;
    hide Ahead;
    CommaRead(first, space, gap, items, true, post);
    if items.Done? {
      assert ("}" + post)[1..] == post;
    } else {
      var text := Print(items.value, Beyond(items, "}" + post));
      KeyRead(items.name, text, room);
      assert (":" + (items.name.after + text))[1..] == items.name.after + text;
    }
  }

  lemma ElementRead(first: bool, space: string, gap: string, items: Items, post: string)
    requires Blank(space) && Blank(gap) && ValidItems(items, false)
    ensures NextElement(Ahead(first, space, gap, items, "]" + post), first) ==
              if items.Done? then Ended(post) else Here("", Print(items.value, Beyond(items, "]" + post)))
  {
    hide AfterSpace;
    hide AfterComma;
    hide Ahead;
    CommaRead(first, space, gap, items, false, post);
    ItemBegins(items, false, post);
    if items.Done? {
      assert ("]" + post)[1..] == post;
    }
  }

  // ---- finding a member ------------------------------------------------------------------

  datatype Search = Found(rest: string) | Absent(rest: string) | Failed

  /** The buffer a member's name is read into, less its terminator. */
  const NAME_ROOM := 63

  function Seek(s: string, first: bool, key: string): Search
    decreases |s|
  {
    var step := NextMember(s, first, NAME_ROOM);
    match step
    case Broken => Failed
    case Ended(rest) => Absent(rest)
    case Here(name, rest) =>
      if CString(name) == key then Found(rest)
      else
        var next := AfterValue(rest);
        if next.None? then Failed else Seek(next.value, false, key)
  }

  function Find(s: string, key: string): Search {
    var t := AfterSpace(s);
    if Starts(t, '{') then Seek(t[1..], true, key) else Failed
  }

  /** The members from the first with this key on. */
  function Matching(items: Items, key: string): (m: Items)
    requires ValidItems(items, true)
    ensures ValidItems(m, true) && (m.Item? ==> Content(m.name.key) == key)
    ensures m.Done? ==> forall k :: k in Keys(items) ==> k != key
  {
    if items.Done? || Content(items.name.key) == key then items else Matching(items.rest, key)
  }

  function Keys(items: Items): seq<string>
    requires ValidItems(items, true)
  {
    if items.Done? then [] else [Content(items.name.key)] + Keys(items.rest)
  }

  lemma {:induction false} ContentPrefix(a: seq<Glyph>, b: seq<Glyph>)
    requires ValidGlyphs(b) && a <= b
    ensures ValidGlyphs(a) && Content(a) <= Content(b)
    decreases |b|
  {
    if a == b {
    } else {
      ContentPrefix(a, b[..|b| - 1]);
    }
  }

  /** What the lookup compares of a name: as much as its buffer holds, as C reads it. */
  function Seen(gs: seq<Glyph>): string
    requires ValidGlyphs(gs)
  {
    CString(Content(Fitting(gs, NAME_ROOM)))
  }

  /** The members from the first that looks to have this key on. */
  function Apparent(items: Items, key: string): (m: Items)
    requires ValidItems(items, true)
    ensures ValidItems(m, true)
  {
    if items.Done? || Seen(items.name.key) == key then items else Apparent(items.rest, key)
  }

  /** A name cut short is too long to be taken for a short key. */
  lemma NameSeen(gs: seq<Glyph>, key: string)
    requires ValidGlyphs(gs) && '\0' !in Content(gs) && |key| < 60
    ensures Seen(gs) == key <==> Content(gs) == key
  {
    var kept := Fitting(gs, NAME_ROOM);
    FittingFits(gs, NAME_ROOM);
    ContentPrefix(kept, gs);
    WithoutNul(Content(kept));
  }

  /** A key that no name without a NUL is mistaken for, and that its own name is not mistaken about. */
  ghost predicate SeenRightly(key: string) {
    forall gs :: ValidGlyphs(gs) && '\0' !in Content(gs) ==> (Seen(gs) == key <==> Content(gs) == key)
  }

  /** One character of four bytes. */
  const WIDE := Raw([0xF0 as char, 0x90 as char, 0x80 as char, 0x80 as char])

  lemma {:induction false} FitsWhole(gs: seq<Glyph>, room: nat)
    requires ValidGlyphs(gs) && |Content(gs)| <= room
    ensures Fitting(gs, room) == gs
  {
    if gs != [] {
      FitsWhole(gs[..|gs| - 1], room);
    }
  }

  /** From 60 to 63 bytes a key is also taken for itself with more behind it. */
  lemma TakenForMore(ks: seq<Glyph>)
    requires ValidGlyphs(ks) && '\0' !in Content(ks) && 60 <= |Content(ks)| <= NAME_ROOM
    ensures var gs := ks + [WIDE];
            && ValidGlyphs(gs) && '\0' !in Content(gs)
            && Seen(gs) == Content(ks) && Content(gs) != Content(ks)
  {
    var gs := ks + [WIDE];
    assert gs[..|ks|] == ks;
    assert Content(gs) == Content(ks) + WIDE.bytes;
    FitsWhole(ks, NAME_ROOM);
    WithoutNul(Content(ks));
  }

  /** From 64 bytes on it is not even taken for itself. */
  lemma NotItself(ks: seq<Glyph>)
    requires ValidGlyphs(ks) && |Content(ks)| > NAME_ROOM
    ensures Seen(ks) != Content(ks)
  {
    FittingFits(ks, NAME_ROOM);
  }

  /** So a key made of text is seen rightly just if it is under 60 bytes. */
  lemma KeyBound(ks: seq<Glyph>)
    requires ValidGlyphs(ks) && '\0' !in Content(ks)
    ensures SeenRightly(Content(ks)) <==> |Content(ks)| < 60
  {
    hide Seen;
    hide Content;
    var key := Content(ks);
    if |key| < 60 {
      forall gs | ValidGlyphs(gs) && '\0' !in Content(gs) ensures Seen(gs) == key <==> Content(gs) == key {
        NameSeen(gs, key);
      }
    } else if |key| <= NAME_ROOM {
      TakenForMore(ks);
      assert !SeenRightly(key);
    } else {
      NotItself(ks);
      assert !SeenRightly(key);
    }
  }

  /** A name of `n` times the letter a. */
  function Letters(n: nat): (gs: seq<Glyph>)
    ensures |gs| == n && ValidGlyphs(gs)
  {
    seq(n, _ => Raw("a"))
  }

  lemma {:induction false} LettersSpell(n: nat)
    ensures Content(Letters(n)) == seq(n, _ => 'a')
  {
    if n > 0 {
      LettersSpell(n - 1);
      assert Letters(n)[..n - 1] == Letters(n - 1);
      assert seq(n, _ => 'a') == seq(n - 1, _ => 'a') + "a";
    }
  }

  /** An input that shows it: a name of 64 letters is taken for a key of 63. */
  lemma LongNameTaken()
    ensures Seen(Letters(64)) == seq(63, _ => 'a') && Content(Letters(64)) == seq(64, _ => 'a')
  {
    LettersSpell(64);
    LettersSpell(63);
    FitsWhole(Letters(63), NAME_ROOM);
    assert Letters(64)[..63] == Letters(63);
    WithoutNul(seq(63, _ => 'a'));
  }

  /** Where the search ends among members whose first match is `m`, if any. */
  function Landing(m: Items, post: string): Search
    requires ValidItems(m, true)
  {
    if m.Done? then Absent(post) else Found(m.name.after + Print(m.value, Beyond(m, "}" + post)))
  }

  lemma {:induction false} SeekLands(first: bool, space: string, gap: string, items: Items, post: string, key: string)
    requires Blank(space) && Blank(gap) && ValidItems(items, true) && DepthOf(items) <= MAX_DEPTH
    ensures Seek(Ahead(first, space, gap, items, "}" + post), first, key) == Landing(Apparent(items, key), post)
    decreases items
  {
    hide NextMember;
    hide AfterValue;
    hide Print;
    hide CString;
    hide Fitting;
    MemberRead(first, space, gap, items, post, NAME_ROOM);
    if items.Item? && Seen(items.name.key) != key {
      var more := Beyond(items, "}" + post);
      AfterItem(items, "}" + post);
      SkipsExactly(items.value, items.name.after, more);
      assert more == Ahead(false, items.after, items.gap, items.rest, "}" + post);
      SeekLands(false, items.after, items.gap, items.rest, post, key);
    }
  }

  /** A value inside a container is followed by something that ends it. */
  lemma AfterItem(items: Items, rest: string)
    requires items.Item? && Blank(items.after) && rest != "" && Stop(rest[0])
    ensures Follows(items.value, Beyond(items, rest))
  {
  }

  /** For every key and all names: the lookup lands on the first member whose name looks like the key. */
  lemma FindExact(v: Value, space: string, post: string, key: string)
    requires Valid(v) && v.Nest? && v.keyed && Blank(space) && DepthOf(v.items) <= MAX_DEPTH
    ensures Find(space + Print(v, post), key) == Landing(Apparent(v.items, key), post)
  {
    hide Seek;
    hide Landing;
    hide Apparent;
    var t := Print(v, post);
    SpaceSkipped(space, t);
    assert t[1..] == Ahead(true, v.gap, "", v.items, "}" + post);
    SeekLands(true, v.gap, "", v.items, post, key);
  }

  lemma {:induction false} ApparentIsMatching(items: Items, key: string)
    requires ValidItems(items, true) && |key| < 60 && forall k :: k in Keys(items) ==> '\0' !in k
    ensures Apparent(items, key) == Matching(items, key)
  {
    hide Seen;
    if items.Item? {
      assert Content(items.name.key) in Keys(items);
      NameSeen(items.name.key, key);
      ApparentIsMatching(items.rest, key);
    }
  }

  /** Under 60 bytes that is the first member that has the key, if no name holds a NUL. */
  lemma FindLands(v: Value, space: string, post: string, key: string)
    requires Valid(v) && v.Nest? && v.keyed && Blank(space) && DepthOf(v.items) <= MAX_DEPTH
    requires |key| < 60 && forall k :: k in Keys(v.items) ==> '\0' !in k
    ensures Find(space + Print(v, post), key) == Landing(Matching(v.items, key), post)
  {
    FindExact(v, space, post, key);
    ApparentIsMatching(v.items, key);
  }
}
