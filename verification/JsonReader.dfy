/** The pull reader of src/codec/json.c, and a walk of a whole document with it. */
module JsonReader {
  import opened Base
  import opened JsonGrammar
  import opened JsonScan
  import opened JsonWalk

  /** What a caller's buffer leaves for text beside the terminator; no buffer leaves nothing. */
  function Room(capacity: nat): nat {
    if capacity > 0 then capacity - 1 else 0
  }

  class Reader {
    const text: string
    var cursor: nat
    /** Whether a container has just been entered. One flag serves every level of nesting. */
    var atFirst: bool

    ghost predicate Valid()
      reads this`cursor
    {
      cursor <= |text|
    }

    ghost function Rest(): string
      requires Valid()
      reads this`cursor
    {
      text[cursor..]
    }

    constructor (document: string)
      ensures Valid() && text == document && Rest() == document && !atFirst
    {
      text, cursor, atFirst := document, 0, false;
    }

    // ---- bytes ---------------------------------------------------------------------------

    method SkipSpace()
      requires Valid()
      modifies this`cursor
      ensures Valid() && Rest() == AfterSpace(old(Rest()))
    {
      while cursor < |text|
        invariant Valid() && AfterSpace(Rest()) == AfterSpace(old(Rest()))
      {
        if !Space(text[cursor]) {
          return;
        }
        assert Rest()[1..] == text[cursor + 1..];
        cursor := cursor + 1;
      }
    }

    method Peek() returns (c: char)
      requires Valid()
      modifies this`cursor
      ensures Valid() && Rest() == AfterSpace(old(Rest()))
      ensures c == if Rest() == "" then '\0' else Rest()[0]
    {
      SkipSpace();
      return if cursor < |text| then text[cursor] else '\0';
    }

    method Take(expected: char) returns (ok: bool)
      requires Valid() && expected != '\0'
      modifies this`cursor
      ensures Valid() && (ok <==> Starts(AfterSpace(old(Rest())), expected))
      ensures Rest() == if ok then AfterSpace(old(Rest()))[1..] else AfterSpace(old(Rest()))
    {
      var c := Peek();
      if c != expected {
        return false;
      }
      assert Rest()[1..] == text[cursor + 1..];
      cursor := cursor + 1;
      return true;
    }

    // ---- strings -------------------------------------------------------------------------

    method SkipStringBody() returns (ok: bool)
      requires Valid()
      modifies this`cursor
      ensures Valid() && (ok <==> AfterString(old(Rest())).Some?)
      ensures ok ==> Some(Rest()) == AfterString(old(Rest()))
    {
      while cursor < |text|
        invariant Valid() && AfterString(Rest()) == AfterString(old(Rest()))
      {
        var c := text[cursor];
        assert Rest()[1..] == text[cursor + 1..];
        assert |Rest()| >= 2 ==> Rest()[2..] == text[cursor + 2..];
        cursor := cursor + 1;
        if c == '"' {
          return true;
        }
        if c == '\\' {
          if cursor >= |text| {
            return false;
          }
          cursor := cursor + 1;
        }
      }
      return false;
    }

    /** Four hex digits, folded into a number one at a time. */
    method ReadHex4(from: nat) returns (ok: bool, value: nat)
      requires from + 4 <= |text|
      ensures ok <==> Hex4(text[from..from + 4])
      ensures ok ==> value == HexValue(text[from..from + 4])
    {
      var s := text[from..from + 4];
      value := 0;
      for i := 0 to 4
        invariant forall j :: 0 <= j < i ==> HexDigit(s[j])
        invariant value == if i == 0 then 0 else if i == 1 then HexOf(s[0])
                           else if i == 2 then HexOf(s[0]) * 16 + HexOf(s[1])
                           else if i == 3 then (HexOf(s[0]) * 16 + HexOf(s[1])) * 16 + HexOf(s[2])
                           else HexValue(s)
      {
        if !HexDigit(s[i]) {
          return false, value;
        }
        value := value * 16 + HexOf(s[i]);
      }
      return true, value;
    }

    /** Finds where the last character starts, and leaves it out unless all of it is there. */
    method WholeCharacters(out: string) returns (keep: nat)
      ensures keep == WholeLength(out)
    {
      var lead := |out|;
      assert out[..lead] == out;
      while lead > 0 && |out| - lead < 3 && Tail(out[lead - 1])
        invariant 0 <= lead <= |out| && |out| - lead <= 3
        invariant Trailing(out, 3) == |out| - lead + Trailing(out[..lead], 3 - (|out| - lead))
      {
        assert out[..lead][..lead - 1] == out[..lead - 1];
        lead := lead - 1;
      }
      if lead == 0 {
        return |out|;
      }
      return if |out| - (lead - 1) < Width(out[lead - 1]) then lead - 1 else |out|;
    }

    /** One escape, from after its backslash: what it stands for. */
    method ReadEscape() returns (ok: bool, piece: string)
      requires Valid() && cursor < |text|
      modifies this`cursor
      ensures Valid() && cursor > old(cursor)
      ensures forall seen ::
                Pieces("\\" + old(Rest()), seen) == if ok then Pieces(Rest(), seen + [piece]) else None
    {
      ghost var s := "\\" + Rest();
      assert s[2..] == text[cursor + 1..];
      var escape := text[cursor];
      cursor := cursor + 1;
      if escape != 'u' {
        return true, [Unescaped(escape)];
      }
      if |text| - cursor < 4 {
        return false, "";
      }
      assert s[2..6] == text[cursor..cursor + 4] && s[6..] == text[cursor + 4..];
      var value;
      ok, value := ReadHex4(cursor);
      if !ok {
        return false, "";
      }
      cursor := cursor + 4;
      return true, Escaped(value);
    }

    /** Reads the rest of a string, keeping of it what the buffer has room for. */
    method ReadStringBody(capacity: nat) returns (ok: bool, out: string)
      requires Valid()
      modifies this`cursor
      ensures Valid() && (ok <==> Pieces(old(Rest()), []).Some?)
      ensures ok ==> var b := Pieces(old(Rest()), []).value;
                     Rest() == b.rest && out == Held(b.pieces, Room(capacity))
    {
      var room := Room(capacity);
      var full := false;
      out := "";
      ghost var pieces: seq<string> := [];
      while cursor < |text|
        invariant Valid() && Pieces(Rest(), pieces) == Pieces(old(Rest()), [])
        invariant Fill(pieces, room) == Filling(out, full) && |out| <= room
        decreases |text| - cursor
      {
        var c := text[cursor];
        ghost var before := Rest();
        assert before[1..] == text[cursor + 1..];
        cursor := cursor + 1;
        if c == '"' {
          if capacity > 0 && full {
            var keep := WholeCharacters(out);
            out := out[..keep];
          }
          return true, out;
        }
        var piece := [c];
        if c == '\\' {
          if cursor >= |text| {
            return false, out;
          }
          assert before == "\\" + Rest();
          var good;
          good, piece := ReadEscape();
          if !good {
            return false, out;
          }
        }
        OneFilled(pieces, piece, room);
        pieces := pieces + [piece];
        if !full && |out| + |piece| <= room {
          out := out + piece;
        } else {
          full := true;
        }
      }
      return false, out;
    }

    method ReadString(capacity: nat) returns (ok: bool, out: string)
      requires Valid()
      modifies this`cursor
      ensures Valid()
      ensures var t := AfterSpace(old(Rest()));
              if Starts(t, '"') && Pieces(t[1..], []).Some?
              then ok && Rest() == Pieces(t[1..], []).value.rest
                   && out == Held(Pieces(t[1..], []).value.pieces, Room(capacity))
              else !ok
    {
      var c := Peek();
      if c != '"' {
        return false, "";
      }
      assert Rest()[1..] == text[cursor + 1..];
      cursor := cursor + 1;
      ok, out := ReadStringBody(capacity);
    }

    // ---- containers ----------------------------------------------------------------------

    method Enter(keyed: bool) returns (ok: bool)
      requires Valid()
      modifies this`cursor, this`atFirst
      ensures Valid() && (ok <==> Starts(AfterSpace(old(Rest())), Opener(keyed)))
      ensures ok ==> Rest() == AfterSpace(old(Rest()))[1..] && atFirst
      ensures !ok ==> atFirst == old(atFirst)
    {
      ok := Take(Opener(keyed));
      if ok {
        atFirst := true;
      }
    }

    method NextKey(capacity: nat) returns (ok: bool, name: string)
      requires Valid()
      modifies this`cursor, this`atFirst
      ensures Valid()
      ensures match NextMember(old(Rest()), old(atFirst), Room(capacity))
              case Here(key, rest) => ok && name == key && Rest() == rest && !atFirst
              case Ended(rest) => !ok && Rest() == rest && !atFirst
              case Broken => !ok
    {
      hide Pieces;
      hide Held;
      hide AfterSpace;
      name := "";
      var closed := Take('}');
      if closed {
        atFirst := false;
        return false, name;
      }
      SpaceOnce(old(Rest()));
      if !atFirst {
        var comma := Take(',');
        if !comma {
          return false, name;
        }
      }
      atFirst := false;
      ok := Take('"');
      if !ok {
        return;
      }
      ok, name := ReadStringBody(capacity);
      if !ok {
        return;
      }
      ok := Take(':');
    }

    method NextElement() returns (ok: bool)
      requires Valid()
      modifies this`cursor, this`atFirst
      ensures Valid()
      ensures match JsonScan.NextElement(old(Rest()), old(atFirst))
              case Here(_, rest) => ok && Rest() == rest && !atFirst
              case Ended(rest) => !ok && Rest() == rest && !atFirst
              case Broken => !ok
    {
      hide AfterSpace;
      var closed := Take(']');
      if closed {
        atFirst := false;
        return false;
      }
      SpaceOnce(old(Rest()));
      if !atFirst {
        var comma := Take(',');
        if !comma {
          return false;
        }
      }
      atFirst := false;
      var c := Peek();
      return c != '\0';
    }

    // ---- skipping and finding ------------------------------------------------------------

    method SkipWord()
      requires Valid()
      modifies this`cursor
      ensures Valid() && Rest() == AfterWord(old(Rest()))
    {
      while cursor < |text|
        invariant Valid() && AfterWord(Rest()) == AfterWord(old(Rest()))
      {
        if Stop(text[cursor]) {
          break;
        }
        assert Rest()[1..] == text[cursor + 1..];
        cursor := cursor + 1;
      }
    }

    /** From an opening bracket to its closing one, counting rather than recursing. */
    method SkipNest() returns (ok: bool)
      requires Valid() && Rest() != "" && (Rest()[0] == '{' || Rest()[0] == '[')
      modifies this`cursor
      ensures Valid() && (ok <==> AfterNest(old(Rest())[1..], 1).Some?)
      ensures ok ==> Some(Rest()) == AfterNest(old(Rest())[1..], 1)
    {
      var depth: nat := 0;
      while cursor < |text|
        invariant Valid() && (depth == 0 ==> cursor == old(cursor))
        invariant depth > 0 ==> AfterNest(Rest(), depth) == AfterNest(old(Rest())[1..], 1)
        decreases |text| - cursor
      {
        var c := text[cursor];
        assert Rest()[1..] == text[cursor + 1..];
        cursor := cursor + 1;
        if c == '"' {
          var closed := SkipStringBody();
          if !closed {
            return false;
          }
          assert |Rest()| < |text| - old(cursor);
          continue;
        }
        if c == '{' || c == '[' {
          depth := depth + 1;
          if depth > MAX_DEPTH {
            return false;
          }
          continue;
        }
        if c == '}' || c == ']' {
          depth := depth - 1;
          if depth == 0 {
            return true;
          }
        }
      }
      return false;
    }

    method SkipValue() returns (ok: bool)
      requires Valid()
      modifies this`cursor
      ensures Valid() && (ok <==> AfterValue(old(Rest())).Some?)
      ensures ok ==> Some(Rest()) == AfterValue(old(Rest()))
    {
      var first := Peek();
      if first == '\0' {
        return false;
      }
      if first == '"' {
        assert Rest()[1..] == text[cursor + 1..];
        cursor := cursor + 1;
        ok := SkipStringBody();
        return;
      }
      if first != '{' && first != '[' {
        SkipWord();
        return true;
      }
      ok := SkipNest();
    }

    /** Whether the object ahead has this key; if so its value is next. */
    method ObjectFind(key: string) returns (ok: bool)
      requires Valid()
      modifies this`cursor, this`atFirst
      ensures Valid()
      ensures match Find(old(Rest()), key)
              case Found(rest) => ok && Rest() == rest
              case Absent(rest) => !ok && Rest() == rest
              case Failed => !ok
    {
      hide NextMember;
      hide AfterValue;
      ok := Enter(true);
      if !ok {
        return;
      }
      var more, name := NextKey(NAME_ROOM + 1);
      ghost var at, first := AfterSpace(old(Rest()))[1..], true;
      while more
        invariant Valid() && Seek(at, first, key) == Find(old(Rest()), key)
        invariant match NextMember(at, first, NAME_ROOM)
                  case Here(k, rest) => more && name == k && Rest() == rest && !atFirst
                  case Ended(rest) => !more && Rest() == rest
                  case Broken => !more
        decreases |at|
      {
        if CString(name) == key {
          return true;
        }
        ok := SkipValue();
        if !ok {
          return;
        }
        at, first := Rest(), false;
        more, name := NextKey(NAME_ROOM + 1);
      }
      return false;
    }
  }

  lemma {:induction false} SpaceOnce(s: string)
    ensures AfterSpace(AfterSpace(s)) == AfterSpace(s)
  {
    if s != "" && Space(s[0]) {
      SpaceOnce(s[1..]);
    }
  }

  // ---- a whole document ------------------------------------------------------------------

  datatype Event = Opened(keyed: bool) | Key(name: string) | String(value: string) | Token(word: string) | Closed

  /** Everything in a value, in order, with names and strings as far as `room` reaches. */
  function Events(v: Value, room: nat): seq<Event>
    requires Valid(v)
  {
    match v
    case Literal(w) => [Token(Spelling(w))]
    case Text(gs) => [String(Content(Fitting(gs, room)))]
    case Nest(keyed, _, items) => [Opened(keyed)] + ItemEvents(items, keyed, room) + [Closed]
  }

  function ItemEvents(items: Items, keyed: bool, room: nat): seq<Event>
    requires ValidItems(items, keyed)
  {
    match items
    case Done => []
    case Item(name, value, _, _, rest) =>
      (if keyed then [Key(Content(Fitting(name.key, room)))] else [])
      + Events(value, room) + ItemEvents(rest, keyed, room)
  }

  /**
   A caller's recursive walk. Given the text of a value it reports exactly that value's contents in
   order and stops exactly after it, however deep it is.
   */
  method Visit(json: Reader, capacity: nat, ghost v: Value, ghost space: string, ghost post: string)
    returns (events: seq<Event>)
    requires json.Valid() && !json.atFirst && json.Rest() == space + Print(v, post)
    requires Valid(v) && Blank(space) && Follows(v, post)
    modifies json`cursor, json`atFirst
    ensures json.Valid() && !json.atFirst && json.Rest() == post
    ensures events == Events(v, Room(capacity))
    decreases v
  {
    PrintBegins(v, post);
    SpaceSkipped(space, Print(v, post));
    var c := json.Peek();
    if c == '{' || c == '[' {
      var keyed := c == '{';
      SpaceSkipped("", Print(v, post));
      assert "" + Print(v, post) == Print(v, post);
      var ok := json.Enter(keyed);
      ghost var close := [Closer(keyed)] + post;
      assert Print(v, post)[1..] == Ahead(true, v.gap, "", v.items, close);
      var inner := VisitItems(json, keyed, capacity, v.items, v.gap, "", post);
      return [Opened(keyed)] + inner + [Closed];
    }
    if c == '"' {
      var value := VisitText(json, capacity, v.glyphs, post);
      return [String(value)];
    }
    var word := VisitWord(json, v.word, post);
    return [Token(word)];
  }

  method VisitItems(json: Reader, keyed: bool, capacity: nat, ghost items: Items, ghost space: string,
                    ghost gap: string, ghost post: string)
    returns (events: seq<Event>)
    requires json.Valid() && Blank(space) && Blank(gap) && ValidItems(items, keyed)
    requires json.Rest() == Ahead(json.atFirst, space, gap, items, [Closer(keyed)] + post)
    modifies json`cursor, json`atFirst
    ensures json.Valid() && !json.atFirst && json.Rest() == post
    ensures events == ItemEvents(items, keyed, Room(capacity))
    decreases items
  {
    hide Ahead;
    hide NextMember;
    hide JsonScan.NextElement;
    var more;
    var names: seq<Event> := [];
    if keyed {
      MemberRead(json.atFirst, space, gap, items, post, Room(capacity));
      var name;
      more, name := json.NextKey(capacity);
      names := [Key(name)];
    } else {
      ElementRead(json.atFirst, space, gap, items, post);
      more := json.NextElement();
    }
    if !more {
      return [];
    }
    ghost var beyond := Beyond(items, [Closer(keyed)] + post);
    ghost var lead := if keyed then items.name.after else "";
    assert json.Rest() == lead + Print(items.value, beyond);
    AfterItem(items, [Closer(keyed)] + post);
    var here := Visit(json, capacity, items.value, lead, beyond);
    BeyondIsAhead(items, [Closer(keyed)] + post);
    var others := VisitItems(json, keyed, capacity, items.rest, items.after, items.gap, post);
    return names + here + others;
  }

  lemma BeyondIsAhead(items: Items, rest: string)
    requires items.Item?
    ensures Beyond(items, rest) == Ahead(false, items.after, items.gap, items.rest, rest)
  {
  }

  method VisitText(json: Reader, capacity: nat, ghost gs: seq<Glyph>, ghost post: string) returns (value: string)
    requires json.Valid() && ValidGlyphs(gs) && json.Rest() == Quoted(gs, post)
    modifies json`cursor
    ensures json.Valid() && json.Rest() == post && value == Content(Fitting(gs, Room(capacity)))
  {
    hide Pieces;
    hide Held;
    SpaceSkipped("", Quoted(gs, post));
    assert "" + Quoted(gs, post) == Quoted(gs, post);
    assert Quoted(gs, post)[1..] == PrintGlyphs(gs, "\"" + post);
    assert [] + gs == gs;
    StringInPieces([], gs, post);
    HeldWhole(gs, Room(capacity));
    var ok;
    ok, value := json.ReadString(capacity);
  }

  method VisitWord(json: Reader, ghost w: Word, ghost post: string) returns (word: string)
    requires json.Valid() && ValidWord(w) && (post == "" || Stop(post[0])) && json.Rest() == Spelling(w) + post
    modifies json`cursor
    ensures json.Valid() && json.Rest() == post && word == Spelling(w)
  {
    var start := json.cursor;
    ghost var s := json.Rest();
    assert "" + s == s;
    SkipsExactly(Literal(w), "", post);
    var ok := json.SkipValue();
    assert |json.text| - json.cursor == |post|;
    assert json.text[start..json.cursor] == s[..|s| - |post|] == Spelling(w);
    return json.text[start..json.cursor];
  }

  /** A whole document, from the top: every event of it, and only whitespace left over. */
  method Document(text: string, capacity: nat, ghost v: Value, ghost before: string, ghost after: string)
    returns (events: seq<Event>)
    requires Valid(v) && Blank(before) && Blank(after) && text == before + Print(v, after)
    ensures events == Events(v, Room(capacity))
  {
    var json := new Reader(text);
    events := Visit(json, capacity, v, before, after);
  }
}
