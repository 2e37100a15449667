/** JSON text that was cut short, or was never right: the reader refuses it rather than guess. */
module JsonCut {
  import opened Base
  import opened JsonGrammar
  import opened JsonScan
  import opened JsonWalk

  // ---- more text changes nothing about what was skipped ----------------------------------

  lemma {:induction false} StringStable(s: string, more: string)
    requires AfterString(s).Some?
    ensures AfterString(s + more) == Some(AfterString(s).value + more)
    decreases |s|
  {
    assert (s + more)[0] == s[0] && (s + more)[1..] == s[1..] + more;
    if s[0] == '\\' {
      assert (s + more)[2..] == s[2..] + more;
      StringStable(s[2..], more);
    } else if s[0] != '"' {
      StringStable(s[1..], more);
    }
  }

  lemma {:induction false} NestStable(s: string, depth: nat, more: string)
    requires depth > 0 && AfterNest(s, depth).Some?
    ensures AfterNest(s + more, depth) == Some(AfterNest(s, depth).value + more)
    decreases |s|
  {
    hide AfterString;
    assert (s + more)[0] == s[0] && (s + more)[1..] == s[1..] + more;
    if s[0] == '"' {
      StringStable(s[1..], more);
      NestStable(AfterString(s[1..]).value, depth, more);
    } else if s[0] == '{' || s[0] == '[' {
      NestStable(s[1..], depth + 1, more);
    } else if s[0] == '}' || s[0] == ']' {
      if depth > 1 {
        NestStable(s[1..], depth - 1, more);
      }
    } else {
      NestStable(s[1..], depth, more);
    }
  }

  lemma {:induction false} PiecesStable(s: string, seen: seq<string>, more: string)
    requires Pieces(s, seen).Some?
    ensures var b := Pieces(s, seen).value;
            Pieces(s + more, seen) == Some(Body(b.pieces, b.rest + more))
    decreases |s|
  {
    assert (s + more)[0] == s[0] && (s + more)[1..] == s[1..] + more;
    if s[0] == '\\' {
      if s[1] == 'u' {
        assert (s + more)[2..6] == s[2..6] && (s + more)[6..] == s[6..] + more;
        PiecesStable(s[6..], seen + [Escaped(HexValue(s[2..6]))], more);
      } else {
        assert (s + more)[2..] == s[2..] + more;
        PiecesStable(s[2..], seen + [[Unescaped(s[1])]], more);
      }
    } else if s[0] != '"' {
      PiecesStable(s[1..], seen + [[s[0]]], more);
    }
  }

  // ---- so what is cut short is refused ---------------------------------------------------

  /** No part of a string that lacks its closing quote is skipped, or read. */
  lemma StringCut(gs: seq<Glyph>, part: string)
    requires ValidGlyphs(gs) && part < PrintGlyphs(gs, "\"")
    ensures AfterString(part) == None && Pieces(part, []) == None
  {
    var whole := PrintGlyphs(gs, "\"");
    var more := whole[|part|..];
    assert whole == part + more && "\"" + "" == "\"";
    StringSkipped(gs, "");
    if AfterString(part).Some? {
      StringStable(part, more);
    }
    NoPieces();
    StringInPieces([], gs, "");
    if Pieces(part, []).Some? {
      PiecesStable(part, [], more);
    }
  }

  lemma NoPieces()
    ensures AllPieces([]) == []
  {
  }

  /** No part of an object or an array that lacks its closing bracket is skipped. */
  lemma NestCut(v: Value, part: string)
    requires Valid(v) && v.Nest? && part < Print(v, "")
    ensures AfterValue(part) == None
  {
    hide Valid;
    hide Print;
    hide AfterValue;
    hide Depth;
    PrintBegins(v, "");
    SkipsExactly(v, "", "");
    assert "" + Print(v, "") == Print(v, "");
    WholeCut(Print(v, ""), part);
  }

  lemma WholeCut(whole: string, part: string)
    requires Starts(whole, '{') || Starts(whole, '[')
    requires AfterValue(whole) in {None, Some("")} && part < whole
    ensures AfterValue(part) == None
  {
    hide AfterValue;
    hide AfterNest;
    if part == "" {
      NothingThere();
    } else {
      var more := whole[|part|..];
      NestBegins(whole);
      NestBegins(part);
      assert whole[1..] == part[1..] + more;
      if AfterNest(part[1..], 1).Some? {
        NestStable(part[1..], 1, more);
      }
    }
  }

  lemma NestBegins(t: string)
    requires Starts(t, '{') || Starts(t, '[')
    ensures AfterValue(t) == AfterNest(t[1..], 1)
  {
    hide AfterNest;
    hide AfterString;
  }

  lemma NothingThere()
    ensures AfterValue("") == None
  {
  }

  // ---- and so is an escape that is none --------------------------------------------------

  /** Four hex digits, or the string is refused. */
  lemma BadEscape(digits: string, rest: string)
    requires |digits| == 4 && !Hex4(digits)
    ensures Pieces("\\u" + digits + rest, []) == None
  {
    var s := "\\u" + digits + rest;
    assert s[0] == '\\' && s[1] == 'u' && s[2..6] == digits;
  }

  /** A bracket too many is the end of nothing: nesting beyond 32 is refused whatever follows. */
  lemma TooDeep(s: string)
    requires Starts(s, '{') || Starts(s, '[')
    ensures AfterNest(s, 32) == None
  {
  }
}
