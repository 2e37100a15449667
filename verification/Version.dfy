/**
 Version strings: what parses, and which of two is newer. Models src/base/version.c; a C string is its
 characters before the terminator, and a missing one is None.
 */
module Version {
  import opened Base

  const CAP := 100_000_000

  // ---- numbers ---------------------------------------------------------------------------

  predicate Digit(c: char) {
    '0' <= c <= '9'
  }

  predicate Digits(s: string) {
    forall i :: 0 <= i < |s| ==> Digit(s[i])
  }

  predicate Numeral(s: string) {
    s != "" && Digits(s)
  }

  function DigitRun(s: string): (n: nat)
    ensures n <= |s| && Digits(s[..n]) && (n < |s| ==> !Digit(s[n]))
  {
    if s != "" && Digit(s[0]) then
      var n := DigitRun(s[1..]);
      assert s[..1 + n] == [s[0]] + s[1..][..n];
      1 + n
    else 0
  }

  /** What a numeral means. */
  function Value(s: string): nat
    requires Digits(s)
  {
    if s == "" then 0 else Value(s[..|s| - 1]) * 10 + (s[|s| - 1] as int - '0' as int)
  }

  /** What a numeral is read as: digits stop counting once the value has reached the cap. */
  function Capped(s: string): (value: nat)
    requires Digits(s)
    ensures value < 10 * CAP
  {
    if s == "" then 0
    else
      var value := Capped(s[..|s| - 1]);
      if value < CAP then value * 10 + (s[|s| - 1] as int - '0' as int) else value
  }

  /** A numeral is read as what it means exactly if that is below 10^9. */
  lemma {:induction false} CapIsExact(s: string)
    requires Digits(s)
    ensures Capped(s) == Value(s) <==> Value(s) < 10 * CAP
    ensures Capped(s) <= Value(s) && (Value(s) >= CAP ==> Capped(s) >= CAP)
  {
    if s != "" {
      CapIsExact(s[..|s| - 1]);
    }
  }

  method ParseNumber(text: string) returns (used: nat, value: nat)
    ensures used == DigitRun(text) && value == Capped(text[..used])
  {
    used, value := 0, 0;
    assert text[0..] == text;
    while used < |text| && Digit(text[used])
      invariant used <= |text| && Digits(text[..used]) && value == Capped(text[..used])
      invariant used + DigitRun(text[used..]) == DigitRun(text)
    {
      assert text[used..][1..] == text[used + 1..];
      assert text[..used + 1][..used] == text[..used];
      if value < CAP {
        value := value * 10 + (text[used] as int - '0' as int);
      }
      used := used + 1;
    }
  }

  // ---- identifiers -----------------------------------------------------------------------

  predicate Allowed(c: char) {
    Digit(c) || 'a' <= c <= 'z' || 'A' <= c <= 'Z' || c == '-'
  }

  /** What lies between the dots. */
  function Split(s: string): (parts: seq<string>)
    ensures parts != []
  {
    if s == "" then [""]
    else if s[0] == '.' then [""] + Split(s[1..])
    else
      var parts := Split(s[1..]);
      [[s[0]] + parts[0]] + parts[1..]
  }

  predicate AllAllowed(s: string) {
    forall i :: 0 <= i < |s| ==> Allowed(s[i])
  }

  predicate Identifier(s: string) {
    s != "" && AllAllowed(s)
  }

  predicate Identifiers(s: string) {
    forall i :: 0 <= i < |Split(s)| ==> Identifier(Split(s)[i])
  }

  /** The same, given that the first identifier has already begun. */
  predicate IdentifiersOn(s: string, begun: bool) {
    if s == "" then begun
    else if s[0] == '.' then begun && IdentifiersOn(s[1..], false)
    else Allowed(s[0]) && IdentifiersOn(s[1..], true)
  }

  predicate PartsOn(parts: seq<string>, begun: bool)
    requires parts != []
  {
    && (begun || parts[0] != "") && AllAllowed(parts[0])
    && (forall i :: 1 <= i < |parts| ==> Identifier(parts[i]))
  }

  lemma AllowedFirst(c: char, s: string)
    ensures AllAllowed([c] + s) <==> Allowed(c) && AllAllowed(s)
  {
    if AllAllowed([c] + s) {
      assert ([c] + s)[0] == c;
      assert forall i :: 0 <= i < |s| ==> s[i] == ([c] + s)[i + 1];
    }
  }

  lemma {:induction false} SplitValid(s: string, begun: bool)
    ensures IdentifiersOn(s, begun) <==> PartsOn(Split(s), begun)
    decreases |s|
  {
    hide AllAllowed;
    if s == "" {
      NothingAllowed();
    } else if s[0] == '.' {
      NothingAllowed();
      SplitValid(s[1..], false);
      var rest := Split(s[1..]);
      assert forall i :: 0 <= i < |rest| ==> Split(s)[i + 1] == rest[i];
    } else {
      SplitValid(s[1..], true);
      var rest := Split(s[1..]);
      AllowedFirst(s[0], rest[0]);
      assert forall i :: 1 <= i < |rest| ==> Split(s)[i] == rest[i];
    }
  }

  lemma NothingAllowed()
    ensures AllAllowed("")
  {
  }

  method DotIdentifiersAreValid(text: string) returns (ok: bool)
    ensures ok <==> Identifiers(text)
  {
    SplitValid(text, false);
    assert Identifier(Split(text)[0]) <==> Split(text)[0] != "" && AllAllowed(Split(text)[0]);
    assert PartsOn(Split(text), false) <==> Identifiers(text);
    var run := 0;
    assert text[0..] == text;
    for i := 0 to |text|
      invariant run >= 0 && IdentifiersOn(text[i..], run != 0) == IdentifiersOn(text, false)
    {
      var c := text[i];
      assert text[i..][1..] == text[i + 1..];
      if c == '.' {
        if run == 0 {
          return false;
        }
        run := 0;
        continue;
      }
      if !Allowed(c) {
        return false;
      }
      run := run + 1;
    }
    return run != 0;
  }

  // ---- parsing ---------------------------------------------------------------------------

  /** A version as it was written. */
  datatype Parts = Parts(
    space: string, vee: string, major: string, minor: Option<string>, patch: Option<string>,
    pre: Option<string>, build: Option<string>)

  predicate Blank(c: char) {
    c == ' ' || c == '\t'
  }

  predicate Blanks(s: string) {
    forall i :: 0 <= i < |s| ==> Blank(s[i])
  }

  function BlankRun(s: string): (n: nat)
    ensures n <= |s| && (n < |s| ==> !Blank(s[n]))
  {
    if s != "" && Blank(s[0]) then 1 + BlankRun(s[1..]) else 0
  }

  predicate Vee(c: char) {
    c == 'v' || c == 'V'
  }

  predicate Starts(s: string, c: char) {
    s != "" && s[0] == c
  }

  predicate Valid(p: Parts) {
    && Blanks(p.space) && (p.vee == "" || (|p.vee| == 1 && Vee(p.vee[0])))
    && Numeral(p.major) && (p.minor.Some? ==> Numeral(p.minor.value))
    && (p.patch.Some? ==> p.minor.Some? && Numeral(p.patch.value))
    && (p.pre.Some? ==> Identifiers(p.pre.value)) && (p.build.Some? ==> Identifiers(p.build.value))
  }

  function Marked(mark: char, s: Option<string>): string {
    if s.None? then "" else [mark] + s.value
  }

  function Print(p: Parts): string {
    p.space + (p.vee + (p.major + (Marked('.', p.minor) + (Marked('.', p.patch) + Ending(p)))))
  }

  function Ending(p: Parts): string {
    Marked('-', p.pre) + Marked('+', p.build)
  }

  function PlusAt(s: string): (n: nat)
    ensures n <= |s| && (n < |s| ==> s[n] == '+') && forall i :: 0 <= i < n ==> s[i] != '+'
  {
    if s == "" || s[0] == '+' then 0 else 1 + PlusAt(s[1..])
  }

  /** What may follow the numbers. */
  function ParseEnding(s: string, p: Parts): Option<Parts> {
    if s == "" then Some(p)
    else if s[0] == '-' then
      var rest := s[1..];
      var n := PlusAt(rest);
      if !Identifiers(rest[..n]) then None
      else if n == |rest| then Some(p.(pre := Some(rest)))
      else if Identifiers(rest[n + 1..]) then Some(p.(pre := Some(rest[..n]), build := Some(rest[n + 1..])))
      else None
    else if s[0] == '+' && Identifiers(s[1..]) then Some(p.(build := Some(s[1..])))
    else None
  }

  function ParsePatch(s: string, p: Parts): Option<Parts> {
    if !Starts(s, '.') then ParseEnding(s, p)
    else
      var n := DigitRun(s[1..]);
      if n == 0 then None else ParseEnding(s[1 + n..], p.(patch := Some(s[1..1 + n])))
  }

  function ParseMinor(s: string, p: Parts): Option<Parts> {
    if !Starts(s, '.') then ParseEnding(s, p)
    else
      var n := DigitRun(s[1..]);
      if n == 0 then None else ParsePatch(s[1 + n..], p.(minor := Some(s[1..1 + n])))
  }

  function ParseMajor(s: string, space: string, vee: string): Option<Parts> {
    var n := DigitRun(s);
    if n == 0 then None else ParseMinor(s[n..], Parts(space, vee, s[..n], None, None, None, None))
  }

  function Parse(s: string): Option<Parts> {
    var b := BlankRun(s);
    var t := s[b..];
    if t != "" && Vee(t[0]) then ParseMajor(t[1..], s[..b], t[..1]) else ParseMajor(t, s[..b], "")
  }

  // ---- parsing undoes printing -----------------------------------------------------------

  lemma {:induction false} DigitsRun(w: string, s: string)
    requires Digits(w) && (s == "" || !Digit(s[0]))
    ensures DigitRun(w + s) == |w| && (w + s)[..|w|] == w && (w + s)[|w|..] == s
  {
    if w == "" {
      assert w + s == s;
    } else {
      assert (w + s)[1..] == w[1..] + s;
      DigitsRun(w[1..], s);
    }
  }

  lemma {:induction false} BlanksRun(w: string, s: string)
    requires Blanks(w) && (s == "" || !Blank(s[0]))
    ensures BlankRun(w + s) == |w|
  {
    if w == "" {
      assert w + s == s;
    } else {
      assert (w + s)[1..] == w[1..] + s;
      BlanksRun(w[1..], s);
    }
  }

  lemma {:induction false} PlusFirst(w: string, s: string)
    requires '+' !in w && (s == "" || s[0] == '+')
    ensures PlusAt(w + s) == |w|
  {
    if w == "" {
      assert w + s == s;
    } else {
      assert (w + s)[1..] == w[1..] + s;
      PlusFirst(w[1..], s);
    }
  }

  lemma {:induction false} IdentifiersOnPlain(s: string, begun: bool)
    requires IdentifiersOn(s, begun)
    ensures '+' !in s
    decreases |s|
  {
    if s != "" {
      IdentifiersOnPlain(s[1..], s[0] != '.');
    }
  }

  lemma IdentifiersPlain(s: string)
    requires Identifiers(s)
    ensures '+' !in s
  {
    SplitValid(s, false);
    assert Identifier(Split(s)[0]);
    IdentifiersOnPlain(s, false);
  }

  lemma EndingParses(p: Parts)
    requires Valid(p)
    ensures ParseEnding(Ending(p), p.(pre := None, build := None)) == Some(p)
  {
    hide Identifiers;
    hide Numeral;
    hide Blanks;
    if p.pre.Some? {
      IdentifiersPlain(p.pre.value);
      PlusFirst(p.pre.value, Marked('+', p.build));
      var rest := p.pre.value + Marked('+', p.build);
      assert Ending(p)[1..] == rest;
      assert rest[..|p.pre.value|] == p.pre.value;
      assert p.build.Some? ==> rest[|p.pre.value| + 1..] == p.build.value;
      assert p.build.None? ==> rest == p.pre.value;
    } else {
      assert Ending(p) == Marked('+', p.build);
    }
  }

  /** A dot, a numeral and what follows it come apart again. */
  lemma DottedRun(n: string, tail: string)
    requires Digits(n) && (tail == "" || !Digit(tail[0]))
    ensures var s := ['.'] + n + tail;
            && s[1..] == n + tail && DigitRun(s[1..]) == |n|
            && s[1..1 + |n|] == n && s[1 + |n|..] == tail
  {
    DigitsRun(n, tail);
    assert (['.'] + n + tail)[1..] == n + tail;
  }

  lemma EndingBegins(p: Parts)
    ensures Ending(p) == "" || Ending(p)[0] == '-' || Ending(p)[0] == '+'
  {
  }

  lemma PatchParses(p: Parts)
    requires Valid(p)
    ensures ParsePatch(Marked('.', p.patch) + Ending(p), p.(patch := None, pre := None, build := None)) == Some(p)
  {
    hide ParseEnding;
    hide Identifiers;
    hide Ending;
    EndingParses(p);
    EndingBegins(p);
    if p.patch.Some? {
      DottedRun(p.patch.value, Ending(p));
    } else {
      assert "" + Ending(p) == Ending(p);
    }
  }

  lemma MinorParses(p: Parts)
    requires Valid(p)
    ensures ParseMinor(Marked('.', p.minor) + (Marked('.', p.patch) + Ending(p)),
                       p.(minor := None, patch := None, pre := None, build := None)) == Some(p)
  {
    hide ParsePatch;
    hide ParseEnding;
    hide Identifiers;
    hide Ending;
    EndingBegins(p);
    var tail := Marked('.', p.patch) + Ending(p);
    if p.minor.Some? {
      PatchParses(p);
      DottedRun(p.minor.value, tail);
    } else {
      EndingParses(p);
      assert "" + ("" + Ending(p)) == Ending(p);
    }
  }

  lemma MajorParses(p: Parts)
    requires Valid(p)
    ensures ParseMajor(p.major + (Marked('.', p.minor) + (Marked('.', p.patch) + Ending(p))), p.space, p.vee) == Some(p)
  {
    hide ParseMinor;
    MinorParses(p);
    DigitsRun(p.major, Marked('.', p.minor) + (Marked('.', p.patch) + Ending(p)));
  }

  lemma FrontParses(space: string, vee: string, number: string)
    requires Blanks(space) && (vee == "" || (|vee| == 1 && Vee(vee[0]))) && number != "" && Digit(number[0])
    ensures Parse(space + (vee + number)) == ParseMajor(number, space, vee)
  {
    hide ParseMajor;
    var t := vee + number;
    BlanksRun(space, t);
    var s := space + t;
    assert s[..|space|] == space && s[|space|..] == t;
    if vee == "" {
      assert t == number;
    } else {
      assert t[1..] == number && t[..1] == vee;
    }
  }

  /** Everything the grammar admits parses, into what it was made of ... */
  lemma ParsePrint(p: Parts)
    requires Valid(p)
    ensures Parse(Print(p)) == Some(p)
  {
    MajorParses(p);
    hide ParseMajor;
    hide Parse;
    FrontParses(p.space, p.vee, p.major + (Marked('.', p.minor) + (Marked('.', p.patch) + Ending(p))));
  }

  /** ... and nothing else does. */
  lemma PrintParse(s: string)
    requires Parse(s).Some?
    ensures Valid(Parse(s).value) && Print(Parse(s).value) == s
  {
    hide ParseMajor;
    BlankRunBlank(s);
    var b := BlankRun(s);
    var t := s[b..];
    assert s == s[..b] + t;
    if t != "" && Vee(t[0]) {
      MajorSound(t[1..], s[..b], t[..1]);
      assert t == t[..1] + t[1..];
    } else {
      MajorSound(t, s[..b], "");
      assert t == "" + t;
    }
  }

  lemma MajorSound(s: string, space: string, vee: string)
    requires Blanks(space) && (vee == "" || (|vee| == 1 && Vee(vee[0]))) && ParseMajor(s, space, vee).Some?
    ensures var q := ParseMajor(s, space, vee).value;
            && Valid(q) && q.space == space && q.vee == vee
            && q.major + (Marked('.', q.minor) + (Marked('.', q.patch) + Ending(q))) == s
  {
    hide ParseMinor;
    var n := DigitRun(s);
    MinorSound(s[n..], Parts(space, vee, s[..n], None, None, None, None));
    assert s == s[..n] + s[n..];
  }

  lemma {:induction false} BlankRunBlank(s: string)
    ensures Blanks(s[..BlankRun(s)])
  {
    if s != "" && Blank(s[0]) {
      BlankRunBlank(s[1..]);
      var n := BlankRun(s[1..]);
      assert s[..1 + n] == [s[0]] + s[1..][..n];
    }
  }

  predicate Begun(p: Parts) {
    && Blanks(p.space) && (p.vee == "" || (|p.vee| == 1 && Vee(p.vee[0]))) && Numeral(p.major)
    && (p.minor.Some? ==> Numeral(p.minor.value)) && (p.patch.Some? ==> p.minor.Some? && Numeral(p.patch.value))
    && p.pre.None? && p.build.None?
  }

  lemma PreSplits(s: string, n: nat)
    requires s != "" && s[0] == '-' && n < |s| && (n + 1 < |s| ==> s[n + 1] == '+')
    ensures n + 1 == |s| ==> s == "-" + s[1..] + "" && s[1..][..n] == s[1..]
    ensures n + 1 < |s| ==> s == "-" + s[1..][..n] + ("+" + s[1..][n + 1..])
  {
  }

  lemma EndingSound(s: string, p: Parts)
    requires Begun(p) && ParseEnding(s, p).Some?
    ensures var q := ParseEnding(s, p).value;
            Valid(q) && Ending(q) == s && q == p.(pre := q.pre, build := q.build)
  {
    hide Identifiers;
    hide Numeral;
    hide Blanks;
    hide Vee;
    if s != "" && s[0] == '-' {
      PreSplits(s, PlusAt(s[1..]));
    } else if s != "" {
      assert s == ['+'] + s[1..];
    }
  }

  lemma PatchSound(s: string, p: Parts)
    requires Begun(p) && p.minor.Some? && p.patch.None? && ParsePatch(s, p).Some?
    ensures var q := ParsePatch(s, p).value;
            && Valid(q) && Marked('.', q.patch) + Ending(q) == s
            && q == p.(patch := q.patch, pre := q.pre, build := q.build)
  {
    hide ParseEnding;
    hide Ending;
    hide Identifiers;
    hide Blanks;
    hide Vee;
    if Starts(s, '.') {
      var n := DigitRun(s[1..]);
      assert s[1..1 + n] == s[1..][..n];
      EndingSound(s[1 + n..], p.(patch := Some(s[1..1 + n])));
      assert s == ['.'] + s[1..1 + n] + s[1 + n..];
    } else {
      EndingSound(s, p);
    }
  }

  lemma MinorSound(s: string, p: Parts)
    requires Begun(p) && p.minor.None? && p.patch.None? && ParseMinor(s, p).Some?
    ensures var q := ParseMinor(s, p).value;
            && Valid(q) && Marked('.', q.minor) + (Marked('.', q.patch) + Ending(q)) == s
            && q.space == p.space && q.vee == p.vee && q.major == p.major
  {
    hide ParsePatch;
    hide ParseEnding;
    hide Ending;
    hide Identifiers;
    hide Blanks;
    hide Vee;
    if Starts(s, '.') {
      var n := DigitRun(s[1..]);
      assert s[1..1 + n] == s[1..][..n];
      PatchSound(s[1 + n..], p.(minor := Some(s[1..1 + n])));
      assert s == ['.'] + s[1..1 + n] + s[1 + n..];
    } else {
      EndingSound(s, p);
    }
  }
}
