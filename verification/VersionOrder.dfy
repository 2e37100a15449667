/** Which of two version strings is newer: src/base/version.c from its struct on. */
module VersionOrder {
  import opened Base
  import opened Version

  /** A version as the comparison sees it. */
  datatype Semver = Semver(major: nat, minor: nat, patch: nat, pre: Option<string>)

  predicate Proper(v: Semver) {
    v.pre.Some? ==> Identifiers(v.pre.value)
  }

  function Number(s: Option<string>): nat
    requires s.Some? ==> Digits(s.value)
  {
    if s.None? then 0 else Capped(s.value)
  }

  function Reading(p: Parts): (v: Semver)
    requires Valid(p)
    ensures Proper(v)
  {
    Semver(Capped(p.major), Number(p.minor), Number(p.patch), p.pre)
  }

  /** What a string, or no string, is read as. */
  function Read(text: Option<string>): (v: Option<Semver>)
    ensures v.Some? ==> Proper(v.value)
  {
    if text.None? || Parse(text.value).None? then None
    else
      PrintParse(text.value);
      Some(Reading(Parse(text.value).value))
  }

  // ---- the order -------------------------------------------------------------------------

  function Sign(a: int, b: int): int {
    if a < b then -1 else if a > b then 1 else 0
  }

  function OrderText(x: string, y: string): int {
    if x == "" || y == "" then Sign(|x|, |y|)
    else if x[0] != y[0] then Sign(x[0] as int, y[0] as int)
    else OrderText(x[1..], y[1..])
  }

  function OrderId(x: string, y: string): int {
    if Numeral(x) && Numeral(y) then Sign(Capped(x), Capped(y))
    else if Numeral(x) then -1
    else if Numeral(y) then 1
    else OrderText(x, y)
  }

  function OrderIds(a: seq<string>, b: seq<string>): int {
    if a == [] || b == [] then Sign(|a|, |b|)
    else if OrderId(a[0], b[0]) != 0 then OrderId(a[0], b[0])
    else OrderIds(a[1..], b[1..])
  }

  /** A version without a prerelease is above any with one. */
  function OrderPre(a: Option<string>, b: Option<string>): int {
    if a.Some? && b.Some? then OrderIds(Split(a.value), Split(b.value))
    else if a.Some? then -1
    else if b.Some? then 1
    else 0
  }

  function OrderSemver(a: Semver, b: Semver): int {
    if a.major != b.major then Sign(a.major, b.major)
    else if a.minor != b.minor then Sign(a.minor, b.minor)
    else if a.patch != b.patch then Sign(a.patch, b.patch)
    else OrderPre(a.pre, b.pre)
  }

  function Order(a: Option<string>, b: Option<string>): int {
    var x, y := Read(a), Read(b);
    if x.Some? && y.Some? then OrderSemver(x.value, y.value)
    else if x.Some? then 1
    else if y.Some? then -1
    else 0
  }

  // ---- it is a total preorder ------------------------------------------------------------

  lemma {:induction false} TextFlips(x: string, y: string)
    ensures OrderText(y, x) == -OrderText(x, y)
  {
    if x != "" && y != "" && x[0] == y[0] {
      TextFlips(x[1..], y[1..]);
    }
  }

  lemma IdFlips(x: string, y: string)
    ensures OrderId(y, x) == -OrderId(x, y)
  {
    TextFlips(x, y);
  }

  lemma {:induction false} IdsFlip(a: seq<string>, b: seq<string>)
    ensures OrderIds(b, a) == -OrderIds(a, b)
  {
    hide OrderId;
    if a != [] && b != [] {
      IdFlips(a[0], b[0]);
      IdsFlip(a[1..], b[1..]);
    }
  }

  lemma SemverFlips(a: Semver, b: Semver)
    ensures OrderSemver(b, a) == -OrderSemver(a, b)
  {
    hide OrderIds;
    if a.pre.Some? && b.pre.Some? {
      IdsFlip(Split(a.pre.value), Split(b.pre.value));
    }
  }

  lemma {:induction false} TextTransitive(x: string, y: string, z: string)
    requires OrderText(x, y) <= 0 && OrderText(y, z) <= 0
    ensures OrderText(x, z) <= 0 && (OrderText(x, z) == 0 ==> OrderText(x, y) == 0 && OrderText(y, z) == 0)
  {
    if x != "" && y != "" && z != "" && x[0] == y[0] == z[0] {
      TextTransitive(x[1..], y[1..], z[1..]);
    }
  }

  lemma IdTransitive(x: string, y: string, z: string)
    requires OrderId(x, y) <= 0 && OrderId(y, z) <= 0
    ensures OrderId(x, z) <= 0 && (OrderId(x, z) == 0 ==> OrderId(x, y) == 0 && OrderId(y, z) == 0)
  {
    if !Numeral(x) && !Numeral(y) && !Numeral(z) {
      TextTransitive(x, y, z);
    }
  }

  lemma {:induction false} IdsTransitive(a: seq<string>, b: seq<string>, c: seq<string>)
    requires OrderIds(a, b) <= 0 && OrderIds(b, c) <= 0
    ensures OrderIds(a, c) <= 0 && (OrderIds(a, c) == 0 ==> OrderIds(a, b) == 0 && OrderIds(b, c) == 0)
  {
    hide OrderId;
    if a != [] && b != [] && c != [] {
      IdTransitive(a[0], b[0], c[0]);
      if OrderId(a[0], b[0]) == 0 && OrderId(b[0], c[0]) == 0 {
        IdFlips(a[0], b[0]);
        IdFlips(b[0], c[0]);
        IdTransitive(c[0], b[0], a[0]);
        IdFlips(a[0], c[0]);
        IdsTransitive(a[1..], b[1..], c[1..]);
      }
    }
  }

  lemma SemverTransitive(a: Semver, b: Semver, c: Semver)
    requires OrderSemver(a, b) <= 0 && OrderSemver(b, c) <= 0
    ensures OrderSemver(a, c) <= 0
  {
    hide OrderIds;
    if a.pre.Some? && b.pre.Some? && c.pre.Some?
       && OrderPre(a.pre, b.pre) <= 0 && OrderPre(b.pre, c.pre) <= 0
    {
      IdsTransitive(Split(a.pre.value), Split(b.pre.value), Split(c.pre.value));
    }
  }

  lemma {:induction false} TextSame(x: string)
    ensures OrderText(x, x) == 0
  {
    if x != "" {
      TextSame(x[1..]);
    }
  }

  lemma {:induction false} IdsSame(a: seq<string>)
    ensures OrderIds(a, a) == 0
  {
    if a != [] {
      TextSame(a[0]);
      IdsSame(a[1..]);
    }
  }

  /** Comparing is reflexive, antisymmetric in sign and transitive, on all strings and none. */
  lemma TotalPreorder(a: Option<string>, b: Option<string>, c: Option<string>)
    ensures Order(a, a) == 0
    ensures Order(b, a) == -Order(a, b)
    ensures Order(a, b) <= 0 && Order(b, c) <= 0 ==> Order(a, c) <= 0
  {
    hide OrderSemver;
    var x, y, z := Read(a), Read(b), Read(c);
    if x.Some? {
      SemverSame(x.value);
    }
    if x.Some? && y.Some? {
      SemverFlips(x.value, y.value);
      if z.Some? && OrderSemver(x.value, y.value) <= 0 && OrderSemver(y.value, z.value) <= 0 {
        SemverTransitive(x.value, y.value, z.value);
      }
    }
  }

  lemma SemverSame(a: Semver)
    ensures OrderSemver(a, a) == 0
  {
    if a.pre.Some? {
      IdsSame(Split(a.pre.value));
    }
  }

  /** What does not parse is all alike, and below everything that does. */
  lemma Unparseable(a: string, b: string)
    requires Parse(a).None?
    ensures Parse(b).None? ==> Order(Some(a), Some(b)) == 0 && Order(Some(a), None) == 0
    ensures Parse(b).Some? ==> Order(Some(a), Some(b)) < 0 && Order(None, Some(b)) < 0
  {
  }

  // ---- section 11 of SemVer 2.0.0 --------------------------------------------------------

  predicate TextBelowAt(x: string, y: string, k: nat) {
    && k <= |x| && k < |y| && (forall j :: 0 <= j < k ==> x[j] == y[j])
    && (k == |x| || x[k] < y[k])
  }

  /** In ASCII order, the shorter first. */
  ghost predicate TextBelow(x: string, y: string) {
    exists k: nat :: TextBelowAt(x, y, k)
  }

  /** Numerically if both are numbers; a number below anything else. */
  ghost predicate IdBelow(x: string, y: string) {
    if Numeral(x) && Numeral(y) then Value(x) < Value(y)
    else if Numeral(x) || Numeral(y) then Numeral(x)
    else TextBelow(x, y)
  }

  predicate IdAlike(x: string, y: string) {
    if Numeral(x) && Numeral(y) then Value(x) == Value(y) else x == y
  }

  ghost predicate IdsBelowAt(a: seq<string>, b: seq<string>, k: nat) {
    && k <= |a| && k < |b| && (forall j :: 0 <= j < k ==> IdAlike(a[j], b[j]))
    && (k == |a| || IdBelow(a[k], b[k]))
  }

  /** At the first difference; more identifiers above fewer, if those before them are alike. */
  ghost predicate IdsBelow(a: seq<string>, b: seq<string>) {
    exists k: nat :: IdsBelowAt(a, b, k)
  }

  function Worth(s: Option<string>): nat
    requires s.Some? ==> Digits(s.value)
  {
    if s.None? then 0 else Value(s.value)
  }

  ghost predicate Below(p: Parts, q: Parts)
    requires Valid(p) && Valid(q)
  {
    if Value(p.major) != Value(q.major) then Value(p.major) < Value(q.major)
    else if Worth(p.minor) != Worth(q.minor) then Worth(p.minor) < Worth(q.minor)
    else if Worth(p.patch) != Worth(q.patch) then Worth(p.patch) < Worth(q.patch)
    else p.pre.Some? && (q.pre.None? || IdsBelow(Split(p.pre.value), Split(q.pre.value)))
  }

  predicate SmallId(s: string) {
    Numeral(s) ==> Value(s) < 10 * CAP
  }

  predicate SmallIds(a: seq<string>) {
    forall i :: 0 <= i < |a| ==> SmallId(a[i])
  }

  /** Every number in it is below 10^9. */
  predicate Small(p: Parts)
    requires Valid(p)
  {
    && Value(p.major) < 10 * CAP && Worth(p.minor) < 10 * CAP && Worth(p.patch) < 10 * CAP
    && (p.pre.Some? ==> SmallIds(Split(p.pre.value)))
  }

  lemma {:induction false} TextAgrees(x: string, y: string)
    ensures OrderText(x, y) < 0 <==> TextBelow(x, y)
    ensures OrderText(x, y) == 0 <==> x == y
  {
    if x == "" || y == "" {
      assert x == "" && y != "" ==> TextBelowAt(x, y, 0);
    } else if x[0] != y[0] {
      assert x[0] < y[0] ==> TextBelowAt(x, y, 0);
    } else {
      TextAgrees(x[1..], y[1..]);
      TextBelowNext(x, y);
      assert x == [x[0]] + x[1..] && y == [y[0]] + y[1..];
    }
  }

  lemma TextBelowNext(x: string, y: string)
    requires x != "" && y != "" && x[0] == y[0]
    ensures TextBelow(x, y) <==> TextBelow(x[1..], y[1..])
  {
    if TextBelow(x, y) {
      var k: nat :| TextBelowAt(x, y, k);
      assert TextBelowAt(x[1..], y[1..], k - 1);
    }
    if TextBelow(x[1..], y[1..]) {
      var k: nat :| TextBelowAt(x[1..], y[1..], k);
      assert forall j :: 0 < j < k + 1 ==> x[j] == x[1..][j - 1] && y[j] == y[1..][j - 1];
      assert TextBelowAt(x, y, k + 1);
    }
  }

  lemma IdAgrees(x: string, y: string)
    requires SmallId(x) && SmallId(y)
    ensures OrderId(x, y) < 0 <==> IdBelow(x, y)
    ensures OrderId(x, y) == 0 <==> IdAlike(x, y)
  {
    if Numeral(x) {
      CapIsExact(x);
    }
    if Numeral(y) {
      CapIsExact(y);
    }
    TextAgrees(x, y);
  }

  lemma {:induction false} IdsAgree(a: seq<string>, b: seq<string>)
    requires SmallIds(a) && SmallIds(b)
    ensures OrderIds(a, b) < 0 <==> IdsBelow(a, b)
  {
    hide OrderId;
    hide IdBelow;
    hide IdAlike;
    hide SmallId;
    if a == [] || b == [] {
      assert a == [] && b != [] ==> IdsBelowAt(a, b, 0);
    } else {
      IdAgrees(a[0], b[0]);
      IdsBelowNext(a, b);
      if OrderId(a[0], b[0]) == 0 {
        IdsAgree(a[1..], b[1..]);
      }
    }
  }

  lemma IdsBelowNext(a: seq<string>, b: seq<string>)
    requires a != [] && b != []
    ensures IdsBelow(a, b) <==> IdBelow(a[0], b[0]) || (IdAlike(a[0], b[0]) && IdsBelow(a[1..], b[1..]))
  {
    hide IdBelow;
    hide IdAlike;
    if IdsBelow(a, b) {
      var k: nat :| IdsBelowAt(a, b, k);
      if k > 0 {
        assert IdsBelowAt(a[1..], b[1..], k - 1);
      }
    }
    if IdBelow(a[0], b[0]) {
      assert IdsBelowAt(a, b, 0);
    }
    if IdAlike(a[0], b[0]) && IdsBelow(a[1..], b[1..]) {
      var k: nat :| IdsBelowAt(a[1..], b[1..], k);
      assert forall j :: 0 < j < k + 1 ==> a[j] == a[1..][j - 1] && b[j] == b[1..][j - 1];
      assert IdsBelowAt(a, b, k + 1);
    }
  }

  lemma Exact(s: Option<string>)
    requires s.Some? ==> Digits(s.value)
    requires Worth(s) < 10 * CAP
    ensures Number(s) == Worth(s)
  {
    if s.Some? {
      CapIsExact(s.value);
    }
  }

  lemma BelowAgrees(p: Parts, q: Parts)
    requires Valid(p) && Valid(q) && Small(p) && Small(q)
    ensures OrderSemver(Reading(p), Reading(q)) < 0 <==> Below(p, q)
  {
    hide Identifiers;
    hide Split;
    hide SmallIds;
    hide IdsBelow;
    hide OrderIds;
    CapIsExact(p.major);
    CapIsExact(q.major);
    Exact(p.minor);
    Exact(q.minor);
    Exact(p.patch);
    Exact(q.patch);
    if p.pre.Some? && q.pre.Some? {
      IdsAgree(Split(p.pre.value), Split(q.pre.value));
    }
  }

  /** The comparison is that of SemVer wherever every number is below 10^9. */
  lemma AgreesWithSemver(p: Parts, q: Parts)
    requires Valid(p) && Valid(q) && Small(p) && Small(q)
    ensures var c := Order(Some(Print(p)), Some(Print(q)));
            (c < 0 <==> Below(p, q)) && (c > 0 <==> Below(q, p))
  {
    hide OrderSemver;
    hide Below;
    hide Reading;
    hide Parse;
    hide Print;
    hide Small;
    ParsePrint(p);
    ParsePrint(q);
    BelowAgrees(p, q);
    BelowAgrees(q, p);
    SemverFlips(Reading(p), Reading(q));
  }

  // ---- beyond 10^9 -----------------------------------------------------------------------

  /** A comparison that gives the standard's answer, either way round. */
  ghost predicate Right(p: Parts, q: Parts)
    requires Valid(p) && Valid(q)
  {
    var c := Order(Some(Print(p)), Some(Print(q)));
    (c < 0 <==> Below(p, q)) && (c > 0 <==> Below(q, p))
  }

  predicate IdWithin(s: string, n: nat) {
    Numeral(s) ==> Value(s) <= n
  }

  /** No number in it is above `n`. */
  predicate Within(p: Parts, n: nat)
    requires Valid(p)
  {
    && Value(p.major) <= n && Worth(p.minor) <= n && Worth(p.patch) <= n
    && (p.pre.Some? ==> forall i :: 0 <= i < |Split(p.pre.value)| ==> IdWithin(Split(p.pre.value)[i], n))
  }

  ghost predicate AllRight(n: nat) {
    forall p, q :: Valid(p) && Valid(q) && Within(p, n) && Within(q, n) ==> Right(p, q)
  }

  /** A version that is one number. */
  function Plain(major: string): (p: Parts)
    requires Numeral(major)
    ensures Valid(p)
  {
    Parts("", "", major, None, None, None, None)
  }

  function Power10(n: nat): nat {
    if n == 0 then 1 else 10 * Power10(n - 1)
  }

  function Nines(n: nat): (s: string)
    ensures |s| == n && Digits(s)
  {
    seq(n, _ => '9')
  }

  function OneAndZeros(n: nat): (s: string)
    ensures |s| == n + 1 && Digits(s)
  {
    ['1'] + seq(n, _ => '0')
  }

  lemma {:induction false} RoundNumbers(n: nat)
    ensures Value(Nines(n)) == Power10(n) - 1 && Value(OneAndZeros(n)) == Power10(n)
  {
    if n > 0 {
      RoundNumbers(n - 1);
      assert Nines(n)[..n - 1] == Nines(n - 1);
      assert OneAndZeros(n)[..n] == OneAndZeros(n - 1);
    } else {
      assert OneAndZeros(0) == ['1'] && ['1'][..0] == "";
    }
  }

  lemma Billion()
    ensures Power10(9) == 10 * CAP && Power10(8) == CAP
  {
    assert Power10(4) == 10000;
    assert Power10(8) == 10000 * Power10(4);
  }

  lemma Spelled()
    ensures Nines(9) == "999999999" && OneAndZeros(9) == "1000000000"
  {
    var nines, zeros := Nines(9), OneAndZeros(9);
    assert nines == [nines[0], nines[1], nines[2], nines[3], nines[4], nines[5], nines[6], nines[7], nines[8]];
    assert zeros == [zeros[0], zeros[1], zeros[2], zeros[3], zeros[4],
                     zeros[5], zeros[6], zeros[7], zeros[8], zeros[9]];
  }

  lemma ReadAround()
    ensures Value(Nines(9)) == 10 * CAP - 1 && Capped(Nines(9)) == 10 * CAP - 1
    ensures Value(OneAndZeros(9)) == 10 * CAP && Capped(OneAndZeros(9)) == CAP
  {
    RoundNumbers(9);
    RoundNumbers(8);
    Billion();
    hide Value;
    hide Power10;
    CapIsExact(Nines(9));
    CapIsExact(OneAndZeros(8));
    assert OneAndZeros(9)[..9] == OneAndZeros(8);
  }

  lemma BackwardsAt(earlier: string, later: string)
    requires Numeral(earlier) && Numeral(later) && Value(earlier) < Value(later) && Capped(earlier) > Capped(later)
    ensures Below(Plain(earlier), Plain(later)) && Order(Some(earlier), Some(later)) == 1
    ensures !Right(Plain(earlier), Plain(later))
  {
    hide Read;
    hide Print;
    ReadsPlain(earlier);
    ReadsPlain(later);
  }

  /** From 10^9 on digits no longer count, and a newer version can be reported older than its predecessor. */
  lemma Backwards()
    ensures Numeral("999999999") && Numeral("1000000000")
    ensures Below(Plain("999999999"), Plain("1000000000"))
    ensures Order(Some("999999999"), Some("1000000000")) == 1
  {
    hide Value;
    hide Capped;
    hide Order;
    hide Below;
    Spelled();
    ReadAround();
    BackwardsAt(Nines(9), OneAndZeros(9));
  }

  lemma ReadsPlain(major: string)
    requires Numeral(major)
    ensures Print(Plain(major)) == major && Read(Some(major)) == Some(Semver(Capped(major), 0, 0, None))
  {
    ParsePrint(Plain(major));
    assert Print(Plain(major)) == major;
  }

  /** The bound is exact: comparison is SemVer's on all versions with numbers up to `n` just if `n` is below 10^9. */
  lemma AgreementBound(n: nat)
    ensures AllRight(n) <==> n < 10 * CAP
  {
    hide Right;
    hide Value;
    hide Capped;
    if n < 10 * CAP {
      forall p, q | Valid(p) && Valid(q) && Within(p, n) && Within(q, n) ensures Right(p, q) {
        RightBelow(p, q, n);
      }
    } else {
      var p, q := Plain(Nines(9)), Plain(OneAndZeros(9));
      ReadAround();
      BackwardsAt(Nines(9), OneAndZeros(9));
      assert Within(p, n) && Within(q, n);
    }
  }

  lemma RightBelow(p: Parts, q: Parts, n: nat)
    requires Valid(p) && Valid(q) && Within(p, n) && Within(q, n) && n < 10 * CAP
    ensures Right(p, q)
  {
    hide Order;
    hide Below;
    hide Value;
    AgreesWithSemver(p, q);
  }

  /** Ties, too: any two numerals that differ only after 10^8 has been passed are read alike. */
  lemma CapTies(s: string, d: char, e: char)
    requires Digits(s) && Value(s) >= CAP && Digit(d) && Digit(e) && d < e
    ensures Value(s + [d]) < Value(s + [e]) && Below(Plain(s + [d]), Plain(s + [e]))
    ensures Order(Some(s + [d]), Some(s + [e])) == 0
  {
    CapIsExact(s);
    assert (s + [d])[..|s|] == s && (s + [e])[..|s|] == s;
    ReadsPlain(s + [d]);
    ReadsPlain(s + [e]);
  }

  // ---- the code --------------------------------------------------------------------------

  /** What may follow the numbers: a prerelease, build metadata, both or neither, well formed. */
  method ParseTail(text: string, ghost p: Parts) returns (ok: bool, pre: Option<string>)
    requires p.pre.None?
    ensures ok <==> ParseEnding(text, p).Some?
    ensures ok ==> var q := ParseEnding(text, p).value; pre == q.pre && q == p.(pre := q.pre, build := q.build)
  {
    hide Identifiers;
    if text != "" && text[0] == '-' {
      var rest := text[1..];
      var plus := PlusAt(rest);
      ok := DotIdentifiersAreValid(rest[..plus]);
      assert rest[..|rest|] == rest;
      if ok && plus < |rest| {
        ok := DotIdentifiersAreValid(rest[plus + 1..]);
      }
      return ok, Some(rest[..plus]);
    }
    if text != "" && text[0] == '+' {
      ok := DotIdentifiersAreValid(text[1..]);
      return ok, None;
    }
    return text == "", None;
  }

  /** The numbers, and then what follows them. */
  method ParseNumbers(text: string, ghost space: string, ghost vee: string) returns (out: Option<Semver>)
    ensures out.Some? <==> ParseMajor(text, space, vee).Some?
    ensures out.Some? ==>
      var p := ParseMajor(text, space, vee).value;
      && Digits(p.major) && (p.minor.Some? ==> Digits(p.minor.value)) && (p.patch.Some? ==> Digits(p.patch.value))
      && out.value == Semver(Capped(p.major), Number(p.minor), Number(p.patch), p.pre)
  {
    hide ParseEnding;
    hide Capped;
    var t := text;
    var used, major := ParseNumber(t);
    if used == 0 {
      return None;
    }
    ghost var p := Parts(space, vee, t[..used], None, None, None, None);
    var minor, patch := 0, 0;
    t := t[used..];
    if t != "" && t[0] == '.' {
      used, minor := ParseNumber(t[1..]);
      if used == 0 {
        return None;
      }
      assert t[1..1 + used] == t[1..][..used];
      p := p.(minor := Some(t[1..1 + used]));
      t := t[1 + used..];
      if t != "" && t[0] == '.' {
        used, patch := ParseNumber(t[1..]);
        if used == 0 {
          return None;
        }
        assert t[1..1 + used] == t[1..][..used];
        p := p.(patch := Some(t[1..1 + used]));
        t := t[1 + used..];
      }
    }
    assert ParseMajor(text, space, vee) == ParseEnding(t, p);
    var ok, pre := ParseTail(t, p);
    if !ok {
      return None;
    }
    return Some(Semver(major, minor, patch, pre));
  }

  method SemverParse(text: Option<string>) returns (out: Option<Semver>)
    ensures out == Read(text)
  {
    hide ParseMajor;
    if text.None? {
      return None;
    }
    var s := text.value;
    var b := 0;
    assert s[0..] == s;
    while b < |s| && (s[b] == ' ' || s[b] == '\t')
      invariant 0 <= b <= |s| && b + BlankRun(s[b..]) == BlankRun(s)
    {
      assert s[b..][1..] == s[b + 1..];
      b := b + 1;
    }
    ghost var vee := "";
    var t := s[b..];
    if t != "" && (t[0] == 'v' || t[0] == 'V') {
      vee, t := t[..1], t[1..];
    }
    out := ParseNumbers(t, s[..b], vee);
    if out.Some? {
      PrintParse(s);
    }
  }

  /** The next identifier of a prerelease, or false when there are no more. */
  method PreNext(cursor: string) returns (has: bool, part: string, rest: string)
    ensures has <==> cursor != ""
    ensures has ==> Split(cursor) == [part] + (if |part| < |cursor| then Split(rest) else []) && |part| <= |cursor|
    ensures has ==> (|part| < |cursor| ==> |rest| == |cursor| - |part| - 1) && (|part| == |cursor| ==> rest == "")
  {
    if cursor == "" {
      return false, "", "";
    }
    var stop := 0;
    assert cursor[0..] == cursor;
    while stop < |cursor| && cursor[stop] != '.'
      invariant 0 <= stop <= |cursor| && stop + DotAt(cursor[stop..]) == DotAt(cursor)
    {
      assert cursor[stop..][1..] == cursor[stop + 1..];
      stop := stop + 1;
    }
    SplitAtDot(cursor);
    return true, cursor[..stop], if stop < |cursor| then cursor[stop + 1..] else "";
  }

  function DotAt(s: string): (n: nat)
    ensures n <= |s|
  {
    if s == "" || s[0] == '.' then 0 else 1 + DotAt(s[1..])
  }

  lemma {:induction false} SplitAtDot(s: string)
    ensures var n := DotAt(s); Split(s) == [s[..n]] + (if n < |s| then Split(s[n + 1..]) else [])
  {
    if s != "" && s[0] != '.' {
      SplitAtDot(s[1..]);
      var n := DotAt(s[1..]);
      assert s[..n + 1] == [s[0]] + s[1..][..n];
      assert n < |s[1..]| ==> s[1..][n + 1..] == s[n + 2..];
    }
  }

  method PreIsNumeric(text: string) returns (ok: bool)
    ensures ok <==> Numeral(text)
  {
    if |text| == 0 {
      return false;
    }
    for i := 0 to |text|
      invariant forall j :: 0 <= j < i ==> Digit(text[j])
    {
      if !Digit(text[i]) {
        return false;
      }
    }
    return true;
  }

  /** The C library's comparison of the first `n` characters. */
  function Strncmp(x: string, y: string, n: nat): int
    requires n <= |x| && n <= |y|
  {
    if n == 0 then 0
    else if x[0] != y[0] then x[0] as int - y[0] as int
    else Strncmp(x[1..], y[1..], n - 1)
  }

  /** Comparing what two texts share, and then their lengths, is comparing the texts. */
  lemma {:induction false} SharedThenLength(x: string, y: string)
    ensures var d := Strncmp(x, y, Min(|x|, |y|));
            OrderText(x, y) == if d != 0 then Sign(d, 0) else Sign(|x|, |y|)
  {
    if x != "" && y != "" && x[0] == y[0] {
      SharedThenLength(x[1..], y[1..]);
    }
  }

  method CompareId(x: string, y: string) returns (c: int)
    ensures c == OrderId(x, y)
  {
    var xNumeric := PreIsNumeric(x);
    var yNumeric := PreIsNumeric(y);
    if xNumeric && yNumeric {
      assert x[..|x|] == x && y[..|y|] == y;
      AllRun(x);
      AllRun(y);
      var _, a := ParseNumber(x);
      var _, b := ParseNumber(y);
      return if a != b then (if a < b then -1 else 1) else 0;
    }
    if xNumeric != yNumeric {
      return if xNumeric then -1 else 1;
    }
    SharedThenLength(x, y);
    var diff := Strncmp(x, y, Min(|x|, |y|));
    if diff != 0 {
      return if diff < 0 then -1 else 1;
    }
    return if |x| != |y| then (if |x| < |y| then -1 else 1) else 0;
  }

  lemma {:induction false} AllRun(s: string)
    requires Digits(s)
    ensures DigitRun(s) == |s|
  {
    if s != "" {
      AllRun(s[1..]);
    }
  }

  /** The identifiers still to come. */
  ghost function Remaining(cursor: string): seq<string> {
    if cursor == "" then [] else Split(cursor)
  }

  predicate NoneEmpty(parts: seq<string>) {
    forall i :: 0 <= i < |parts| ==> parts[i] != ""
  }

  /** One identifier taken leaves the others. */
  lemma TakenOne(cursor: string, part: string, rest: string)
    requires cursor != "" && NoneEmpty(Split(cursor)) && |part| <= |cursor|
    requires Split(cursor) == [part] + (if |part| < |cursor| then Split(rest) else [])
    requires |part| == |cursor| ==> rest == ""
    ensures Remaining(cursor) == [part] + Remaining(rest) && NoneEmpty(Remaining(rest))
  {
    if |part| < |cursor| {
      assert Split(cursor)[1..] == Split(rest);
      assert Split(rest)[0] == Split(cursor)[1];
    }
  }

  method ComparePrerelease(a: Option<string>, b: Option<string>) returns (c: int)
    requires (a.Some? ==> Identifiers(a.value)) && (b.Some? ==> Identifiers(b.value))
    ensures c == OrderPre(a, b)
  {
    if a.None? && b.None? {
      return 0;
    }
    if a.None? {
      return 1;
    }
    if b.None? {
      return -1;
    }
    Started(a.value);
    Started(b.value);
    c := CompareParts(a.value, b.value);
  }

  lemma Started(s: string)
    requires Identifiers(s)
    ensures Remaining(s) == Split(s) && NoneEmpty(Split(s))
  {
    assert Identifier(Split(s)[0]);
  }

  /** Identifier by identifier, until two differ or one side runs out. */
  method CompareParts(a: string, b: string) returns (c: int)
    requires NoneEmpty(Remaining(a)) && NoneEmpty(Remaining(b))
    ensures c == OrderIds(Remaining(a), Remaining(b))
  {
    hide Split;
    hide OrderId;
    var x, y := a, b;
    while true
      invariant NoneEmpty(Remaining(x)) && NoneEmpty(Remaining(y))
      invariant OrderIds(Remaining(x), Remaining(y)) == OrderIds(Remaining(a), Remaining(b))
      decreases |x|
    {
      var hasA, partA, restA := PreNext(x);
      var hasB, partB, restB := PreNext(y);
      if !hasA && !hasB {
        return 0;
      }
      if !hasA {
        return -1;
      }
      if !hasB {
        return 1;
      }
      TakenOne(x, partA, restA);
      TakenOne(y, partB, restB);
      assert Remaining(x)[1..] == Remaining(restA) && Remaining(y)[1..] == Remaining(restB);
      c := CompareId(partA, partB);
      if c != 0 {
        return;
      }
      x, y := restA, restB;
    }
  }

  method Compare(a: Option<string>, b: Option<string>) returns (c: int)
    ensures c == Order(a, b)
  {
    hide Read;
    hide OrderPre;
    var left := SemverParse(a);
    var right := SemverParse(b);
    if left.None? || right.None? {
      if left.None? && right.None? {
        return 0;
      }
      return if left.Some? then 1 else -1;
    }
    var x, y := left.value, right.value;
    if x.major != y.major {
      return if x.major < y.major then -1 else 1;
    }
    if x.minor != y.minor {
      return if x.minor < y.minor then -1 else 1;
    }
    if x.patch != y.patch {
      return if x.patch < y.patch then -1 else 1;
    }
    c := ComparePrerelease(x.pre, y.pre);
  }
}
