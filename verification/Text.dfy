/** The string operations the memory log uses. A `string` here is a Go string: each character stands for one byte. */
module Text {
  datatype Option<+T> = None | Some(value: T)

  // ---- Searching ----

  ghost predicate OccursAt(s: string, p: string, i: nat) {
    i + |p| <= |s| && s[i..i + |p|] == p
  }

  /** `strings.Index` and `bytes.Index`. */
  function Index(s: string, p: string): (r: Option<nat>)
    ensures r.Some? ==> r.value + |p| <= |s|
  {
    if p <= s then Some(0)
    else if s == "" then None
    else
      var rest := Index(s[1..], p);
      if rest.None? then None else Some(rest.value + 1)
  }

  lemma OccursCharacter(s: string, p: string, j: nat, k: nat)
    requires OccursAt(s, p, j) && k < |p|
    ensures s[j + k] == p[k]
  {
    assert s[j..j + |p|][k] == s[j + k];
  }

  lemma OccursShift(s: string, p: string, j: nat)
    requires s != "" && j > 0
    ensures OccursAt(s, p, j) <==> OccursAt(s[1..], p, j - 1)
  {
    if j + |p| <= |s| {
      assert s[j..j + |p|] == s[1..][j - 1..j - 1 + |p|];
    }
  }

  /** `Index` is the first place where `p` occurs. */
  lemma {:induction false} IndexIsFirst(s: string, p: string)
    ensures Index(s, p).Some? ==>
              OccursAt(s, p, Index(s, p).value) && forall j: nat | j < Index(s, p).value :: !OccursAt(s, p, j)
    ensures Index(s, p).None? ==> forall j: nat :: !OccursAt(s, p, j)
  {
    if p <= s {
      assert s[0..|p|] == p;
    } else if s != "" {
      IndexIsFirst(s[1..], p);
      assert !OccursAt(s, p, 0);
      forall j: nat | j > 0
        ensures OccursAt(s, p, j) <==> OccursAt(s[1..], p, j - 1)
      {
        OccursShift(s, p, j);
      }
    }
  }

  predicate Contains(s: string, p: string) {
    Index(s, p).Some?
  }

  lemma IndexUnique(s: string, p: string, i: nat)
    requires OccursAt(s, p, i) && forall j: nat | j < i :: !OccursAt(s, p, j)
    ensures Index(s, p) == Some(i)
  {
    IndexIsFirst(s, p);
  }

  /** `strings.LastIndex`. */
  function LastIndex(s: string, p: string): Option<nat> {
    if HasSuffix(s, p) then Some(|s| - |p|)
    else if s == "" then None
    else LastIndex(s[..|s| - 1], p)
  }

  lemma OccursInFront(s: string, p: string, j: nat)
    requires s != "" && !HasSuffix(s, p)
    ensures OccursAt(s, p, j) <==> OccursAt(s[..|s| - 1], p, j)
  {
    var front := s[..|s| - 1];
    if j + |p| <= |front| {
      assert s[j..j + |p|] == front[j..j + |p|];
    }
  }

  lemma SuffixIsLast(s: string, p: string)
    requires HasSuffix(s, p)
    ensures OccursAt(s, p, |s| - |p|) && forall j: nat | j > |s| - |p| :: !OccursAt(s, p, j)
  {
  }

  lemma NothingInNothing(p: string)
    requires p != ""
    ensures forall j: nat :: !OccursAt("", p, j)
  {
  }

  /** `LastIndex` is the last place where `p` occurs. */
  lemma {:induction false} LastIndexIsLast(s: string, p: string)
    ensures LastIndex(s, p).Some? ==>
              OccursAt(s, p, LastIndex(s, p).value) && forall j: nat | j > LastIndex(s, p).value :: !OccursAt(s, p, j)
    ensures LastIndex(s, p).None? ==> forall j: nat :: !OccursAt(s, p, j)
  {
    hide OccursAt;
    if HasSuffix(s, p) {
      SuffixIsLast(s, p);
    } else if s != "" {
      LastIndexIsLast(s[..|s| - 1], p);
      forall j: nat
        ensures OccursAt(s, p, j) <==> OccursAt(s[..|s| - 1], p, j)
      {
        OccursInFront(s, p, j);
      }
    } else {
      NothingInNothing(p);
    }
  }

  predicate HasSuffix(s: string, p: string) {
    |p| <= |s| && s[|s| - |p|..] == p
  }

  function TrimPrefix(s: string, p: string): string {
    if p <= s then s[|p|..] else s
  }

  function TrimSuffix(s: string, p: string): string {
    if HasSuffix(s, p) then s[..|s| - |p|] else s
  }

  // ---- White space ----

  // The characters `unicode.IsSpace` accepts, by the length of their UTF-8 encoding.

  predicate Space1(x: char) {
    9 <= x as int <= 13 || x == ' '
  }

  predicate Space2(x: char, y: char) {
    x as int == 0xC2 && (y as int == 0x85 || y as int == 0xA0)
  }

  predicate Space3(x: char, y: char, z: char) {
    var (a, b, c) := (x as int, y as int, z as int);
    || (a == 0xE1 && b == 0x9A && c == 0x80)
    || (a == 0xE2 && b == 0x80 && (0x80 <= c <= 0x8A || c == 0xA8 || c == 0xA9 || c == 0xAF))
    || (a == 0xE2 && b == 0x81 && c == 0x9F)
    || (a == 0xE3 && b == 0x80 && c == 0x80)
  }

  /** The length of the white-space character `s` begins with, or 0. */
  function LeadingSpace(s: string): (n: nat)
    ensures n <= |s|
  {
    if |s| >= 1 && Space1(s[0]) then 1
    else if |s| >= 2 && Space2(s[0], s[1]) then 2
    else if |s| >= 3 && Space3(s[0], s[1], s[2]) then 3
    else 0
  }

  function TrailingSpace(s: string): (n: nat)
    ensures n <= |s|
  {
    if |s| >= 1 && Space1(s[|s| - 1]) then 1
    else if |s| >= 2 && Space2(s[|s| - 2], s[|s| - 1]) then 2
    else if |s| >= 3 && Space3(s[|s| - 3], s[|s| - 2], s[|s| - 1]) then 3
    else 0
  }

  function TrimLeft(s: string): (r: string)
    ensures |r| <= |s|
    decreases |s|
  {
    if LeadingSpace(s) == 0 then s else TrimLeft(s[LeadingSpace(s)..])
  }

  function TrimRight(s: string): (r: string)
    ensures |r| <= |s|
    decreases |s|
  {
    if TrailingSpace(s) == 0 then s else TrimRight(s[..|s| - TrailingSpace(s)])
  }

  /** `strings.TrimSpace`. */
  function TrimSpace(s: string): (r: string)
    ensures |r| <= |s|
  {
    TrimRight(TrimLeft(s))
  }

  predicate Trimmed(s: string) {
    TrimSpace(s) == s
  }

  lemma TrimmedEnds(s: string)
    ensures Trimmed(s) <==> LeadingSpace(s) == 0 && TrailingSpace(s) == 0
  {
    hide LeadingSpace, TrailingSpace;
  }

  lemma {:induction false} TrimLeftEnds(s: string)
    ensures LeadingSpace(TrimLeft(s)) == 0
    decreases |s|
  {
    hide LeadingSpace;
    if LeadingSpace(s) > 0 {
      TrimLeftEnds(s[LeadingSpace(s)..]);
    }
  }

  lemma {:induction false} TrimRightEnds(s: string)
    ensures TrailingSpace(TrimRight(s)) == 0 && TrimRight(s) <= s
    decreases |s|
  {
    hide TrailingSpace;
    if TrailingSpace(s) > 0 {
      TrimRightEnds(s[..|s| - TrailingSpace(s)]);
    }
  }

  /** Trimming ends: what has been trimmed stays as it is. */
  lemma TrimSpaceIsTrimmed(s: string)
    ensures Trimmed(TrimSpace(s))
  {
    var l := TrimLeft(s);
    TrimLeftEnds(s);
    TrimRightEnds(l);
    LeadingOfPrefix(l, TrimRight(l));
    TrimmedEnds(TrimRight(l));
  }

  lemma LeadingOfPrefix(s: string, p: string)
    requires LeadingSpace(s) == 0 && p <= s
    ensures LeadingSpace(p) == 0
  {
    assert forall i | 0 <= i < |p| :: p[i] == s[i];
  }

  // What trimming takes away, in terms of characters: the code points with the property White_Space, in UTF-8.

  predicate WhiteSpace(code: int): (r: bool)
    ensures r ==> 0 <= code < 0x1_0000
  {
    || 0x09 <= code <= 0x0D || code == 0x20 || code == 0x85 || code == 0xA0 || code == 0x1680
    || 0x2000 <= code <= 0x200A || code == 0x2028 || code == 0x2029 || code == 0x202F || code == 0x205F || code == 0x3000
  }

  function Utf8(code: int): string
    requires 0 <= code < 0x1_0000
  {
    if code < 0x80 then [code as char]
    else if code < 0x800 then [(0xC0 + code / 0x40) as char, (0x80 + code % 0x40) as char]
    else [(0xE0 + code / 0x1000) as char, (0x80 + code / 0x40 % 0x40) as char, (0x80 + code % 0x40) as char]
  }

  predicate AllWhite(codes: seq<int>) {
    forall i | 0 <= i < |codes| :: WhiteSpace(codes[i])
  }

  function Spaces(codes: seq<int>): string
    requires AllWhite(codes)
  {
    if codes == [] then "" else Utf8(codes[0]) + Spaces(codes[1..])
  }

  lemma {:induction false} SpacesJoin(a: seq<int>, b: seq<int>)
    requires AllWhite(a) && AllWhite(b)
    ensures AllWhite(a + b) && Spaces(a + b) == Spaces(a) + Spaces(b)
  {
    hide WhiteSpace, Utf8;
    if a == [] {
      assert a + b == b;
    } else {
      assert (a + b)[1..] == a[1..] + b;
      SpacesJoin(a[1..], b);
    }
  }

  lemma NoSpaces() returns (codes: seq<int>)
    ensures codes == [] && Spaces(codes) == ""
  {
    codes := [];
  }

  lemma SpacesEnd(codes: seq<int>, code: int)
    requires AllWhite(codes) && WhiteSpace(code)
    ensures AllWhite(codes + [code]) && Spaces(codes + [code]) == Spaces(codes) + Utf8(code)
  {
    hide WhiteSpace, Utf8;
    SpacesJoin(codes, [code]);
    assert Spaces([code]) == Utf8(code);
  }

  lemma Space1Code(x: char) returns (code: int)
    requires Space1(x)
    ensures WhiteSpace(code) && Utf8(code) == [x]
  {
    code := x as int;
  }

  lemma Space2Code(x: char, y: char) returns (code: int)
    requires Space2(x, y)
    ensures WhiteSpace(code) && Utf8(code) == [x, y]
  {
    code := y as int;
  }

  lemma Space3Code(x: char, y: char, z: char) returns (code: int)
    requires Space3(x, y, z)
    ensures WhiteSpace(code) && Utf8(code) == [x, y, z]
  {
    code := (x as int - 0xE0) * 0x1000 + (y as int - 0x80) * 0x40 + (z as int - 0x80);
  }

  lemma CodeIsSpace(code: int)
    requires WhiteSpace(code)
    ensures var u := Utf8(code);
            || (|u| == 1 && Space1(u[0]))
            || (|u| == 2 && Space2(u[0], u[1]))
            || (|u| == 3 && Space3(u[0], u[1], u[2]))
  {
  }

  /** `s` begins with white space exactly when `LeadingSpace` says so, and then with one character of that length. */
  lemma LeadingSpaceIff(s: string)
    ensures LeadingSpace(s) > 0 <==> exists code :: WhiteSpace(code) && Utf8(code) <= s
    ensures LeadingSpace(s) > 0 ==> exists code :: WhiteSpace(code) && Utf8(code) == s[..LeadingSpace(s)]
  {
    if LeadingSpace(s) > 0 {
      var code := LeadingCode(s);
      assert Utf8(code) <= s;
    }
    if code :| WhiteSpace(code) && Utf8(code) <= s {
      LeadingFound(s, code);
    }
  }

  lemma LeadingCode(s: string) returns (code: int)
    requires LeadingSpace(s) > 0
    ensures WhiteSpace(code) && Utf8(code) == s[..LeadingSpace(s)]
  {
    hide Utf8, WhiteSpace;
    if LeadingSpace(s) == 1 {
      code := Space1Code(s[0]);
    } else if LeadingSpace(s) == 2 {
      code := Space2Code(s[0], s[1]);
    } else {
      code := Space3Code(s[0], s[1], s[2]);
    }
  }

  lemma LeadingFound(s: string, code: int)
    requires WhiteSpace(code) && Utf8(code) <= s
    ensures LeadingSpace(s) > 0
  {
    CodeIsSpace(code);
    hide Utf8, WhiteSpace;
    var u := Utf8(code);
    assert forall i | 0 <= i < |u| :: s[i] == u[i];
  }

  lemma TrailingSpaceIff(s: string)
    ensures TrailingSpace(s) > 0 <==> exists code :: WhiteSpace(code) && HasSuffix(s, Utf8(code))
  {
    if TrailingSpace(s) > 0 {
      var code := TrailingCode(s);
      assert HasSuffix(s, Utf8(code));
    }
    if code :| WhiteSpace(code) && HasSuffix(s, Utf8(code)) {
      TrailingFound(s, code);
    }
  }

  lemma TrailingCode(s: string) returns (code: int)
    requires TrailingSpace(s) > 0
    ensures WhiteSpace(code) && Utf8(code) == s[|s| - TrailingSpace(s)..]
  {
    hide Utf8, WhiteSpace;
    if TrailingSpace(s) == 1 {
      code := Space1Code(s[|s| - 1]);
    } else if TrailingSpace(s) == 2 {
      code := Space2Code(s[|s| - 2], s[|s| - 1]);
    } else {
      code := Space3Code(s[|s| - 3], s[|s| - 2], s[|s| - 1]);
    }
  }

  lemma TrailingFound(s: string, code: int)
    requires WhiteSpace(code) && HasSuffix(s, Utf8(code))
    ensures TrailingSpace(s) > 0
  {
    CodeIsSpace(code);
    hide Utf8, WhiteSpace;
    var u := Utf8(code);
    var tail := s[|s| - |u|..];
    assert forall i | 0 <= i < |u| :: tail[i] == u[i];
  }

  lemma {:induction false} TrimLeftTakesSpaces(s: string) returns (codes: seq<int>)
    ensures AllWhite(codes) && s == Spaces(codes) + TrimLeft(s)
    decreases |s|
  {
    hide LeadingSpace, WhiteSpace, Utf8;
    if LeadingSpace(s) == 0 {
      codes := [];
    } else {
      var code := LeadingCode(s);
      var rest := TrimLeftTakesSpaces(s[LeadingSpace(s)..]);
      codes := [code] + rest;
      assert codes[1..] == rest;
    }
  }

  lemma {:induction false} TrimRightTakesSpaces(s: string) returns (codes: seq<int>)
    ensures AllWhite(codes) && s == TrimRight(s) + Spaces(codes)
    decreases |s|
  {
    hide TrailingSpace, WhiteSpace, Utf8, Spaces;
    if TrailingSpace(s) == 0 {
      codes := NoSpaces();
    } else {
      var code := TrailingCode(s);
      var front := s[..|s| - TrailingSpace(s)];
      var rest := TrimRightTakesSpaces(front);
      codes := rest + [code];
      SpacesEnd(rest, code);
    }
  }

  /** Trimming takes away white space from both ends, all of it, and nothing else. */
  lemma TrimSpaceTakesSpaces(s: string) returns (lead: seq<int>, trail: seq<int>)
    ensures AllWhite(lead) && AllWhite(trail) && s == Spaces(lead) + TrimSpace(s) + Spaces(trail)
    ensures forall code | WhiteSpace(code) :: !(Utf8(code) <= TrimSpace(s)) && !HasSuffix(TrimSpace(s), Utf8(code))
  {
    lead := TrimLeftTakesSpaces(s);
    trail := TrimRightTakesSpaces(TrimLeft(s));
    TrimSpaceIsTrimmed(s);
    TrimmedEnds(TrimSpace(s));
    LeadingSpaceIff(TrimSpace(s));
    TrailingSpaceIff(TrimSpace(s));
  }

  /** Plain text that neither begins nor ends with white space. */
  lemma PlainIsTrimmed(s: string)
    requires s != "" && Ascii(s) && !Space1(s[0]) && !Space1(s[|s| - 1])
    ensures Trimmed(s)
  {
    TrimmedEnds(s);
    hide TrimSpace, Trimmed;
  }

  predicate Ascii(s: string) {
    forall i | 0 <= i < |s| :: s[i] as int < 0x80
  }

  /** A plain word in front of trimmed, non-empty text keeps it trimmed. */
  lemma LabelledIsTrimmed(name: string, s: string)
    requires Trimmed(s) && s != "" && |name| >= 3 && Ascii(name) && LeadingSpace(name) == 0
    ensures Trimmed(name + s)
  {
    TrimmedEnds(s);
    TrimmedEnds(name + s);
    hide TrimSpace, Trimmed;
    var t := name + s;
    assert t[0] == name[0] && t[1] == name[1] && t[2] == name[2];
  }

  /** A blank in front of a text does not matter. */
  lemma BlankDropped(s: string)
    ensures TrimSpace(" " + s) == TrimSpace(s)
  {
    hide TrimRight;
    assert (" " + s)[0] == ' ' && (" " + s)[1..] == s;
  }

  /** One blank in front of trimmed text is trimmed away. */
  lemma BlankIsTrimmed(s: string)
    requires Trimmed(s)
    ensures TrimSpace(" " + s) == s
  {
    BlankDropped(s);
    hide TrimSpace;
  }

  // ---- Decimal numbers ----

  function Digit(d: nat): char
    requires d < 10
  {
    ('0' as int + d) as char
  }

  predicate IsDigit(c: char) {
    '0' <= c <= '9'
  }

  predicate AllDigits(s: string) {
    forall i | 0 <= i < |s| :: IsDigit(s[i])
  }

  /** `%d` of a natural number. */
  function Decimal(n: nat): (s: string)
    ensures s != "" && AllDigits(s)
  {
    if n < 10 then [Digit(n)] else Decimal(n / 10) + [Digit(n % 10)]
  }

  function DigitsValue(s: string): nat
    requires AllDigits(s)
  {
    if s == "" then 0 else DigitsValue(s[..|s| - 1]) * 10 + (s[|s| - 1] as int - '0' as int)
  }

  /** `strconv.Atoi`, without its range check. */
  function Atoi(s: string): Option<int> {
    var digits := if s != "" && (s[0] == '+' || s[0] == '-') then s[1..] else s;
    if digits == "" || !AllDigits(digits) then None
    else
      var value: int := DigitsValue(digits);
      Some(if s[0] == '-' then -value else value)
  }

  lemma {:induction false} DecimalValue(n: nat)
    ensures DigitsValue(Decimal(n)) == n
  {
    if n >= 10 {
      DecimalValue(n / 10);
      assert Decimal(n)[..|Decimal(n)| - 1] == Decimal(n / 10);
    }
  }

  lemma AtoiDecimal(n: nat)
    ensures Atoi(Decimal(n)) == Some(n)
  {
    DecimalValue(n);
    assert IsDigit(Decimal(n)[0]);
  }

  /** A sign, if any, and digits, at least one: that is a number. */
  lemma AtoiReads(sign: string, digits: string)
    requires sign == "" || sign == "+" || sign == "-"
    requires digits != "" && AllDigits(digits)
    ensures var value: int := DigitsValue(digits); Atoi(sign + digits) == Some(if sign == "-" then -value else value)
  {
    hide DigitsValue;
    assert IsDigit(digits[0]);
    if sign != "" {
      assert (sign + digits)[1..] == digits;
    } else {
      assert sign + digits == digits;
    }
  }

  /** And nothing else is. */
  lemma AtoiSplits(s: string) returns (sign: string, digits: string)
    requires Atoi(s).Some?
    ensures s == sign + digits && (sign == "" || sign == "+" || sign == "-") && digits != "" && AllDigits(digits)
  {
    if s != "" && (s[0] == '+' || s[0] == '-') {
      sign, digits := s[..1], s[1..];
      assert sign == [s[0]];
    } else {
      sign, digits := "", s;
    }
  }

  lemma DigitCounts(digits: string, d: nat)
    requires AllDigits(digits) && d < 10
    ensures AllDigits(digits + [Digit(d)]) && DigitsValue(digits + [Digit(d)]) == 10 * DigitsValue(digits) + d
  {
    assert (digits + [Digit(d)])[..|digits|] == digits;
  }
}
