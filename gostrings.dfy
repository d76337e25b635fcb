/**
 * The parts of Go's `strings`, `strconv` and `sort` packages that the
 * suggestion service relies on, with the meaning Go gives them, and the
 * `net/http` status codes it uses.
 */
module GoStrings {
  import opened Wrappers

  /** net/http.StatusOK and net/http.StatusInternalServerError. */
  const StatusOK: int := 200
  const StatusInternalServerError: int := 500

  // ---------------------------------------------------------------------
  // Characters
  // ---------------------------------------------------------------------

  /** unicode.IsSpace: the Latin-1 spaces plus the Unicode White_Space runes. */
  predicate IsSpace(c: char) {
    c == ' ' || c == '\t' || c == '\n' || c == '\r' || c == '\U{B}' || c == '\U{C}'
    || c == '\U{85}' || c == '\U{A0}' || c == '\U{1680}'
    || ('\U{2000}' <= c <= '\U{200A}')
    || c == '\U{2028}' || c == '\U{2029}' || c == '\U{202F}' || c == '\U{205F}' || c == '\U{3000}'
  }

  predicate AllSpace(s: string) {
    forall i :: 0 <= i < |s| ==> IsSpace(s[i])
  }

  predicate NoSpace(s: string) {
    forall i :: 0 <= i < |s| ==> !IsSpace(s[i])
  }

  /** unicode.ToLower on the ASCII letters; every other rune is kept. */
  function Lower(c: char): (r: char) {
    if 'A' <= c <= 'Z' then (c as int + 32) as char else c
  }

  function ToLower(s: string): (r: string)
    ensures |r| == |s|
    ensures forall i :: 0 <= i < |s| ==> r[i] == Lower(s[i])
  {
    seq(|s|, i requires 0 <= i < |s| => Lower(s[i]))
  }

  // ---------------------------------------------------------------------
  // Prefixes, suffixes, substrings
  // ---------------------------------------------------------------------

  predicate HasPrefix(s: string, prefix: string) {
    |prefix| <= |s| && s[..|prefix|] == prefix
  }

  predicate HasSuffix(s: string, suffix: string) {
    |suffix| <= |s| && s[|s| - |suffix|..] == suffix
  }

  /** `sub` occurs in `s` starting at index `i`. */
  predicate OccursAt(s: string, sub: string, i: int) {
    0 <= i && i + |sub| <= |s| && s[i..i + |sub|] == sub
  }

  /** strings.Contains */
  predicate Contains(s: string, sub: string) {
    exists i | 0 <= i <= |s| - |sub| :: OccursAt(s, sub, i)
  }

  /** strings.TrimPrefix: drops `prefix` once if `s` starts with it. */
  function TrimPrefix(s: string, prefix: string): (r: string)
    ensures HasPrefix(s, prefix) ==> s == prefix + r
    ensures !HasPrefix(s, prefix) ==> r == s
  {
    if HasPrefix(s, prefix) then s[|prefix|..] else s
  }

  /** strings.TrimSuffix: drops `suffix` once if `s` ends with it. */
  function TrimSuffix(s: string, suffix: string): (r: string)
    ensures HasSuffix(s, suffix) ==> s == r + suffix
    ensures !HasSuffix(s, suffix) ==> r == s
  {
    if HasSuffix(s, suffix) then s[..|s| - |suffix|] else s
  }

  /** Concatenation regroups freely. */
  lemma AppendAssoc(a: string, b: string, c: string)
    ensures a + (b + c) == (a + b) + c
  {
  }

  lemma PrefixOfAppend(a: string, b: string)
    ensures HasPrefix(a + b, a)
  {
    assert (a + b)[..|a|] == a;
  }

  lemma SuffixOfAppend(a: string, b: string)
    ensures HasSuffix(a + b, b)
  {
    assert (a + b)[|a + b| - |b|..] == b;
  }

  /** Trimming a prefix that is there gives back the rest. */
  lemma TrimPrefixOf(prefix: string, rest: string)
    ensures HasPrefix(prefix + rest, prefix)
    ensures TrimPrefix(prefix + rest, prefix) == rest
  {
    PrefixOfAppend(prefix, rest);
    assert (prefix + rest)[|prefix|..] == rest;
  }

  /** Trimming a suffix that is there gives back the rest. */
  lemma TrimSuffixOf(rest: string, suffix: string)
    ensures HasSuffix(rest + suffix, suffix)
    ensures TrimSuffix(rest + suffix, suffix) == rest
  {
    SuffixOfAppend(rest, suffix);
    assert (rest + suffix)[..|rest|] == rest;
  }

  // ---------------------------------------------------------------------
  // strings.TrimSpace
  // ---------------------------------------------------------------------

  function TrimLeftSpace(s: string): (r: string)
    ensures |r| <= |s| && r == s[|s| - |r|..]
    ensures AllSpace(s[..|s| - |r|])
    ensures r != [] ==> !IsSpace(r[0])
  {
    if |s| > 0 && IsSpace(s[0]) then
      var r := TrimLeftSpace(s[1..]);
      assert s[..|s| - |r|] == [s[0]] + s[1..][..|s| - 1 - |r|];
      r
    else s
  }

  function TrimRightSpace(s: string): (r: string)
    ensures |r| <= |s| && r == s[..|r|]
    ensures AllSpace(s[|r|..])
    ensures r != [] ==> !IsSpace(r[|r| - 1])
  {
    if |s| > 0 && IsSpace(s[|s| - 1]) then
      var r := TrimRightSpace(s[..|s| - 1]);
      assert s[|r|..] == s[..|s| - 1][|r|..] + [s[|s| - 1]];
      r
    else s
  }

  /**
   * strings.TrimSpace: a contiguous slice of `s` with only whitespace cut
   * from either end, neither starting nor ending with a space.
   */
  function TrimSpace(s: string): (r: string)
    ensures |r| <= |s|
    ensures r != [] ==> !IsSpace(r[0]) && !IsSpace(r[|r| - 1])
    ensures exists a, b :: 0 <= a <= b <= |s| && r == s[a..b] && AllSpace(s[..a]) && AllSpace(s[b..])
    ensures AllSpace(s) ==> r == ""
  {
    var l := TrimLeftSpace(s);
    var r := TrimRightSpace(l);
    var a := |s| - |l|;
    assert r == s[a..a + |r|];
    assert s[a + |r|..] == l[|r|..];
    r
  }

  lemma {:induction false} TrimLeftSkips(ws: string, u: string)
    requires AllSpace(ws)
    ensures TrimLeftSpace(ws + u) == TrimLeftSpace(u)
  {
    if ws == [] {
      assert ws + u == u;
    } else {
      assert (ws + u)[0] == ws[0];
      assert (ws + u)[1..] == ws[1..] + u;
      TrimLeftSkips(ws[1..], u);
    }
  }

  lemma {:induction false} TrimRightSkips(u: string, ws: string)
    requires AllSpace(ws)
    ensures TrimRightSpace(u + ws) == TrimRightSpace(u)
  {
    if ws == [] {
      assert u + ws == u;
    } else {
      var n := |ws|;
      assert (u + ws)[|u + ws| - 1] == ws[n - 1];
      assert (u + ws)[..|u + ws| - 1] == u + ws[..n - 1];
      TrimRightSkips(u, ws[..n - 1]);
    }
  }

  /** Spaces around a text that starts and ends with a non-space are exactly what TrimSpace removes. */
  lemma TrimSpacePadded(ws1: string, t: string, ws2: string)
    requires AllSpace(ws1) && AllSpace(ws2)
    requires t != [] && !IsSpace(t[0]) && !IsSpace(t[|t| - 1])
    ensures TrimSpace(ws1 + t + ws2) == t
  {
    assert ws1 + t + ws2 == ws1 + (t + ws2);
    TrimLeftSkips(ws1, t + ws2);
    assert TrimLeftSpace(ws1 + t + ws2) == t + ws2;
    TrimRightSkips(t, ws2);
  }

  // ---------------------------------------------------------------------
  // strings.Fields, strings.Join, strings.Split
  // ---------------------------------------------------------------------

  /** The longest prefix of `t` without a space. */
  function WordPrefix(t: string): (w: string)
    ensures HasPrefix(t, w) && NoSpace(w)
    ensures |w| < |t| ==> IsSpace(t[|w|])
    ensures |t| > 0 && !IsSpace(t[0]) ==> |w| > 0
  {
    if |t| > 0 && !IsSpace(t[0]) then [t[0]] + WordPrefix(t[1..]) else ""
  }

  /** Every piece is a non-empty run of non-space runes. */
  predicate AllWords(r: seq<string>) {
    forall i :: 0 <= i < |r| ==> r[i] != "" && NoSpace(r[i])
  }

  lemma AllWordsCons(w: string, rest: seq<string>)
    requires w != "" && NoSpace(w) && AllWords(rest)
    ensures AllWords([w] + rest)
  {
    forall i | 0 <= i < |[w] + rest|
      ensures ([w] + rest)[i] != "" && NoSpace(([w] + rest)[i])
    {
      if i > 0 {
        assert ([w] + rest)[i] == rest[i - 1];
      }
    }
  }

  /** strings.Fields: the maximal runs of non-space runes, in order. */
  function Fields(s: string): (r: seq<string>)
    ensures AllWords(r)
    decreases |s|
  {
    var t := TrimLeftSpace(s);
    if t == "" then []
    else
      var w := WordPrefix(t);
      var rest := Fields(t[|w|..]);
      AllWordsCons(w, rest);
      [w] + rest
  }

  lemma FieldsSkipsSpace(ws: string, s: string)
    requires AllSpace(ws)
    ensures Fields(ws + s) == Fields(s)
  {
    TrimLeftSkips(ws, s);
  }

  lemma FieldsOfSpace(ws: string)
    requires AllSpace(ws)
    ensures Fields(ws) == []
  {
    assert ws + "" == ws;
    FieldsSkipsSpace(ws, "");
  }

  lemma {:induction false} WordPrefixOf(w: string, rest: string)
    requires NoSpace(w)
    requires rest == "" || IsSpace(rest[0])
    ensures WordPrefix(w + rest) == w
  {
    if w != [] {
      assert (w + rest)[1..] == w[1..] + rest;
      WordPrefixOf(w[1..], rest);
    }
  }

  /** A word followed by a space (or by nothing) is the first field. */
  lemma FieldsWord(w: string, rest: string)
    requires w != "" && NoSpace(w)
    requires rest == "" || IsSpace(rest[0])
    ensures Fields(w + rest) == [w] + Fields(rest)
  {
    WordPrefixOf(w, rest);
    assert (w + rest)[|w|..] == rest;
  }

  /** Trailing spaces add no field. */
  lemma {:induction false} FieldsTrailingSpace(s: string, ws: string)
    requires AllSpace(ws)
    ensures Fields(s + ws) == Fields(s)
    decreases |s|, 1
  {
    var t := TrimLeftSpace(s);
    var pre := s[..|s| - |t|];
    assert s == pre + t;
    assert s + ws == pre + (t + ws);
    FieldsSkipsSpace(pre, t + ws);
    FieldsSkipsSpace(pre, t);
    if t == "" {
      assert t + ws == ws;
      FieldsOfSpace(ws);
    } else {
      FieldsTrailingWord(t, ws);
    }
  }

  lemma {:induction false} FieldsTrailingWord(t: string, ws: string)
    requires AllSpace(ws)
    requires t != "" && !IsSpace(t[0])
    ensures Fields(t + ws) == Fields(t)
    decreases |t|, 0
  {
    var w := WordPrefix(t);
    var rest := t[|w|..];
    assert t == w + rest;
    assert t + ws == w + (rest + ws);
    if rest == "" {
      assert rest + ws == ws;
      FieldsWord(w, ws);
      FieldsWord(w, rest);
      FieldsOfSpace(ws);
    } else {
      FieldsWord(w, rest + ws);
      FieldsWord(w, rest);
      FieldsTrailingSpace(rest, ws);
    }
  }

  /** strings.Join */
  function Join(parts: seq<string>, sep: string): (joined: string)
  {
    if |parts| == 0 then ""
    else if |parts| == 1 then parts[0]
    else parts[0] + sep + Join(parts[1..], sep)
  }

  /**
   * strings.Split with a one-rune separator: the pieces between the
   * separators, so that there is always at least one piece.
   */
  function SplitOn(s: string, sep: char): (r: seq<string>)
    ensures |r| >= 1
  {
    if |s| == 0 then [""]
    else if s[0] == sep then [""] + SplitOn(s[1..], sep)
    else
      var rest := SplitOn(s[1..], sep);
      [[s[0]] + rest[0]] + rest[1..]
  }

  /**
   * The first piece is the longest separator-free prefix: the separator
   * follows it unless it is the whole text, and then it is the only piece.
   */
  lemma {:induction false} SplitOnFirst(s: string, sep: char)
    ensures var r := SplitOn(s, sep);
            HasPrefix(s, r[0]) && sep !in r[0]
            && (|r[0]| < |s| ==> s[|r[0]|] == sep)
            && (|r[0]| == |s| ==> |r| == 1)
  {
    if |s| > 0 && s[0] != sep {
      SplitOnFirst(s[1..], sep);
      var rest := SplitOn(s[1..], sep);
      assert s == [s[0]] + s[1..];
      assert s[..|rest[0]| + 1] == [s[0]] + s[1..][..|rest[0]|];
    }
  }

  lemma {:induction false} SplitOnWord(w: string, sep: char)
    requires sep !in w
    ensures SplitOn(w, sep) == [w]
  {
    if w != [] {
      SplitOnWord(w[1..], sep);
      assert [w[0]] + w[1..] == w;
    }
  }

  lemma {:induction false} SplitOnAfterWord(w: string, sep: char, rest: string)
    requires sep !in w
    ensures SplitOn(w + [sep] + rest, sep) == [w] + SplitOn(rest, sep)
  {
    if w == [] {
      assert w + [sep] + rest == [sep] + rest;
      assert ([sep] + rest)[1..] == rest;
    } else {
      assert (w + [sep] + rest)[1..] == w[1..] + [sep] + rest;
      SplitOnAfterWord(w[1..], sep, rest);
      assert [w[0]] + w[1..] == w;
    }
  }

  /** One character in front: a separator opens a new piece, any other character joins the first piece. */
  lemma {:induction false} SplitOnCons(c: char, rest: string, sep: char)
    ensures SplitOn([c] + rest, sep) ==
      if c == sep then [""] + SplitOn(rest, sep)
      else [[c] + SplitOn(rest, sep)[0]] + SplitOn(rest, sep)[1..]
  {
    assert ([c] + rest)[0] == c && ([c] + rest)[1..] == rest;
  }

  /** A character put in front of two texts whose pieces agree up to a tail keeps them agreeing. */
  lemma {:induction false} SplitOnConsAppend(c: char, t: string, a: string, sep: char, tail: seq<string>)
    requires SplitOn(t, sep) == SplitOn(a, sep) + tail
    ensures SplitOn([c] + t, sep) == SplitOn([c] + a, sep) + tail
  {
    SplitOnCons(c, t, sep);
    SplitOnCons(c, a, sep);
    if c != sep {
      ExtendFirstPiece(c, SplitOn(a, sep), tail);
    }
  }

  /** Growing the first piece of `ra + tail` grows the first piece of `ra`. */
  lemma ExtendFirstPiece(c: char, ra: seq<string>, tail: seq<string>)
    requires |ra| >= 1
    ensures [[c] + (ra + tail)[0]] + (ra + tail)[1..] == [[c] + ra[0]] + ra[1..] + tail
  {
    assert (ra + tail)[1..] == ra[1..] + tail;
  }

  /** Splitting at a separator splits the text before it and the text after it separately. */
  lemma {:induction false} SplitOnSep(a: string, sep: char, b: string)
    ensures SplitOn(a + [sep] + b, sep) == SplitOn(a, sep) + SplitOn(b, sep)
  {
    if |a| == 0 {
      assert a + [sep] + b == [sep] + b;
      SplitOnCons(sep, b, sep);
    } else {
      SplitOnSep(a[1..], sep, b);
      SplitOnConsAppend(a[0], a[1..] + [sep] + b, a[1..], sep, SplitOn(b, sep));
      assert a == [a[0]] + a[1..];
      assert a + [sep] + b == [a[0]] + (a[1..] + [sep] + b);
    }
  }

  /** Splitting six pieces joined by the separator splits each piece on its own. */
  lemma {:induction false} SplitOnFive(a: string, b: string, c: string, d: string, e: string, f: string, sep: char)
    ensures SplitOn(a + [sep] + (b + [sep] + (c + [sep] + (d + [sep] + (e + [sep] + f)))), sep)
         == SplitOn(a, sep) + SplitOn(b, sep) + SplitOn(c, sep) + SplitOn(d, sep) + SplitOn(e, sep) + SplitOn(f, sep)
  {
    var ef := e + [sep] + f;
    var def := d + [sep] + ef;
    var cdef := c + [sep] + def;
    var bcdef := b + [sep] + cdef;
    var A, B, C, D, E, F := SplitOn(a, sep), SplitOn(b, sep), SplitOn(c, sep), SplitOn(d, sep), SplitOn(e, sep), SplitOn(f, sep);
    SplitOnSep(e, sep, f);
    assert SplitOn(ef, sep) == E + F;
    SplitOnSep(d, sep, ef);
    assert SplitOn(def, sep) == D + (E + F);
    SplitOnSep(c, sep, def);
    assert SplitOn(cdef, sep) == C + (D + (E + F));
    SplitOnSep(b, sep, cdef);
    assert SplitOn(bcdef, sep) == B + (C + (D + (E + F)));
    SplitOnSep(a, sep, bcdef);
    RightNested(A, B, C, D, E, F);
  }

  lemma RightNested(A: seq<string>, B: seq<string>, C: seq<string>, D: seq<string>, E: seq<string>, F: seq<string>)
    ensures A + (B + (C + (D + (E + F)))) == A + B + C + D + E + F
  {
  }

  /** Splitting on the separator undoes joining with it, when no part contains it. */
  lemma {:induction false} SplitJoin(parts: seq<string>, sep: char)
    requires |parts| >= 1
    requires forall i :: 0 <= i < |parts| ==> sep !in parts[i]
    ensures SplitOn(Join(parts, [sep]), sep) == parts
  {
    if |parts| == 1 {
      SplitOnWord(parts[0], sep);
    } else {
      SplitJoin(parts[1..], sep);
      SplitOnAfterWord(parts[0], sep, Join(parts[1..], [sep]));
      assert parts == [parts[0]] + parts[1..];
    }
  }

  // ---------------------------------------------------------------------
  // strconv.Itoa, strconv.Atoi, strconv.ParseBool
  // ---------------------------------------------------------------------

  const MinInt64: int := -0x8000_0000_0000_0000
  const MaxInt64: int := 0x7FFF_FFFF_FFFF_FFFF

  predicate IsDigit(c: char) {
    '0' <= c <= '9'
  }

  predicate AllDigits(s: string) {
    forall i :: 0 <= i < |s| ==> IsDigit(s[i])
  }

  function DigitChar(d: int): (c: char)
    requires 0 <= d < 10
    ensures IsDigit(c) && c as int - '0' as int == d
  {
    ('0' as int + d) as char
  }

  /** The decimal digits of `n`, without leading zeros. */
  function Decimal(n: nat): (s: string)
    ensures |s| >= 1 && AllDigits(s)
    ensures s[0] == '0' ==> n == 0 && s == "0"
  {
    if n < 10 then [DigitChar(n)] else Decimal(n / 10) + [DigitChar(n % 10)]
  }

  /** strconv.Itoa, and fmt's %d: a minus sign for negatives only, then the digits without leading zeros. */
  function Itoa(n: int): (s: string)
    ensures s != "" && (s[0] == '-' <==> n < 0)
    ensures n < 0 ==> |s| >= 2 && s[1..] == Decimal(-n) && s[1] != '0'
    ensures n >= 0 ==> AllDigits(s) && (s[0] == '0' ==> s == "0" && n == 0)
  {
    if n < 0 then "-" + Decimal(-n) else Decimal(n)
  }

  /** The value of a digit string, leading zeros allowed. */
  function DecimalValue(ds: string): (n: nat)
    requires AllDigits(ds)
  {
    if |ds| == 0 then 0
    else DecimalValue(ds[..|ds| - 1]) * 10 + (ds[|ds| - 1] as int - '0' as int)
  }

  /**
   * strconv.Atoi on a 64-bit platform: an optional sign and at least one
   * decimal digit, nothing else, within the range of int64.
   */
  function Atoi(s: string): (r: Option<int>)
    ensures r.Some? ==> MinInt64 <= r.value <= MaxInt64
    ensures r.Some? ==> s != "" && var digits := if s[0] == '-' || s[0] == '+' then s[1..] else s;
                          digits != "" && AllDigits(digits)
  {
    if |s| == 0 then None
    else
      var digits := if s[0] == '-' || s[0] == '+' then s[1..] else s;
      if |digits| == 0 || !AllDigits(digits) then None
      else
        var v: int := if s[0] == '-' then -(DecimalValue(digits) as int) else DecimalValue(digits);
        if MinInt64 <= v <= MaxInt64 then Some(v) else None
  }

  lemma {:induction false} DecimalRoundTrip(n: nat)
    ensures DecimalValue(Decimal(n)) == n
  {
    if n >= 10 {
      DecimalRoundTrip(n / 10);
      var s := Decimal(n / 10) + [DigitChar(n % 10)];
      assert s[..|s| - 1] == Decimal(n / 10);
    }
  }

  /** A digit string that does not start with 0 has a positive value. */
  lemma {:induction false} LeadingDigitPositive(ds: string)
    requires ds != "" && AllDigits(ds) && ds[0] != '0'
    ensures DecimalValue(ds) >= 1
  {
    if |ds| > 1 {
      LeadingDigitPositive(ds[..|ds| - 1]);
    }
  }

  /**
   * Decimal is the only way to write a value in digits without leading
   * zeros: a canonical digit string is Decimal of its value.
   */
  lemma {:induction false} DecimalCanonical(ds: string)
    requires ds != "" && AllDigits(ds) && (ds[0] == '0' ==> |ds| == 1)
    ensures Decimal(DecimalValue(ds)) == ds
  {
    if |ds| > 1 {
      var init, d := ds[..|ds| - 1], ds[|ds| - 1] as int - '0' as int;
      LeadingDigitPositive(init);
      DecimalCanonical(init);
      var v := DecimalValue(ds);
      assert v == DecimalValue(init) * 10 + d && 0 <= d < 10;
      assert v / 10 == DecimalValue(init) && v % 10 == d;
      assert DigitChar(d) == ds[|ds| - 1];
      assert ds == init + [ds[|ds| - 1]];
    } else {
      assert ds[..0] == [] && IsDigit(ds[0]);
      assert DecimalValue(ds) == ds[0] as int - '0' as int;
      assert ds == [ds[0]];
    }
  }

  /** An unsigned digit string reads as its value when that fits in an int64, and is refused otherwise. */
  lemma AtoiUnsigned(ds: string)
    requires ds != "" && AllDigits(ds)
    ensures Atoi(ds) == if DecimalValue(ds) <= MaxInt64 then Some(DecimalValue(ds)) else None
  {
    assert IsDigit(ds[0]);
  }

  /** A plus sign changes nothing. */
  lemma AtoiPlus(ds: string)
    requires ds != "" && AllDigits(ds)
    ensures Atoi("+" + ds) == Atoi(ds)
  {
    var s := "+" + ds;
    assert s[0] == '+' && s[1..] == ds;
    AtoiUnsigned(ds);
  }

  /** A minus sign negates the value; the value may reach one past MaxInt64, and beyond that is refused. */
  lemma AtoiNegative(ds: string)
    requires ds != "" && AllDigits(ds)
    ensures Atoi("-" + ds) == if DecimalValue(ds) <= -MinInt64 then Some(-(DecimalValue(ds) as int)) else None
  {
    var s := "-" + ds;
    assert s[0] == '-' && s[1..] == ds;
  }

  /** Atoi reads back every int64 that Itoa writes. */
  lemma AtoiItoa(n: int)
    requires MinInt64 <= n <= MaxInt64
    ensures Atoi(Itoa(n)) == Some(n)
  {
    if n < 0 {
      DecimalRoundTrip(-n);
      AtoiNegative(Decimal(-n));
    } else {
      DecimalRoundTrip(n);
      AtoiUnsigned(Decimal(n));
    }
  }

  /** strconv.ParseBool */
  function ParseBool(s: string): (b: Option<bool>) {
    if s in {"1", "t", "T", "TRUE", "true", "True"} then Some(true)
    else if s in {"0", "f", "F", "FALSE", "false", "False"} then Some(false)
    else None
  }

  // ---------------------------------------------------------------------
  // String order and sort.Strings
  // ---------------------------------------------------------------------

  /**
   * Go's `<=` on strings: byte-wise on UTF-8, which is the order of the
   * code points, a proper prefix coming first.
   */
  predicate LessEq(a: string, b: string)
    decreases |a|
  {
    |a| == 0 || (|b| > 0 && (a[0] < b[0] || (a[0] == b[0] && LessEq(a[1..], b[1..]))))
  }

  lemma {:induction false} LessEqTotal(a: string, b: string)
    ensures LessEq(a, b) || LessEq(b, a)
    decreases |a|
  {
    if |a| > 0 && |b| > 0 && a[0] == b[0] {
      LessEqTotal(a[1..], b[1..]);
    }
  }

  lemma {:induction false} LessEqTrans(a: string, b: string, c: string)
    requires LessEq(a, b) && LessEq(b, c)
    ensures LessEq(a, c)
    decreases |a|
  {
    if |a| > 0 && a[0] == b[0] && b[0] == c[0] {
      LessEqTrans(a[1..], b[1..], c[1..]);
    }
  }

  /** Ascending order, stated on neighbours. */
  predicate Sorted(s: seq<string>) {
    forall i :: 0 < i < |s| ==> LessEq(s[i - 1], s[i])
  }

  /** In a sorted sequence every element is at most every later one. */
  lemma {:induction false} SortedPairs(s: seq<string>, i: int, j: int)
    requires Sorted(s) && 0 <= i < j < |s|
    ensures LessEq(s[i], s[j])
    decreases j - i
  {
    if i + 1 < j {
      SortedPairs(s, i, j - 1);
      LessEqTrans(s[i], s[j - 1], s[j]);
    }
  }

  function Insert(x: string, s: seq<string>): (r: seq<string>)
    requires Sorted(s)
    ensures Sorted(r)
    ensures multiset(r) == multiset(s) + multiset{x}
    ensures |r| > 0 && (r[0] == x || (|s| > 0 && r[0] == s[0]))
  {
    if |s| == 0 then [x]
    else if LessEq(x, s[0]) then [x] + s
    else
      LessEqTotal(x, s[0]);
      var tail := Insert(x, s[1..]);
      assert s == [s[0]] + s[1..];
      [s[0]] + tail
  }

  /** sort.Strings, as an insertion sort: ascending and a permutation of the input. */
  function SortStrings(s: seq<string>): (r: seq<string>)
    ensures Sorted(r)
    ensures multiset(r) == multiset(s)
  {
    if |s| == 0 then []
    else
      assert s == s[..|s| - 1] + [s[|s| - 1]];
      Insert(s[|s| - 1], SortStrings(s[..|s| - 1]))
  }
}
