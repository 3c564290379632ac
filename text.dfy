/** The string and path primitives the source borrows from Rust's standard
    library, stated on `seq<char>`: prefix tests, substring search,
    `PathBuf::join` on a Unix path, `str::lines`, `str::trim`, and the
    decimal formatting and parsing of an `i32`. */
module Text {
  import opened Wrappers

  // ---------------------------------------------------------------------
  // Prefixes and substrings
  // ---------------------------------------------------------------------

  predicate StartsWith(s: string, p: string) {
    |p| <= |s| && s[..|p|] == p
  }

  /** `str::strip_prefix`. */
  function StripPrefix(s: string, p: string): (r: Option<string>)
    ensures r.Some? <==> StartsWith(s, p)
    ensures r.Some? ==> p + r.value == s
  {
    if StartsWith(s, p) then Some(s[|p|..]) else None
  }

  /** `str::contains`: `t` occurs somewhere in `s`. */
  predicate Contains(s: string, t: string)
    decreases |s|
  {
    StartsWith(s, t) || (s != [] && Contains(s[1..], t))
  }

  lemma {:induction false} ContainsInfix(a: string, t: string, b: string)
    ensures Contains(a + t + b, t)
    decreases |a|
  {
    if a == [] {
      assert (a + t + b)[..|t|] == t;
    } else {
      assert (a + t + b)[1..] == a[1..] + t + b;
      ContainsInfix(a[1..], t, b);
    }
  }

  // ---------------------------------------------------------------------
  // Paths
  // ---------------------------------------------------------------------

  /** `PathBuf::join` for Unix paths: an absolute component replaces the
      base; otherwise a separator is inserted unless the base is empty or
      already ends with one. */
  function JoinPath(dir: string, name: string): (r: string)
    ensures |name| <= |r| && r[|r| - |name|..] == name
    ensures !StartsWith(name, "/") ==> StartsWith(r, dir)
  {
    if StartsWith(name, "/") then name
    else if dir == [] || dir[|dir| - 1] == '/' then dir + name
    else dir + "/" + name
  }

  /** Within one directory, distinct relative names give distinct paths. */
  lemma JoinPathInjective(dir: string, a: string, b: string)
    requires !StartsWith(a, "/") && !StartsWith(b, "/")
    requires JoinPath(dir, a) == JoinPath(dir, b)
    ensures a == b
  {
    var base := if dir == [] || dir[|dir| - 1] == '/' then dir else dir + "/";
    assert JoinPath(dir, a) == base + a;
    assert JoinPath(dir, b) == base + b;
    assert a == (base + a)[|base|..];
    assert b == (base + b)[|base|..];
  }

  // ---------------------------------------------------------------------
  // str::lines
  // ---------------------------------------------------------------------

  /** Index of the first '\n' in `s`, or `|s|` when there is none. */
  function NewlineIndex(s: string): (i: nat)
    ensures i <= |s|
    ensures i < |s| ==> s[i] == '\n'
    ensures forall j :: 0 <= j < i ==> s[j] != '\n'
  {
    if s == [] then 0
    else if s[0] == '\n' then 0
    else 1 + NewlineIndex(s[1..])
  }

  /** Drops one trailing '\r' (the "\r\n" line ending). */
  function StripCarriageReturn(line: string): string {
    if line != [] && line[|line| - 1] == '\r' then line[..|line| - 1] else line
  }

  /** `str::lines`: split at '\n'; a line ended by "\r\n" loses its '\r';
      a final line ending is optional, so a trailing '\n' adds no empty
      line, and a final unterminated line keeps any '\r'. */
  function Lines(s: string): (r: seq<string>)
    ensures forall k :: 0 <= k < |r| ==> '\n' !in r[k]
    ensures s == [] <==> r == []
    decreases |s|
  {
    if s == [] then []
    else
      var i := NewlineIndex(s);
      if i == |s| then [s]
      else [StripCarriageReturn(s[..i])] + Lines(s[i + 1..])
  }

  /** The text a sequence of lines prints as, each line ended by '\n'. */
  function Unlines(ls: seq<string>): string {
    if ls == [] then [] else ls[0] + "\n" + Unlines(ls[1..])
  }

  /** Lines are recovered from their printed text, provided each is a
      plain line. */
  lemma {:induction false} LinesUnlines(ls: seq<string>)
    requires forall k :: 0 <= k < |ls| ==> PlainLine(ls[k])
    ensures Lines(Unlines(ls)) == ls
  {
    if ls != [] {
      var rest := ls[1..];
      assert Unlines(ls) == ls[0] + "\n" + Unlines(rest);
      assert forall k :: 0 <= k < |rest| ==> rest[k] == ls[k + 1];
      LinesCons(ls[0], Unlines(rest));
      LinesUnlines(rest);
      assert ls == [ls[0]] + rest;
    }
  }

  /** A line that prints and reads back unchanged: no line break in it,
      and no carriage return at its end. */
  predicate PlainLine(l: string) {
    '\n' !in l && (l == [] || l[|l| - 1] != '\r')
  }

  /** A terminated first line is split off as it is. */
  lemma LinesCons(l: string, rest: string)
    requires PlainLine(l)
    ensures Lines(l + "\n" + rest) == [l] + Lines(rest)
  {
    var s := l + "\n" + rest;
    NewlineAt(l, rest);
    assert s[..|l|] == l;
    assert s[|l| + 1..] == rest;
  }

  lemma NewlineAt(l: string, rest: string)
    requires '\n' !in l
    ensures NewlineIndex(l + "\n" + rest) == |l|
  {
    var s := l + "\n" + rest;
    assert s[|l|] == '\n';
    assert forall j :: 0 <= j < |l| ==> s[j] == l[j];
  }

  // ---------------------------------------------------------------------
  // str::trim
  // ---------------------------------------------------------------------

  /** Unicode's White_Space property, which `str::trim` strips. */
  predicate IsWhitespace(c: char) {
    var n := c as int;
    (9 <= n <= 13) || n == 32 || n == 0x85 || n == 0xA0 || n == 0x1680
    || (0x2000 <= n <= 0x200A) || n == 0x2028 || n == 0x2029 || n == 0x202F
    || n == 0x205F || n == 0x3000
  }

  function TrimStart(s: string): (r: string)
    ensures |r| <= |s| && r == s[|s| - |r|..]
    ensures r == [] || !IsWhitespace(r[0])
  {
    if s != [] && IsWhitespace(s[0]) then TrimStart(s[1..]) else s
  }

  function TrimEnd(s: string): (r: string)
    ensures |r| <= |s| && r == s[..|r|]
    ensures r == [] || !IsWhitespace(r[|r| - 1])
  {
    if s != [] && IsWhitespace(s[|s| - 1]) then TrimEnd(s[..|s| - 1]) else s
  }

  /** `str::trim`. */
  function Trim(s: string): (r: string)
    ensures |r| <= |s|
    ensures r == [] || (!IsWhitespace(r[0]) && !IsWhitespace(r[|r| - 1]))
  {
    TrimEnd(TrimStart(s))
  }

  /** A line of digits keeps exactly its digits when trimmed. */
  lemma TrimDigitLine(d: string)
    requires d != [] && AllDigits(d)
    ensures Trim(d + "\n") == d
  {
    var s := d + "\n";
    assert IsDigit(d[0]) && IsDigit(d[|d| - 1]);
    assert s[0] == d[0];
    assert TrimStart(s) == s;
    assert s[..|s| - 1] == d;
    assert IsWhitespace(s[|s| - 1]);
    assert TrimEnd(s) == TrimEnd(d);
    assert TrimEnd(d) == d;
  }

  // ---------------------------------------------------------------------
  // Decimal integers (`i32`)
  // ---------------------------------------------------------------------

  const I32Min: int := -0x8000_0000
  const I32Max: int := 0x7fff_ffff

  predicate IsDigit(c: char) {
    '0' <= c <= '9'
  }

  predicate AllDigits(s: string) {
    forall k :: 0 <= k < |s| ==> IsDigit(s[k])
  }

  function DigitChar(d: nat): (c: char)
    requires d < 10
    ensures IsDigit(c) && c as int - '0' as int == d
  {
    (d + '0' as int) as char
  }

  /** The number a string of decimal digits denotes. */
  function DigitsValue(s: string): nat
    requires AllDigits(s)
  {
    if s == [] then 0
    else DigitsValue(s[..|s| - 1]) * 10 + (s[|s| - 1] as int - '0' as int)
  }

  /** Decimal digits of `n`, without leading zeros. */
  function NatToString(n: nat): (r: string)
    ensures r != [] && AllDigits(r)
  {
    if n < 10 then [DigitChar(n)] else NatToString(n / 10) + [DigitChar(n % 10)]
  }

  lemma {:induction false} NatToStringValue(n: nat)
    ensures DigitsValue(NatToString(n)) == n
  {
    if n >= 10 {
      var r := NatToString(n);
      assert r[..|r| - 1] == NatToString(n / 10);
      NatToStringValue(n / 10);
    }
  }

  /** `i32`'s `Display` (and `Debug`) form. */
  function IntToString(i: int): (r: string)
    ensures r != []
  {
    if i < 0 then "-" + NatToString(-i) else NatToString(i)
  }

  /** `str::parse::<i32>`: an optional '+' or '-', then at least one
      decimal digit, and a value that fits in 32 bits; anything else is
      an error (`None`). */
  function ParseI32(s: string): (r: Option<int>)
    ensures r.Some? ==> I32Min <= r.value <= I32Max
    ensures s == [] ==> r == None
  {
    if s == [] then None
    else
      var negative := s[0] == '-';
      var body := if s[0] == '-' || s[0] == '+' then s[1..] else s;
      if body == [] || !AllDigits(body) then None
      else
        var d: int := DigitsValue(body);
        var v := if negative then -d else d;
        if I32Min <= v <= I32Max then Some(v) else None
  }

  /** Printing an `i32` and parsing it back gives the same number. */
  lemma ParseI32IntToString(i: int)
    requires I32Min <= i <= I32Max
    ensures ParseI32(IntToString(i)) == Some(i)
  {
    var s := IntToString(i);
    if i < 0 {
      NatToStringValue(-i);
      assert s[1..] == NatToString(-i);
    } else {
      NatToStringValue(i);
      assert IsDigit(s[0]);
    }
  }
}
