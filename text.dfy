/** The JavaScript string operations the build and upload scripts rely on: white space as
    `trim` and the regular-expression class `\s` see it, `startsWith`, `indexOf`/`includes`,
    `split` on a literal separator, `replace` of the first occurrence, and `parseInt` in radix 10.
    A string is a sequence of Unicode scalar values: a character outside the Basic Multilingual
    Plane is one element here, where JavaScript counts two UTF-16 code units. */
module Text {
  import opened Wrappers

  /** The white-space and line-terminator characters of ECMAScript: the set `trim` strips and
      `\s` matches. */
  predicate IsSpace(c: char) {
    || c == ' ' || c == '\t' || c == '\n' || c == '\r' || c == '\U{000B}' || c == '\U{000C}'
    || c == '\U{00A0}' || c == '\U{1680}' || ('\U{2000}' <= c <= '\U{200A}')
    || c == '\U{2028}' || c == '\U{2029}' || c == '\U{202F}' || c == '\U{205F}'
    || c == '\U{3000}' || c == '\U{FEFF}'
  }

  predicate IsDigit(c: char) {
    '0' <= c <= '9'
  }

  predicate AllDigits(s: string) {
    forall i :: 0 <= i < |s| ==> IsDigit(s[i])
  }

  predicate StartsWith(s: string, prefix: string) {
    |prefix| <= |s| && s[..|prefix|] == prefix
  }

  /** A string value JavaScript treats as true: present and non-empty. */
  predicate Truthy(v: Option<string>) {
    v.Some? && v.value != ""
  }

  // ---------------------------------------------------------------------------------------
  // trim

  /** `s` with its leading white space removed: a suffix of `s` that does not start with
      white space, and everything dropped is white space. */
  function TrimStart(s: string): (r: string)
    ensures |r| <= |s| && r == s[|s| - |r|..]
    ensures forall i :: 0 <= i < |s| - |r| ==> IsSpace(s[i])
    ensures r == [] || !IsSpace(r[0])
  {
    if s != [] && IsSpace(s[0]) then TrimStart(s[1..]) else s
  }

  /** `s` with its trailing white space removed. */
  function TrimEnd(s: string): (r: string)
    ensures |r| <= |s| && r == s[..|r|]
    ensures forall i :: |r| <= i < |s| ==> IsSpace(s[i])
    ensures r == [] || !IsSpace(r[|r| - 1])
  {
    if s != [] && IsSpace(s[|s| - 1]) then TrimEnd(s[..|s| - 1]) else s
  }

  /** `String.prototype.trim`. */
  function Trim(s: string): (r: string)
    ensures r == [] || (!IsSpace(r[0]) && !IsSpace(r[|r| - 1]))
  {
    TrimEnd(TrimStart(s))
  }

  /** True when `s` consists of white space only (or is empty). */
  predicate Blank(s: string) {
    forall i :: 0 <= i < |s| ==> IsSpace(s[i])
  }

  /** The length of the run of white space at the start of `s`. */
  function SpaceRun(s: string): (n: nat)
    ensures n <= |s| && Blank(s[..n])
    ensures n == |s| || !IsSpace(s[n])
  {
    if s != [] && IsSpace(s[0]) then
      var n := 1 + SpaceRun(s[1..]);
      assert s[..n] == [s[0]] + s[1..][..n - 1];
      n
    else 0
  }

  lemma TrimEmptyIffBlank(s: string)
    ensures Trim(s) == [] <==> Blank(s)
  {
  }

  // ---------------------------------------------------------------------------------------
  // indexOf, includes

  predicate OccursAt(s: string, sub: string, i: int) {
    0 <= i && i + |sub| <= |s| && s[i..i + |sub|] == sub
  }

  /** `s.indexOf(sub)`: the first position at which `sub` occurs in `s`, if any. */
  function IndexOf(s: string, sub: string): (r: Option<nat>)
    ensures r.Some? ==> OccursAt(s, sub, r.value)
    ensures r.Some? ==> forall j :: 0 <= j < r.value ==> !OccursAt(s, sub, j)
    ensures r.None? ==> forall j :: !OccursAt(s, sub, j)
    decreases |s|
  {
    if |sub| > |s| then None
    else if s[..|sub|] == sub then Some(0)
    else
      var rest := IndexOf(s[1..], sub);
      forall j | 1 <= j ensures OccursAt(s, sub, j) == OccursAt(s[1..], sub, j - 1) {
        OccursShift(s, sub, j);
      }
      match rest
      case None => None
      case Some(i) => Some(i + 1)
  }

  /** An occurrence past the first character is an occurrence in the rest of the text. */
  lemma OccursShift(s: string, sub: string, j: int)
    requires s != [] && 1 <= j
    ensures OccursAt(s, sub, j) == OccursAt(s[1..], sub, j - 1)
  {
    if j + |sub| <= |s| {
      var a := s[j..j + |sub|];
      var b := s[1..][j - 1..j - 1 + |sub|];
      assert |a| == |b|;
      forall k | 0 <= k < |a| ensures a[k] == b[k] {
        assert a[k] == s[j + k];
        assert b[k] == s[1..][j - 1 + k];
      }
      assert a == b;
    }
  }

  /** `s.includes(sub)`. */
  predicate Contains(s: string, sub: string) {
    IndexOf(s, sub).Some?
  }

  lemma ContainsIff(s: string, sub: string)
    ensures Contains(s, sub) <==> exists j :: OccursAt(s, sub, j)
  {
  }

  /** A string that lacks one of the characters of `sub` does not contain `sub`. */
  lemma NoCharNoContains(s: string, sub: string, k: nat)
    requires k < |sub| && sub[k] !in s
    ensures !Contains(s, sub)
  {
    ContainsIff(s, sub);
    forall j | 0 <= j ensures !OccursAt(s, sub, j) {
      if j + |sub| <= |s| {
        assert s[j..j + |sub|][k] == s[j + k];
      }
    }
  }

  /** An occurrence of `sub` at `i` makes `s` contain `sub`. */
  lemma ContainsAt(s: string, sub: string, i: nat)
    requires OccursAt(s, sub, i)
    ensures Contains(s, sub)
  {
  }

  /** Text glued before a separator that the text does not contain: the first occurrence of the
      separator is the glued one, provided no proper suffix of the separator is also a prefix of
      it (true of "=", "v=" and "PT"). */
  lemma {:induction false} IndexOfAfter(pre: string, sep: string, post: string)
    requires !Contains(pre, sep)
    requires BorderFree(sep)
    ensures IndexOf(pre + sep + post, sep) == Some(|pre|)
  {
    var s := pre + sep + post;
    assert OccursAt(s, sep, |pre|) by { assert s[|pre|..|pre| + |sep|] == sep; }
    var r := IndexOf(s, sep);
    if r.value < |pre| {
      var p := r.value;
      if p + |sep| <= |pre| {
        assert pre[p..p + |sep|] == s[p..p + |sep|];
        ContainsAt(pre, sep, p);
      } else {
        // the occurrence at p overlaps the glued separator: a border of length p + |sep| - |pre|
        OverlapIsBorder(pre, sep, post, p);
        assert false;
      }
    }
  }

  lemma OverlapIsBorder(pre: string, sep: string, post: string, p: nat)
    requires OccursAt(pre + sep + post, sep, p) && p < |pre| < p + |sep|
    ensures var b := p + |sep| - |pre|; sep[|sep| - b..] == sep[..b]
  {
    var s := pre + sep + post;
    var b := p + |sep| - |pre|;
    forall k | 0 <= k < b ensures sep[|sep| - b..][k] == sep[..b][k] {
      assert sep[|sep| - b + k] == s[p + |sep| - b + k];
      assert s[|pre| + k] == sep[k];
    }
  }

  /** A two-character separator with different characters, such as "v=" or "PT", has no border. */
  lemma BorderFreePair(sep: string)
    requires |sep| == 2 && sep[0] != sep[1]
    ensures BorderFree(sep)
  {
    forall b | 0 < b < |sep| ensures sep[|sep| - b..] != sep[..b] {
      assert sep[|sep| - b..][0] != sep[..b][0];
    }
  }

  /** No proper, non-empty suffix of `sep` equals the prefix of the same length. */
  predicate BorderFree(sep: string) {
    forall b :: 0 < b < |sep| ==> sep[|sep| - b..] != sep[..b]
  }

  // ---------------------------------------------------------------------------------------
  // split, replace

  /** The pieces joined back with the separator between them. */
  function Join(pieces: seq<string>, sep: string): string {
    if pieces == [] then []
    else if |pieces| == 1 then pieces[0]
    else pieces[0] + sep + Join(pieces[1..], sep)
  }

  /** `s.split(sep)` for a non-empty literal separator: the pieces between the occurrences of
      `sep` found from left to right. Joining them back gives `s`, and no piece contains `sep`. */
  function Split(s: string, sep: string): (r: seq<string>)
    requires sep != []
    ensures |r| >= 1
    ensures Join(r, sep) == s
    ensures forall k :: 0 <= k < |r| ==> !Contains(r[k], sep)
    decreases |s|
  {
    match IndexOf(s, sep)
    case None => [s]
    case Some(i) =>
      var head := s[..i];
      assert !Contains(head, sep) by {
        forall j | OccursAt(head, sep, j) ensures OccursAt(s, sep, j) {
          assert head[j..j + |sep|] == s[j..j + |sep|];
        }
      }
      var tail := Split(s[i + |sep|..], sep);
      assert s == head + sep + s[i + |sep|..];
      [head] + tail
  }

  /** `s.split(sep)[k]`: the k-th piece, or `undefined` past the last one. */
  function Piece(s: string, sep: string, k: nat): Option<string>
    requires sep != []
  {
    var pieces := Split(s, sep);
    if k < |pieces| then Some(pieces[k]) else None
  }

  /** The piece right after the first separator is what lies between it and the next one. */
  lemma {:induction false} SecondPiece(pre: string, sep: string, mid: string, post: string)
    requires sep != [] && BorderFree(sep)
    requires !Contains(pre, sep) && !Contains(mid, sep)
    requires post == [] || StartsWith(post, sep)
    ensures Piece(pre + sep + mid + post, sep, 1) == Some(mid)
  {
    var s := pre + sep + mid + post;
    assert s == pre + sep + (mid + post);
    IndexOfAfter(pre, sep, mid + post);
    assert s[|pre| + |sep|..] == mid + post;
    assert Split(s, sep) == [s[..|pre|]] + Split(mid + post, sep);
    if post == [] {
      assert mid + post == mid;
      assert Split(mid, sep) == [mid];
    } else {
      assert post == sep + post[|sep|..];
      assert mid + post == mid + sep + post[|sep|..];
      IndexOfAfter(mid, sep, post[|sep|..]);
      assert (mid + post)[..|mid|] == mid;
    }
  }

  /** `s.replace(pattern, replacement)` for a literal pattern: only the first occurrence is
      replaced. */
  function ReplaceFirst(s: string, pattern: string, replacement: string): (r: string)
  {
    match IndexOf(s, pattern)
    case None => s
    case Some(i) => s[..i] + replacement + s[i + |pattern|..]
  }

  /** A pattern that `s` starts with is the one removed by `replace`. */
  lemma ReplaceFirstAtStart(prefix: string, rest: string)
    ensures ReplaceFirst(prefix + rest, prefix, "") == rest
  {
    var s := prefix + rest;
    assert OccursAt(s, prefix, 0) by { assert s[..|prefix|] == prefix; }
    assert s[|prefix|..] == rest;
  }

  // ---------------------------------------------------------------------------------------
  // decimal numbers

  function DigitChar(d: nat): (c: char)
    requires d < 10
    ensures IsDigit(c)
  {
    ('0' as int + d) as char
  }

  function DigitValue(c: char): (d: nat)
    requires IsDigit(c)
    ensures d < 10
  {
    c as int - '0' as int
  }

  /** The value of a string of decimal digits (leading zeros allowed), as `parseInt` reads it. */
  function DigitsValue(s: string): nat
    requires AllDigits(s)
  {
    if s == [] then 0 else 10 * DigitsValue(s[..|s| - 1]) + DigitValue(s[|s| - 1])
  }

  /** The decimal rendering of a natural number, as `${n}` writes it: non-empty, digits only,
      and read back by DigitsValue as `n`. */
  function NatToString(n: nat): (r: string)
    ensures |r| >= 1 && AllDigits(r)
    ensures DigitsValue(r) == n
  {
    if n < 10 then [DigitChar(n)]
    else
      var r := NatToString(n / 10) + [DigitChar(n % 10)];
      assert r[..|r| - 1] == NatToString(n / 10);
      r
  }

  /** The length of the longest run of digits at the start of `s`. */
  function DigitRun(s: string): (n: nat)
    ensures n <= |s| && AllDigits(s[..n])
    ensures n == |s| || !IsDigit(s[n])
  {
    if s != [] && IsDigit(s[0]) then
      var n := 1 + DigitRun(s[1..]);
      assert s[..n] == [s[0]] + s[1..][..n - 1];
      n
    else 0
  }

  /** A digit string followed by a non-digit: the digit run is exactly that string. */
  lemma DigitRunOf(d: string, rest: string)
    requires AllDigits(d)
    requires rest == [] || !IsDigit(rest[0])
    ensures DigitRun(d + rest) == |d|
    decreases |d|
  {
    if d != [] {
      assert (d + rest)[1..] == d[1..] + rest;
      DigitRunOf(d[1..], rest);
    }
  }

  /** `parseInt(s, 10)`; `None` stands for NaN. Leading white space is skipped, one sign is
      accepted, and the longest run of decimal digits after it is read. */
  function ParseInt(s: string): (r: Option<int>)
    ensures r.None? <==> DigitRun(Unsigned(TrimStart(s))) == 0
  {
    ParseTrimmed(TrimStart(s))
  }

  /** `parseInt` after the leading white space: an optional sign, then the leading digits. */
  function ParseTrimmed(t: string): (r: Option<int>)
    ensures r.None? <==> DigitRun(Unsigned(t)) == 0
  {
    var body := Unsigned(t);
    if DigitRun(body) == 0 then None else Some(Signed(t[0], LeadingValue(body)))
  }

  /** `magnitude` under the sign character `c`: negated for '-', kept otherwise. */
  function Signed(c: char, magnitude: nat): int {
    if c == '-' then -(magnitude as int) else magnitude
  }

  /** The value of the run of digits at the start of `s` (0 when there is none). */
  function LeadingValue(s: string): nat {
    DigitsValue(s[..DigitRun(s)])
  }

  /** `s` without one leading sign character. */
  function Unsigned(s: string): string {
    if s != [] && (s[0] == '-' || s[0] == '+') then s[1..] else s
  }

  /** Text that starts with a digit is read as the value of its leading digit run. */
  lemma ParseIntOfDigitStart(s: string)
    requires s != [] && IsDigit(s[0])
    ensures ParseInt(s) == Some(DigitsValue(s[..DigitRun(s)]))
  {
    assert !IsSpace(s[0]);
    ParseIntOfTrimmed(s);
    ParseTrimmedDigits(s);
  }

  /** Without a sign the digit run of the trimmed text is read as it stands. */
  lemma ParseTrimmedDigits(t: string)
    requires t != [] && IsDigit(t[0])
    ensures ParseTrimmed(t) == Some(DigitsValue(t[..DigitRun(t)]))
  {
    assert Unsigned(t) == t;
  }

  /** After a sign the digit run that follows it is read, negated for '-'. */
  lemma ParseTrimmedSigned(sign: char, u: string)
    requires sign == '-' || sign == '+'
    requires u != [] && IsDigit(u[0])
    ensures ParseTrimmed([sign] + u) == Some(Signed(sign, LeadingValue(u)))
  {
    var t := [sign] + u;
    assert t[0] == sign;
    assert t[1..] == u;
    assert Unsigned(t) == u;
  }

  /** `parseInt` skips leading white space and reads an optional sign before the digits:
      "-" negates the count and "+" keeps it. */
  lemma ParseIntSigned(ws: string, sign: char, n: nat, rest: string)
    requires Blank(ws)
    requires sign == '-' || sign == '+'
    requires rest == [] || !IsDigit(rest[0])
    ensures ParseInt(ws + ([sign] + (NatToString(n) + rest))) == Some(if sign == '-' then -(n as int) else n as int)
  {
    ParseIntSkipsBlank(ws, [sign] + (NatToString(n) + rest));
    ParseIntAfterSign(sign, n, rest);
  }

  /** Without a sign, leading white space is skipped and the count is read as written. */
  lemma ParseIntUnsignedAfterBlank(ws: string, n: nat, rest: string)
    requires Blank(ws)
    requires rest == [] || !IsDigit(rest[0])
    ensures ParseInt(ws + (NatToString(n) + rest)) == Some(n as int)
  {
    var u := NatToString(n) + rest;
    assert u[0] == NatToString(n)[0];
    ParseIntSkipsBlank(ws, u);
    ParseIntOfNat(n, rest);
  }

  /** A sign in front of a written count: "-" negates it, "+" keeps it. */
  lemma ParseIntAfterSign(sign: char, n: nat, rest: string)
    requires sign == '-' || sign == '+'
    requires rest == [] || !IsDigit(rest[0])
    ensures ParseInt([sign] + (NatToString(n) + rest)) == Some(Signed(sign, n))
  {
    var d := NatToString(n);
    assert DigitsValue(d) == n;
    ParseIntSignedDigits(sign, d, rest);
  }

  /** A sign in front of a run of digits: the run is read, negated for '-'. */
  lemma ParseIntSignedDigits(sign: char, d: string, rest: string)
    requires sign == '-' || sign == '+'
    requires d != [] && AllDigits(d)
    requires rest == [] || !IsDigit(rest[0])
    ensures ParseInt([sign] + (d + rest)) == Some(Signed(sign, DigitsValue(d)))
  {
    var u := d + rest;
    var s := [sign] + u;
    var v := DigitsValue(d);
    assert s[0] == sign;
    assert IsDigit(u[0]) by { assert u[0] == d[0]; }
    assert LeadingValue(u) == v by { LeadingValueOfDigits(d, rest); }
    assert ParseTrimmed(s) == Some(Signed(sign, v)) by { ParseTrimmedSigned(sign, u); }
    assert ParseInt(s) == ParseTrimmed(s) by { ParseIntOfTrimmed(s); }
  }

  /** Text that does not start with white space is read as it stands. */
  lemma ParseIntOfTrimmed(s: string)
    requires s != [] && !IsSpace(s[0])
    ensures ParseInt(s) == ParseTrimmed(s)
  {
    assert TrimStart(s) == s;
  }

  /** The digit run at the start of digits followed by a non-digit is those digits. */
  lemma LeadingValueOfDigits(d: string, rest: string)
    requires AllDigits(d)
    requires rest == [] || !IsDigit(rest[0])
    ensures LeadingValue(d + rest) == DigitsValue(d)
  {
    DigitRunOf(d, rest);
    PrefixOfDigits(d, rest);
  }

  /** Leading white space does not change what `parseInt` reads. */
  lemma ParseIntSkipsBlank(ws: string, t: string)
    requires Blank(ws)
    requires t != [] && !IsSpace(t[0])
    ensures ParseInt(ws + t) == ParseInt(t)
  {
    TrimBlankPrefix(ws, t);
    assert TrimStart(t) == t;
  }

  /** The digits written in front of other text are its leading digits. */
  lemma PrefixOfDigits(d: string, rest: string)
    ensures (d + rest)[..|d|] == d
  {
  }

  /** White space in front of text that does not start with white space is trimmed away. */
  lemma {:induction false} TrimBlankPrefix(ws: string, t: string)
    requires Blank(ws)
    requires t != [] && !IsSpace(t[0])
    ensures TrimStart(ws + t) == t
    decreases |ws|
  {
    if ws == [] {
      assert ws + t == t;
    } else {
      assert (ws + t)[0] == ws[0];
      assert (ws + t)[1..] == ws[1..] + t;
      TrimBlankPrefix(ws[1..], t);
    }
  }

  /** `parseInt` reads back what `${n}` wrote, whatever non-digit text follows it. */
  lemma ParseIntOfNat(n: nat, rest: string)
    requires rest == [] || !IsDigit(rest[0])
    ensures ParseInt(NatToString(n) + rest) == Some(n)
  {
    var d := NatToString(n);
    var s := d + rest;
    assert s[0] == d[0];
    ParseIntOfDigitStart(s);
    DigitRunOf(d, rest);
    assert s[..|d|] == d;
  }
}
