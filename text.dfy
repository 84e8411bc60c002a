/**
 * The Python string operations the rule engine relies on: `str.lower()`,
 * `str.split()` with no argument, the `in` substring test,
 * `str.startswith` and `int()` on a decimal token.
 */
module Text {

  import opened Wrappers

  // ---------------------------------------------------------------------
  // Case mapping (ASCII letters only)
  // ---------------------------------------------------------------------

  predicate IsUpper(c: char) { 'A' <= c <= 'Z' }

  function LowerChar(c: char): (d: char)
    ensures !IsUpper(d)
    ensures IsUpper(c) ==> d as int == c as int + 32
    ensures !IsUpper(c) ==> d == c
  {
    if IsUpper(c) then (c as int + 32) as char else c
  }

  /** `s.lower()` */
  function Lower(s: string): (r: string)
    ensures |r| == |s|
  {
    seq(|s|, i requires 0 <= i < |s| => LowerChar(s[i]))
  }

  predicate HasNoUpper(s: string) {
    forall i :: 0 <= i < |s| ==> !IsUpper(s[i])
  }

  /** Lower-casing yields lower-case text, and leaves lower-case text alone. */
  lemma LowerIsLowerCase(s: string)
    ensures HasNoUpper(Lower(s))
    ensures HasNoUpper(s) ==> Lower(s) == s
  {
  }

  lemma LowerIdempotent(s: string)
    ensures Lower(Lower(s)) == Lower(s)
  {
    LowerIsLowerCase(s);
  }

  lemma LowerAppend(a: string, b: string)
    ensures Lower(a + b) == Lower(a) + Lower(b)
  {
  }

  // ---------------------------------------------------------------------
  // Whitespace splitting
  // ---------------------------------------------------------------------

  /** The characters Python's `str.isspace()` accepts, which `str.split()` splits on. */
  predicate IsSpace(c: char) {
    var n := c as int;
    (9 <= n <= 13) || (28 <= n <= 32) || n == 0x85 || n == 0xA0 || n == 0x1680
    || (0x2000 <= n <= 0x200A) || n == 0x2028 || n == 0x2029 || n == 0x202F
    || n == 0x205F || n == 0x3000
  }

  predicate NoSpace(s: string) {
    forall i :: 0 <= i < |s| ==> !IsSpace(s[i])
  }

  /** Length of the run of non-space characters at the start of `s`. */
  function WordLength(s: string): (n: nat)
    ensures n <= |s|
    ensures NoSpace(s[..n])
    ensures n < |s| ==> IsSpace(s[n])
    decreases |s|
  {
    if s == [] || IsSpace(s[0]) then 0 else 1 + WordLength(s[1..])
  }

  /** `s.split()`: the maximal runs of non-space characters, in order. */
  function Words(s: string): (ws: seq<string>)
    ensures forall k :: 0 <= k < |ws| ==> ws[k] != [] && NoSpace(ws[k])
    decreases |s|
  {
    if s == [] then []
    else if IsSpace(s[0]) then Words(s[1..])
    else
      var n := WordLength(s);
      [s[..n]] + Words(s[n..])
  }

  lemma {:induction false} WordLengthOfWord(w: string, rest: string)
    requires NoSpace(w)
    requires rest == [] || IsSpace(rest[0])
    ensures WordLength(w + rest) == |w|
    decreases |w|
  {
    if w != [] {
      assert (w + rest)[1..] == w[1..] + rest;
      WordLengthOfWord(w[1..], rest);
    } else {
      assert w + rest == rest;
    }
  }

  /** Splitting `w + " " + rest` peels off the word `w`. */
  lemma WordsCons(w: string, rest: string)
    requires w != [] && NoSpace(w)
    ensures Words(w + " " + rest) == [w] + Words(rest)
  {
    var tail := " " + rest;
    var s := w + tail;
    assert w + " " + rest == s;
    WordLengthOfWord(w, tail);
    assert !IsSpace(s[0]) by { assert s[0] == w[0]; }
    assert s[..|w|] == w;
    assert s[|w|..] == tail;
    assert Words(s) == [w] + Words(tail);
    assert tail[1..] == rest;
    assert Words(tail) == Words(rest);
  }

  /** A single word splits to itself. */
  lemma WordsSingle(w: string)
    requires w != [] && NoSpace(w)
    ensures Words(w) == [w]
  {
    WordLengthOfWord(w, []);
    assert w + [] == w;
    assert w[|w|..] == [];
  }

  /** Splitting undoes joining with single spaces. */
  lemma {:induction false} WordsOfJoined(ws: seq<string>)
    requires |ws| > 0
    requires forall k :: 0 <= k < |ws| ==> ws[k] != [] && NoSpace(ws[k])
    ensures Words(JoinSpaced(ws)) == ws
    decreases |ws|
  {
    if |ws| == 1 {
      WordsSingle(ws[0]);
    } else {
      WordsOfJoined(ws[1..]);
      WordsCons(ws[0], JoinSpaced(ws[1..]));
    }
  }

  /** `" ".join(ws)` */
  function JoinSpaced(ws: seq<string>): string
    requires |ws| > 0
    decreases |ws|
  {
    if |ws| == 1 then ws[0] else ws[0] + " " + JoinSpaced(ws[1..])
  }

  predicate AllSpace(s: string) {
    forall i :: 0 <= i < |s| ==> IsSpace(s[i])
  }

  /** The words `ws` with the separator `seps[k]` between `ws[k]` and `ws[k + 1]`. */
  function Interleave(ws: seq<string>, seps: seq<string>): string
    requires |ws| > 0 && |seps| == |ws| - 1
    decreases |ws|
  {
    if |ws| == 1 then ws[0] else ws[0] + seps[0] + Interleave(ws[1..], seps[1..])
  }

  /** Leading whitespace is dropped. */
  lemma {:induction false} WordsSkipsSpace(sp: string, rest: string)
    requires AllSpace(sp)
    ensures Words(sp + rest) == Words(rest)
    decreases |sp|
  {
    if sp == [] {
      assert sp + rest == rest;
    } else {
      assert (sp + rest)[0] == sp[0];
      assert (sp + rest)[1..] == sp[1..] + rest;
      WordsSkipsSpace(sp[1..], rest);
    }
  }

  /** A word followed by whitespace or the end is split off whole. */
  lemma WordsPeel(w: string, rest: string)
    requires w != [] && NoSpace(w)
    requires rest == [] || IsSpace(rest[0])
    ensures Words(w + rest) == [w] + Words(rest)
  {
    var s := w + rest;
    WordLengthOfWord(w, rest);
    assert s[0] == w[0];
    assert s[..|w|] == w;
    assert s[|w|..] == rest;
  }

  /** Words separated by non-empty runs of whitespace, with whitespace after the last, split back into those words. */
  lemma {:induction false} WordsOfSeparated(ws: seq<string>, seps: seq<string>, trail: string)
    requires |ws| > 0 && |seps| == |ws| - 1
    requires forall k :: 0 <= k < |ws| ==> ws[k] != [] && NoSpace(ws[k])
    requires forall k :: 0 <= k < |seps| ==> seps[k] != [] && AllSpace(seps[k])
    requires AllSpace(trail)
    ensures Words(Interleave(ws, seps) + trail) == ws
    decreases |ws|
  {
    if |ws| == 1 {
      WordsPeel(ws[0], trail);
      WordsSkipsSpace(trail, []);
      assert trail + [] == trail;
      assert Interleave(ws, seps) + trail == ws[0] + trail;
    } else {
      var rest := Interleave(ws[1..], seps[1..]) + trail;
      WordsOfSeparated(ws[1..], seps[1..], trail);
      assert Interleave(ws, seps) + trail == ws[0] + (seps[0] + rest);
      assert (seps[0] + rest)[0] == seps[0][0];
      WordsPeel(ws[0], seps[0] + rest);
      WordsSkipsSpace(seps[0], rest);
    }
  }

  /**
   * `s.split()` in full: whatever whitespace runs separate the words, and
   * whatever whitespace surrounds them, the result is exactly the words.
   */
  lemma WordsOfSpaced(lead: string, ws: seq<string>, seps: seq<string>, trail: string)
    requires |ws| > 0 && |seps| == |ws| - 1
    requires forall k :: 0 <= k < |ws| ==> ws[k] != [] && NoSpace(ws[k])
    requires forall k :: 0 <= k < |seps| ==> seps[k] != [] && AllSpace(seps[k])
    requires AllSpace(lead) && AllSpace(trail)
    ensures Words(lead + Interleave(ws, seps) + trail) == ws
  {
    assert lead + Interleave(ws, seps) + trail == lead + (Interleave(ws, seps) + trail);
    WordsSkipsSpace(lead, Interleave(ws, seps) + trail);
    WordsOfSeparated(ws, seps, trail);
  }

  /** Text made only of whitespace has no words. */
  lemma WordsOfBlank(s: string)
    requires AllSpace(s)
    ensures Words(s) == []
  {
    WordsSkipsSpace(s, []);
    assert s + [] == s;
  }

  // ---------------------------------------------------------------------
  // Substring and prefix tests
  // ---------------------------------------------------------------------

  /** `needle` stands in `hay` at offset `i`. */
  predicate OccursAt(needle: string, hay: string, i: int) {
    0 <= i <= |hay| - |needle| && hay[i..i + |needle|] == needle
  }

  /** `needle in hay` */
  function Occurs(needle: string, hay: string): (r: bool)
    ensures r <==> exists i :: OccursAt(needle, hay, i)
    decreases |hay|
  {
    if |needle| > |hay| then false
    else if hay[..|needle|] == needle then assert OccursAt(needle, hay, 0); true
    else
      var r := Occurs(needle, hay[1..]);
      OccursShift(needle, hay);
      r
  }

  /** Without an occurrence at 0, the occurrences in `hay` are those in `hay[1..]`, one place later. */
  lemma OccursShift(needle: string, hay: string)
    requires |needle| <= |hay| && hay[..|needle|] != needle
    ensures (exists i :: OccursAt(needle, hay[1..], i)) <==> (exists i :: OccursAt(needle, hay, i))
  {
    if exists i :: OccursAt(needle, hay[1..], i) {
      var i :| OccursAt(needle, hay[1..], i);
      assert hay[1..][i..i + |needle|] == hay[i + 1..i + 1 + |needle|];
      assert OccursAt(needle, hay, i + 1);
    }
    if exists i :: OccursAt(needle, hay, i) {
      var i :| OccursAt(needle, hay, i);
      assert i != 0;
      assert hay[i..i + |needle|] == hay[1..][i - 1..i - 1 + |needle|];
      assert OccursAt(needle, hay[1..], i - 1);
    }
  }

  /** An occurrence survives lower-casing both strings. */
  lemma LowerKeepsOccurrence(needle: string, hay: string, i: int)
    requires OccursAt(needle, hay, i)
    ensures OccursAt(Lower(needle), Lower(hay), i)
  {
    forall k | 0 <= k < |needle|
      ensures Lower(hay)[i..i + |needle|][k] == Lower(needle)[k]
    {
      assert hay[i..i + |needle|][k] == needle[k];
    }
  }

  /** `s.startswith(p)` */
  predicate StartsWith(s: string, p: string) {
    |p| <= |s| && s[..|p|] == p
  }

  // ---------------------------------------------------------------------
  // Python int() on a base-10 token
  // ---------------------------------------------------------------------

  predicate IsDigit(c: char) { '0' <= c <= '9' }

  /** Digits, with single underscores allowed between two digits (PEP 515). */
  predicate IsDecimal(s: string) {
    |s| > 0 && IsDigit(s[0])
    && forall i :: 0 <= i < |s| ==> IsDigit(s[i]) || (s[i] == '_' && i + 1 < |s| && IsDigit(s[i + 1]))
  }

  /** The value of the digits of `s`, underscores skipped. */
  function DigitsValue(s: string): nat
    decreases |s|
  {
    if s == [] then 0
    else
      var c := s[|s| - 1];
      if IsDigit(c) then DigitsValue(s[..|s| - 1]) * 10 + (c as int - '0' as int)
      else DigitsValue(s[..|s| - 1])
  }

  /** `int(token)`; `None` where Python raises ValueError. */
  function ParseInt(t: string): Option<int> {
    if |t| > 0 && (t[0] == '+' || t[0] == '-') then
      if IsDecimal(t[1..]) then
        Some(if t[0] == '-' then -(DigitsValue(t[1..]) as int) else DigitsValue(t[1..]))
      else None
    else if IsDecimal(t) then Some(DigitsValue(t))
    else None
  }

  function DigitChar(d: nat): char
    requires d < 10
  {
    ('0' as int + d) as char
  }

  /** `str(n)` for an integer. */
  function NatToString(n: nat): (s: string)
    decreases n
  {
    if n < 10 then [DigitChar(n)] else NatToString(n / 10) + [DigitChar(n % 10)]
  }

  function IntToString(n: int): string {
    if n < 0 then "-" + NatToString(-n) else NatToString(n)
  }

  lemma {:induction false} NatToStringDigits(n: nat)
    ensures |NatToString(n)| > 0
    ensures forall i :: 0 <= i < |NatToString(n)| ==> IsDigit(NatToString(n)[i])
    ensures DigitsValue(NatToString(n)) == n
    decreases n
  {
    if n >= 10 {
      NatToStringDigits(n / 10);
      var s := NatToString(n);
      assert s[..|s| - 1] == NatToString(n / 10);
    }
  }

  /** `int(str(n)) == n` */
  lemma ParseIntOfString(n: int)
    ensures ParseInt(IntToString(n)) == Some(n)
  {
    var m: nat := if n < 0 then -n else n;
    NatToStringDigits(m);
    var s := NatToString(m);
    if n < 0 {
      assert ("-" + s)[1..] == s;
    }
  }

  lemma IntToStringShape(n: int)
    ensures IntToString(n) != [] && NoSpace(IntToString(n)) && HasNoUpper(IntToString(n))
  {
    var m: nat := if n < 0 then -n else n;
    NatToStringDigits(m);
  }
}
