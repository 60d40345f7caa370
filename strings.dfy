/** The few Python string operations the modelled code relies on:
    `str.split()` with no separator, `sep.join(parts)`, `int(s)` on a
    string and `s.lstrip('-')`. */
module Strings {
  import opened Common

  /** The ASCII characters Python's `str.split()` treats as whitespace;
      the other Unicode spaces `unicode.split()` also splits on are not
      modelled. */
  predicate IsSpace(c: char) {
    c == ' ' || c == '\t' || c == '\n' || c == '\r' || c as int == 11 || c as int == 12
  }

  predicate NoSpace(s: string) {
    forall i :: 0 <= i < |s| ==> !IsSpace(s[i])
  }

  /** A word as `str.split()` produces it: non-empty, no whitespace. */
  predicate IsWord(w: string) {
    w != [] && NoSpace(w)
  }

  /** Length of the run of non-whitespace characters that starts `s`. */
  function WordLen(s: string): (n: nat)
    ensures n <= |s|
    ensures NoSpace(s[..n])
    ensures n < |s| ==> IsSpace(s[n])
  {
    if s == [] || IsSpace(s[0]) then 0
    else
      var k := WordLen(s[1..]);
      assert s[..k + 1] == [s[0]] + s[1..][..k];
      k + 1
  }

  /** `s.split()`: the maximal runs of non-whitespace characters, in order. */
  function Split(s: string): (r: seq<string>)
    ensures forall w :: w in r ==> IsWord(w)
    decreases |s|
  {
    if s == [] then []
    else if IsSpace(s[0]) then Split(s[1..])
    else
      var n := WordLen(s);
      [s[..n]] + Split(s[n..])
  }

  /** `sep.join(parts)`. */
  function Join(sep: string, parts: seq<string>): string {
    if parts == [] then ""
    else if |parts| == 1 then parts[0]
    else parts[0] + sep + Join(sep, parts[1..])
  }

  /** Joining two non-empty lists is joining each and putting `sep` between. */
  lemma {:induction false} JoinAppend(sep: string, a: seq<string>, b: seq<string>)
    requires a != [] && b != []
    ensures Join(sep, a + b) == Join(sep, a) + sep + Join(sep, b)
  {
    if |a| == 1 {
      assert a + b == [a[0]] + b;
      assert (a + b)[1..] == b;
    } else {
      assert (a + b)[1..] == a[1..] + b;
      JoinAppend(sep, a[1..], b);
    }
  }

  /** The length of `' '.join(ws)`: the word lengths plus one per gap. */
  function TotalLen(ws: seq<string>): nat {
    if ws == [] then 0 else |ws[0]| + TotalLen(ws[1..])
  }

  lemma {:induction false} JoinLength(ws: seq<string>)
    requires ws != []
    ensures |Join(" ", ws)| == TotalLen(ws) + |ws| - 1
  {
    if |ws| > 1 {
      JoinLength(ws[1..]);
    }
  }

  /** `' '.join` of words contains no word-free stretch: it is empty exactly
      when the list is. */
  lemma {:induction false} JoinEmpty(ws: seq<string>)
    requires forall w :: w in ws ==> IsWord(w)
    ensures Join(" ", ws) == "" <==> ws == []
  {
    if ws != [] {
      assert ws[0] in ws;
      if |ws| > 1 {
        assert |Join(" ", ws)| >= |ws[0]|;
      }
    }
  }

  /** Splitting the single-space join of a word list gives the list back. */
  lemma {:induction false} SplitJoin(ws: seq<string>)
    requires forall w :: w in ws ==> IsWord(w)
    ensures Split(Join(" ", ws)) == ws
  {
    if ws != [] {
      var w := ws[0];
      assert w in ws;
      if |ws| == 1 {
        SplitWordThen(w, "");
        assert w + "" == w;
      } else {
        var rest := Join(" ", ws[1..]);
        SplitWordThen(w, " " + rest);
        assert w + " " + rest == w + (" " + rest);
        assert (" " + rest)[1..] == rest;
        forall x | x in ws[1..] ensures IsWord(x) {
          assert x in ws;
        }
        SplitJoin(ws[1..]);
        assert ws == [w] + ws[1..];
      }
    }
  }

  /** A word followed by whitespace (or nothing) splits off as one term. */
  lemma SplitWordThen(w: string, tail: string)
    requires IsWord(w)
    requires tail == [] || IsSpace(tail[0])
    ensures Split(w + tail) == [w] + Split(tail)
  {
    var s := w + tail;
    WordLenOfWord(w, tail);
    assert s[..|w|] == w;
    assert s[|w|..] == tail;
  }

  lemma {:induction false} WordLenOfWord(w: string, tail: string)
    requires IsWord(w)
    requires tail == [] || IsSpace(tail[0])
    ensures WordLen(w + tail) == |w|
  {
    if |w| == 1 {
      assert (w + tail)[1..] == tail;
    } else {
      assert (w + tail)[1..] == w[1..] + tail;
      WordLenOfWord(w[1..], tail);
    }
  }

  function DigitValue(c: char): nat {
    if '0' <= c <= '9' then (c as int - '0' as int) else 0
  }

  predicate IsDigit(c: char) { '0' <= c <= '9' }

  predicate AllDigits(s: string) { forall i :: 0 <= i < |s| ==> IsDigit(s[i]) }

  /** The value of a decimal digit string, most significant digit first. */
  function DigitsValue(s: string): nat {
    if s == [] then 0 else DigitsValue(s[..|s| - 1]) * 10 + DigitValue(s[|s| - 1])
  }

  /** The decimal representation of a natural number. */
  function ShowNat(n: nat): (r: string)
    ensures r != [] && AllDigits(r)
  {
    var d := ['0' + (n % 10) as char];
    if n < 10 then d else ShowNat(n / 10) + d
  }

  /** `str(n)` for an int. */
  function ShowInt(n: int): string {
    if n < 0 then "-" + ShowNat(-n) else ShowNat(n)
  }

  function StripLeft(s: string): (r: string)
    ensures r == [] || !IsSpace(r[0])
  {
    if s != [] && IsSpace(s[0]) then StripLeft(s[1..]) else s
  }

  function StripRight(s: string): (r: string)
    ensures r == [] || !IsSpace(r[|r| - 1])
  {
    if s != [] && IsSpace(s[|s| - 1]) then StripRight(s[..|s| - 1]) else s
  }

  /** `int(s)` on a string: surrounding whitespace, an optional sign and at
      least one ASCII decimal digit; anything else is a ValueError (None
      here). Non-ASCII digits, which `int()` of a unicode string accepts,
      are not modelled. */
  function ParseInt(s: string): (r: Option<int>)
  {
    var t := StripRight(StripLeft(s));
    if t != [] && (t[0] == '-' || t[0] == '+') then
      var ds := t[1..];
      if ds != [] && AllDigits(ds) then
        var v: int := if t[0] == '-' then 0 - (DigitsValue(ds) as int) else DigitsValue(ds);
        Some(v)
      else None
    else if t != [] && AllDigits(t) then Some(DigitsValue(t))
    else None
  }

  lemma {:induction false} DigitsOfShowNat(n: nat)
    ensures DigitsValue(ShowNat(n)) == n
  {
    var d := ['0' + (n % 10) as char];
    if n >= 10 {
      DigitsOfShowNat(n / 10);
      var r := ShowNat(n / 10) + d;
      assert r[..|r| - 1] == ShowNat(n / 10);
    }
  }

  /** `int(str(n)) == n`: parsing inverts printing. */
  lemma ParseShowInt(n: int)
    ensures ParseInt(ShowInt(n)) == Some(n)
  {
    var s := ShowInt(n);
    var m: nat := if n < 0 then -n else n;
    DigitsOfShowNat(m);
    assert StripLeft(s) == s;
    assert StripRight(s) == s;
    if n < 0 {
      assert s[1..] == ShowNat(m);
    }
  }

  /** `s.lstrip('-')`. */
  function LStripDash(s: string): (r: string)
    ensures |r| <= |s|
    ensures r == s[|s| - |r|..]
    ensures r == [] || r[0] != '-'
    ensures forall i :: 0 <= i < |s| - |r| ==> s[i] == '-'
  {
    if s != [] && s[0] == '-' then LStripDash(s[1..]) else s
  }

  predicate StartsWith(s: string, prefix: string) {
    |prefix| <= |s| && s[..|prefix|] == prefix
  }

  /** Removes every whitespace character (`re.sub(r'\s+', '', s)`). */
  function RemoveSpace(s: string): (r: string)
    ensures NoSpace(r)
    ensures |r| <= |s|
  {
    if s == [] then []
    else (if IsSpace(s[0]) then [] else [s[0]]) + RemoveSpace(s[1..])
  }

  lemma {:induction false} RemoveSpaceKeeps(s: string)
    requires NoSpace(s)
    ensures RemoveSpace(s) == s
  {
    if s != [] {
      RemoveSpaceKeeps(s[1..]);
      assert s == [s[0]] + s[1..];
    }
  }

  /** Lower-casing of the ASCII letters A-Z; `unicode.lower()` also
      lower-cases other alphabets, which is not modelled. */
  function Lower(s: string): (r: string)
    ensures |r| == |s|
  {
    seq(|s|, i requires 0 <= i < |s| => if 'A' <= s[i] <= 'Z' then (s[i] as int + 32) as char else s[i])
  }

  /** Python's `<` on strings: lexicographic order by code point. */
  predicate StrLess(a: string, b: string) {
    if a == [] then b != []
    else if b == [] then false
    else if a[0] != b[0] then a[0] < b[0]
    else StrLess(a[1..], b[1..])
  }

  predicate StrLe(a: string, b: string) { a == b || StrLess(a, b) }

  /** A string as its code points, the key Python compares strings by. */
  function Codes(s: string): (r: seq<int>)
    ensures |r| == |s|
  {
    seq(|s|, i requires 0 <= i < |s| => s[i] as int)
  }

  /** `needle in haystack`: a contiguous substring. */
  predicate Contains(haystack: string, needle: string) {
    exists i :: 0 <= i <= |haystack| && OccursAt(haystack, needle, i)
  }

  predicate OccursAt(haystack: string, needle: string, i: int) {
    0 <= i && i + |needle| <= |haystack| && haystack[i..i + |needle|] == needle
  }
}
