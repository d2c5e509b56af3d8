/**
 * String operations the scripts use from their languages' standard libraries:
 * substring search (`includes`, `in`), `endsWith`, first-occurrence `replace`,
 * `split`/`join` on one separator character, Python's `strip()`, the slice
 * `s[-n:]` and the count of non-overlapping occurrences of a literal pattern.
 */
module Text {
  import opened Common

  /** `pat` occurs in `s` starting at index `i`. */
  predicate OccursAt(s: string, pat: string, i: nat) {
    i + |pat| <= |s| && s[i..i + |pat|] == pat
  }

  /** Index of the first occurrence of `pat` in `s` at or after `from`. */
  function IndexFrom(s: string, pat: string, from: nat): (r: Option<nat>)
    requires from <= |s|
    ensures r.Some? ==> from <= r.value <= |s| && OccursAt(s, pat, r.value)
    ensures r.Some? ==> forall j :: from <= j < r.value ==> !OccursAt(s, pat, j)
    ensures r.None? ==> forall j :: from <= j <= |s| ==> !OccursAt(s, pat, j)
    decreases |s| - from
  {
    if OccursAt(s, pat, from) then Some(from)
    else if from == |s| then None
    else IndexFrom(s, pat, from + 1)
  }

  /** JavaScript `s.indexOf(pat)`, with `None` for -1. */
  function IndexOf(s: string, pat: string): Option<nat> {
    IndexFrom(s, pat, 0)
  }

  /** JavaScript `s.includes(pat)`, Python `pat in s`. */
  predicate Contains(s: string, pat: string) {
    IndexOf(s, pat).Some?
  }

  lemma ContainsIff(s: string, pat: string)
    ensures Contains(s, pat) <==> exists i :: 0 <= i <= |s| && OccursAt(s, pat, i)
  {
    if !Contains(s, pat) {
      forall i | 0 <= i <= |s| ensures !OccursAt(s, pat, i) {
        assert IndexFrom(s, pat, 0).None?;
      }
    }
  }

  /** JavaScript `s.endsWith(suffix)`. */
  predicate EndsWith(s: string, suffix: string) {
    |suffix| <= |s| && s[|s| - |suffix|..] == suffix
  }

  /** JavaScript `s.replace(pat, "")` with a string pattern: only the first occurrence goes. */
  function RemoveFirst(s: string, pat: string): (r: string)
    ensures IndexOf(s, pat).None? ==> r == s
    ensures IndexOf(s, pat).Some? ==> |r| == |s| - |pat|
  {
    match IndexOf(s, pat)
    case None => s
    case Some(i) => s[..i] + s[i + |pat|..]
  }

  /** Index of the first `c` in `s`, or `|s|` when there is none. */
  function CharIndex(s: string, c: char): (r: nat)
    ensures r <= |s|
    ensures r < |s| ==> s[r] == c
    ensures forall j :: 0 <= j < r ==> s[j] != c
  {
    if |s| == 0 then 0
    else if s[0] == c then 0
    else 1 + CharIndex(s[1..], c)
  }

  /** `s.split(sep)` in both Python and JavaScript for a one-character separator. */
  function Split(s: string, sep: char): (r: seq<string>)
    ensures |r| >= 1
    decreases |s|
  {
    var i := CharIndex(s, sep);
    if i == |s| then [s] else [s[..i]] + Split(s[i + 1..], sep)
  }

  /** `sep.join(lines)` in Python, `lines.join(sep)` in JavaScript. */
  function Join(lines: seq<string>, sep: char): string {
    if |lines| == 0 then ""
    else if |lines| == 1 then lines[0]
    else lines[0] + [sep] + Join(lines[1..], sep)
  }

  /** Every piece that `Split` yields is free of the separator. */
  lemma {:induction false} SplitPiecesFree(s: string, sep: char)
    ensures forall k :: 0 <= k < |Split(s, sep)| ==> sep !in Split(s, sep)[k]
    decreases |s|
  {
    var i := CharIndex(s, sep);
    if i < |s| {
      SplitPiecesFree(s[i + 1..], sep);
      var r := Split(s, sep);
      assert r == [s[..i]] + Split(s[i + 1..], sep);
      forall k | 0 <= k < |r| ensures sep !in r[k] {
        if k == 0 {
          assert forall j :: 0 <= j < i ==> s[..i][j] != sep;
        } else {
          assert r[k] == Split(s[i + 1..], sep)[k - 1];
        }
      }
    }
  }

  /** Splitting a joined text gives back the lines, when no line holds the separator. */
  lemma {:induction false} SplitJoin(lines: seq<string>, sep: char)
    requires |lines| >= 1
    requires forall k :: 0 <= k < |lines| ==> sep !in lines[k]
    ensures Split(Join(lines, sep), sep) == lines
  {
    var head := lines[0];
    assert CharIndex(head, sep) == |head|;
    if |lines| == 1 {
    } else {
      var rest := Join(lines[1..], sep);
      var s := head + [sep] + rest;
      assert Join(lines, sep) == s;
      assert forall j :: 0 <= j < |head| ==> s[j] == head[j];
      assert CharIndex(s, sep) == |head| by {
        CharIndexPrefix(head, sep, [sep] + rest);
        assert s == head + ([sep] + rest);
        assert CharIndex([sep] + rest, sep) == 0;
      }
      assert s[..|head|] == head;
      assert s[|head| + 1..] == rest;
      SplitJoin(lines[1..], sep);
    }
  }

  /** Joining the pieces of a split gives back the text. */
  lemma {:induction false} JoinSplit(s: string, sep: char)
    ensures Join(Split(s, sep), sep) == s
    decreases |s|
  {
    var i := CharIndex(s, sep);
    if i < |s| {
      JoinSplit(s[i + 1..], sep);
      var tail := Split(s[i + 1..], sep);
      var pieces := [s[..i]] + tail;
      assert Split(s, sep) == pieces;
      assert |pieces| >= 2 && pieces[0] == s[..i] && pieces[1..] == tail;
      assert Join(pieces, sep) == s[..i] + [sep] + Join(tail, sep);
      assert s == s[..i] + [sep] + s[i + 1..];
    }
  }

  lemma {:induction false} CharIndexPrefix(a: string, c: char, b: string)
    requires c !in a
    ensures CharIndex(a + b, c) == |a| + CharIndex(b, c)
    decreases |a|
  {
    if |a| > 0 {
      assert (a + b)[1..] == a[1..] + b;
      CharIndexPrefix(a[1..], c, b);
    } else {
      assert a + b == b;
    }
  }

  /** The text ends with the last line that was joined. */
  lemma {:induction false} JoinEndsWithLast(lines: seq<string>, sep: char)
    requires |lines| >= 1
    ensures EndsWith(Join(lines, sep), lines[|lines| - 1])
  {
    if |lines| > 1 {
      JoinEndsWithLast(lines[1..], sep);
      var rest := Join(lines[1..], sep);
      var s := lines[0] + [sep] + rest;
      assert Join(lines, sep) == s;
      assert s[|s| - |rest|..] == rest;
      assert s[|s| - |lines[|lines| - 1]|..] == rest[|rest| - |lines[|lines| - 1]|..];
    }
  }

  /** The characters Python's `str.isspace()` holds for, which `str.strip()` removes. */
  predicate IsSpace(c: char) {
    || c == ' ' || ('\t' <= c <= '\r') || ('\U{1C}' <= c <= '\U{1F}') || c == '\U{85}' || c == '\U{A0}'
    || c == '\U{1680}' || ('\U{2000}' <= c <= '\U{200A}') || c == '\U{2028}' || c == '\U{2029}'
    || c == '\U{202F}' || c == '\U{205F}' || c == '\U{3000}'
  }

  function TrimStart(s: string): (r: string)
    ensures |r| <= |s| && r == s[|s| - |r|..]
    ensures |r| > 0 ==> !IsSpace(r[0])
  {
    if |s| > 0 && IsSpace(s[0]) then TrimStart(s[1..]) else s
  }

  function TrimEnd(s: string): (r: string)
    ensures |r| <= |s| && r == s[..|r|]
    ensures |r| > 0 ==> !IsSpace(r[|r| - 1])
  {
    if |s| > 0 && IsSpace(s[|s| - 1]) then TrimEnd(s[..|s| - 1]) else s
  }

  /** Python `s.strip()`. */
  function Strip(s: string): (r: string)
    ensures |r| <= |s|
    ensures |r| > 0 ==> !IsSpace(r[0]) && !IsSpace(r[|r| - 1])
  {
    var t := TrimStart(s);
    var u := TrimEnd(t);
    if |u| > 0 then
      assert u[0] == t[0];
      u
    else u
  }

  /** Python `s[-n:]` for `n > 0`: the last `n` characters, or all of `s` when shorter. */
  function LastChars(s: string, n: nat): (r: string)
    ensures |r| == Min(n, |s|)
    ensures r == s[|s| - |r|..]
  {
    if |s| <= n then s else s[|s| - n..]
  }

  /**
   * Python `len(re.findall(pat, s))` for a literal, non-empty pattern: the matches
   * are found left to right and do not overlap.
   */
  function CountOccurrences(s: string, pat: string): (r: nat)
    requires |pat| > 0
    ensures r * |pat| <= |s|
    decreases |s|
  {
    if |s| == 0 then 0
    else if OccursAt(s, pat, 0) then 1 + CountOccurrences(s[|pat|..], pat)
    else CountOccurrences(s[1..], pat)
  }

  /** The number of positions of `s` at which `pat` occurs, overlapping or not. */
  function Occurrences(s: string, pat: string): nat
    decreases |s|
  {
    if |s| == 0 then 0
    else (if OccursAt(s, pat, 0) then 1 else 0) + Occurrences(s[1..], pat)
  }

  /** The first character of `pat` does not recur in it, so two occurrences can never overlap. */
  predicate FirstCharUnique(pat: string) {
    |pat| > 0 && forall k :: 0 < k < |pat| ==> pat[k] != pat[0]
  }

  /** Inside an occurrence of such a pattern no other occurrence starts. */
  lemma {:induction false} SkipInsideOccurrence(s: string, pat: string, k: nat)
    requires FirstCharUnique(pat) && OccursAt(s, pat, 0) && 1 <= k <= |pat|
    ensures Occurrences(s[k..], pat) == Occurrences(s[|pat|..], pat)
    decreases |pat| - k
  {
    if k < |pat| {
      var t := s[k..];
      assert s[..|pat|] == pat;
      assert t[0] == s[..|pat|][k] == pat[k];
      assert !OccursAt(t, pat, 0);
      assert t[1..] == s[k + 1..];
      SkipInsideOccurrence(s, pat, k + 1);
    }
  }

  /**
   * For a pattern that cannot overlap itself, the left-to-right count is the
   * number of positions at which the pattern occurs.
   */
  lemma {:induction false} CountIsOccurrences(s: string, pat: string)
    requires FirstCharUnique(pat)
    ensures CountOccurrences(s, pat) == Occurrences(s, pat)
    decreases |s|
  {
    if |s| > 0 {
      if OccursAt(s, pat, 0) {
        SkipInsideOccurrence(s, pat, 1);
        CountIsOccurrences(s[|pat|..], pat);
      } else {
        CountIsOccurrences(s[1..], pat);
      }
    }
  }

  function DigitChar(d: nat): (c: char)
    requires d < 10
    ensures '0' <= c <= '9' && c as int - '0' as int == d
  {
    (d + '0' as int) as char
  }

  /** `${n}` for a non-negative integer: its decimal digits, without leading zeros. */
  function DecimalString(n: nat): (r: string)
    ensures |r| >= 1
    ensures forall k :: 0 <= k < |r| ==> '0' <= r[k] <= '9'
    ensures r[0] == '0' <==> n == 0
  {
    if n < 10 then [DigitChar(n)] else DecimalString(n / 10) + [DigitChar(n % 10)]
  }

  /** The number a string of decimal digits denotes. */
  function DecimalValue(s: string): nat
    requires forall k :: 0 <= k < |s| ==> '0' <= s[k] <= '9'
  {
    if |s| == 0 then 0
    else DecimalValue(s[..|s| - 1]) * 10 + (s[|s| - 1] as int - '0' as int)
  }

  /** Reading back the digits `DecimalString` writes gives the number. */
  lemma {:induction false} DecimalRoundTrip(n: nat)
    ensures DecimalValue(DecimalString(n)) == n
  {
    var r := DecimalString(n);
    if n >= 10 {
      DecimalRoundTrip(n / 10);
      assert r[..|r| - 1] == DecimalString(n / 10);
    } else {
      assert r[..0] == [];
    }
  }

  /** There is some occurrence to count exactly when the pattern occurs at all. */
  lemma {:induction false} CountPositiveIff(s: string, pat: string)
    requires |pat| > 0
    ensures CountOccurrences(s, pat) > 0 <==> Contains(s, pat)
    decreases |s|
  {
    ContainsIff(s, pat);
    if |s| > 0 && !OccursAt(s, pat, 0) {
      CountPositiveIff(s[1..], pat);
      ContainsIff(s[1..], pat);
      forall i | 1 <= i <= |s| ensures OccursAt(s, pat, i) <==> OccursAt(s[1..], pat, i - 1) {
        if i + |pat| <= |s| {
          var w, v := s[i..i + |pat|], s[1..][i - 1..i - 1 + |pat|];
          assert forall j :: 0 <= j < |pat| ==> w[j] == s[i + j] == v[j];
          assert w == v;
        }
      }
      if Contains(s, pat) {
        var i :| 0 <= i <= |s| && OccursAt(s, pat, i);
        assert i >= 1;
      }
      if Contains(s[1..], pat) {
        var i :| 0 <= i <= |s[1..]| && OccursAt(s[1..], pat, i);
        assert OccursAt(s, pat, i + 1);
      }
    } else if |s| == 0 {
      assert !OccursAt(s, pat, 0);
    }
  }

  /** `JSON.stringify` of an array of strings (the strings are taken to need no escaping). */
  function JsonStrings(items: seq<string>): string {
    "[" + JoinQuoted(items) + "]"
  }

  function JoinQuoted(items: seq<string>): string {
    if |items| == 0 then ""
    else if |items| == 1 then "\"" + items[0] + "\""
    else "\"" + items[0] + "\"," + JoinQuoted(items[1..])
  }

  /** The characters `encodeURIComponent` leaves as they are. */
  predicate Unreserved(c: char) {
    ('A' <= c <= 'Z') || ('a' <= c <= 'z') || ('0' <= c <= '9') || c in "-_.!~*'()"
  }

  function HexDigit(n: nat): char
    requires n < 16
  {
    "0123456789ABCDEF"[n]
  }

  /** `encodeURIComponent` for ASCII text: every reserved ASCII character becomes `%XX`. */
  function EncodeUriComponent(s: string): string {
    if |s| == 0 then ""
    else
      var c := s[0];
      var head := if Unreserved(c) || c as int >= 128 then [c]
                  else ['%', HexDigit(c as int / 16), HexDigit(c as int % 16)];
      head + EncodeUriComponent(s[1..])
  }
}
