/**
 The JavaScript string operations the dashboard relies on, over `string`.
 A `char` here is a Unicode scalar value, and strings compare by code point,
 not by UTF-16 code unit as JavaScript does:
 `toLowerCase`, `includes`, `trim() === ''`, `Number.prototype.toString`
 for integers, `Array.prototype.join` with a one-character separator, and
 `String.prototype.split` as the inverse of `join`.
 */
module Text {

  /** An ASCII capital letter, the only characters `Lower` changes. */
  predicate IsUpper(c: char) {
    'A' <= c <= 'Z'
  }

  function LowerChar(c: char): (r: char)
    ensures IsUpper(c) ==> r as int == c as int + 32
    ensures !IsUpper(c) ==> r == c
  {
    if IsUpper(c) then (c as int + 32) as char else c
  }

  /** `s.toLowerCase()`, restricted to the ASCII letters. */
  function Lower(s: string): (r: string)
    ensures |r| == |s|
    ensures forall i :: 0 <= i < |s| ==> r[i] == LowerChar(s[i])
    ensures forall i :: 0 <= i < |r| ==> !IsUpper(r[i])
  {
    if s == [] then [] else [LowerChar(s[0])] + Lower(s[1..])
  }

  /** `t` occurs in `s` at position `i`. */
  ghost predicate OccursAt(s: string, t: string, i: int) {
    0 <= i && i + |t| <= |s| && s[i..i + |t|] == t
  }

  /** `s.includes(t)`, scanning from the front. */
  predicate Includes(s: string, t: string)
    decreases |s|
  {
    (|t| <= |s| && s[..|t|] == t) || (s != [] && Includes(s[1..], t))
  }

  /** `Includes` finds exactly the positions where `t` occurs. */
  lemma {:induction false} IncludesIffOccurs(s: string, t: string)
    ensures Includes(s, t) <==> exists i :: OccursAt(s, t, i)
    decreases |s|
  {
    if |t| <= |s| && s[..|t|] == t {
      assert OccursAt(s, t, 0);
    } else if s != [] {
      IncludesIffOccurs(s[1..], t);
      if exists i :: OccursAt(s, t, i) {
        var i :| OccursAt(s, t, i);
        if i > 0 {
          assert s[1..][i - 1..i - 1 + |t|] == s[i..i + |t|];
          assert OccursAt(s[1..], t, i - 1);
        }
      }
      if exists j :: OccursAt(s[1..], t, j) {
        var j :| OccursAt(s[1..], t, j);
        assert s[j + 1..j + 1 + |t|] == s[1..][j..j + |t|];
        assert OccursAt(s, t, j + 1);
      }
    }
  }

  /** The characters `String.prototype.trim` removes: WhiteSpace and LineTerminator. */
  predicate IsSpace(c: char) {
    c == ' ' || c == '\t' || c == '\n' || c == '\r' || c == '\U{000B}' || c == '\U{000C}'
    || c == '\U{00A0}' || c == '\U{FEFF}' || c == '\U{1680}' || ('\U{2000}' <= c <= '\U{200A}')
    || c == '\U{2028}' || c == '\U{2029}' || c == '\U{202F}' || c == '\U{205F}' || c == '\U{3000}'
  }

  /** `s.trim() === ''`: nothing but white space. */
  predicate IsBlank(s: string) {
    forall i :: 0 <= i < |s| ==> IsSpace(s[i])
  }

  predicate IsDigit(c: char) {
    '0' <= c <= '9'
  }

  function DigitChar(d: nat): (c: char)
    requires d < 10
    ensures IsDigit(c) && (c as int) - ('0' as int) == d
  {
    ('0' as int + d) as char
  }

  /** Decimal digits of a natural number, most significant first. */
  function NatToText(n: nat): (r: string)
    ensures |r| > 0
    ensures forall i :: 0 <= i < |r| ==> IsDigit(r[i])
    decreases n
  {
    if n < 10 then [DigitChar(n)] else NatToText(n / 10) + [DigitChar(n % 10)]
  }

  /** `String(n)` for an integer `n`. */
  function IntToText(n: int): (r: string)
    ensures |r| > 0
    ensures forall i :: 0 <= i < |r| ==> IsDigit(r[i]) || r[i] == '-'
  {
    if n < 0 then "-" + NatToText(-n) else NatToText(n)
  }

  /** The value of a string of decimal digits. */
  function DigitsValue(s: string): int {
    if s == [] then 0 else 10 * DigitsValue(s[..|s| - 1]) + ((s[|s| - 1] as int) - ('0' as int))
  }

  /** `parseInt` of what `IntToText` produces. */
  function ParseInt(s: string): int {
    if |s| > 0 && s[0] == '-' then -DigitsValue(s[1..]) else DigitsValue(s)
  }

  lemma {:induction false} NatToTextValue(n: nat)
    ensures DigitsValue(NatToText(n)) == n
    decreases n
  {
    if n >= 10 {
      NatToTextValue(n / 10);
      var r := NatToText(n);
      assert r[..|r| - 1] == NatToText(n / 10);
    }
  }

  /** Printing an integer and parsing it back gives the integer. */
  lemma IntToTextRoundTrip(n: int)
    ensures ParseInt(IntToText(n)) == n
  {
    if n < 0 {
      NatToTextValue(-n);
      assert IntToText(n)[1..] == NatToText(-n);
    } else {
      NatToTextValue(n);
    }
  }

  /** `parts.join(sep)`. */
  function Join(parts: seq<string>, sep: char): (r: string)
    ensures parts == [] ==> r == ""
    ensures |parts| == 1 ==> r == parts[0]
  {
    if parts == [] then ""
    else if |parts| == 1 then parts[0]
    else parts[0] + [sep] + Join(parts[1..], sep)
  }

  /** `s.split(sep)`: always at least one piece. */
  function Split(s: string, sep: char): (r: seq<string>)
    ensures |r| > 0
  {
    if s == [] then [""]
    else
      var rest := Split(s[1..], sep);
      if s[0] == sep then [""] + rest else [[s[0]] + rest[0]] + rest[1..]
  }

  predicate Free(s: string, sep: char) {
    forall i :: 0 <= i < |s| ==> s[i] != sep
  }

  /** A piece without the separator, then the separator, then anything, splits at that first separator. */
  lemma {:induction false} SplitAfterPiece(p: string, sep: char, rest: string)
    requires Free(p, sep)
    ensures Split(p + [sep] + rest, sep) == [p] + Split(rest, sep)
    decreases |p|
  {
    if p == [] {
      assert p + [sep] + rest == [sep] + rest;
    } else {
      SplitAfterPiece(p[1..], sep, rest);
      assert (p + [sep] + rest)[1..] == p[1..] + [sep] + rest;
      assert [p[0]] + p[1..] == p;
    }
  }

  /** A string without the separator splits into itself. */
  lemma {:induction false} SplitFree(p: string, sep: char)
    requires Free(p, sep)
    ensures Split(p, sep) == [p]
    decreases |p|
  {
    if p != [] {
      SplitFree(p[1..], sep);
      assert [p[0]] + p[1..] == p;
    }
  }

  /** `split` undoes `join` when no piece contains the separator. */
  lemma {:induction false} SplitJoin(parts: seq<string>, sep: char)
    requires |parts| > 0
    requires forall k :: 0 <= k < |parts| ==> Free(parts[k], sep)
    ensures Split(Join(parts, sep), sep) == parts
    decreases |parts|
  {
    if |parts| == 1 {
      SplitFree(parts[0], sep);
    } else {
      SplitJoin(parts[1..], sep);
      SplitAfterPiece(parts[0], sep, Join(parts[1..], sep));
    }
  }

  /** How many times `c` occurs in `s`. */
  function Occurrences(s: string, c: char): nat {
    if s == [] then 0 else (if s[0] == c then 1 else 0) + Occurrences(s[1..], c)
  }

  /** Occurrences of `c` across all the pieces. */
  function TotalOccurrences(parts: seq<string>, c: char): nat {
    if parts == [] then 0 else Occurrences(parts[0], c) + TotalOccurrences(parts[1..], c)
  }

  lemma {:induction false} OccurrencesConcat(a: string, b: string, c: char)
    ensures Occurrences(a + b, c) == Occurrences(a, c) + Occurrences(b, c)
    decreases |a|
  {
    if a == [] {
      assert a + b == b;
    } else {
      OccurrencesConcat(a[1..], b, c);
      assert (a + b)[1..] == a[1..] + b;
    }
  }

  lemma {:induction false} OccurrencesFree(s: string, c: char)
    ensures Free(s, c) <==> Occurrences(s, c) == 0
    decreases |s|
  {
    if s != [] {
      OccurrencesFree(s[1..], c);
      if Free(s[1..], c) && s[0] != c {
        forall i | 0 <= i < |s| ensures s[i] != c {
          if i > 0 {
            assert s[i] == s[1..][i - 1];
          }
        }
      }
    }
  }

  /** `split` makes one more piece than there are separators. */
  lemma {:induction false} SplitCount(s: string, sep: char)
    ensures |Split(s, sep)| == Occurrences(s, sep) + 1
    decreases |s|
  {
    if s != [] {
      SplitCount(s[1..], sep);
    }
  }

  /** `join` writes one separator between each two pieces, besides those inside the pieces. */
  lemma {:induction false} JoinCount(parts: seq<string>, sep: char)
    requires |parts| > 0
    ensures Occurrences(Join(parts, sep), sep) == |parts| - 1 + TotalOccurrences(parts, sep)
    decreases |parts|
  {
    if |parts| == 1 {
      assert TotalOccurrences(parts[1..], sep) == 0;
    } else {
      JoinCount(parts[1..], sep);
      OccurrencesConcat(parts[0] + [sep], Join(parts[1..], sep), sep);
      OccurrencesConcat(parts[0], [sep], sep);
      assert Occurrences([sep], sep) == 1;
    }
  }

  lemma {:induction false} TotalOccurrencesZero(parts: seq<string>, c: char)
    requires forall k :: 0 <= k < |parts| ==> Free(parts[k], c)
    ensures TotalOccurrences(parts, c) == 0
    decreases |parts|
  {
    if parts != [] {
      OccurrencesFree(parts[0], c);
      TotalOccurrencesZero(parts[1..], c);
    }
  }

  /** `join` with a separator other than `c` adds no `c`. */
  lemma {:induction false} JoinOtherCount(parts: seq<string>, sep: char, c: char)
    requires sep != c
    ensures Occurrences(Join(parts, sep), c) == TotalOccurrences(parts, c)
    decreases |parts|
  {
    if |parts| == 1 {
      assert TotalOccurrences(parts[1..], c) == 0;
    } else if |parts| > 1 {
      JoinOtherCount(parts[1..], sep, c);
      OccurrencesConcat(parts[0] + [sep], Join(parts[1..], sep), c);
      OccurrencesConcat(parts[0], [sep], c);
      assert Occurrences([sep], c) == 0;
    }
  }
}
