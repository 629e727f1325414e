/** Character and string primitives of the C++ library that the core relies on:
    `isalpha`/`toupper` in the C locale, `std::to_string`, the whitespace set of
    the `trim` helper, and splitting by `std::getline` on a delimiter. */
module Text {

  /** `isalpha` in the C locale: only ASCII A-Z and a-z are letters. */
  predicate IsAlpha(c: char) {
    'A' <= c <= 'Z' || 'a' <= c <= 'z'
  }

  /** `toupper` in the C locale. */
  function ToUpper(c: char): (u: char)
    ensures IsAlpha(c) <==> 'A' <= u <= 'Z'
    ensures !('a' <= c <= 'z') ==> u == c
    ensures 'a' <= c <= 'z' ==> u as int + 32 == c as int
  {
    if 'a' <= c <= 'z' then (c as int - 32) as char else c
  }

  /** The string with `toupper` applied to every character. */
  function UpperAll(s: string): (r: string)
    ensures |r| == |s|
    ensures forall k :: 0 <= k < |s| ==> r[k] == ToUpper(s[k])
  {
    seq(|s|, k requires 0 <= k < |s| => ToUpper(s[k]))
  }

  /** The characters `trim` removes: " \t\r\n". */
  predicate IsSpace(c: char) {
    c == ' ' || c == '\t' || c == '\r' || c == '\n'
  }

  predicate AllSpace(s: string) {
    forall k :: 0 <= k < |s| ==> IsSpace(s[k])
  }

  /** Drops trailing whitespace; what is left is a prefix of `s`. */
  function TrimRight(s: string): (r: string)
    ensures |r| <= |s| && r == s[..|r|]
    ensures AllSpace(s[|r|..])
    ensures r == [] || !IsSpace(r[|r| - 1])
  {
    if s != [] && IsSpace(s[|s| - 1]) then TrimRight(s[..|s| - 1]) else s
  }

  /** The `trim` helper of the file validator: strips whitespace on both ends, and
      empties a string made only of whitespace. The leading part is dropped one
      character at a time, then the trailing part. */
  function Trim(s: string): (r: string)
    ensures |r| <= |s|
    ensures r == [] || (!IsSpace(r[0]) && !IsSpace(r[|r| - 1]))
    ensures r == [] <==> AllSpace(s)
  {
    if s != [] && IsSpace(s[0]) then
      var r := Trim(s[1..]);
      assert AllSpace(s[1..]) ==> AllSpace(s) by {
        if AllSpace(s[1..]) {
          forall k | 1 <= k < |s| ensures IsSpace(s[k]) {
            assert s[k] == s[1..][k - 1];
          }
        }
      }
      r
    else
      var r := TrimRight(s);
      assert r == [] ==> AllSpace(s) by {
        if r == [] {
          assert s == s[0..];
        }
      }
      r
  }

  /** `r` is the slice of `s` starting at `i`, with only whitespace before and after. */
  predicate SliceBetweenSpaces(r: string, s: string, i: nat) {
    i <= |s| - |r| && r == s[i..i + |r|] && AllSpace(s[..i]) && AllSpace(s[i + |r|..])
  }

  /** A slice between spaces of `s[1..]` is one of `s` when `s[0]` is whitespace. */
  lemma SliceAfterSpace(r: string, s: string, j: nat)
    requires s != [] && IsSpace(s[0])
    requires SliceBetweenSpaces(r, s[1..], j)
    ensures SliceBetweenSpaces(r, s, j + 1)
  {
    var t := s[1..];
    assert t[j..j + |r|] == s[j + 1..j + 1 + |r|];
    assert t[j + |r|..] == s[j + 1 + |r|..];
    var lead := s[..j + 1];
    forall k | 0 <= k < j + 1 ensures IsSpace(lead[k]) {
      if k > 0 {
        assert lead[k] == t[..j][k - 1];
      }
    }
  }

  /** What `trim` keeps is the slice of `s` between its leading and its trailing
      whitespace: `substr(first, last - first + 1)`. */
  lemma {:induction false} TrimIsInfix(s: string)
    ensures exists i :: SliceBetweenSpaces(Trim(s), s, i)
  {
    var r := Trim(s);
    if s != [] && IsSpace(s[0]) {
      TrimIsInfix(s[1..]);
      var j :| SliceBetweenSpaces(r, s[1..], j);
      SliceAfterSpace(r, s, j);
    } else {
      assert r == s[0..0 + |r|] && AllSpace(s[..0]);
      assert SliceBetweenSpaces(r, s, 0);
    }
  }

  /** Neither end is whitespace: what `trim` returns. */
  predicate Trimmed(f: string) {
    f == [] || (!IsSpace(f[0]) && !IsSpace(f[|f| - 1]))
  }

  /** Trim leaves a trimmed string alone. */
  lemma TrimFixed(f: string)
    requires Trimmed(f)
    ensures Trim(f) == f
  {
    if f != [] {
      assert TrimRight(f) == f;
    }
  }

  /** A trimmed slice keeps only characters of the original. */
  lemma {:induction false} TrimKeeps(s: string, c: char)
    requires c !in s
    ensures c !in Trim(s)
  {
    if s != [] && IsSpace(s[0]) {
      TrimKeeps(s[1..], c);
    } else {
      var r := TrimRight(s);
      assert r == s[..|r|];
    }
  }

  /** Trimming twice is trimming once. */
  lemma {:induction false} TrimIdempotent(s: string)
    ensures Trim(Trim(s)) == Trim(s)
  {
    var t := Trim(s);
    if t != [] {
      assert TrimRight(t) == t;
    }
  }

  /** The fields joined back with the separator between consecutive fields. */
  function Join(fields: seq<string>, sep: char): string
  {
    if |fields| == 0 then []
    else if |fields| == 1 then fields[0]
    else fields[0] + [sep] + Join(fields[1..], sep)
  }

  /** Joining two non-empty runs of fields puts one separator between them. */
  lemma {:induction false} JoinAppend(a: seq<string>, b: seq<string>, sep: char)
    requires |a| >= 1 && |b| >= 1
    ensures Join(a + b, sep) == Join(a, sep) + [sep] + Join(b, sep)
  {
    if |a| == 1 {
      assert (a + b)[1..] == b;
    } else {
      assert (a + b)[1..] == a[1..] + b;
      JoinAppend(a[1..], b, sep);
    }
  }

  /** One more field at the end comes after one more separator. */
  lemma JoinSnoc(a: seq<string>, x: string, sep: char)
    requires |a| >= 1
    ensures Join(a + [x], sep) == Join(a, sep) + [sep] + x
  {
    JoinAppend(a, [x], sep);
  }

  /** Splits at every occurrence of `sep`: always at least one field, no field holds
      `sep`, and joining the fields back gives `s`. */
  function SplitOn(s: string, sep: char): (r: seq<string>)
    ensures |r| >= 1
    ensures Join(r, sep) == s
    ensures forall k :: 0 <= k < |r| ==> sep !in r[k]
  {
    if s == [] then [[]]
    else if s[0] == sep then [[]] + SplitOn(s[1..], sep)
    else
      var rest := SplitOn(s[1..], sep);
      assert Join(rest, sep) == s[1..];
      var r := [[s[0]] + rest[0]] + rest[1..];
      assert r[1..] == rest[1..];
      r
  }

  /** A string without the separator is one field. */
  lemma {:induction false} SplitOnSingle(a: string, sep: char)
    requires sep !in a
    ensures SplitOn(a, sep) == [a]
  {
    if a != [] {
      SplitOnSingle(a[1..], sep);
    }
  }

  /** Splitting `a + [sep] + rest` with `sep` not in `a` peels off `a`. */
  lemma {:induction false} SplitOnCons(a: string, rest: string, sep: char)
    requires sep !in a
    ensures SplitOn(a + [sep] + rest, sep) == [a] + SplitOn(rest, sep)
  {
    var s := a + [sep] + rest;
    if a == [] {
      assert s[1..] == rest;
    } else {
      assert s[1..] == a[1..] + [sep] + rest;
      SplitOnCons(a[1..], rest, sep);
      var r := SplitOn(s[1..], sep);
      assert r[0] == a[1..] && r[1..] == SplitOn(rest, sep);
      assert [a[0]] + a[1..] == a;
    }
  }

  /** Splitting is the inverse of joining fields that do not contain the separator. */
  lemma {:induction false} SplitJoin(fields: seq<string>, sep: char)
    requires |fields| >= 1
    requires forall k :: 0 <= k < |fields| ==> sep !in fields[k]
    ensures SplitOn(Join(fields, sep), sep) == fields
  {
    if |fields| == 1 {
      SplitOnSingle(fields[0], sep);
    } else {
      SplitJoin(fields[1..], sep);
      SplitOnCons(fields[0], Join(fields[1..], sep), sep);
    }
  }

  /** The last field of a split is empty exactly when `s` is empty or ends with `sep`. */
  lemma {:induction false} SplitOnLastEmpty(s: string, sep: char)
    ensures var r := SplitOn(s, sep);
            r[|r| - 1] == [] <==> (s == [] || s[|s| - 1] == sep)
  {
    if s != [] {
      SplitOnLastEmpty(s[1..], sep);
      var rest := SplitOn(s[1..], sep);
      if s[0] != sep && |rest| == 1 {
        assert SplitOn(s, sep) == [[s[0]] + rest[0]];
      }
    }
  }

  /** A separator at the end adds one empty field to the split. */
  lemma {:induction false} SplitOnSnocSep(s: string, sep: char)
    ensures SplitOn(s + [sep], sep) == SplitOn(s, sep) + [[]]
  {
    var t := s + [sep];
    if s == [] {
      assert t[1..] == [];
    } else {
      assert t[1..] == s[1..] + [sep];
      SplitOnSnocSep(s[1..], sep);
    }
  }

  /** The fields `std::getline(stream, field, sep)` reads from `s` one after the other:
      the split of `s` with a final empty field dropped, since a read that reaches the
      end of the input without extracting anything fails. */
  function GetlineFields(s: string, sep: char): (r: seq<string>)
    ensures forall k :: 0 <= k < |r| ==> sep !in r[k]
    ensures s == [] ==> r == []
    ensures s != [] && s[|s| - 1] != sep ==> |r| >= 1 && Join(r, sep) == s
    ensures s != [] && s[|s| - 1] == sep ==> Join(r + [[]], sep) == s
  {
    var f := SplitOn(s, sep);
    SplitOnLastEmpty(s, sep);
    if f[|f| - 1] == [] then
      var r := f[..|f| - 1];
      assert r + [[]] == f;
      assert forall k :: 0 <= k < |r| ==> r[k] == f[k];
      r
    else f
  }

  /** Reading back fields joined with the separator gives the fields, when none holds
      the separator and the last one is not empty. */
  lemma GetlineOfJoin(fields: seq<string>, sep: char)
    requires |fields| >= 1 && fields[|fields| - 1] != []
    requires forall k :: 0 <= k < |fields| ==> sep !in fields[k]
    ensures GetlineFields(Join(fields, sep), sep) == fields
  {
    SplitJoin(fields, sep);
    SplitOnLastEmpty(Join(fields, sep), sep);
  }

  /** The decimal digit `d` as a character. */
  function DigitChar(d: int): (c: char)
    requires 0 <= d <= 9
    ensures '0' <= c <= '9' && c as int - '0' as int == d
  {
    ('0' as int + d) as char
  }

  /** The number a string of decimal digits denotes, most significant digit first. */
  function DecimalValue(d: string): int {
    if d == [] then 0 else DecimalValue(d[..|d| - 1]) * 10 + (d[|d| - 1] as int - '0' as int)
  }

  /** `std::to_string` of a natural number: its decimal digits, most significant first,
      without leading zeros. */
  function NatToString(n: nat): (r: string)
    ensures |r| >= 1
    ensures forall k :: 0 <= k < |r| ==> '0' <= r[k] <= '9'
    ensures n < 10 <==> |r| == 1
    ensures 10 <= n < 100 <==> |r| == 2
  {
    if n < 10 then [DigitChar(n)] else NatToString(n / 10) + [DigitChar(n % 10)]
  }

  /** The digits `to_string` writes denote the number, and only zero is written with a
      leading '0'. */
  lemma {:induction false} NatToStringValue(n: nat)
    ensures DecimalValue(NatToString(n)) == n
    ensures NatToString(n)[0] == '0' <==> n == 0
  {
    var r := NatToString(n);
    if n < 10 {
      assert r[..0] == [];
    } else {
      NatToStringValue(n / 10);
      assert r[..|r| - 1] == NatToString(n / 10);
    }
  }

  /** `std::to_string` of an int: a minus sign before the digits of a negative number. */
  function IntToString(i: int): (r: string)
    ensures |r| >= 1
    ensures r[0] == '-' <==> i < 0
    ensures forall k :: 0 <= k < |r| ==> r[k] == '-' || '0' <= r[k] <= '9'
  {
    if i < 0 then "-" + NatToString(-i) else NatToString(i)
  }

  /** The digits of `to_string(i)` denote |i|; a minus sign precedes them exactly when
      i is negative. */
  lemma IntToStringValue(i: int)
    ensures i >= 0 ==> DecimalValue(IntToString(i)) == i
    ensures i < 0 ==> |IntToString(i)| >= 2 && DecimalValue(IntToString(i)[1..]) == -i
    ensures i < 0 ==> IntToString(i)[1..] == NatToString(-i)
    ensures IntToString(i)[if i < 0 then 1 else 0] == '0' <==> i == 0
  {
    if i < 0 {
      NatToStringValue(-i);
      assert IntToString(i)[1..] == NatToString(-i);
    } else {
      NatToStringValue(i);
    }
  }
}
