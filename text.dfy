/** The string operations the pages apply, restricted to ASCII: case folding
    (`toLowerCase`, `toUpperCase`), `trim`, `split`, `includes`, `slice(-n)`
    and the decimal rendering of a number inside a template string. */
module Text {

  predicate IsUpper(c: char) { 'A' <= c <= 'Z' }

  predicate IsLower(c: char) { 'a' <= c <= 'z' }

  /** The whitespace `trim` removes, restricted to ASCII. */
  predicate IsSpace(c: char)
  {
    c == ' ' || c == '\t' || c == '\n' || c == '\r' || c as int == 11 || c as int == 12
  }

  function LowerChar(c: char): (d: char)
    ensures !IsUpper(d)
    ensures IsSpace(d) <==> IsSpace(c)
    ensures IsUpper(c) ==> d as int == c as int + 32
    ensures !IsUpper(c) ==> d == c
  {
    if IsUpper(c) then (c as int + 32) as char else c
  }

  function UpperChar(c: char): (d: char)
    ensures !IsLower(d)
    ensures IsSpace(d) <==> IsSpace(c)
    ensures IsLower(c) ==> d as int == c as int - 32
    ensures !IsLower(c) ==> d == c
  {
    if IsLower(c) then (c as int - 32) as char else c
  }

  function ToLower(s: string): (r: string)
    ensures |r| == |s|
    ensures forall i :: 0 <= i < |s| ==> r[i] == LowerChar(s[i])
  {
    if s == [] then [] else [LowerChar(s[0])] + ToLower(s[1..])
  }

  function ToUpper(s: string): (r: string)
    ensures |r| == |s|
    ensures forall i :: 0 <= i < |s| ==> r[i] == UpperChar(s[i])
  {
    if s == [] then [] else [UpperChar(s[0])] + ToUpper(s[1..])
  }

  /** Upper-casing forgets any earlier lower-casing. */
  lemma UpperOfLower(s: string)
    ensures ToUpper(ToLower(s)) == ToUpper(s)
  {
    var a, b := ToUpper(ToLower(s)), ToUpper(s);
    assert |a| == |b|;
    forall i | 0 <= i < |s| ensures a[i] == b[i] {
      var c := s[i];
      if IsUpper(c) {
        assert !IsLower(c);
        assert IsLower(LowerChar(c));
      }
    }
  }

  // ---------------------------------------------------------------- trim

  /** Number of whitespace characters at the start of `s`. */
  function LeadingSpaces(s: string): (k: nat)
    ensures k <= |s|
    ensures forall i :: 0 <= i < k ==> IsSpace(s[i])
    ensures k < |s| ==> !IsSpace(s[k])
  {
    if s != [] && IsSpace(s[0]) then 1 + LeadingSpaces(s[1..]) else 0
  }

  /** Number of whitespace characters at the end of `s`. */
  function TrailingSpaces(s: string): (k: nat)
    ensures k <= |s|
    ensures forall i :: |s| - k <= i < |s| ==> IsSpace(s[i])
    ensures k < |s| ==> !IsSpace(s[|s| - 1 - k])
  {
    if s != [] && IsSpace(s[|s| - 1]) then 1 + TrailingSpaces(s[..|s| - 1]) else 0
  }

  /** `s.trim()`: the middle of `s` between its leading and trailing whitespace. */
  function Trim(s: string): (r: string)
    ensures LeadingSpaces(s) + |r| <= |s|
    ensures r == s[LeadingSpaces(s)..LeadingSpaces(s) + |r|]
    ensures r == [] || (!IsSpace(r[0]) && !IsSpace(r[|r| - 1]))
    ensures forall i :: LeadingSpaces(s) + |r| <= i < |s| ==> IsSpace(s[i])
  {
    var rest := s[LeadingSpaces(s)..];
    rest[..|rest| - TrailingSpaces(rest)]
  }

  lemma {:induction false} LeadingSpacesOfLower(s: string)
    ensures LeadingSpaces(ToLower(s)) == LeadingSpaces(s)
    decreases |s|
  {
    if s != [] {
      assert ToLower(s)[1..] == ToLower(s[1..]);
      LeadingSpacesOfLower(s[1..]);
    }
  }

  lemma {:induction false} TrailingSpacesOfLower(s: string)
    ensures TrailingSpaces(ToLower(s)) == TrailingSpaces(s)
    decreases |s|
  {
    if s != [] {
      assert ToLower(s)[..|s| - 1] == ToLower(s[..|s| - 1]);
      TrailingSpacesOfLower(s[..|s| - 1]);
    }
  }

  lemma SliceOfLower(s: string, i: nat, j: nat)
    requires i <= j <= |s|
    ensures ToLower(s)[i..j] == ToLower(s[i..j])
  {
    var ls, t := ToLower(s), s[i..j];
    var a, b := ls[i..j], ToLower(t);
    assert |a| == |t| == |b|;
    forall k | 0 <= k < |t| ensures a[k] == b[k] {
      assert a[k] == ls[i + k];
      assert t[k] == s[i + k];
    }
  }

  lemma LowerAfterLeadingSpaces(s: string)
    ensures ToLower(s)[LeadingSpaces(ToLower(s))..] == ToLower(s[LeadingSpaces(s)..])
  {
    LeadingSpacesOfLower(s);
    SliceOfLower(s, LeadingSpaces(s), |s|);
  }

  /** Trimming and lower-casing commute, because case folding neither makes
      nor removes whitespace. */
  lemma TrimOfLower(s: string)
    ensures Trim(ToLower(s)) == ToLower(Trim(s))
  {
    var rest := s[LeadingSpaces(s)..];
    var m := |rest| - TrailingSpaces(rest);
    LowerAfterLeadingSpaces(s);
    TrailingSpacesOfLower(rest);
    SliceOfLower(rest, 0, m);
  }

  // ---------------------------------------------------------------- split

  /** Number of occurrences of `c` in `s`. */
  function Count(s: string, c: char): nat
  {
    if s == [] then 0 else (if s[0] == c then 1 else 0) + Count(s[1..], c)
  }

  /** `s.split(sep)` for a one-character separator: the pieces between the
      separators, empty pieces included; the empty string gives `[""]`. */
  function Split(s: string, sep: char): (parts: seq<string>)
    ensures |parts| >= 1
    ensures forall i :: 0 <= i < |parts| ==> sep !in parts[i]
  {
    if s == [] then [""]
    else
      var rest := Split(s[1..], sep);
      if s[0] == sep then [""] + rest
      else [[s[0]] + rest[0]] + rest[1..]
  }

  /** `parts.join(sep)` */
  function Join(parts: seq<string>, sep: char): string
    requires |parts| >= 1
  {
    if |parts| == 1 then parts[0] else parts[0] + [sep] + Join(parts[1..], sep)
  }

  /** There is one piece more than there are separators. */
  lemma {:induction false} SplitCount(s: string, sep: char)
    ensures |Split(s, sep)| == Count(s, sep) + 1
  {
    if s != [] {
      SplitCount(s[1..], sep);
    }
  }

  /** Joining the pieces with the separator gives back the original text. */
  lemma {:induction false} SplitJoin(s: string, sep: char)
    ensures Join(Split(s, sep), sep) == s
  {
    if s != [] {
      SplitJoin(s[1..], sep);
      var rest := Split(s[1..], sep);
      if s[0] == sep {
        assert Split(s, sep)[1..] == rest;
      } else {
        var parts := Split(s, sep);
        if |rest| == 1 {
          assert parts == [[s[0]] + rest[0]];
        } else {
          assert parts[1..] == rest[1..];
          assert Join(rest, sep) == rest[0] + [sep] + Join(rest[1..], sep);
        }
      }
    }
  }

  /** `s.split(sep)[0]`: the text before the first separator. */
  function BeforeFirst(s: string, sep: char): (r: string)
    ensures sep !in r
  {
    Split(s, sep)[0]
  }

  lemma {:induction false} BeforeFirstIsPrefix(s: string, sep: char)
    ensures BeforeFirst(s, sep) <= s
    ensures sep in s ==> |BeforeFirst(s, sep)| < |s| && s[|BeforeFirst(s, sep)|] == sep
    ensures sep !in s ==> BeforeFirst(s, sep) == s
  {
    if s != [] {
      BeforeFirstIsPrefix(s[1..], sep);
      if s[0] != sep {
        assert s == [s[0]] + s[1..];
      }
    }
  }

  /** `s.split(sep).pop()`: the text after the last separator. */
  function AfterLast(s: string, sep: char): (r: string)
    ensures sep !in r
  {
    var parts := Split(s, sep);
    parts[|parts| - 1]
  }

  /** Text without the separator is one piece; text with it is several. */
  lemma {:induction false} SplitShape(s: string, sep: char)
    ensures sep !in s ==> Split(s, sep) == [s]
    ensures sep in s ==> |Split(s, sep)| >= 2
  {
    if s != [] {
      SplitShape(s[1..], sep);
      if s[0] != sep {
        assert sep in s <==> sep in s[1..];
        assert s == [s[0]] + s[1..];
      }
    }
  }

  lemma {:induction false} AfterLastIsSuffix(s: string, sep: char)
    ensures |AfterLast(s, sep)| <= |s|
    ensures AfterLast(s, sep) == s[|s| - |AfterLast(s, sep)|..]
    ensures sep in s ==> |AfterLast(s, sep)| < |s| && s[|s| - |AfterLast(s, sep)| - 1] == sep
    ensures sep !in s ==> AfterLast(s, sep) == s
  {
    SplitShape(s, sep);
    if s != [] {
      AfterLastIsSuffix(s[1..], sep);
      SplitShape(s[1..], sep);
      var rest := Split(s[1..], sep);
      var r := AfterLast(s[1..], sep);
      if s[0] == sep {
        assert AfterLast(s, sep) == r;
      } else if sep in s[1..] {
        assert AfterLast(s, sep) == r;
      } else {
        assert s == [s[0]] + s[1..];
      }
    }
  }

  // ------------------------------------------------------------- includes

  /** `s.includes(t)` */
  predicate Includes(s: string, t: string)
  {
    t <= s || (s != [] && Includes(s[1..], t))
  }

  lemma IncludesEmpty(s: string)
    ensures Includes(s, "")
  {
  }

  // --------------------------------------------------------------- slices

  /** `s.slice(-n)` for n > 0: the last n characters, or all of `s` if shorter. */
  function LastN(s: string, n: nat): (r: string)
    ensures |r| == if |s| <= n then |s| else n
    ensures r == s[|s| - |r|..]
  {
    if |s| <= n then s else s[|s| - n..]
  }

  // ------------------------------------------------------ decimal numbers

  function Digit(d: nat): (c: char)
    requires d < 10
    ensures '0' <= c <= '9' && c as int - '0' as int == d
  {
    ('0' as int + d) as char
  }

  /** The decimal text of a natural number, as a template string renders it. */
  function NatToString(n: nat): (s: string)
    ensures |s| >= 1
    ensures n >= 10 ==> |s| >= 2
    ensures forall i :: 0 <= i < |s| ==> '0' <= s[i] <= '9'
  {
    if n < 10 then [Digit(n)] else NatToString(n / 10) + [Digit(n % 10)]
  }

  /** Different numbers have different decimal texts. */
  lemma {:induction false} NatToStringInjective(a: nat, b: nat)
    requires NatToString(a) == NatToString(b)
    ensures a == b
  {
    if a >= 10 && b >= 10 {
      var sa, sb := NatToString(a), NatToString(b);
      assert sa[|sa| - 1] == sb[|sb| - 1];
      assert a % 10 == b % 10;
      assert sa[..|sa| - 1] == NatToString(a / 10);
      assert sb[..|sb| - 1] == NatToString(b / 10);
      NatToStringInjective(a / 10, b / 10);
    }
  }
}
