/** The JavaScript string operations the services rely on, on `seq<char>`:
    `split` on one character, `trim`, `startsWith` and `toLowerCase`. */
module Text {

  /** The characters `String.prototype.trim` removes: the white space and line
      terminators of ECMAScript, that is tab, line tabulation, form feed, the byte
      order mark, the space separators of Unicode category Zs (space, NO-BREAK SPACE,
      OGHAM SPACE MARK, U+2000 to U+200A, NARROW NO-BREAK SPACE, MEDIUM MATHEMATICAL
      SPACE, IDEOGRAPHIC SPACE), line feed, carriage return, and the line and
      paragraph separators. */
  predicate IsSpace(c: char)
  {
    || c == '\t' || c == '\U{000B}' || c == '\U{000C}' || c == '\U{FEFF}'
    || c == ' ' || c == '\U{00A0}' || c == '\U{1680}' || ('\U{2000}' <= c <= '\U{200A}')
    || c == '\U{202F}' || c == '\U{205F}' || c == '\U{3000}'
    || c == '\n' || c == '\r' || c == '\U{2028}' || c == '\U{2029}'
  }

  /** `s.split(sep)`: the pieces between occurrences of `sep`. An empty string gives
      one empty piece, and a trailing `sep` gives a trailing empty piece. */
  function Split(s: string, sep: char): (r: seq<string>)
    ensures |r| >= 1
    ensures forall i :: 0 <= i < |r| ==> sep !in r[i]
    ensures |r| == 1 <==> sep !in s
  {
    if s == [] then [""] else SplitStep(s[0], Split(s[1..], sep), sep)
  }

  /** One character in front of the pieces of the rest: a separator starts a new
      piece, any other character goes at the front of the first one. */
  function SplitStep(c: char, rest: seq<string>, sep: char): (r: seq<string>)
    requires |rest| >= 1
    ensures |r| >= 1
  {
    if c == sep then [""] + rest else [[c] + rest[0]] + rest[1..]
  }

  /** `parts.join(sep)` for a non-empty list of pieces. */
  function Join(parts: seq<string>, sep: char): string
    requires |parts| >= 1
  {
    if |parts| == 1 then parts[0] else parts[0] + [sep] + Join(parts[1..], sep)
  }

  /** Splitting loses nothing: joining the pieces back with the separator gives the
      original string. */
  lemma {:induction false} SplitJoin(s: string, sep: char)
    ensures Join(Split(s, sep), sep) == s
  {
    if s != [] {
      var rest := Split(s[1..], sep);
      SplitJoin(s[1..], sep);
      if s[0] == sep {
        assert Split(s, sep)[1..] == rest;
      } else {
        var r := Split(s, sep);
        if |rest| == 1 {
          assert r == [[s[0]] + rest[0]];
        } else {
          assert r[1..] == rest[1..];
          assert Join(rest, sep) == rest[0] + [sep] + Join(rest[1..], sep);
        }
      }
    }
  }

  /** Splitting at a separator splits the two sides independently. */
  lemma {:induction false} SplitConcat(s: string, t: string, sep: char)
    ensures Split(s + [sep] + t, sep) == Split(s, sep) + Split(t, sep)
  {
    var u := s + [sep] + t;
    if s == [] {
      assert u == [sep] + t && u[1..] == t;
    } else {
      assert u[0] == s[0] && u[1..] == s[1..] + [sep] + t;
      SplitConcat(s[1..], t, sep);
      SplitCons(s[0], Split(s[1..], sep), Split(t, sep), sep);
    }
  }

  /** The step of `Split` at a first character, when the rest is split in two. */
  lemma SplitCons(c: char, head: seq<string>, tail: seq<string>, sep: char)
    requires |head| >= 1
    ensures SplitStep(c, head + tail, sep) == SplitStep(c, head, sep) + tail
  {
    if c != sep {
      assert (head + tail)[1..] == head[1..] + tail;
    }
  }

  /** A string without the separator is one piece. */
  lemma SplitNoSep(t: string, sep: char)
    ensures sep !in t ==> Split(t, sep) == [t]
  {
    SplitJoin(t, sep);
  }

  /** The number of white-space characters at the front of `s`. */
  function LeadingSpaces(s: string): (n: nat)
    ensures n <= |s|
    ensures forall k :: 0 <= k < n ==> IsSpace(s[k])
    ensures n < |s| ==> !IsSpace(s[n])
  {
    if s == [] || !IsSpace(s[0]) then 0 else 1 + LeadingSpaces(s[1..])
  }

  /** The length of `s` without its trailing white space. */
  function ContentEnd(s: string): (m: nat)
    ensures m <= |s|
    ensures forall k :: m <= k < |s| ==> IsSpace(s[k])
    ensures m > 0 ==> !IsSpace(s[m - 1])
  {
    if s == [] || !IsSpace(s[|s| - 1]) then |s| else ContentEnd(s[..|s| - 1])
  }

  /** A string with no leading and no trailing white space. */
  predicate IsTrimmed(s: string)
  {
    s == [] || (!IsSpace(s[0]) && !IsSpace(s[|s| - 1]))
  }

  /** `s.trim()`: the string without its leading and trailing white space. It is the
      contiguous part of `s` that starts after the leading white space and has only
      white space after it, so it holds no character `s` does not hold, and it is
      empty exactly when `s` is all white space. */
  function Trim(s: string): (r: string)
    ensures IsTrimmed(r)
    ensures LeadingSpaces(s) + |r| <= |s| && r == s[LeadingSpaces(s)..LeadingSpaces(s) + |r|]
    ensures forall k :: LeadingSpaces(s) + |r| <= k < |s| ==> IsSpace(s[k])
    ensures |r| <= |s| && forall c :: c in r ==> c in s
    ensures r == [] <==> forall k :: 0 <= k < |s| ==> IsSpace(s[k])
  {
    var i := LeadingSpaces(s);
    var t := s[i..];
    var r := t[..ContentEnd(t)];
    assert forall c :: c in r ==> c in s by {
      forall c | c in r ensures c in s {
        var k :| 0 <= k < |r| && r[k] == c;
        assert s[i + k] == c;
      }
    }
    assert i < |s| ==> r != [] by {
      if i < |s| {
        assert !IsSpace(t[0]);
      }
    }
    r
  }

  /** Trimming undoes padding: white space put around a trimmed string is exactly
      what `trim` removes. */
  lemma TrimPadded(a: string, t: string, b: string)
    requires forall k :: 0 <= k < |a| ==> IsSpace(a[k])
    requires forall k :: 0 <= k < |b| ==> IsSpace(b[k])
    requires IsTrimmed(t)
    ensures Trim(a + t + b) == t
  {
    var s := a + t + b;
    var r := Trim(s);
    if t == [] {
      assert forall k :: 0 <= k < |s| ==> IsSpace(s[k]) by {
        forall k | 0 <= k < |s| ensures IsSpace(s[k]) {
          if k < |a| { assert s[k] == a[k]; } else { assert s[k] == b[k - |a|]; }
        }
      }
    } else {
      var n := LeadingSpaces(s);
      assert s[|a|] == t[0];
      assert n == |a|;
      assert r == s[|a|..|a| + |t|] == t;
    }
  }

  /** Trimming a trimmed string changes nothing, so `trim` is idempotent. */
  lemma TrimTrimmed(s: string)
    requires IsTrimmed(s)
    ensures Trim(s) == s
  {
  }

  lemma TrimIdempotent(s: string)
    ensures Trim(Trim(s)) == Trim(s)
  {
    TrimTrimmed(Trim(s));
  }

  /** `s.startsWith(prefix)`. */
  predicate StartsWith(s: string, prefix: string)
  {
    |prefix| <= |s| && s[..|prefix|] == prefix
  }

  /** A string that starts with `p` still starts with it after anything is appended. */
  lemma StartsWithAppend(s: string, t: string, prefix: string)
    requires StartsWith(s, prefix)
    ensures StartsWith(s + t, prefix)
  {
    assert (s + t)[..|prefix|] == s[..|prefix|];
  }

  /** A string starting with `p + q` starts with `p`. */
  lemma StartsWithShorter(s: string, p: string, q: string)
    requires StartsWith(s, p + q)
    ensures StartsWith(s, p)
  {
    assert s[..|p|] == (p + q)[..|p|];
  }

  function LowerChar(c: char): (d: char)
  {
    if 'A' <= c <= 'Z' then (c as int + 32) as char else c
  }

  /** `s.toLowerCase()` on the ASCII letters; other characters are kept. */
  function ToLower(s: string): (r: string)
    ensures |r| == |s|
    ensures forall i :: 0 <= i < |s| ==> r[i] == LowerChar(s[i])
  {
    seq(|s|, i requires 0 <= i < |s| => LowerChar(s[i]))
  }

  lemma ToLowerIdempotent(s: string)
    ensures ToLower(ToLower(s)) == ToLower(s)
  {
  }
}
