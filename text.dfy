/**
 * The two string rewrites used when a menu step is synthesised:
 * Python's `str.replace` with a one-character pattern, and the
 * split/join view of a slash-separated menu path.
 */
module Text {

  /** `s.replace(c, sub)` in Python: every occurrence of `c` in `s` becomes `sub`. */
  function Replace(s: string, c: char, sub: string): (r: string)
    ensures c !in sub ==> c !in r
    ensures forall x :: x in r ==> x in s || x in sub
  {
    if s == [] then []
    else (if s[0] == c then sub else [s[0]]) + Replace(s[1..], c, sub)
  }

  /** Replacing distributes over concatenation: the order of the text is kept. */
  lemma {:induction false} ReplaceConcat(a: string, b: string, c: char, sub: string)
    ensures Replace(a + b, c, sub) == Replace(a, c, sub) + Replace(b, c, sub)
  {
    if a == [] {
      assert a + b == b;
    } else {
      assert (a + b)[1..] == a[1..] + b;
      ReplaceConcat(a[1..], b, c, sub);
    }
  }

  /** A string without the pattern character is left unchanged. */
  lemma {:induction false} ReplaceAbsent(s: string, c: char, sub: string)
    requires c !in s
    ensures Replace(s, c, sub) == s
  {
    if s != [] {
      ReplaceAbsent(s[1..], c, sub);
    }
  }

  /** Replacing with a string that does not contain the pattern is idempotent. */
  lemma ReplaceIdempotent(s: string, c: char, sub: string)
    requires c !in sub
    ensures Replace(Replace(s, c, sub), c, sub) == Replace(s, c, sub)
  {
    ReplaceAbsent(Replace(s, c, sub), c, sub);
  }

  /** Replacing a character by itself is the identity. */
  lemma {:induction false} ReplaceBySelf(s: string, c: char)
    ensures Replace(s, c, [c]) == s
  {
    if s != [] {
      ReplaceBySelf(s[1..], c);
    }
  }

  /** The pieces of `s` between occurrences of `c` (Python's `s.split(c)`). */
  function Split(s: string, c: char): (parts: seq<string>)
    ensures |parts| >= 1
    ensures forall i :: 0 <= i < |parts| ==> c !in parts[i]
  {
    if s == [] then [[]]
    else
      var rest := Split(s[1..], c);
      if s[0] == c then [[]] + rest
      else [[s[0]] + rest[0]] + rest[1..]
  }

  /** The parts separated by `sep` (Python's `sep.join(parts)`). */
  function JoinWith(parts: seq<string>, sep: string): string
  {
    if |parts| == 0 then []
    else if |parts| == 1 then parts[0]
    else parts[0] + sep + JoinWith(parts[1..], sep)
  }

  /** Prepending text to the first part prepends it to the joined string. */
  lemma JoinWithPrepend(x: string, parts: seq<string>, sep: string)
    requires |parts| >= 1
    ensures JoinWith([x + parts[0]] + parts[1..], sep) == x + JoinWith(parts, sep)
  {
    if |parts| > 1 {
      assert ([x + parts[0]] + parts[1..])[1..] == parts[1..];
    }
  }

  /** Replacing `c` by `sub` shows the pieces between the `c`s separated by `sub`. */
  lemma {:induction false} ReplaceIsJoinOfSplit(s: string, c: char, sub: string)
    ensures Replace(s, c, sub) == JoinWith(Split(s, c), sub)
  {
    if s != [] {
      ReplaceIsJoinOfSplit(s[1..], c, sub);
      var rest := Split(s[1..], c);
      if s[0] == c {
        assert ([[]] + rest)[1..] == rest;
      } else {
        JoinWithPrepend([s[0]], rest, sub);
      }
    }
  }

  /** Splitting on `c` and joining with `c` gives back the original string. */
  lemma SplitJoinRoundTrip(s: string, c: char)
    ensures JoinWith(Split(s, c), [c]) == s
  {
    ReplaceIsJoinOfSplit(s, c, [c]);
    ReplaceBySelf(s, c);
  }
}
