/**
 * POSIX path manipulation as Python's `os.path` does it on Linux:
 * `join` of two components and `dirname`.
 */
module Paths {

  /** `os.path.join(a, b)`: an absolute `b` wins; otherwise a `/` is inserted unless `a` is empty or already ends in one. */
  function Join(a: string, b: string): (r: string)
    ensures |b| > 0 && b[0] == '/' ==> r == b
    ensures (|b| == 0 || b[0] != '/') ==> r == a + b || r == a + "/" + b
    ensures (|b| == 0 || b[0] != '/') && a != [] ==> |r| > |b| && r[|r| - |b| - 1] == '/'
    ensures (|b| == 0 || b[0] != '/') && (a == [] || a[|a| - 1] == '/') ==> r == a + b
  {
    if |b| > 0 && b[0] == '/' then b
    else if a == [] || a[|a| - 1] == '/' then a + b
    else a + "/" + b
  }

  /** A joined path ends with its last component and, when that is relative, starts with the first. */
  lemma JoinKeepsComponents(a: string, b: string)
    ensures var r := Join(a, b);
      |r| >= |b| && r[|r| - |b|..] == b && ((|b| == 0 || b[0] != '/') ==> a <= r)
  {
    var r := Join(a, b);
    if !(|b| > 0 && b[0] == '/') && !(a == [] || a[|a| - 1] == '/') {
      assert r == (a + "/") + b;
    }
  }

  /** `s.rfind(c)`: the last index holding `c`, or -1 when there is none. */
  function RFind(s: string, c: char): (i: int)
    ensures -1 <= i < |s|
    ensures i >= 0 ==> s[i] == c
    ensures forall j :: i < j < |s| ==> s[j] != c
  {
    if s == [] then -1
    else if s[|s| - 1] == c then |s| - 1
    else RFind(s[..|s| - 1], c)
  }

  /** `s.rstrip(c)`: `s` without its trailing run of `c`. */
  function RStrip(s: string, c: char): (r: string)
    ensures r <= s
    ensures r == [] || r[|r| - 1] != c
    ensures forall j :: |r| <= j < |s| ==> s[j] == c
  {
    if s == [] || s[|s| - 1] != c then s
    else RStrip(s[..|s| - 1], c)
  }

  /** Every character of `s` is a slash. */
  predicate AllSlashes(s: string) {
    forall i :: 0 <= i < |s| ==> s[i] == '/'
  }

  /** `os.path.dirname(p)`: everything up to the last slash, with trailing slashes removed unless it is all slashes. */
  function Dirname(p: string): (r: string)
    ensures r <= p
    ensures '/' !in p ==> r == []
  {
    var head := p[..RFind(p, '/') + 1];
    if head != [] && !AllSlashes(head) then RStrip(head, '/') else head
  }

  /** The folder a file was joined onto is its dirname again. */
  lemma DirnameOfJoin(folder: string, file: string)
    requires folder != [] && folder[|folder| - 1] != '/'
    requires '/' !in file
    ensures Dirname(Join(folder, file)) == folder
  {
    var p := Join(folder, file);
    assert p == folder + "/" + file;
    assert RFind(p, '/') == |folder| by {
      assert p[|folder|] == '/';
      forall j | |folder| < j < |p| ensures p[j] != '/' {
        assert p[j] == file[j - |folder| - 1];
      }
    }
    var head := p[..|folder| + 1];
    assert head == folder + "/";
    assert !AllSlashes(head) by {
      assert head[|folder| - 1] != '/';
    }
    assert RStrip(head, '/') == RStrip(folder, '/');
  }
}
