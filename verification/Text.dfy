/** The string operations that the codecs and the admission rules rest on.
    One `char` stands for one octet; case and white space are those of ASCII. */
module Text {

  const CRLF := "\r\n"
  const LINE_ENDS: set<char> := {'\r', '\n'}
  const BLANKS: set<char> := {' ', '\t'}
  const SPACES: set<char> := {' ', '\t', '\n', '\r', '\U{0B}', '\U{0C}'}

  function LowerChar(c: char): char {
    if 'A' <= c <= 'Z' then (c as int + 32) as char else c
  }

  function UpperChar(c: char): char {
    if 'a' <= c <= 'z' then (c as int - 32) as char else c
  }

  function ToLower(s: string): (r: string)
    ensures |r| == |s|
  {
    seq(|s|, i requires 0 <= i < |s| => LowerChar(s[i]))
  }

  function ToUpper(s: string): (r: string)
    ensures |r| == |s|
  {
    seq(|s|, i requires 0 <= i < |s| => UpperChar(s[i]))
  }

  /** Removes the leading octets that are in `cut`. */
  function TrimLeft(s: string, cut: set<char>): (r: string)
    ensures |r| <= |s| && r == s[|s| - |r|..]
    ensures r != [] ==> r[0] !in cut
  {
    if s != [] && s[0] in cut then
      var r := TrimLeft(s[1..], cut);
      assert s[|s| - |r|..] == s[1..][|s| - 1 - |r|..];
      r
    else s
  }

  /** Removes the trailing octets that are in `cut`. */
  function TrimRight(s: string, cut: set<char>): (r: string)
    ensures r <= s
    ensures r != [] ==> r[|r| - 1] !in cut
  {
    if s != [] && s[|s| - 1] in cut then TrimRight(s[..|s| - 1], cut) else s
  }

  function TrimSpace(s: string): (r: string)
    ensures Trimmed(r)
  {
    TrimRight(TrimLeft(s, SPACES), SPACES)
  }

  /** Neither end is white space. */
  predicate Trimmed(s: string) {
    s != [] ==> s[0] !in SPACES && s[|s| - 1] !in SPACES
  }

  predicate Free(s: string, c: char) {
    forall i :: 0 <= i < |s| ==> s[i] != c
  }

  predicate HasSuffix(s: string, suffix: string) {
    |suffix| <= |s| && s[|s| - |suffix|..] == suffix
  }

  /** The index of the first octet in `cut`, or -1. */
  function IndexAny(s: string, cut: set<char>): (i: int)
    ensures -1 <= i < |s|
    ensures i >= 0 ==> s[i] in cut && forall k :: 0 <= k < i ==> s[k] !in cut
    ensures i < 0 ==> forall k :: 0 <= k < |s| ==> s[k] !in cut
  {
    if s == [] then -1
    else if s[0] in cut then 0
    else
      var i := IndexAny(s[1..], cut);
      if i < 0 then -1 else i + 1
  }

  /** The index of the last occurrence of `c`, or -1. */
  function LastIndex(s: string, c: char): (i: int)
    ensures -1 <= i < |s|
    ensures i >= 0 ==> s[i] == c && forall k :: i < k < |s| ==> s[k] != c
    ensures i < 0 ==> Free(s, c)
  {
    if s == [] then -1
    else if s[|s| - 1] == c then |s| - 1
    else LastIndex(s[..|s| - 1], c)
  }

  function Flatten(parts: seq<string>): string {
    if parts == [] then "" else parts[0] + Flatten(parts[1..])
  }

  /** After a prefix free of `cut`, the octet `c` is the first one found, and
      cutting there gives the two sides back. */
  lemma {:induction false} IndexAnyAt(s: string, p: string, c: char, q: string, cut: set<char>)
    requires s == p + ([c] + q)
    requires c in cut && forall k :: 0 <= k < |p| ==> p[k] !in cut
    ensures IndexAny(s, cut) == |p|
    ensures s[..|p|] == p && s[|p| + 1..] == q
  {
    hide IndexAny;
    assert s[|p|] == c && forall k :: 0 <= k < |p| ==> s[k] == p[k];
  }

  lemma {:induction false} FlattenAppend(a: seq<string>, b: seq<string>)
    ensures Flatten(a + b) == Flatten(a) + Flatten(b)
  {
    if a == [] {
      assert a + b == b;
    } else {
      assert (a + b)[1..] == a[1..] + b;
      FlattenAppend(a[1..], b);
    }
  }

  lemma {:induction false} LowerIdempotent(s: string)
    ensures ToLower(ToLower(s)) == ToLower(s)
  {
    forall i | 0 <= i < |s| ensures ToLower(ToLower(s))[i] == ToLower(s)[i] {
      assert ToLower(s)[i] == LowerChar(s[i]);
    }
  }

  lemma {:induction false} TrimmedStays(s: string)
    requires Trimmed(s)
    ensures TrimSpace(s) == s
  {
    assert TrimLeft(s, SPACES) == s;
  }

  lemma {:induction false} NothingToTrim(s: string, cut: set<char>)
    requires s != [] ==> s[0] !in cut
    ensures TrimLeft(s, cut) == s
  {
  }

  lemma {:induction false} TrimRightKeeps(s: string, cut: set<char>, k: nat)
    requires k < |s| && s[k] !in cut
    ensures |TrimRight(s, cut)| > k
  {
    if s[|s| - 1] in cut {
      TrimRightKeeps(s[..|s| - 1], cut, k);
    }
  }

  // ---- Case ----

  /** One is a capital letter of the alphabet and the other its small letter. */
  predicate OtherCase(a: char, b: char) {
    ('A' <= a <= 'Z' && b as int == a as int + 32) || ('A' <= b <= 'Z' && a as int == b as int + 32)
  }

  predicate SameButCase(s: string, t: string) {
    |s| == |t| && forall i :: 0 <= i < |s| ==> s[i] == t[i] || OtherCase(s[i], t[i])
  }

  /** Two strings have one lower-case form, and one upper-case form, iff they differ in
      case only; the one form has no capital and the other no small letter. */
  lemma {:induction false} CaseFolds(s: string, t: string)
    ensures ToLower(s) == ToLower(t) <==> SameButCase(s, t)
    ensures ToUpper(s) == ToUpper(t) <==> SameButCase(s, t)
    ensures forall i :: 0 <= i < |s| ==> !('A' <= ToLower(s)[i] <= 'Z') && !('a' <= ToUpper(s)[i] <= 'z')
  {
    assert forall i :: 0 <= i < |s| ==> ToLower(s)[i] == LowerChar(s[i]) && ToUpper(s)[i] == UpperChar(s[i]);
    assert forall i :: 0 <= i < |t| ==> ToLower(t)[i] == LowerChar(t[i]) && ToUpper(t)[i] == UpperChar(t[i]);
    if SameButCase(s, t) {
      assert forall i :: 0 <= i < |s| ==> ToLower(s)[i] == ToLower(t)[i] && ToUpper(s)[i] == ToUpper(t)[i];
    }
  }

  /** Folding changes nothing but the case. */
  lemma {:induction false} FoldedIsSame(s: string)
    ensures SameButCase(s, ToLower(s)) && SameButCase(s, ToUpper(s))
  {
  }

  // ---- White space ----

  predicate IsSpace(c: char) {
    c == ' ' || c == '\t' || c == '\n' || c == '\r' || c == '\U{0B}' || c == '\U{0C}'
  }

  predicate AllSpace(s: string) {
    forall i :: 0 <= i < |s| ==> IsSpace(s[i])
  }

  lemma {:induction false} DropsLeft(a: string, s: string, cut: set<char>)
    requires forall i :: 0 <= i < |a| ==> a[i] in cut
    ensures TrimLeft(a + s, cut) == TrimLeft(s, cut)
  {
    if a == [] {
      assert a + s == s;
    } else {
      assert (a + s)[1..] == a[1..] + s;
      DropsLeft(a[1..], s, cut);
    }
  }

  lemma {:induction false} DropsRight(s: string, b: string, cut: set<char>)
    requires forall i :: 0 <= i < |b| ==> b[i] in cut
    ensures TrimRight(s + b, cut) == TrimRight(s, cut)
  {
    if b == [] {
      assert s + b == s;
    } else {
      var n := |b| - 1;
      assert (s + b)[..|s + b| - 1] == s + b[..n];
      DropsRight(s, b[..n], cut);
    }
  }

  /** Trimming takes off exactly the white space at both ends. */
  lemma {:induction false} TrimsBothEnds(a: string, core: string, b: string)
    requires AllSpace(a) && AllSpace(b)
    requires core != [] ==> !IsSpace(core[0]) && !IsSpace(core[|core| - 1])
    ensures TrimSpace(a + (core + b)) == core
  {
    hide TrimLeft, TrimRight;
    DropsLeft(a, core + b, SPACES);
    if core == [] {
      assert core + b == b + [];
      DropsLeft(b, [], SPACES);
      NothingToTrim([], SPACES);
      NothingLeft(SPACES);
    } else {
      NothingToTrim(core + b, SPACES);
      DropsRight(core, b, SPACES);
      NothingAfter(core, SPACES);
    }
  }

  lemma {:induction false} NothingAfter(s: string, cut: set<char>)
    requires s != [] ==> s[|s| - 1] !in cut
    ensures TrimRight(s, cut) == s
  {
  }

  lemma {:induction false} NothingLeft(cut: set<char>)
    ensures TrimRight([], cut) == []
  {
  }
}
