/**
 * The few JavaScript string operations the device module relies on:
 * `indexOf`, `includes` and `trim`.
 */
module JsString {
  import opened Options

  /** `p` occurs in `s` starting at index `k`. */
  predicate OccursAt(s: string, p: string, k: nat) {
    k + |p| <= |s| && s[k..k + |p|] == p
  }

  /** A slice of a slice is a slice of the whole. */
  lemma SliceOfSlice(s: string, a: nat, b: nat, x: nat, y: nat)
    requires a <= b <= |s| && x <= y <= b - a
    ensures s[a..b][x..y] == s[a + x..a + y]
  {
    var u, v := s[a..b][x..y], s[a + x..a + y];
    assert forall k :: 0 <= k < |u| ==> u[k] == v[k];
  }

  /** The search behind `includes` and the reply match: the first index at or after `from` where `p` occurs. */
  function FindFrom(s: string, p: string, from: nat): (r: Option<nat>)
    ensures r.Some? ==> from <= r.value && OccursAt(s, p, r.value)
    ensures r.Some? ==> forall k :: from <= k < r.value ==> !OccursAt(s, p, k)
    ensures r.None? ==> forall k :: from <= k ==> !OccursAt(s, p, k)
    decreases |s| - from
  {
    if from + |p| > |s| then None
    else if s[from..from + |p|] == p then Some(from)
    else FindFrom(s, p, from + 1)
  }

  /** `s.includes(p)`. */
  predicate Includes(s: string, p: string)
    ensures Includes(s, p) <==> exists k: nat :: OccursAt(s, p, k)
  {
    FindFrom(s, p, 0).Some?
  }

  /** The characters `String.prototype.trim` removes: WhiteSpace and LineTerminator of ECMAScript. */
  predicate IsJsWhitespace(c: char) {
    c in JsWhitespace
  }

  const JsWhitespace: set<char> := {'\t', '\n', '\U{000B}', '\U{000C}', '\r', ' ', '\U{00A0}', '\U{1680}',
          '\U{2000}', '\U{2001}', '\U{2002}', '\U{2003}', '\U{2004}', '\U{2005}',
          '\U{2006}', '\U{2007}', '\U{2008}', '\U{2009}', '\U{200A}',
          '\U{2028}', '\U{2029}', '\U{202F}', '\U{205F}', '\U{3000}', '\U{FEFF}'}

  /** Where the text starts once the whitespace from `i` on is skipped. */
  function SkipSpaceFrom(s: string, i: nat): (k: nat)
    requires i <= |s|
    ensures i <= k <= |s|
    ensures forall m :: i <= m < k ==> IsJsWhitespace(s[m])
    ensures k < |s| ==> !IsJsWhitespace(s[k])
    decreases |s| - i
  {
    if i < |s| && IsJsWhitespace(s[i]) then SkipSpaceFrom(s, i + 1) else i
  }

  /** Where the text ends once the whitespace before `j` is dropped. */
  function DropSpaceBefore(s: string, j: nat): (k: nat)
    requires j <= |s|
    ensures k <= j
    ensures forall m :: k <= m < j ==> IsJsWhitespace(s[m])
    ensures k > 0 ==> !IsJsWhitespace(s[k - 1])
  {
    if j > 0 && IsJsWhitespace(s[j - 1]) then DropSpaceBefore(s, j - 1) else j
  }

  /** `r` is `s[a..b]`, and everything outside that slice is whitespace. */
  predicate TrimmedSlice(s: string, r: string, a: nat, b: nat) {
    && a <= b <= |s| && r == s[a..b]
    && (forall i :: 0 <= i < a ==> IsJsWhitespace(s[i]))
    && (forall i :: b <= i < |s| ==> IsJsWhitespace(s[i]))
  }

  /**
   * `s.trim()`: the slice of `s` left once every leading and trailing
   * whitespace character is removed.
   */
  function Trim(s: string): (r: string)
    ensures exists a: nat, b: nat :: TrimmedSlice(s, r, a, b)
    ensures r != [] ==> !IsJsWhitespace(r[0]) && !IsJsWhitespace(r[|r| - 1])
  {
    var a := SkipSpaceFrom(s, 0);
    var b := DropSpaceBefore(s, |s|);
    if a < |s| then
      assert TrimmedSlice(s, s[a..b], a, b);
      s[a..b]
    else
      assert TrimmedSlice(s, [], a, a);
      []
  }

  /** Trimming twice is trimming once. */
  lemma TrimIdempotent(s: string)
    ensures Trim(Trim(s)) == Trim(s)
  {
    var r := Trim(s);
    if r != [] {
      assert SkipSpaceFrom(r, 0) == 0;
      assert DropSpaceBefore(r, |r|) == |r|;
      assert r[0..|r|] == r;
    }
  }
}
