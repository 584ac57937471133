/** Whitespace trimming as the screens use it (`String.prototype.trim`):
    remove every leading and every trailing whitespace character, keep the
    interior untouched. */
module Text {

  /** The characters trimming removes: ECMAScript's white space (tab, vertical
      tab, form feed, the byte order mark and every Unicode space separator)
      and its line terminators. */
  predicate IsWhitespace(c: char) {
    || c == ' '
    || c == '\t'
    || c == '\n'
    || c == '\r'
    || c == '\U{000B}'
    || c == '\U{000C}'
    || c == '\U{00A0}'
    || c == '\U{1680}'
    || ('\U{2000}' <= c <= '\U{200A}')
    || c == '\U{2028}'
    || c == '\U{2029}'
    || c == '\U{202F}'
    || c == '\U{205F}'
    || c == '\U{3000}'
    || c == '\U{FEFF}'
  }

  /** A string is blank when it holds nothing but whitespace (the empty string
      included): exactly the strings whose trimmed form is falsy. */
  predicate IsBlank(s: string) {
    forall i :: 0 <= i < |s| ==> IsWhitespace(s[i])
  }

  /** Neither end of `s` is whitespace. */
  predicate IsTrimmed(s: string) {
    s == [] || (!IsWhitespace(s[0]) && !IsWhitespace(s[|s| - 1]))
  }

  /** The first position at or after `i` that is not whitespace, or `|s|`. */
  function SkipLeading(s: string, i: nat): (k: nat)
    requires i <= |s|
    ensures i <= k <= |s|
    ensures forall m :: i <= m < k ==> IsWhitespace(s[m])
    ensures k == |s| || !IsWhitespace(s[k])
    decreases |s| - i
  {
    if i < |s| && IsWhitespace(s[i]) then SkipLeading(s, i + 1) else i
  }

  /** The end of `s[lo..j]` once its trailing whitespace is dropped. */
  function SkipTrailing(s: string, lo: nat, j: nat): (k: nat)
    requires lo <= j <= |s|
    ensures lo <= k <= j
    ensures forall m :: k <= m < j ==> IsWhitespace(s[m])
    ensures k == lo || !IsWhitespace(s[k - 1])
    decreases j
  {
    if lo < j && IsWhitespace(s[j - 1]) then SkipTrailing(s, lo, j - 1) else j
  }

  /** `s` without its leading and trailing whitespace. */
  function Trim(s: string): (r: string)
    ensures |r| <= |s|
    ensures IsTrimmed(r)
    ensures r == [] <==> IsBlank(s)
  {
    var i := SkipLeading(s, 0);
    s[i..SkipTrailing(s, i, |s|)]
  }

  /** Every string is its trimmed form padded by whitespace on both sides. */
  lemma TrimDecomposes(s: string) returns (pre: string, post: string)
    ensures IsBlank(pre) && IsBlank(post)
    ensures s == pre + Trim(s) + post
  {
    var i := SkipLeading(s, 0);
    var j := SkipTrailing(s, i, |s|);
    pre, post := s[..i], s[j..];
    assert s == s[..i] + s[i..j] + s[j..];
  }

  /** Trimming recovers any trimmed string from any whitespace padding: with
      `TrimDecomposes` this determines `Trim` completely. */
  lemma TrimOfPadded(pre: string, x: string, post: string)
    requires IsBlank(pre) && IsBlank(post) && IsTrimmed(x)
    ensures Trim(pre + x + post) == x
  {
    var s := pre + x + post;
    if x == [] {
      assert IsBlank(s) by {
        forall m | 0 <= m < |s| ensures IsWhitespace(s[m]) {
          if m < |pre| { assert s[m] == pre[m]; } else { assert s[m] == post[m - |pre|]; }
        }
      }
    } else {
      var i := SkipLeading(s, 0);
      assert s[|pre|] == x[0];
      assert forall m :: 0 <= m < |pre| ==> s[m] == pre[m];
      assert i == |pre|;
      var j := SkipTrailing(s, i, |s|);
      assert s[|pre| + |x| - 1] == x[|x| - 1];
      assert forall m :: |pre| + |x| <= m < |s| ==> s[m] == post[m - |pre| - |x|];
      assert j == |pre| + |x|;
      assert s[i..j] == x;
    }
  }

  /** Trimming twice changes nothing more than trimming once. */
  lemma TrimIdempotent(s: string)
    ensures Trim(Trim(s)) == Trim(s)
  {
  }

  /** Whether `c` lies outside the Basic Multilingual Plane, so that UTF-16
      stores it as a surrogate pair. */
  predicate IsAstral(c: char) {
    c as int >= 0x1_0000
  }

  /** The length JavaScript reports for `s`: its count of UTF-16 code units,
      two for each character outside the Basic Multilingual Plane and one for
      every other. */
  function Utf16Length(s: string): (n: nat)
    ensures |s| <= n <= 2 * |s|
    ensures n == |s| <==> forall i :: 0 <= i < |s| ==> !IsAstral(s[i])
    decreases |s|
  {
    if s == [] then 0 else (if IsAstral(s[0]) then 2 else 1) + Utf16Length(s[1..])
  }

  /** Code units add up over concatenation. */
  lemma {:induction false} Utf16LengthAppend(a: string, b: string)
    ensures Utf16Length(a + b) == Utf16Length(a) + Utf16Length(b)
    decreases |a|
  {
    if a == [] {
      assert a + b == b;
    } else {
      assert (a + b)[0] == a[0];
      assert (a + b)[1..] == a[1..] + b;
      Utf16LengthAppend(a[1..], b);
    }
  }
}
