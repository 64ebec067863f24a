/** The Kotlin string helpers the service relies on, over `seq<char>`. */
module Text {

  /** Kotlin's `Char.isWhitespace()` on the JVM: `Character.isWhitespace` or `Character.isSpaceChar`. */
  predicate IsWhitespace(c: char) {
    || c == '\t' || c == '\n' || c == '\U{B}' || c == '\U{C}' || c == '\r'
    || ('\U{1C}' <= c <= '\U{1F}')
    || c == ' ' || c == '\U{A0}' || c == '\U{1680}'
    || ('\U{2000}' <= c <= '\U{200A}')
    || c == '\U{2028}' || c == '\U{2029}' || c == '\U{202F}' || c == '\U{205F}' || c == '\U{3000}'
  }

  /** Kotlin's `CharSequence.isBlank()`: empty, or whitespace only. */
  predicate IsBlank(s: string) {
    forall i :: 0 <= i < |s| ==> IsWhitespace(s[i])
  }

  lemma {:induction false} BlankIffNoVisibleChar(s: string)
    ensures IsBlank(s) <==> !(exists c :: c in s && !IsWhitespace(c))
  {
    if IsBlank(s) {
      forall c | c in s ensures IsWhitespace(c) {
        var i :| 0 <= i < |s| && s[i] == c;
      }
    }
  }

  predicate StartsWith(s: string, prefix: string) {
    |prefix| <= |s| && s[..|prefix|] == prefix
  }

  predicate EndsWith(s: string, suffix: string) {
    |suffix| <= |s| && s[|s| - |suffix|..] == suffix
  }

  /** Upper case for the ASCII letters; every other character maps to itself. */
  function UpperChar(c: char): (u: char)
    ensures 'a' <= c <= 'z' ==> 'A' <= u <= 'Z'
    ensures !('a' <= c <= 'z') ==> u == c
  {
    if 'a' <= c <= 'z' then (c as int - 'a' as int + 'A' as int) as char else c
  }

  /** Lower case for the ASCII letters; every other character maps to itself. */
  function LowerChar(c: char): (l: char)
    ensures 'A' <= c <= 'Z' ==> 'a' <= l <= 'z'
    ensures !('A' <= c <= 'Z') ==> l == c
  {
    if 'A' <= c <= 'Z' then (c as int - 'A' as int + 'a' as int) as char else c
  }

  /** Kotlin's `Char.equals(other, ignoreCase = true)`. */
  predicate CharEqualsIgnoreCase(a: char, b: char) {
    a == b || UpperChar(a) == UpperChar(b) || LowerChar(UpperChar(a)) == LowerChar(UpperChar(b))
  }

  /** Kotlin's `String.startsWith(prefix, ignoreCase = true)`. */
  predicate StartsWithIgnoreCase(s: string, prefix: string) {
    |prefix| <= |s| && forall i :: 0 <= i < |prefix| ==> CharEqualsIgnoreCase(s[i], prefix[i])
  }

  function UpperAll(s: string): (u: string)
    ensures |u| == |s|
    ensures forall i :: 0 <= i < |s| ==> u[i] == UpperChar(s[i])
  {
    if s == [] then [] else [UpperChar(s[0])] + UpperAll(s[1..])
  }

  lemma LowerOfUpperInjective(a: char, b: char)
    ensures LowerChar(UpperChar(a)) == LowerChar(UpperChar(b)) ==> UpperChar(a) == UpperChar(b)
  {
  }

  /** Ignoring case means comparing the upper-cased texts exactly. */
  lemma StartsWithIgnoreCaseIsUpperPrefix(s: string, prefix: string)
    ensures StartsWithIgnoreCase(s, prefix) <==> StartsWith(UpperAll(s), UpperAll(prefix))
  {
    var us, up := UpperAll(s), UpperAll(prefix);
    if StartsWithIgnoreCase(s, prefix) {
      forall i | 0 <= i < |prefix| ensures us[..|up|][i] == up[i] {
        LowerOfUpperInjective(s[i], prefix[i]);
      }
    }
    if StartsWith(us, up) {
      forall i | 0 <= i < |prefix| ensures CharEqualsIgnoreCase(s[i], prefix[i]) {
        assert us[..|up|][i] == up[i];
      }
    }
  }

  lemma StartsWithIgnoreCaseEmpty(s: string)
    ensures StartsWithIgnoreCase(s, "")
  {
  }

  /** The position of the first occurrence of `c` in `s`, or `|s|` when there is none. */
  function IndexOf(s: string, c: char): (k: nat)
    ensures k <= |s|
    ensures k < |s| ==> s[k] == c
    ensures forall i :: 0 <= i < k ==> s[i] != c
  {
    if s == [] then 0 else if s[0] == c then 0 else 1 + IndexOf(s[1..], c)
  }

  /** The position of the last occurrence of `c` in `s`, or `|s|` when there is none. */
  function LastIndexOf(s: string, c: char): (k: nat)
    ensures k <= |s|
    ensures k < |s| ==> s[k] == c && forall i :: k < i < |s| ==> s[i] != c
    ensures k == |s| ==> c !in s
  {
    if s == [] then 0
    else if s[|s| - 1] == c then |s| - 1
    else
      var k := LastIndexOf(s[..|s| - 1], c);
      if k == |s| - 1 then |s| else k
  }

  /** Kotlin's `substringBefore(delimiter)`: the text before the first delimiter, or all of it. */
  function SubstringBefore(s: string, c: char): (r: string)
    ensures c !in r
    ensures StartsWith(s, r)
    ensures c in s ==> |r| < |s| && s[|r|] == c
    ensures c !in s ==> r == s
  {
    s[..IndexOf(s, c)]
  }

  /** Kotlin's `substringBeforeLast(delimiter)`: the text before the last delimiter, or all of it. */
  function SubstringBeforeLast(s: string, c: char): (r: string)
    ensures StartsWith(s, r)
    ensures c in s ==> |r| < |s| && s[|r|] == c && c !in s[|r| + 1..]
    ensures c !in s ==> r == s
  {
    s[..LastIndexOf(s, c)]
  }
}
