/** String helpers the core relies on: the `Truncate` extension and `String.IsNullOrWhiteSpace`. */
module Text {
  import opened Wrappers

  /** The string extension `s.Truncate(n)`: the prefix of length min(n, |s|). */
  function Truncate(s: string, n: nat): (r: string)
    ensures |r| <= n && |r| <= |s|
    ensures |s| <= n ==> r == s
    ensures |s| > n ==> |r| == n
    ensures r <= s
  {
    if |s| <= n then s else s[..n]
  }

  /** `Char.IsWhiteSpace`: the Unicode White_Space characters as .NET lists them. */
  predicate IsWhiteSpace(c: char) {
    ('\U{0009}' <= c <= '\U{000D}') || c == '\U{0020}' || c == '\U{0085}' || c == '\U{00A0}'
    || c == '\U{1680}' || ('\U{2000}' <= c <= '\U{200A}') || c == '\U{2028}' || c == '\U{2029}'
    || c == '\U{202F}' || c == '\U{205F}' || c == '\U{3000}'
  }

  /** `String.IsNullOrWhiteSpace`: null, empty, or white space only. */
  predicate IsNullOrWhiteSpace(s: Option<string>) {
    match s
    case None => true
    case Some(t) => forall i :: 0 <= i < |t| ==> IsWhiteSpace(t[i])
  }

  /**
   * A name passes the blank check exactly when it has a visible character, and a visible
   * character anywhere in it is enough, wherever the white space around it is.
   */
  lemma VisibleCharacterIsNotBlank(a: string, c: char, b: string)
    ensures !IsNullOrWhiteSpace(Some(a + [c] + b)) <==> !IsWhiteSpace(c) || !IsNullOrWhiteSpace(Some(a + b))
  {
    var s, t := a + [c] + b, a + b;
    assert s[|a|] == c;
    assert forall i :: 0 <= i < |a| ==> s[i] == t[i];
    assert forall i :: |a| < i < |s| ==> s[i] == t[i - 1];
    if !IsNullOrWhiteSpace(Some(t)) {
      var i :| 0 <= i < |t| && !IsWhiteSpace(t[i]);
      if i < |a| { assert s[i] == t[i]; } else { assert s[i + 1] == t[i]; }
    }
  }

  /** Truncation is idempotent and keeps a prefix of the input. */
  lemma TruncateIdempotent(s: string, n: nat)
    ensures Truncate(Truncate(s, n), n) == Truncate(s, n)
    ensures Truncate(s, n) == s[..|Truncate(s, n)|]
  {
  }
}
