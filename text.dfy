/**
 * The handful of Python `str` operations the scraper relies on, stated over
 * `seq<char>`: `strip()`, `rstrip(c)`, `startswith`, `removeprefix`, the `in`
 * substring test and `split(sep)[-1]`.
 */
module Text {
  import opened Wrappers

  /**
   * The characters for which Python's `str.isspace()` holds, which are the
   * characters `str.strip()` with no argument removes: the ASCII controls
   * U+0009..U+000D and U+001C..U+001F, the space, U+0085, U+00A0, U+1680,
   * U+2000..U+200A, U+2028, U+2029, U+202F, U+205F and U+3000.
   */
  predicate IsSpace(c: char) {
    '\t' <= c <= '\r' || '\U{001C}' <= c <= ' ' || c == '\U{0085}' || c == '\U{00A0}'
    || c == '\U{1680}' || '\U{2000}' <= c <= '\U{200A}' || c == '\U{2028}' || c == '\U{2029}'
    || c == '\U{202F}' || c == '\U{205F}' || c == '\U{3000}'
  }

  /** `IsSpace` as a set, for the trimming functions. */
  const Whitespace: set<char> := set c: char | '\t' <= c <= '\U{3000}' && IsSpace(c)

  /** Every character of `s` is in `chars`. */
  predicate AllIn(s: string, chars: set<char>) {
    forall i :: 0 <= i < |s| ==> s[i] in chars
  }

  /** `s.rstrip(chars)`: the longest prefix of `s` that does not end in one of `chars`. */
  function TrimEnd(s: string, chars: set<char>): (r: string)
    ensures r <= s
    ensures r == [] || r[|r| - 1] !in chars
    ensures AllIn(s[|r|..], chars)
    decreases |s|
  {
    if |s| > 0 && s[|s| - 1] in chars then TrimEnd(s[..|s| - 1], chars) else s
  }

  /** `s.lstrip(chars)`: the longest suffix of `s` that does not start with one of `chars`. */
  function TrimStart(s: string, chars: set<char>): (r: string)
    ensures |r| <= |s| && r == s[|s| - |r|..]
    ensures r == [] || r[0] !in chars
    ensures AllIn(s[..|s| - |r|], chars)
    decreases |s|
  {
    if |s| > 0 && s[0] in chars then TrimStart(s[1..], chars) else s
  }

  /** `s.strip()`: `s` without its leading and trailing whitespace. */
  function Strip(s: string): (r: string)
    ensures |r| <= |s|
    ensures r == [] || (r[0] !in Whitespace && r[|r| - 1] !in Whitespace)
  {
    TrimStart(TrimEnd(s, Whitespace), Whitespace)
  }

  /** Characters of `chars` appended to `s` are all removed again by TrimEnd. */
  lemma {:induction false} TrimEndAppend(s: string, w: string, chars: set<char>)
    requires AllIn(w, chars)
    ensures TrimEnd(s + w, chars) == TrimEnd(s, chars)
    decreases |w|
  {
    if w != [] {
      var w' := w[..|w| - 1];
      assert (s + w)[..|s + w| - 1] == s + w';
      assert (s + w)[|s + w| - 1] == w[|w| - 1] && w[|w| - 1] in chars;
      assert TrimEnd(s + w, chars) == TrimEnd(s + w', chars);
      TrimEndAppend(s, w', chars);
    } else {
      assert s + w == s;
    }
  }

  /** Characters of `chars` prepended to `s` are all removed again by TrimStart. */
  lemma {:induction false} TrimStartPrepend(w: string, s: string, chars: set<char>)
    requires AllIn(w, chars)
    ensures TrimStart(w + s, chars) == TrimStart(s, chars)
    decreases |w|
  {
    if w != [] {
      assert (w + s)[1..] == w[1..] + s;
      assert (w + s)[0] == w[0] && w[0] in chars;
      assert TrimStart(w + s, chars) == TrimStart(w[1..] + s, chars);
      TrimStartPrepend(w[1..], s, chars);
    } else {
      assert w + s == s;
    }
  }

  /**
   * Strip gives back exactly the text between surrounding whitespace, provided
   * that text neither starts nor ends with whitespace itself.
   */
  lemma StripSurrounded(w1: string, t: string, w2: string)
    requires AllIn(w1, Whitespace) && AllIn(w2, Whitespace)
    requires t == [] || (t[0] !in Whitespace && t[|t| - 1] !in Whitespace)
    ensures Strip(w1 + t + w2) == t
  {
    TrimEndAppend(w1 + t, w2, Whitespace);
    if t == [] {
      assert w1 + t == [] + w1;
      TrimEndAppend([], w1, Whitespace);
    } else {
      assert TrimEnd(w1 + t, Whitespace) == w1 + t;
      TrimStartPrepend(w1, t, Whitespace);
    }
  }

  /** Strip is idempotent. */
  lemma StripIdempotent(s: string)
    ensures Strip(Strip(s)) == Strip(s)
  {
    StripSurrounded([], Strip(s), []);
    assert [] + Strip(s) + [] == Strip(s);
  }

  /** `s.startswith(prefix)`. */
  predicate StartsWith(s: string, prefix: string) {
    prefix <= s
  }

  /** `s.removeprefix(prefix)`: `s` without `prefix` when it starts with it, `s` otherwise. */
  function RemovePrefix(s: string, prefix: string): (r: string)
    ensures StartsWith(s, prefix) ==> prefix + r == s
    ensures !StartsWith(s, prefix) ==> r == s
  {
    if StartsWith(s, prefix) then s[|prefix|..] else s
  }

  /** `sub` occurs in `s` starting at index `i`. */
  predicate OccursAt(s: string, sub: string, i: int) {
    0 <= i && i + |sub| <= |s| && s[i..i + |sub|] == sub
  }

  /** Python's `sub in s`, computed by trying each start position in turn. */
  function Contains(s: string, sub: string): (r: bool)
    ensures r <==> exists i :: OccursAt(s, sub, i)
    decreases |s|
  {
    if |s| < |sub| then
      assert forall i :: !OccursAt(s, sub, i);
      false
    else if s[..|sub|] == sub then
      assert OccursAt(s, sub, 0);
      true
    else
      ContainsShift(s, sub);
      Contains(s[1..], sub)
  }

  /** When `sub` does not start `s`, it occurs in `s` exactly when it occurs in `s[1..]`. */
  lemma ContainsShift(s: string, sub: string)
    requires |s| >= |sub| && s[..|sub|] != sub
    ensures (exists i :: OccursAt(s, sub, i)) <==> (exists i :: OccursAt(s[1..], sub, i))
  {
    if i :| OccursAt(s, sub, i) {
      assert i != 0;
      assert s[1..][i - 1..i - 1 + |sub|] == s[i..i + |sub|];
      assert OccursAt(s[1..], sub, i - 1);
    }
    if i :| OccursAt(s[1..], sub, i) {
      assert s[1..][i..i + |sub|] == s[i + 1..i + 1 + |sub|];
      assert OccursAt(s, sub, i + 1);
    }
  }

  /**
   * `s.split(sep)[-1]`: the part of `s` after its last `sep`, or all of `s`
   * when `sep` does not occur.
   */
  function AfterLast(s: string, sep: char): (r: string)
    ensures |r| <= |s| && r == s[|s| - |r|..]
    ensures sep !in r
    ensures |r| == |s| || s[|s| - |r| - 1] == sep
    decreases |s|
  {
    if |s| == 0 then []
    else if s[|s| - 1] == sep then []
    else AfterLast(s[..|s| - 1], sep) + [s[|s| - 1]]
  }

  /**
   * The pieces before and after the first occurrence of `sep` in `s`, or None
   * when `sep` does not occur.
   */
  function SplitAtFirst(s: string, sep: string): (r: Option<(string, string)>)
    requires sep != []
    ensures r.Some? ==> r.value.0 + sep + r.value.1 == s
    decreases |s|
  {
    if |s| < |sep| then None
    else if s[..|sep|] == sep then Some(([], s[|sep|..]))
    else match SplitAtFirst(s[1..], sep)
      case None => None
      case Some((before, after)) => Some(([s[0]] + before, after))
  }

  /** A substring of the tail of `s` is a substring of `s`. */
  lemma ContainsTail(s: string, sub: string)
    requires |s| > 0
    ensures Contains(s[1..], sub) ==> Contains(s, sub)
  {
    if i :| OccursAt(s[1..], sub, i) {
      assert s[1..][i..i + |sub|] == s[i + 1..i + 1 + |sub|];
      assert OccursAt(s, sub, i + 1);
    }
  }

  /**
   * When a non-empty `a` holds no `sep`, even with `sep`'s own head after it,
   * `a + sep + b` does not start with `sep` and `a`'s tail keeps the condition.
   */
  lemma SeparatorNotAtHead(a: string, sep: string, b: string)
    requires sep != [] && a != []
    requires !Contains(a + sep[..|sep| - 1], sep)
    ensures (a + sep + b)[..|sep|] != sep
    ensures !Contains(a[1..] + sep[..|sep| - 1], sep)
  {
    var s, p := a + sep + b, a + sep[..|sep| - 1];
    assert p <= s;
    assert s[..|sep|] == p[..|sep|];
    assert !OccursAt(p, sep, 0);
    assert a[1..] + sep[..|sep| - 1] == p[1..];
    ContainsTail(p, sep);
  }

  /** Splitting `a + sep + b` at its first `sep` gives back `a` and `b` when `a` holds no `sep`. */
  lemma {:induction false} SplitJoin(a: string, sep: string, b: string)
    requires sep != []
    requires !Contains(a + sep[..|sep| - 1], sep)
    ensures SplitAtFirst(a + sep + b, sep) == Some((a, b))
    decreases |a|
  {
    var s := a + sep + b;
    if a == [] {
      assert s[..|sep|] == sep;
      assert s[|sep|..] == b;
    } else {
      SeparatorNotAtHead(a, sep, b);
      assert s[1..] == a[1..] + sep + b;
      SplitJoin(a[1..], sep, b);
      assert SplitAtFirst(s, sep) == Some(([s[0]] + a[1..], b));
      assert [s[0]] + a[1..] == a;
    }
  }
}
