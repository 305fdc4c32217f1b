/** Python's `str.strip()` with no argument. */
module Text {

  /** The characters for which Python's `str.isspace()` holds. */
  predicate IsSpace(c: char) {
    || c == ' '
    || '\t' <= c <= '\r'
    || '\U{1C}' <= c <= '\U{1F}'
    || c == '\U{85}' || c == '\U{A0}' || c == '\U{1680}'
    || '\U{2000}' <= c <= '\U{200A}'
    || c == '\U{2028}' || c == '\U{2029}' || c == '\U{202F}'
    || c == '\U{205F}' || c == '\U{3000}'
  }

  /** Drops the leading whitespace: the result is the suffix that starts at the first non-space. */
  function StripStart(s: string): (r: string)
    ensures |r| <= |s|
    ensures forall i | 0 <= i < |s| - |r| :: IsSpace(s[i])
    ensures r != [] ==> !IsSpace(r[0])
  {
    if s != [] && IsSpace(s[0]) then StripStart(s[1..]) else s
  }

  /** Drops the trailing whitespace: the result is the prefix that ends at the last non-space. */
  function StripEnd(s: string): (r: string)
    ensures |r| <= |s|
    ensures forall i | |r| <= i < |s| :: IsSpace(s[i])
    ensures r != [] ==> !IsSpace(r[|r| - 1])
  {
    if s != [] && IsSpace(s[|s| - 1]) then StripEnd(s[..|s| - 1]) else s
  }

  /** Only leading characters are dropped: the result is a suffix. */
  lemma {:induction false} StripStartSuffix(s: string)
    ensures StripStart(s) == s[|s| - |StripStart(s)|..]
  {
    if s != [] && IsSpace(s[0]) {
      StripStartSuffix(s[1..]);
    }
  }

  /** Only trailing characters are dropped: the result is a prefix. */
  lemma {:induction false} StripEndPrefix(s: string)
    ensures StripEnd(s) == s[..|StripEnd(s)|]
  {
    if s != [] && IsSpace(s[|s| - 1]) {
      StripEndPrefix(s[..|s| - 1]);
    }
  }

  /** `s.strip()`. */
  function Strip(s: string): (r: string)
    ensures r != [] ==> !IsSpace(r[0]) && !IsSpace(r[|r| - 1])
    ensures |r| <= |s|
  {
    StripEndPrefix(StripStart(s));
    StripEnd(StripStart(s))
  }

  /** The stripped string is empty exactly when every character is whitespace. */
  lemma StripBlank(s: string)
    ensures Strip(s) == [] <==> forall i | 0 <= i < |s| :: IsSpace(s[i])
  {
    var t := StripStart(s);
    StripStartSuffix(s);
    if StripEnd(t) == [] {
      // A non-empty t starts with a non-space, which StripEnd would keep.
      assert t == [];
    } else {
      // What is left starts with a character of s that is not a space.
      assert t[0] == s[|s| - |t|];
    }
  }

  /**
    The stripped string is the middle slice of the input: what lies before
    and after it is whitespace, so only surrounding whitespace is removed.
   */
  lemma StripIsSlice(s: string)
    ensures exists i, j :: 0 <= i <= j <= |s| && Strip(s) == s[i..j]
              && (forall k | 0 <= k < i :: IsSpace(s[k]))
              && (forall k | j <= k < |s| :: IsSpace(s[k]))
  {
    var t := StripStart(s);
    StripStartSuffix(s);
    StripEndPrefix(t);
    var i := |s| - |t|;
    var j := i + |StripEnd(t)|;
    assert Strip(s) == s[i..j];
    forall k | j <= k < |s| ensures IsSpace(s[k]) {
      assert s[k] == t[k - i];
    }
  }

  /** Stripping twice is stripping once. */
  lemma StripIdempotent(s: string)
    ensures Strip(Strip(s)) == Strip(s)
  {
  }
}
