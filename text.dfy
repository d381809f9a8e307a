/** JavaScript whitespace and `String.prototype.trim`. */
module Text {

  /** The characters matched by `\s` in a JavaScript regular expression, which
      are also the characters `trim` removes: WhiteSpace and LineTerminator of
      the ECMAScript language specification (section 12.2 and 12.3). */
  predicate IsJsWhitespace(c: char) {
    || c == '\t' || c == '\n' || c == '\U{B}' || c == '\U{C}' || c == '\r'
    || c == ' ' || c == '\U{A0}' || c == '\U{1680}'
    || ('\U{2000}' <= c <= '\U{200A}')
    || c == '\U{2028}' || c == '\U{2029}' || c == '\U{202F}' || c == '\U{205F}'
    || c == '\U{3000}' || c == '\U{FEFF}'
  }

  predicate AllWhitespace(s: string) {
    forall i | 0 <= i < |s| :: IsJsWhitespace(s[i])
  }

  /** Drops leading whitespace. */
  function TrimStart(s: string): string {
    if s != [] && IsJsWhitespace(s[0]) then TrimStart(s[1..]) else s
  }

  /** Drops trailing whitespace. */
  function TrimEnd(s: string): string {
    if s != [] && IsJsWhitespace(s[|s| - 1]) then TrimEnd(s[..|s| - 1]) else s
  }

  /** `s.trim()`. */
  function Trim(s: string): string {
    TrimEnd(TrimStart(s))
  }

  /** `TrimStart(s)` is the suffix of `s` that begins at its first
      non-whitespace character. */
  lemma {:induction false} TrimStartSuffix(s: string)
    ensures var r := TrimStart(s);
      && |r| <= |s| && r == s[|s| - |r|..]
      && AllWhitespace(s[..|s| - |r|])
      && (r != [] ==> !IsJsWhitespace(r[0]))
  {
    if s != [] && IsJsWhitespace(s[0]) {
      TrimStartSuffix(s[1..]);
      var r := TrimStart(s);
      assert s[..|s| - |r|] == [s[0]] + s[1..][..|s| - 1 - |r|];
    }
  }

  /** `TrimEnd(s)` is the prefix of `s` that ends at its last non-whitespace
      character. */
  lemma {:induction false} TrimEndPrefix(s: string)
    ensures var r := TrimEnd(s);
      && |r| <= |s| && r == s[..|r|]
      && AllWhitespace(s[|r|..])
      && (r != [] ==> !IsJsWhitespace(r[|r| - 1]))
  {
    if s != [] && IsJsWhitespace(s[|s| - 1]) {
      var p := s[..|s| - 1];
      TrimEndPrefix(p);
      var r := TrimEnd(s);
      assert s[|r|..] == p[|r|..] + [s[|s| - 1]];
    }
  }

  /** `s.trim()` is a contiguous piece of `s`: everything before it and after
      it is whitespace, and it neither starts nor ends with whitespace. */
  lemma TrimIsSlice(s: string)
    ensures var t := Trim(s);
      exists a | 0 <= a <= |s| - |t| ::
        && s[a..a + |t|] == t
        && AllWhitespace(s[..a])
        && AllWhitespace(s[a + |t|..])
        && (t != [] ==> !IsJsWhitespace(t[0]) && !IsJsWhitespace(t[|t| - 1]))
  {
    var u := TrimStart(s);
    var t := TrimEnd(u);
    TrimStartSuffix(s);
    TrimEndPrefix(u);
    var a := |s| - |u|;
    assert s[a..a + |t|] == t;
    assert AllWhitespace(s[a + |t|..]) by {
      assert s[a + |t|..] == u[|t|..];
    }
  }

  /** `s.trim() === ''` exactly when `s` consists of whitespace only. */
  lemma TrimEmptyIff(s: string)
    ensures Trim(s) == "" <==> AllWhitespace(s)
  {
    var u := TrimStart(s);
    TrimStartSuffix(s);
    TrimEndPrefix(u);
    if Trim(s) == "" {
      assert s == s[..|s| - |u|] + u;
      assert AllWhitespace(u) by { assert u[|TrimEnd(u)|..] == u; }
    }
  }
}
