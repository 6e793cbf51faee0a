/** The handful of JavaScript string operations the form handlers and the
    converter rely on: `trim`, the regular-expression class `\s`,
    `toLowerCase` and `includes`, plus a first-index search used to state
    the e-mail test as a scan. A string is a sequence of characters. */
module JsText {

  /** A character that `String.prototype.trim` removes and that the regular
      expression class `\s` matches: ECMAScript's WhiteSpace and
      LineTerminator characters. */
  predicate IsWhitespace(c: char) {
    || c == '\t' || c == '\n' || c == '\U{B}' || c == '\U{C}' || c == '\r'
    || c == ' ' || c == '\U{A0}' || c == '\U{1680}'
    || ('\U{2000}' <= c <= '\U{200A}')
    || c == '\U{2028}' || c == '\U{2029}' || c == '\U{202F}' || c == '\U{205F}'
    || c == '\U{3000}' || c == '\U{FEFF}'
  }

  /** Every character is whitespace (the empty string included). */
  predicate IsBlank(s: string) {
    forall i :: 0 <= i < |s| ==> IsWhitespace(s[i])
  }

  predicate HasNoWhitespace(s: string) {
    forall i :: 0 <= i < |s| ==> !IsWhitespace(s[i])
  }

  /** `s` with its leading whitespace removed. */
  function TrimStart(s: string): string {
    if s != [] && IsWhitespace(s[0]) then TrimStart(s[1..]) else s
  }

  /** `s` with its trailing whitespace removed. */
  function TrimEnd(s: string): string {
    if s != [] && IsWhitespace(s[|s| - 1]) then TrimEnd(s[..|s| - 1]) else s
  }

  /** `s.trim()`. */
  function Trim(s: string): string {
    TrimEnd(TrimStart(s))
  }

  /** TrimStart drops a prefix of whitespace and stops at the first other character. */
  lemma {:induction false} TrimStartDropsPrefix(s: string)
    ensures var r := TrimStart(s);
      && |r| <= |s| && r == s[|s| - |r|..]
      && (r == [] || !IsWhitespace(r[0]))
      && forall i :: 0 <= i < |s| - |r| ==> IsWhitespace(s[i])
  {
    if s != [] && IsWhitespace(s[0]) {
      var t := s[1..];
      TrimStartDropsPrefix(t);
      var r := TrimStart(t);
      assert TrimStart(s) == r;
      assert t[|t| - |r|..] == s[|s| - |r|..];
      forall i | 0 <= i < |s| - |r| ensures IsWhitespace(s[i]) {
        if i > 0 {
          assert s[i] == t[i - 1];
        }
      }
    }
  }

  /** TrimEnd drops a suffix of whitespace and stops at the last other character. */
  lemma {:induction false} TrimEndDropsSuffix(s: string)
    ensures var r := TrimEnd(s);
      && |r| <= |s| && r == s[..|r|]
      && (r == [] || !IsWhitespace(r[|r| - 1]))
      && forall i :: |r| <= i < |s| ==> IsWhitespace(s[i])
  {
    if s != [] && IsWhitespace(s[|s| - 1]) {
      var t := s[..|s| - 1];
      TrimEndDropsSuffix(t);
      var r := TrimEnd(t);
      assert TrimEnd(s) == r;
      assert t[..|r|] == s[..|r|];
      forall i | |r| <= i < |s| ensures IsWhitespace(s[i]) {
        if i < |s| - 1 {
          assert s[i] == t[i];
        }
      }
    }
  }

  /** `r` occurs in `s` at index `k`, and everything before and after that
      occurrence is whitespace. */
  predicate SurroundedByWhitespace(s: string, r: string, k: int) {
    && OccursAt(s, r, k)
    && (forall i :: 0 <= i < k ==> IsWhitespace(s[i]))
    && (forall i :: k + |r| <= i < |s| ==> IsWhitespace(s[i]))
  }

  /** The trim is the part of `s` left after dropping the leading and the
      trailing whitespace. */
  lemma {:induction false} TrimIsInnerPart(s: string)
    ensures SurroundedByWhitespace(s, Trim(s), |s| - |TrimStart(s)|)
  {
    var t := TrimStart(s);
    var r := TrimEnd(t);
    TrimStartDropsPrefix(s);
    TrimEndDropsSuffix(t);
    var d := |s| - |t|;
    assert r == s[d..d + |r|];
    forall i | d + |r| <= i < |s| ensures IsWhitespace(s[i]) {
      assert s[i] == t[i - d];
    }
  }

  /** A non-empty trim starts and ends with characters other than whitespace. */
  lemma {:induction false} TrimEndsAreNotWhitespace(s: string)
    ensures Trim(s) != [] ==> !IsWhitespace(Trim(s)[0]) && !IsWhitespace(Trim(s)[|Trim(s)| - 1])
  {
    var t := TrimStart(s);
    var r := TrimEnd(t);
    TrimStartDropsPrefix(s);
    TrimEndDropsSuffix(t);
    if r != [] {
      assert r[0] == t[0];
    }
  }

  /** What `trim` promises: the part of `s` between its leading and its
      trailing whitespace, which neither starts nor ends with whitespace,
      empty exactly when `s` is blank; a string without whitespace is its
      own trim. */
  lemma TrimProperties(s: string)
    ensures exists k :: SurroundedByWhitespace(s, Trim(s), k)
    ensures Trim(s) != [] ==> !IsWhitespace(Trim(s)[0]) && !IsWhitespace(Trim(s)[|Trim(s)| - 1])
    ensures Trim(s) == [] <==> IsBlank(s)
    ensures HasNoWhitespace(s) ==> Trim(s) == s
  {
    TrimIsInnerPart(s);
    TrimEndsAreNotWhitespace(s);
    var k := |s| - |TrimStart(s)|;
    if HasNoWhitespace(s) && s != [] {
      TrimStartDropsPrefix(s);
      TrimEndDropsSuffix(s);
      assert !IsWhitespace(s[0]);
      assert TrimStart(s) == s;
    }
  }

  /** Lower-casing of one character; only the ASCII capitals are mapped. */
  function LowerChar(c: char): (r: char)
    ensures 'A' <= c <= 'Z' ==> 'a' <= r <= 'z'
    ensures !('A' <= c <= 'Z') ==> r == c
  {
    if 'A' <= c <= 'Z' then (c as int + 32) as char else c
  }

  /** `s.toLowerCase()`, character by character. */
  function ToLowerCase(s: string): (r: string)
    ensures |r| == |s|
  {
    seq(|s|, i requires 0 <= i < |s| => LowerChar(s[i]))
  }

  /** Lower-casing changes no whitespace, '@' or '.' and creates none. */
  lemma LowerCharKeepsSeparators(c: char)
    ensures IsWhitespace(LowerChar(c)) <==> IsWhitespace(c)
    ensures LowerChar(c) == '@' <==> c == '@'
    ensures LowerChar(c) == '.' <==> c == '.'
  {
  }

  /** Lower-casing a slice is slicing the lower-cased string. */
  lemma ToLowerCaseSlice(s: string, i: int, j: int)
    requires 0 <= i <= j <= |s|
    ensures ToLowerCase(s)[i..j] == ToLowerCase(s[i..j])
  {
  }

  /** Lower-casing twice is lower-casing once. */
  lemma ToLowerCaseIdempotent(s: string)
    ensures ToLowerCase(ToLowerCase(s)) == ToLowerCase(s)
  {
  }

  /** `sub` occurs in `s` starting at index `i`. */
  predicate OccursAt(s: string, sub: string, i: int) {
    0 <= i && i + |sub| <= |s| && s[i..i + |sub|] == sub
  }

  /** `s.includes(sub)`. */
  function Includes(s: string, sub: string): bool
    decreases |s|
  {
    if |sub| > |s| then false
    else if s[..|sub|] == sub then true
    else Includes(s[1..], sub)
  }

  /** `includes` holds exactly when `sub` occurs at some index of `s`. */
  lemma {:induction false} IncludesOccurs(s: string, sub: string)
    ensures Includes(s, sub) <==> exists i :: OccursAt(s, sub, i)
    decreases |s|
  {
    if |sub| > |s| {
    } else if s[..|sub|] == sub {
      assert OccursAt(s, sub, 0);
    } else {
      IncludesOccurs(s[1..], sub);
      if Includes(s[1..], sub) {
        var i :| OccursAt(s[1..], sub, i);
        assert s[i + 1..i + 1 + |sub|] == s[1..][i..i + |sub|];
        assert OccursAt(s, sub, i + 1);
      } else {
        forall i | OccursAt(s, sub, i) ensures false {
          assert i != 0;
          assert s[1..][i - 1..i - 1 + |sub|] == s[i..i + |sub|];
          assert OccursAt(s[1..], sub, i - 1);
        }
      }
    }
  }

  /** The first index holding `c`, or -1 when there is none. A helper for
      the scan form of the e-mail test, not an operation of the handlers. */
  function IndexOf(s: string, c: char): int {
    if s == [] then -1
    else if s[0] == c then 0
    else
      var r := IndexOf(s[1..], c);
      if r < 0 then -1 else r + 1
  }

  /** `IndexOf` finds the first occurrence, and -1 means there is none. */
  lemma {:induction false} IndexOfFirst(s: string, c: char)
    ensures -1 <= IndexOf(s, c) < |s|
    ensures 0 <= IndexOf(s, c) ==> s[IndexOf(s, c)] == c && forall k :: 0 <= k < IndexOf(s, c) ==> s[k] != c
    ensures IndexOf(s, c) < 0 ==> forall k :: 0 <= k < |s| ==> s[k] != c
  {
    if s != [] && s[0] != c {
      IndexOfFirst(s[1..], c);
      forall k | 1 <= k < |s| ensures s[k] == s[1..][k - 1] { }
    }
  }
  /** A first occurrence at `i` is the one `IndexOf` finds. */
  lemma IndexOfAt(s: string, c: char, i: int)
    requires 0 <= i < |s| && s[i] == c
    requires forall k :: 0 <= k < i ==> s[k] != c
    ensures IndexOf(s, c) == i
  {
    IndexOfFirst(s, c);
  }

  /** `IndexOf` gives -1 exactly when the character is absent; here, absent. */
  lemma IndexOfAbsent(s: string, c: char)
    requires forall k :: 0 <= k < |s| ==> s[k] != c
    ensures IndexOf(s, c) < 0
  {
    IndexOfFirst(s, c);
  }

  /** A present character is found. */
  lemma IndexOfPresent(s: string, c: char, i: int)
    requires 0 <= i < |s| && s[i] == c
    ensures IndexOf(s, c) >= 0
  {
    IndexOfFirst(s, c);
  }

}
