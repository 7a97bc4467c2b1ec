/** Option and Result, and the string helpers of the Go standard library that several modules need. */
module Common {
  datatype Option<+T> = None | Some(value: T)

  datatype Result<+T, +E> = Ok(value: T) | Err(error: E)

  // strings.HasPrefix
  predicate HasPrefix(s: string, prefix: string) {
    |prefix| <= |s| && s[..|prefix|] == prefix
  }

  // strings.HasSuffix
  predicate HasSuffix(s: string, suffix: string) {
    |suffix| <= |s| && s[|s| - |suffix|..] == suffix
  }

  // strings.TrimPrefix: removes the prefix at most once.
  function TrimPrefix(s: string, prefix: string): string {
    if HasPrefix(s, prefix) then s[|prefix|..] else s
  }

  // strings.TrimSuffix: removes the suffix at most once.
  function TrimSuffix(s: string, suffix: string): string {
    if HasSuffix(s, suffix) then s[..|s| - |suffix|] else s
  }

  // unicode.IsSpace
  predicate IsSpace(c: char) {
    '\U{0009}' <= c <= '\U{000D}' || c == ' ' || c == '\U{0085}' || c == '\U{00A0}' || c == '\U{1680}'
    || '\U{2000}' <= c <= '\U{200A}' || c == '\U{2028}' || c == '\U{2029}' || c == '\U{202F}'
    || c == '\U{205F}' || c == '\U{3000}'
  }

  function TrimLeft(s: string): string {
    if s != "" && IsSpace(s[0]) then TrimLeft(s[1..]) else s
  }

  function TrimRight(s: string): string {
    if s != "" && IsSpace(s[|s| - 1]) then TrimRight(s[..|s| - 1]) else s
  }

  // strings.TrimSpace
  function TrimSpace(s: string): string {
    TrimRight(TrimLeft(s))
  }

  predicate Trimmed(s: string) {
    s == "" || (!IsSpace(s[0]) && !IsSpace(s[|s| - 1]))
  }

  /** Nothing is left to trim of what has been trimmed. */
  lemma TrimSpaceIsTrimmed(s: string)
    ensures Trimmed(TrimSpace(s)) && TrimSpace(TrimSpace(s)) == TrimSpace(s)
  {
    LeftOfTrimmed(s);
    RightOfTrimmed(TrimLeft(s));
  }

  /** Trimming takes off white space at both ends and nothing else. */
  lemma TrimSpaceIsInner(s: string) returns (i: nat, j: nat)
    ensures i <= j <= |s| && TrimSpace(s) == s[i..j]
    ensures forall k :: 0 <= k < i || j <= k < |s| ==> IsSpace(s[k])
  {
    i := TrimLeftIsRest(s);
    var n := TrimRightIsFront(TrimLeft(s));
    j := i + n;
    assert TrimSpace(s) == s[i..][..n] == s[i..j];
    assert forall k :: j <= k < |s| ==> s[k] == TrimLeft(s)[k - i];
  }

  lemma {:induction false} TrimLeftIsRest(s: string) returns (i: nat)
    ensures i <= |s| && TrimLeft(s) == s[i..] && forall k :: 0 <= k < i ==> IsSpace(s[k])
  {
    i := 0;
    if s != "" && IsSpace(s[0]) {
      i := TrimLeftIsRest(s[1..]);
      i := i + 1;
      assert forall k :: 1 <= k < i ==> s[k] == s[1..][k - 1];
    }
  }

  lemma {:induction false} TrimRightIsFront(s: string) returns (n: nat)
    ensures n <= |s| && TrimRight(s) == s[..n] && forall k :: n <= k < |s| ==> IsSpace(s[k])
  {
    n := |s|;
    if s != "" && IsSpace(s[|s| - 1]) {
      n := TrimRightIsFront(s[..|s| - 1]);
      assert s[..|s| - 1][..n] == s[..n];
    }
  }

  lemma {:induction false} LeftOfTrimmed(s: string)
    ensures TrimLeft(s) == "" || !IsSpace(TrimLeft(s)[0])
  {
    if s != "" && IsSpace(s[0]) {
      LeftOfTrimmed(s[1..]);
    }
  }

  // Trimming on the right keeps the first character, if anything is left.
  lemma {:induction false} RightOfTrimmed(s: string)
    ensures TrimRight(s) == "" || (s != "" && TrimRight(s)[0] == s[0] && !IsSpace(TrimRight(s)[|TrimRight(s)| - 1]))
  {
    if s != "" && IsSpace(s[|s| - 1]) {
      RightOfTrimmed(s[..|s| - 1]);
    }
  }

  lemma TrimmedIsFixed(s: string)
    requires Trimmed(s)
    ensures TrimSpace(s) == s
  {
  }

  // What the Go code tests as strings.TrimSpace(s) == "".
  predicate Blank(s: string) {
    TrimSpace(s) == ""
  }

  lemma BlankIffSpaces(s: string)
    ensures Blank(s) <==> forall i :: 0 <= i < |s| ==> IsSpace(s[i])
  {
    LeftIsBlankIff(s);
    RightIsBlankIff(TrimLeft(s));
    LeftOfTrimmed(s);
    if TrimLeft(s) != "" {
      assert !IsSpace(TrimLeft(s)[0]);
    }
  }

  lemma {:induction false} LeftIsBlankIff(s: string)
    ensures TrimLeft(s) == "" <==> forall i :: 0 <= i < |s| ==> IsSpace(s[i])
  {
    if s != "" && IsSpace(s[0]) {
      LeftIsBlankIff(s[1..]);
      assert forall i :: 1 <= i < |s| ==> s[i] == s[1..][i - 1];
    }
  }

  lemma {:induction false} RightIsBlankIff(s: string)
    ensures TrimRight(s) == "" <==> forall i :: 0 <= i < |s| ==> IsSpace(s[i])
  {
    if s != "" && IsSpace(s[|s| - 1]) {
      RightIsBlankIff(s[..|s| - 1]);
    }
  }
}
