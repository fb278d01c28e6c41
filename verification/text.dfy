/** The string operations the modules share. */
module Text {
  /** White space of the first 256 code points. */
  predicate IsSpace(c: char) {
    c in {' ', '\t', '\n', '\r', '\U{000B}', '\U{000C}', '\U{0085}', '\U{00A0}'}
  }

  function TrimLeft(s: string): string {
    if s != "" && IsSpace(s[0]) then TrimLeft(s[1..]) else s
  }

  function TrimRight(s: string): string {
    if s != "" && IsSpace(s[|s| - 1]) then TrimRight(s[..|s| - 1]) else s
  }

  function TrimSpace(s: string): string {
    TrimRight(TrimLeft(s))
  }

  predicate HasSuffix(s: string, suffix: string) {
    |suffix| <= |s| && s[|s| - |suffix|..] == suffix
  }

  function TrimPrefix(s: string, prefix: string): string {
    if prefix <= s then s[|prefix|..] else s
  }

  function TrimSuffix(s: string, suffix: string): string {
    if HasSuffix(s, suffix) then s[..|s| - |suffix|] else s
  }

  function ToUpper(s: string): string {
    if s == "" then "" else [if 'a' <= s[0] <= 'z' then s[0] - 'a' + 'A' else s[0]] + ToUpper(s[1..])
  }

  function ToLower(s: string): string {
    if s == "" then "" else [if 'A' <= s[0] <= 'Z' then s[0] - 'A' + 'a' else s[0]] + ToLower(s[1..])
  }

  /** Trimming removes the white space at both ends, and nothing else. */
  lemma TrimSpaceIs(s: string) returns (i: nat, j: nat)
    ensures i <= j <= |s| && TrimSpace(s) == s[i..j]
    ensures forall k :: 0 <= k < i || j <= k < |s| ==> IsWhite(s[k])
    ensures i < j ==> !IsWhite(s[i]) && !IsWhite(s[j - 1])
  {
    i := TrimLeftIs(s);
    var n := TrimRightIs(s[i..]);
    j := i + n;
    assert s[i..][..n] == s[i..j];
    forall k | j <= k < |s| ensures IsWhite(s[k]) {
      assert s[k] == s[i..][k - i];
    }
  }

  /** Space, the controls from tab to carriage return, next line and the space that does not break. */
  predicate IsWhite(c: char) {
    c == ' ' || '\t' <= c <= '\r' || c == '\U{0085}' || c == '\U{00A0}'
  }

  lemma {:induction false} TrimLeftIs(s: string) returns (i: nat)
    ensures i <= |s| && TrimLeft(s) == s[i..]
    ensures forall k :: 0 <= k < i ==> IsWhite(s[k])
    ensures i < |s| ==> !IsWhite(s[i])
  {
    i := 0;
    if s != "" && IsSpace(s[0]) {
      var n := TrimLeftIs(s[1..]);
      i := n + 1;
      assert forall k :: 0 < k < i ==> s[k] == s[1..][k - 1];
    }
  }

  lemma {:induction false} TrimRightIs(s: string) returns (n: nat)
    ensures n <= |s| && TrimRight(s) == s[..n]
    ensures forall k :: n <= k < |s| ==> IsWhite(s[k])
    ensures n > 0 ==> !IsWhite(s[n - 1])
  {
    n := |s|;
    if s != "" && IsSpace(s[|s| - 1]) {
      var front := s[..|s| - 1];
      n := TrimRightIs(front);
      assert forall k :: n <= k < |front| ==> s[k] == front[k];
    }
  }

  /** Nothing is left exactly of texts that are white space throughout. */
  lemma BlankIsWhite(s: string)
    ensures TrimSpace(s) == "" <==> forall k :: 0 <= k < |s| ==> IsWhite(s[k])
  {
    var i, j := TrimSpaceIs(s);
  }

  /** Letter by letter, with all other characters as they are. */
  lemma {:induction false} CasesChange(s: string)
    ensures |ToUpper(s)| == |ToLower(s)| == |s|
    ensures forall i :: 0 <= i < |s| ==>
      if 'a' <= s[i] <= 'z' then ToUpper(s)[i] as int == s[i] as int - 32 else ToUpper(s)[i] == s[i]
    ensures forall i :: 0 <= i < |s| ==>
      if 'A' <= s[i] <= 'Z' then ToLower(s)[i] as int == s[i] as int + 32 else ToLower(s)[i] == s[i]
  {
    if s != "" {
      CasesChange(s[1..]);
      forall i | 0 < i < |s| ensures ToUpper(s)[i] == ToUpper(s[1..])[i - 1] && ToLower(s)[i] == ToLower(s[1..])[i - 1] {
      }
    }
  }
}
