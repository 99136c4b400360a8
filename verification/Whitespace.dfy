/** Whitespace and trimming as `String.prototype.trim` defines them. */
module Whitespace {

  predicate Blank(c: char) {
    || c == '\t' || c == '\n' || c == '\U{000B}' || c == '\U{000C}' || c == '\r' || c == ' '
    || c == '\U{00A0}' || c == '\U{1680}' || '\U{2000}' <= c <= '\U{200A}' || c == '\U{2028}' || c == '\U{2029}'
    || c == '\U{202F}' || c == '\U{205F}' || c == '\U{3000}' || c == '\U{FEFF}'
  }

  predicate AllBlank(s: string) {
    forall i | 0 <= i < |s| :: Blank(s[i])
  }

  function TrimStart(s: string): string {
    if s != "" && Blank(s[0]) then TrimStart(s[1..]) else s
  }

  function TrimEnd(s: string): string {
    if s != "" && Blank(s[|s| - 1]) then TrimEnd(s[..|s| - 1]) else s
  }

  function Trim(s: string): string {
    TrimEnd(TrimStart(s))
  }

  /** Trimming leaves nothing exactly of a text without substance. */
  lemma TrimmedEmpty(s: string)
    ensures Trim(s) == "" <==> AllBlank(s)
  {
    StartTrimmed(s);
    EndTrimmed(TrimStart(s));
  }

  lemma {:induction false} StartTrimmed(s: string)
    ensures AllBlank(TrimStart(s)) <==> AllBlank(s)
    decreases |s|
  {
    if s != "" && Blank(s[0]) {
      StartTrimmed(s[1..]);
      assert forall i | 0 < i < |s| :: s[i] == s[1..][i - 1];
    }
  }

  lemma {:induction false} EndTrimmed(s: string)
    ensures TrimEnd(s) == "" <==> AllBlank(s)
    decreases |s|
  {
    if s != "" && Blank(s[|s| - 1]) {
      EndTrimmed(s[..|s| - 1]);
      assert forall i | 0 <= i < |s| - 1 :: s[i] == s[..|s| - 1][i];
    }
  }
}
