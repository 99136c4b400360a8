/**
 The substring search of the memory store: the pattern it builds, read by the rules of SQL
 LIKE with backslash as escape character. SQLite compares ASCII letters without case.
 */
module LikePattern {

  // ---------------------------------------------------------------- building the pattern

  /** `replaceAll` of a single character. */
  function ReplaceAll(s: string, c: char, replacement: string): string {
    if s == "" then "" else (if s[0] == c then replacement else [s[0]]) + ReplaceAll(s[1..], c, replacement)
  }

  /** `likePattern`: three replacements, one after the other. */
  function Pattern(value: string): string {
    "%" + ReplaceAll(ReplaceAll(ReplaceAll(value, '\\', "\\\\"), '%', "\\%"), '_', "\\_") + "%"
  }

  predicate Special(c: char) {
    c == '\\' || c == '%' || c == '_'
  }

  function Escaped(value: string): string {
    if value == "" then "" else (if Special(value[0]) then ['\\', value[0]] else [value[0]]) + Escaped(value[1..])
  }

  lemma {:induction false} ReplaceJoin(a: string, b: string, c: char, replacement: string)
    ensures ReplaceAll(a + b, c, replacement) == ReplaceAll(a, c, replacement) + ReplaceAll(b, c, replacement)
    decreases |a|
  {
    if a == "" {
      assert a + b == b;
    } else {
      assert (a + b)[1..] == a[1..] + b;
      ReplaceJoin(a[1..], b, c, replacement);
    }
  }

  lemma ReplaceOne(x: char, c: char, replacement: string)
    ensures ReplaceAll([x], c, replacement) == if x == c then replacement else [x]
  {
    assert [x][1..] == "";
    assert ReplaceAll("", c, replacement) == "";
    assert replacement + "" == replacement;
  }

  lemma ReplaceTwo(x: char, y: char, c: char, replacement: string)
    requires x != c && y != c
    ensures ReplaceAll([x, y], c, replacement) == [x, y]
  {
    assert [x, y] == [x] + [y];
    ReplaceJoin([x], [y], c, replacement);
    ReplaceOne(x, c, replacement);
    ReplaceOne(y, c, replacement);
  }

  /** The three passes on one character: it is escaped once, and the backslash put in is not escaped again. */
  lemma ThreePassesOnOne(x: char)
    ensures ReplaceAll(ReplaceAll(ReplaceAll([x], '\\', "\\\\"), '%', "\\%"), '_', "\\_")
         == if Special(x) then ['\\', x] else [x]
  {
    ReplaceOne(x, '\\', "\\\\");
    ReplaceOne(x, '%', "\\%");
    ReplaceOne(x, '_', "\\_");
    ReplaceTwo('\\', '\\', '%', "\\%");
    ReplaceTwo('\\', '\\', '_', "\\_");
    ReplaceTwo('\\', '%', '_', "\\_");
  }

  /** The sequence of replacements is one escape per character. */
  lemma {:induction false} PassesAreEscape(value: string)
    ensures ReplaceAll(ReplaceAll(ReplaceAll(value, '\\', "\\\\"), '%', "\\%"), '_', "\\_") == Escaped(value)
  {
    if value != "" {
      var first, rest := [value[0]], value[1..];
      assert value == first + rest;
      var a, b := ReplaceAll(first, '\\', "\\\\"), ReplaceAll(rest, '\\', "\\\\");
      ReplaceJoin(first, rest, '\\', "\\\\");
      ReplaceJoin(a, b, '%', "\\%");
      ReplaceJoin(ReplaceAll(a, '%', "\\%"), ReplaceAll(b, '%', "\\%"), '_', "\\_");
      ThreePassesOnOne(value[0]);
      PassesAreEscape(rest);
    }
  }

  // ---------------------------------------------------------------- reading the pattern

  function Fold(c: char): char {
    if 'A' <= c <= 'Z' then (c as int + 32) as char else c
  }

  predicate Same(a: char, b: char) {
    Fold(a) == Fold(b)
  }

  /** `s LIKE p ESCAPE '\'` */
  predicate Like(p: string, s: string)
    decreases |p| + |s|
  {
    if p == "" then s == ""
    else if p[0] == '%' then Like(p[1..], s) || (s != "" && Like(p, s[1..]))
    else if p[0] == '_' then s != "" && Like(p[1..], s[1..])
    else if p[0] == '\\' then |p| > 1 && s != "" && Same(p[1], s[0]) && Like(p[2..], s[1..])
    else s != "" && Same(p[0], s[0]) && Like(p[1..], s[1..])
  }

  predicate SameText(a: string, b: string) {
    |a| == |b| && forall i | 0 <= i < |a| :: Same(a[i], b[i])
  }

  /** The value stands in `s` at place i. */
  predicate StandsAt(value: string, s: string, i: nat) {
    i + |value| <= |s| && SameText(value, s[i..i + |value|])
  }

  lemma {:induction false} AnythingMatches(s: string)
    ensures Like("%", s)
  {
    assert "%"[1..] == "";
    if s != "" {
      AnythingMatches(s[1..]);
    }
  }

  /** An escaped value matches itself literally, and what follows it matches the rest. */
  lemma {:induction false} EscapedIsLiteral(value: string, rest: string, s: string)
    ensures Like(Escaped(value) + rest, s) <==> StandsAt(value, s, 0) && Like(rest, s[|value|..])
    decreases |value|
  {
    if value == "" {
      assert Escaped(value) + rest == rest && s[0..] == s;
    } else {
      EscapedHead(value, rest, s);
      if s != "" {
        EscapedIsLiteral(value[1..], rest, s[1..]);
        HeadAndTail(value, s);
      }
    }
  }

  /** An escaped character takes that character. */
  lemma EscapedHead(value: string, rest: string, s: string)
    requires value != ""
    ensures Like(Escaped(value) + rest, s) <==>
      s != "" && Same(value[0], s[0]) && Like(Escaped(value[1..]) + rest, s[1..])
  {
    var tail := Escaped(value[1..]) + rest;
    var p := Escaped(value) + rest;
    if Special(value[0]) {
      assert p == ['\\', value[0]] + tail && p[2..] == tail;
    } else {
      assert p == [value[0]] + tail && p[1..] == tail;
    }
  }

  lemma HeadAndTail(value: string, s: string)
    requires value != "" && s != ""
    ensures StandsAt(value, s, 0) <==> Same(value[0], s[0]) && StandsAt(value[1..], s[1..], 0)
    ensures |value| <= |s| ==> s[|value|..] == s[1..][|value| - 1..]
  {
    if |value| <= |s| {
      assert forall i | 0 <= i < |value| - 1 :: value[1..][i] == value[i + 1] && s[1..][i] == s[i + 1];
      if StandsAt(value, s, 0) {
        forall i | 0 <= i < |value| - 1
          ensures Same(value[1..][i], s[1..][0..|value| - 1][i])
        {
          assert Same(value[i + 1], s[0..|value|][i + 1]);
        }
      }
      if Same(value[0], s[0]) && StandsAt(value[1..], s[1..], 0) {
        forall i | 0 <= i < |value| ensures Same(value[i], s[i]) {
          if i > 0 {
            assert Same(value[1..][i - 1], s[1..][0..|value| - 1][i - 1]);
          }
        }
      }
    }
  }

  /** A leading `%` skips any number of characters. */
  lemma {:induction false} PercentSkips(p: string, s: string)
    ensures Like("%" + p, s) <==> exists i :: 0 <= i <= |s| && Like(p, s[i..])
    decreases |s|
  {
    var q := "%" + p;
    assert q[1..] == p && s[0..] == s;
    if s != "" {
      PercentSkips(p, s[1..]);
      if i :| 0 <= i <= |s[1..]| && Like(p, s[1..][i..]) {
        assert s[1..][i..] == s[i + 1..];
      }
      if i :| 0 <= i <= |s| && Like(p, s[i..]) {
        if i > 0 {
          assert s[i..] == s[1..][i - 1..];
        }
      }
    }
  }

  /** The pattern finds exactly the texts the value occurs in. */
  lemma PatternFindsSubstrings(value: string, s: string)
    ensures Like(Pattern(value), s) <==> exists i: nat :: StandsAt(value, s, i)
  {
    PassesAreEscape(value);
    assert Pattern(value) == "%" + (Escaped(value) + "%");
    PercentSkips(Escaped(value) + "%", s);
    forall i | 0 <= i <= |s|
      ensures Like(Escaped(value) + "%", s[i..]) <==> StandsAt(value, s, i)
    {
      EscapedIsLiteral(value, "%", s[i..]);
      if |value| <= |s[i..]| {
        AnythingMatches(s[i..][|value|..]);
        assert s[i..][0..|value|] == s[i..i + |value|];
      }
    }
  }
}
