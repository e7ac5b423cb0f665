/** Literal search through ILIKE: the escaper, a LIKE matcher, and the proof that together they look for a substring. */
module LikePattern {

  /** The characters with a meaning of their own in a LIKE pattern whose escape character is the backslash. */
  predicate Special(c: char) {
    c == '\\' || c == '%' || c == '_'
  }

  /** `value.replace(/c/g, '\\c')`: a backslash before every occurrence of `c`. */
  function ReplaceAll(value: string, c: char): string {
    if value == "" then ""
    else (if value[0] == c then ['\\', c] else [value[0]]) + ReplaceAll(value[1..], c)
  }

  /** The escaper as written: three global replacements, the backslash first. */
  function EscapeIlikePattern(value: string): string {
    ReplaceAll(ReplaceAll(ReplaceAll(value, '\\'), '%'), '_')
  }

  /** One pass over the characters. */
  function Escaped(value: string): string {
    if value == "" then ""
    else (if Special(value[0]) then ['\\', value[0]] else [value[0]]) + Escaped(value[1..])
  }

  lemma {:induction false} ReplaceAllConcat(a: string, b: string, c: char)
    ensures ReplaceAll(a + b, c) == ReplaceAll(a, c) + ReplaceAll(b, c)
  {
    if a == "" {
      assert a + b == b;
    } else {
      assert (a + b)[1..] == a[1..] + b;
      ReplaceAllConcat(a[1..], b, c);
    }
  }

  /** The later replacements never touch the backslashes put in by the earlier ones. */
  lemma {:induction false} ThreePassesAreOne(value: string)
    ensures EscapeIlikePattern(value) == Escaped(value)
  {
    if value != "" {
      ThreePassesAreOne(value[1..]);
      var c, rest := value[0], value[1..];
      var head := if c == '\\' then ['\\', c] else [c];
      ReplaceAllConcat(head, ReplaceAll(rest, '\\'), '%');
      ReplaceAllConcat(ReplaceAll(head, '%'), ReplaceAll(ReplaceAll(rest, '\\'), '%'), '_');
      assert ReplaceAll(ReplaceAll(head, '%'), '_') == if Special(c) then ['\\', c] else [c] by {
        OneCharacter(head);
      }
    }
  }

  /** Replacing in a text of one or two characters. */
  lemma OneCharacter(head: string)
    requires |head| == 1 || head == "\\\\"
    ensures ReplaceAll(ReplaceAll(head, '%'), '_') ==
            if head == "%" then "\\%" else if head == "_" then "\\_" else head
  {
    assert head[1..] == if |head| == 1 then "" else "\\";
    assert ReplaceAll("", '%') == "" && ReplaceAll("", '_') == "";
    assert ReplaceAll("\\", '%') == "\\" && ReplaceAll("\\", '_') == "\\";
    var step := ReplaceAll(head, '%');
    assert step == if head == "%" then "\\%" else head;
    if head == "%" {
      assert step[1..] == "%";
      assert ReplaceAll("%", '_') == "%";
    }
  }

  // ---------------------------------------------------------------- LIKE

  /** LIKE with escape `\` (PostgreSQL manual, section 9.7.1): `%` stands for any text, `_` for any one character,
      and an escaped character for itself. */
  predicate Like(pattern: string, s: string)
    decreases |pattern| + |s|
  {
    if pattern == "" then s == ""
    else if pattern[0] == '%' then Like(pattern[1..], s) || (s != "" && Like(pattern, s[1..]))
    else if s == "" then false
    else if pattern[0] == '\\' then |pattern| >= 2 && s[0] == pattern[1] && Like(pattern[2..], s[1..])
    else (pattern[0] == '_' || s[0] == pattern[0]) && Like(pattern[1..], s[1..])
  }

  /** PostgreSQL refuses a pattern that ends in the escape character. */
  predicate EndsInDanglingEscape(pattern: string) {
    if pattern == "" then false
    else if pattern[0] == '\\' then |pattern| == 1 || EndsInDanglingEscape(pattern[2..])
    else EndsInDanglingEscape(pattern[1..])
  }

  lemma {:induction false} NeverDangling(value: string, rest: string)
    ensures EndsInDanglingEscape(EscapeIlikePattern(value) + rest) == EndsInDanglingEscape(rest)
  {
    ThreePassesAreOne(value);
    if value == "" {
      assert EscapeIlikePattern(value) + rest == rest;
    } else {
      NeverDangling(value[1..], rest);
      ThreePassesAreOne(value[1..]);
      var whole := Escaped(value) + rest;
      assert whole[(if Special(value[0]) then 2 else 1)..] == Escaped(value[1..]) + rest;
    }
  }

  /** One escaped character matches exactly itself. */
  lemma EscapedCharacter(c: char, rest: string, s: string)
    ensures Like((if Special(c) then ['\\', c] else [c]) + rest, s) <==> s != "" && s[0] == c && Like(rest, s[1..])
  {
    var whole := (if Special(c) then ['\\', c] else [c]) + rest;
    assert whole[(if Special(c) then 2 else 1)..] == rest;
  }

  /** An escaped text matches exactly itself. */
  lemma {:induction false} EscapedMatchesItself(value: string, rest: string, s: string)
    ensures Like(Escaped(value) + rest, s) <==> value <= s && Like(rest, s[|value|..])
  {
    if value == "" {
      assert Escaped(value) + rest == rest;
      assert s[0..] == s;
    } else {
      var c := value[0];
      var tail := Escaped(value[1..]) + rest;
      assert Escaped(value) + rest == (if Special(c) then ['\\', c] else [c]) + tail;
      EscapedCharacter(c, tail, s);
      if s != "" {
        EscapedMatchesItself(value[1..], rest, s[1..]);
        PrefixByCharacter(value, s);
      }
    }
  }

  lemma PrefixByCharacter(value: string, s: string)
    requires value != "" && s != ""
    ensures value <= s <==> value[0] == s[0] && value[1..] <= s[1..]
    ensures value <= s ==> s[1..][|value| - 1..] == s[|value|..]
  {
    if value[0] == s[0] && value[1..] <= s[1..] {
      assert forall i :: 0 < i < |value| ==> value[i] == value[1..][i - 1] == s[1..][i - 1] == s[i];
    }
  }

  /** A leading `%` skips any prefix. */
  lemma {:induction false} PercentSkips(rest: string, s: string)
    ensures Like("%" + rest, s) <==> exists i :: 0 <= i <= |s| && Like(rest, s[i..])
    decreases |s|
  {
    var p := "%" + rest;
    assert p[1..] == rest;
    assert s[0..] == s;
    if s != "" {
      PercentSkips(rest, s[1..]);
      forall i | 0 <= i < |s| ensures s[1..][i..] == s[i + 1..] {}
      if exists i :: 0 <= i <= |s| && Like(rest, s[i..]) {
        var i :| 0 <= i <= |s| && Like(rest, s[i..]);
        if i > 0 {
          assert s[1..][i - 1..] == s[i..];
        }
      }
    }
  }

  ghost predicate Contains(s: string, q: string) {
    exists i :: OccursAt(s, q, i)
  }

  ghost predicate OccursAt(s: string, q: string, i: int) {
    0 <= i <= |s| - |q| && s[i..i + |q|] == q
  }

  /** The case-sensitive law: the search pattern matches exactly the texts containing the query. */
  lemma SearchIsLiteral(q: string, s: string)
    ensures Like("%" + EscapeIlikePattern(q) + "%", s) <==> Contains(s, q)
  {
    ThreePassesAreOne(q);
    var rest := Escaped(q) + "%";
    assert "%" + Escaped(q) + "%" == "%" + rest;
    PercentSkips(rest, s);
    forall i | 0 <= i <= |s| ensures Like(rest, s[i..]) <==> OccursAt(s, q, i) {
      EscapedMatchesItself(q, "%", s[i..]);
      if |q| <= |s| - i {
        assert s[i..][..|q|] == s[i..i + |q|];
        PercentMatchesAll(s[i..][|q|..]);
      }
    }
  }

  lemma PercentMatchesAll(s: string)
    ensures Like("%", s)
  {
    assert "%" + "" == "%";
    PercentSkips("", s);
    assert s[|s|..] == "";
  }

  // ---------------------------------------------------------------- ILIKE

  /** The folded text; one character may fold to several, or to none. */
  function Folded(fold: char -> string, s: string): string {
    if s == "" then "" else fold(s[0]) + Folded(fold, s[1..])
  }

  /** A case folding leaves the special characters alone and makes no others. */
  ghost predicate CaseFolding(fold: char -> string) {
    forall c :: if Special(c) then fold(c) == [c] else Plain(fold(c))
  }

  ghost predicate Plain(s: string) {
    forall i :: 0 <= i < |s| ==> !Special(s[i])
  }

  /** ILIKE compares pattern and text after folding both. */
  predicate Ilike(fold: char -> string, pattern: string, s: string) {
    Like(Folded(fold, pattern), Folded(fold, s))
  }

  lemma {:induction false} FoldedConcat(fold: char -> string, a: string, b: string)
    ensures Folded(fold, a + b) == Folded(fold, a) + Folded(fold, b)
  {
    if a == "" {
      assert a + b == b;
    } else {
      assert (a + b)[1..] == a[1..] + b;
      FoldedConcat(fold, a[1..], b);
    }
  }

  lemma {:induction false} EscapedConcat(a: string, b: string)
    ensures Escaped(a + b) == Escaped(a) + Escaped(b)
  {
    if a == "" {
      assert a + b == b;
    } else {
      assert (a + b)[1..] == a[1..] + b;
      EscapedConcat(a[1..], b);
    }
  }

  lemma {:induction false} PlainIsItsOwnEscape(s: string)
    requires Plain(s)
    ensures Escaped(s) == s
  {
    if s != "" {
      assert forall i :: 0 <= i < |s[1..]| ==> s[1..][i] == s[i + 1];
      PlainIsItsOwnEscape(s[1..]);
    }
  }

  lemma FoldedCharacter(fold: char -> string, c: char)
    ensures Folded(fold, [c]) == fold(c)
  {
    assert [c][1..] == "";
  }

  lemma EscapedCharacterFolds(fold: char -> string, c: char)
    requires CaseFolding(fold)
    ensures Folded(fold, if Special(c) then ['\\', c] else [c]) == Escaped(fold(c))
  {
    FoldedCharacter(fold, c);
    if Special(c) {
      assert ['\\', c] == ['\\'] + [c];
      FoldedConcat(fold, ['\\'], [c]);
      FoldedCharacter(fold, '\\');
      assert [c][1..] == "" && Escaped("") == "";
      assert Escaped([c]) == ['\\', c];
    } else {
      PlainIsItsOwnEscape(fold(c));
    }
  }

  lemma {:induction false} FoldingCommutesWithEscaping(fold: char -> string, q: string)
    requires CaseFolding(fold)
    ensures Folded(fold, Escaped(q)) == Escaped(Folded(fold, q))
  {
    if q != "" {
      var head := if Special(q[0]) then ['\\', q[0]] else [q[0]];
      FoldingCommutesWithEscaping(fold, q[1..]);
      FoldedConcat(fold, head, Escaped(q[1..]));
      EscapedCharacterFolds(fold, q[0]);
      EscapedConcat(fold(q[0]), Folded(fold, q[1..]));
    }
  }

  lemma PatternFolds(fold: char -> string, q: string)
    requires CaseFolding(fold)
    ensures Folded(fold, "%" + EscapeIlikePattern(q) + "%") == "%" + EscapeIlikePattern(Folded(fold, q)) + "%"
  {
    ThreePassesAreOne(q);
    ThreePassesAreOne(Folded(fold, q));
    FoldingCommutesWithEscaping(fold, q);
    FoldedConcat(fold, "%" + EscapeIlikePattern(q), "%");
    FoldedConcat(fold, "%", EscapeIlikePattern(q));
    FoldedCharacter(fold, '%');
    assert "%" == ['%'];
  }

  /** Searching is literal up to case: whatever the query contains, a message is found exactly when its folded
      body contains the folded query. */
  lemma SearchIsLiteralUpToCase(fold: char -> string, q: string, s: string)
    requires CaseFolding(fold)
    ensures Ilike(fold, "%" + EscapeIlikePattern(q) + "%", s) <==> Contains(Folded(fold, s), Folded(fold, q))
    ensures !EndsInDanglingEscape("%" + EscapeIlikePattern(q) + "%")
  {
    var pattern := "%" + EscapeIlikePattern(q) + "%";
    PatternFolds(fold, q);
    SearchIsLiteral(Folded(fold, q), Folded(fold, s));
    NeverDangling(q, "%");
    assert pattern[1..] == EscapeIlikePattern(q) + "%";
    assert !EndsInDanglingEscape("%") by { assert "%"[1..] == ""; }
  }

  /** Unescaped, the query `_` would match every non-empty text. */
  lemma UnescapedSearchIsNotLiteral()
    ensures Like("%_%", "a") && !Contains("a", "_")
  {
    assert "%_%"[1..] == "_%" && "_%"[1..] == "%" && "a"[1..] == "";
    PercentMatchesAll("");
  }
}
