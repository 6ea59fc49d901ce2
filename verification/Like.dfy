/** Search by text: the query becomes a pattern that matches exactly the texts holding the query itself. */
module Like {

  const ESCAPE := '\\'

  predicate Special(c: char) {
    c == ESCAPE || c == '%' || c == '_'
  }

  /** str.replace of one character by a text. */
  function Replace(s: string, c: char, with: string): (r: string) {
    if s == "" then "" else (if s[0] == c then with else [s[0]]) + Replace(s[1..], c, with)
  }

  /** The escaping in the source: the backslash first, then the two wildcards. */
  function EscapeIlike(q: string): (r: string) {
    Replace(Replace(Replace(q, ESCAPE, "\\\\"), '%', "\\%"), '_', "\\_")
  }

  /** Escaping as it is meant: one pass, each special character behind a backslash. */
  function Escaped(q: string): (r: string) {
    if q == "" then "" else (if Special(q[0]) then [ESCAPE, q[0]] else [q[0]]) + Escaped(q[1..])
  }

  lemma {:induction false} ReplaceJoin(a: string, b: string, c: char, with: string)
    ensures Replace(a + b, c, with) == Replace(a, c, with) + Replace(b, c, with)
  {
    if a == "" {
      assert a + b == b;
    } else {
      assert (a + b)[1..] == a[1..] + b;
      ReplaceJoin(a[1..], b, c, with);
    }
  }

  lemma ReplaceOne(x: char, c: char, with: string)
    ensures Replace([x], c, with) == if x == c then with else [x]
  {
    assert [x][1..] == "";
  }

  lemma ReplaceTwo(x: char, y: char, c: char, with: string)
    ensures Replace([x, y], c, with) == (if x == c then with else [x]) + (if y == c then with else [y])
  {
    assert [x, y][1..] == [y];
    ReplaceOne(y, c, with);
  }

  lemma EscapeFirst(x: char)
    ensures Replace(Replace(Replace([x], ESCAPE, "\\\\"), '%', "\\%"), '_', "\\_")
         == if Special(x) then [ESCAPE, x] else [x]
  {
    ReplaceOne(x, ESCAPE, "\\\\");
    ReplaceOne(x, '%', "\\%");
    ReplaceOne(x, '_', "\\_");
    ReplaceTwo(ESCAPE, x, '%', "\\%");
    ReplaceTwo(ESCAPE, x, '_', "\\_");
  }

  /** The three replacements do not disturb each other. */
  lemma {:induction false} EscapeIsOnePass(q: string)
    ensures EscapeIlike(q) == Escaped(q)
  {
    if q != "" {
      var head, tail := [q[0]], q[1..];
      assert q == head + tail;
      EscapeIsOnePass(tail);
      EscapeFirst(q[0]);
      var a, b := Replace(head, ESCAPE, "\\\\"), Replace(tail, ESCAPE, "\\\\");
      ReplaceJoin(head, tail, ESCAPE, "\\\\");
      ReplaceJoin(a, b, '%', "\\%");
      ReplaceJoin(Replace(a, '%', "\\%"), Replace(b, '%', "\\%"), '_', "\\_");
    }
  }

  /** The like predicate with an escape character; `fold` maps characters that differ only in case to the same one. */
  predicate Matches(s: string, p: string, fold: char -> char)
    decreases |p|, |s|
  {
    if p == "" then s == ""
    else if p[0] == '%' then Matches(s, p[1..], fold) || (s != "" && Matches(s[1..], p, fold))
    else if p[0] == '_' then s != "" && Matches(s[1..], p[1..], fold)
    else if p[0] == ESCAPE then |p| > 1 && s != "" && fold(s[0]) == fold(p[1]) && Matches(s[1..], p[2..], fold)
    else s != "" && fold(s[0]) == fold(p[0]) && Matches(s[1..], p[1..], fold)
  }

  /** Every escape character stands before a special one; otherwise the predicate raises an error. */
  predicate ValidPattern(p: string)
    decreases |p|
  {
    if p == "" then true
    else if p[0] == ESCAPE then |p| > 1 && Special(p[1]) && ValidPattern(p[2..])
    else ValidPattern(p[1..])
  }

  predicate SameText(a: string, b: string, fold: char -> char) {
    |a| == |b| && forall i | 0 <= i < |a| :: fold(a[i]) == fold(b[i])
  }

  predicate HoldsAt(s: string, q: string, i: nat, fold: char -> char) {
    i + |q| <= |s| && SameText(s[i..i + |q|], q, fold)
  }

  predicate Holds(s: string, q: string, fold: char -> char) {
    exists i :: 0 <= i <= |s| && HoldsAt(s, q, i, fold)
  }

  lemma {:induction false} PercentMatchesAll(s: string, fold: char -> char)
    ensures Matches(s, "%", fold)
  {
    assert "%"[1..] == "";
    if s != "" {
      PercentMatchesAll(s[1..], fold);
    }
  }

  lemma {:induction false} PercentSkips(s: string, rest: string, fold: char -> char)
    ensures Matches(s, "%" + rest, fold) <==> exists i :: 0 <= i <= |s| && Matches(s[i..], rest, fold)
  {
    assert ("%" + rest)[1..] == rest;
    assert s[0..] == s;
    if s != "" {
      PercentSkips(s[1..], rest, fold);
      if i :| 0 <= i <= |s| && Matches(s[i..], rest, fold) {
        if i > 0 { assert s[1..][i - 1..] == s[i..]; }
      }
      if i :| 0 <= i <= |s[1..]| && Matches(s[1..][i..], rest, fold) {
        assert s[1..][i..] == s[i + 1..];
      }
    }
  }

  /** An escaped query matches itself and nothing else; what follows is free. */
  lemma {:induction false} EscapedMatchesLiterally(s: string, q: string, fold: char -> char)
    ensures Matches(s, Escaped(q) + "%", fold) <==> |q| <= |s| && SameText(s[..|q|], q, fold)
  {
    var p := Escaped(q) + "%";
    if q == "" {
      assert p == "%";
      PercentMatchesAll(s, fold);
    } else {
      var rest := Escaped(q[1..]) + "%";
      if Special(q[0]) {
        assert p[2..] == rest && p[0] == ESCAPE && p[1] == q[0];
      } else {
        assert p[1..] == rest && p[0] == q[0];
      }
      if s != "" {
        EscapedMatchesLiterally(s[1..], q[1..], fold);
        if |q| <= |s| { SameTextSplits(s[..|q|], q, fold); assert s[..|q|][1..] == s[1..][..|q| - 1]; }
      }
    }
  }

  lemma SameTextSplits(a: string, b: string, fold: char -> char)
    requires a != "" && |a| == |b|
    ensures SameText(a, b, fold) <==> fold(a[0]) == fold(b[0]) && SameText(a[1..], b[1..], fold)
  {
    if fold(a[0]) == fold(b[0]) && SameText(a[1..], b[1..], fold) {
      forall i | 0 <= i < |a| ensures fold(a[i]) == fold(b[i]) {
        if i > 0 { assert a[i] == a[1..][i - 1] && b[i] == b[1..][i - 1]; }
      }
    }
  }

  /** The pattern of the search matches a text exactly when the query occurs in it, up to case. */
  lemma SearchFindsTheQuery(s: string, q: string, fold: char -> char)
    ensures Matches(s, "%" + EscapeIlike(q) + "%", fold) <==> Holds(s, q, fold)
  {
    EscapeIsOnePass(q);
    var rest := Escaped(q) + "%";
    assert "%" + EscapeIlike(q) + "%" == "%" + rest;
    PercentSkips(s, rest, fold);
    forall i | 0 <= i <= |s|
      ensures Matches(s[i..], rest, fold) <==> HoldsAt(s, q, i, fold)
    {
      EscapedMatchesLiterally(s[i..], q, fold);
      if i <= |s| - |q| { assert s[i..][..|q|] == s[i..i + |q|]; }
    }
  }

  lemma {:induction false} EscapedIsValid(q: string, tail: string)
    requires ValidPattern(tail)
    ensures ValidPattern(Escaped(q) + tail)
  {
    if q == "" {
      assert Escaped(q) + tail == tail;
    } else {
      EscapedIsValid(q[1..], tail);
      var p := Escaped(q) + tail;
      var rest := Escaped(q[1..]) + tail;
      if Special(q[0]) {
        assert p == [ESCAPE, q[0]] + rest;
        assert p[2..] == rest && p[0] == ESCAPE && p[1] == q[0];
      } else {
        assert p == [q[0]] + rest;
        assert p[1..] == rest && p[0] == q[0];
      }
    }
  }

  /** No query makes the pattern invalid. */
  lemma SearchNeverFails(q: string)
    ensures ValidPattern("%" + EscapeIlike(q) + "%")
  {
    EscapeIsOnePass(q);
    assert "%"[1..] == "";
    EscapedIsValid(q, "%");
    var rest := Escaped(q) + "%";
    assert ("%" + rest)[1..] == rest && "%" + EscapeIlike(q) + "%" == "%" + rest;
  }
}
