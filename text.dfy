/** Character and string operations shared by the backend (Python `lower`,
    Postgres `ILIKE`, `str.split`) and the frontend (`toUpperCase`, `split`).
    Case mapping is ASCII only. */
module Text {

  predicate IsUpperAscii(c: char) { 'A' <= c <= 'Z' }
  predicate IsLowerAscii(c: char) { 'a' <= c <= 'z' }
  predicate IsDigitAscii(c: char) { '0' <= c <= '9' }

  function LowerChar(c: char): (r: char)
    ensures IsUpperAscii(c) ==> IsLowerAscii(r)
    ensures !IsUpperAscii(c) ==> r == c
  {
    if IsUpperAscii(c) then (c as int + 32) as char else c
  }

  function UpperChar(c: char): (r: char)
    ensures IsLowerAscii(c) ==> IsUpperAscii(r)
    ensures !IsLowerAscii(c) ==> r == c
  {
    if IsLowerAscii(c) then (c as int - 32) as char else c
  }

  function Lower(s: string): (r: string)
    ensures |r| == |s|
    ensures forall i :: 0 <= i < |s| ==> r[i] == LowerChar(s[i])
  {
    if s == [] then [] else [LowerChar(s[0])] + Lower(s[1..])
  }

  function Upper(s: string): (r: string)
    ensures |r| == |s|
    ensures forall i :: 0 <= i < |s| ==> r[i] == UpperChar(s[i])
  {
    if s == [] then [] else [UpperChar(s[0])] + Upper(s[1..])
  }

  /** `sub` occurs in `s` as a contiguous piece. */
  ghost predicate Contains(s: string, sub: string) {
    exists i :: OccursAt(s, sub, i)
  }

  predicate OccursAt(s: string, sub: string, i: int) {
    0 <= i <= |s| - |sub| && s[i..i + |sub|] == sub
  }

  lemma LowerAppend(a: string, b: string)
    ensures Lower(a + b) == Lower(a) + Lower(b)
  {
    assert forall i :: 0 <= i < |a + b| ==> Lower(a + b)[i] == (Lower(a) + Lower(b))[i];
  }

  lemma LowerKeepsNoWildcards(q: string)
    requires NoWildcards(q)
    ensures NoWildcards(Lower(q))
  {
  }

  // ---------------------------------------------------------------------
  // Splitting on a single separator character, as Python's `s.split(" ")`
  // and JavaScript's `s.split(" ")` do: empty pieces are kept, and the empty
  // string splits into one empty piece.

  function Split(s: string, sep: char): (pieces: seq<string>)
    ensures |pieces| >= 1
    decreases |s|
  {
    if s == [] then [""]
    else
      var rest := Split(s[1..], sep);
      if s[0] == sep then [""] + rest
      else [[s[0]] + rest[0]] + rest[1..]
  }

  function Join(pieces: seq<string>, sep: char): string
    decreases |pieces|
  {
    if pieces == [] then ""
    else if |pieces| == 1 then pieces[0]
    else pieces[0] + [sep] + Join(pieces[1..], sep)
  }

  function Occurrences(s: string, c: char): nat {
    if s == [] then 0 else (if s[0] == c then 1 else 0) + Occurrences(s[1..], c)
  }

  /** Splitting loses nothing: joining the pieces back with the separator
      gives the original string. */
  lemma {:induction false} JoinSplit(s: string, sep: char)
    ensures Join(Split(s, sep), sep) == s
    decreases |s|
  {
    if s != [] {
      JoinSplit(s[1..], sep);
      var rest := Split(s[1..], sep);
      if s[0] == sep {
        assert Split(s, sep) == [""] + rest;
        assert ([""] + rest)[1..] == rest;
        assert s == [sep] + s[1..];
      } else {
        var head := [s[0]] + rest[0];
        assert Split(s, sep) == [head] + rest[1..];
        if |rest| == 1 {
          assert s == head;
        } else {
          assert ([head] + rest[1..])[1..] == rest[1..];
          assert Join(rest, sep) == rest[0] + [sep] + Join(rest[1..], sep);
          assert s == [s[0]] + s[1..];
        }
      }
    }
  }

  /** No piece contains the separator, and there is one more piece than there
      are separators. */
  lemma {:induction false} SplitPieces(s: string, sep: char)
    ensures |Split(s, sep)| == Occurrences(s, sep) + 1
    ensures forall k :: 0 <= k < |Split(s, sep)| ==> sep !in Split(s, sep)[k]
    decreases |s|
  {
    if s != [] {
      SplitPieces(s[1..], sep);
      var rest := Split(s[1..], sep);
      if s[0] != sep {
        var head := [s[0]] + rest[0];
        assert sep !in head;
        var r := [head] + rest[1..];
        assert Split(s, sep) == r;
        forall k | 0 <= k < |r| ensures sep !in r[k] {
          if k > 0 { assert r[k] == rest[k]; }
        }
      }
    }
  }

  /** A string without the separator is a single piece. */
  lemma {:induction false} SplitNoSeparator(s: string, sep: char)
    requires sep !in s
    ensures Split(s, sep) == [s]
    decreases |s|
  {
    if s != [] {
      SplitNoSeparator(s[1..], sep);
      assert s == [s[0]] + s[1..];
    }
  }

  /** A leading word followed by the separator becomes the first piece. */
  lemma {:induction false} SplitAfterWord(word: string, rest: string, sep: char)
    requires sep !in word
    ensures Split(word + [sep] + rest, sep) == [word] + Split(rest, sep)
    decreases |word|
  {
    var s := word + [sep] + rest;
    if word == [] {
      assert s == [sep] + rest;
      assert s[1..] == rest;
    } else {
      SplitAfterWord(word[1..], rest, sep);
      assert s[1..] == word[1..] + [sep] + rest;
      assert [word[0]] + word[1..] == word;
    }
  }

  // ---------------------------------------------------------------------
  // Decimal rendering of ids in messages (Python's f-string of an int).

  function DigitChar(d: nat): char
    requires d < 10
  {
    "0123456789"[d]
  }

  function NatToString(n: nat): (r: string)
    ensures |r| >= 1 && forall i :: 0 <= i < |r| ==> IsDigitAscii(r[i])
  {
    if n < 10 then [DigitChar(n)] else NatToString(n / 10) + [DigitChar(n % 10)]
  }

  function IntToString(i: int): string {
    if i < 0 then "-" + NatToString(-i) else NatToString(i)
  }

  // ---------------------------------------------------------------------
  // Postgres LIKE with the default escape character: `%` matches any run of
  // characters, `_` any single character, and a backslash makes the next
  // character literal. ILIKE compares the lower-cased text with the
  // lower-cased pattern.

  predicate IsWildcard(c: char) { c == '%' || c == '_' || c == '\\' }

  predicate NoWildcards(q: string) {
    forall i :: 0 <= i < |q| ==> !IsWildcard(q[i])
  }

  predicate Like(s: string, p: string)
    decreases |s| + |p|
  {
    if p == [] then s == []
    else if p[0] == '%' then Like(s, p[1..]) || (s != [] && Like(s[1..], p))
    else if p[0] == '_' then s != [] && Like(s[1..], p[1..])
    else if p[0] == '\\' then |p| >= 2 && s != [] && s[0] == p[1] && Like(s[1..], p[2..])
    else s != [] && s[0] == p[0] && Like(s[1..], p[1..])
  }

  predicate ILike(s: string, p: string) {
    Like(Lower(s), Lower(p))
  }

  /** The pattern `f"%{q}%"` that the search helpers build. */
  function Surround(q: string): string { "%" + q + "%" }

  lemma {:induction false} PercentMatchesAnything(s: string)
    ensures Like(s, "%")
    decreases |s|
  {
    if s != [] { PercentMatchesAnything(s[1..]); }
  }

  /** A literal prefix followed by `%` matches exactly the strings that start
      with that prefix. */
  lemma {:induction false} LikePrefix(s: string, q: string)
    requires NoWildcards(q)
    ensures Like(s, q + "%") <==> (|q| <= |s| && s[..|q|] == q)
    decreases |q|
  {
    if q == [] {
      assert q + "%" == "%";
      PercentMatchesAnything(s);
    } else {
      assert (q + "%")[0] == q[0];
      assert (q + "%")[1..] == q[1..] + "%";
      assert NoWildcards(q[1..]) by {
        forall i | 0 <= i < |q[1..]| ensures !IsWildcard(q[1..][i]) { assert q[1..][i] == q[i + 1]; }
      }
      assert !IsWildcard(q[0]);
      if s != [] {
        LikePrefix(s[1..], q[1..]);
        if |q| <= |s| && s[..|q|] == q {
          assert s[1..][..|q| - 1] == s[1..|q|];
          assert s[1..|q|] == s[..|q|][1..];
        }
        if |q[1..]| <= |s[1..]| && s[1..][..|q[1..]|] == q[1..] && s[0] == q[0] {
          assert s[..|q|] == [s[0]] + s[1..][..|q[1..]|];
          assert q == [q[0]] + q[1..];
        }
      }
    }
  }

  /** A leading `%` lets the rest of the pattern match any suffix. */
  lemma {:induction false} LikeLeadingPercent(s: string, p: string)
    ensures Like(s, "%" + p) <==> exists i :: 0 <= i <= |s| && Like(s[i..], p)
    decreases |s|
  {
    assert ("%" + p)[0] == '%' && ("%" + p)[1..] == p;
    assert s[0..] == s;
    if s != [] {
      LikeLeadingPercent(s[1..], p);
      if exists i :: 0 <= i <= |s| && Like(s[i..], p) {
        var i :| 0 <= i <= |s| && Like(s[i..], p);
        if i > 0 { assert s[1..][i - 1..] == s[i..]; }
      }
      if exists i :: 0 <= i <= |s[1..]| && Like(s[1..][i..], p) {
        var i :| 0 <= i <= |s[1..]| && Like(s[1..][i..], p);
        assert s[1..][i..] == s[i + 1..];
      }
    }
  }

  /** The search helpers' `ILIKE '%q%'`: for a query without wildcard
      characters it is case-insensitive substring containment. */
  lemma ILikeSurroundIsContains(s: string, q: string)
    requires NoWildcards(q)
    ensures ILike(s, Surround(q)) <==> Contains(Lower(s), Lower(q))
  {
    var ls, lq := Lower(s), Lower(q);
    LowerKeepsNoWildcards(q);
    LowerAppend("%", q);
    LowerAppend("%" + q, "%");
    assert Lower("%") == "%";
    assert Lower(Surround(q)) == "%" + (lq + "%");
    LikeLeadingPercent(ls, lq + "%");
    if Contains(ls, lq) {
      var i :| OccursAt(ls, lq, i);
      LikePrefix(ls[i..], lq);
      assert ls[i..][..|lq|] == ls[i..i + |lq|];
    }
    if exists i :: 0 <= i <= |ls| && Like(ls[i..], lq + "%") {
      var i :| 0 <= i <= |ls| && Like(ls[i..], lq + "%");
      LikePrefix(ls[i..], lq);
      if |lq| <= |ls[i..]| && ls[i..][..|lq|] == lq {
        assert ls[i..][..|lq|] == ls[i..i + |lq|];
        assert OccursAt(ls, lq, i);
      }
    }
  }

  /** By contrast, an underscore in the query is a wildcard: a query of "_"
      matches every non-empty text. */
  lemma UnderscoreMatchesAnyNonEmpty(s: string)
    requires s != []
    ensures ILike(s, Surround("_"))
  {
    var ls := Lower(s);
    LowerAppend("%", "_");
    LowerAppend("%_", "%");
    assert Lower(Surround("_")) == "%" + ("_" + "%");
    assert Like(ls[1..], "%") by { PercentMatchesAnything(ls[1..]); }
    assert ("_" + "%")[1..] == "%";
    assert Like(ls, "_" + "%");
    LikeLeadingPercent(ls, "_" + "%");
    assert ls[0..] == ls;
  }
}
