/** Python string and list primitives that the fleet scripts are built from:
    `str.split` with one separator character, indexing with negative
    positions, `str.replace` and the `in` substring test. */
module PyStr {

  datatype Option<T> = None | Some(value: T)

  /** `xs[i]` in Python: a negative index counts from the end; an index
      outside the list raises IndexError, modelled as None. */
  function At<T>(xs: seq<T>, i: int): Option<T>
  {
    if 0 <= i < |xs| then Some(xs[i])
    else if -|xs| <= i < 0 then Some(xs[|xs| + i])
    else None
  }

  /** A negative index into `xs + ys` that reaches no further back than
      `ys` reads `ys`, whatever precedes it. */
  lemma AtAppendBack<T>(xs: seq<T>, ys: seq<T>, k: int)
    requires 1 <= k <= |ys|
    ensures At(xs + ys, -k) == At(ys, -k) == Some(ys[|ys| - k])
  {
    assert (xs + ys)[|xs + ys| - k] == ys[|ys| - k];
  }

  /** Number of occurrences of character `c` in `s`. */
  function Occurrences(s: string, c: char): nat
  {
    if s == [] then 0 else (if s[0] == c then 1 else 0) + Occurrences(s[1..], c)
  }

  /** `s.split(c)`: k separators give k + 1 fields, empty fields are kept. */
  function Split(s: string, c: char): (r: seq<string>)
    ensures |r| == Occurrences(s, c) + 1
  {
    if s == [] then [[]]
    else
      var rest := Split(s[1..], c);
      if s[0] == c then [[]] + rest
      else [[s[0]] + rest[0]] + rest[1..]
  }

  /** `c.join(fields)`, the inverse of Split. */
  function Join(fields: seq<string>, c: char): string
  {
    if fields == [] then []
    else if |fields| == 1 then fields[0]
    else fields[0] + [c] + Join(fields[1..], c)
  }

  /** `s.split(c)[-1]`: never fails, because a split has at least one field. */
  function LastField(s: string, c: char): string
  {
    var fields := Split(s, c);
    fields[|fields| - 1]
  }

  lemma {:induction false} SplitFieldsFree(s: string, c: char)
    ensures forall f :: f in Split(s, c) ==> c !in f
  {
    if s != [] {
      SplitFieldsFree(s[1..], c);
    }
  }

  lemma {:induction false} JoinSplit(s: string, c: char)
    ensures Join(Split(s, c), c) == s
  {
    if s != [] {
      JoinSplit(s[1..], c);
      var rest := Split(s[1..], c);
      if s[0] == c {
        assert Join([[]] + rest, c) == [] + [c] + Join(rest, c);
      } else {
        var fs := [[s[0]] + rest[0]] + rest[1..];
        if |rest| == 1 {
          assert Join(rest, c) == rest[0];
        } else {
          assert Join(rest, c) == rest[0] + [c] + Join(rest[1..], c);
          assert fs[1..] == rest[1..];
        }
      }
    }
  }

  lemma {:induction false} SplitNoSeparator(s: string, c: char)
    requires c !in s
    ensures Split(s, c) == [s]
  {
    if s != [] {
      SplitNoSeparator(s[1..], c);
      assert [s[0]] + s[1..] == s;
    }
  }

  /** A separator-free prefix extends the first field and leaves the rest. */
  lemma {:induction false} SplitFreePrefix(w: string, x: string, c: char)
    requires c !in w
    ensures Split(w + x, c) == [w + Split(x, c)[0]] + Split(x, c)[1..]
  {
    if w != [] {
      assert (w + x)[1..] == w[1..] + x;
      SplitFreePrefix(w[1..], x, c);
      var tail := Split(w[1..] + x, c);
      assert Split(w + x, c) == [[w[0]] + tail[0]] + tail[1..];
      assert [w[0]] + (w[1..] + Split(x, c)[0]) == w + Split(x, c)[0];
    } else {
      assert w + x == x;
      assert w + Split(x, c)[0] == Split(x, c)[0];
    }
  }

  /** Splitting at a separator concatenates the fields of both sides. */
  lemma {:induction false} SplitAtSeparator(a: string, b: string, c: char)
    ensures Split(a + [c] + b, c) == Split(a, c) + Split(b, c)
  {
    if a == [] {
      assert a + [c] + b == [c] + b;
      SplitCons(c, b, c);
    } else {
      SplitAtSeparator(a[1..], b, c);
      SplitAtSeparatorStep(a, b, c);
    }
  }

  lemma SplitAtSeparatorStep(a: string, b: string, c: char)
    requires a != [] && Split(a[1..] + [c] + b, c) == Split(a[1..], c) + Split(b, c)
    ensures Split(a + [c] + b, c) == Split(a, c) + Split(b, c)
  {
    if a[0] == c {
      SplitStepAtSeparator(a, b, c);
    } else {
      SplitStepInField(a, b, c);
    }
  }

  /** The step when `a` starts with the separator. */
  lemma SplitStepAtSeparator(a: string, b: string, c: char)
    requires a != [] && a[0] == c && Split(a[1..] + [c] + b, c) == Split(a[1..], c) + Split(b, c)
    ensures Split(a + [c] + b, c) == Split(a, c) + Split(b, c)
  {
    SplitAtHead(a, c);
    SplitPastHead(a, b, c);
    EmptyFieldJoins(Split(a + [c] + b, c), Split(a, c), Split(a[1..], c), Split(b, c));
  }

  /** Dropping a leading separator from `a + [c] + b`. */
  lemma SplitPastHead(a: string, b: string, c: char)
    requires a != [] && a[0] == c
    ensures Split(a + [c] + b, c) == [[]] + Split(a[1..] + [c] + b, c)
  {
    var s := a + [c] + b;
    assert s[1..] == a[1..] + [c] + b;
    SplitAtHead(s, c);
  }

  /** A leading empty field commutes with appending fields. */
  lemma EmptyFieldJoins(x: seq<string>, y: seq<string>, l: seq<string>, r: seq<string>)
    requires x == [[]] + (l + r) && y == [[]] + l
    ensures x == y + r
  {
    assert [[]] + (l + r) == ([[]] + l) + r;
  }

  /** The step when `a` starts inside its first field. */
  lemma SplitStepInField(a: string, b: string, c: char)
    requires a != [] && a[0] != c && Split(a[1..] + [c] + b, c) == Split(a[1..], c) + Split(b, c)
    ensures Split(a + [c] + b, c) == Split(a, c) + Split(b, c)
  {
    assert (a + [c] + b)[1..] == a[1..] + [c] + b;
    FirstFieldJoins([a[0]], Split(a[1..], c), Split(b, c));
  }

  /** Extending the first field of `l` commutes with appending `r`. */
  lemma FirstFieldJoins(w: string, l: seq<string>, r: seq<string>)
    requires l != []
    ensures [w + (l + r)[0]] + (l + r)[1..] == ([w + l[0]] + l[1..]) + r
  {
    assert (l + r)[0] == l[0];
    assert (l + r)[1..] == l[1..] + r;
  }

  /** A string that starts with the separator begins with an empty field. */
  lemma SplitAtHead(s: string, c: char)
    requires s != [] && s[0] == c
    ensures Split(s, c) == [[]] + Split(s[1..], c)
  {
  }

  /** Splitting a string that starts with `x`. */
  lemma SplitCons(x: char, t: string, c: char)
    ensures Split([x] + t, c) ==
      if x == c then [[]] + Split(t, c) else [[x] + Split(t, c)[0]] + Split(t, c)[1..]
  {
    assert ([x] + t)[1..] == t;
  }

  /** The last field after a separator is whatever follows the last separator. */
  lemma LastFieldAfterSeparator(a: string, w: string, c: char)
    requires c !in w
    ensures LastField(a + [c] + w, c) == w
  {
    SplitAtSeparator(a, w, c);
    SplitNoSeparator(w, c);
  }

  /** `pat` is a prefix of `s`. */
  predicate IsPrefix(pat: string, s: string)
  {
    |pat| <= |s| && s[..|pat|] == pat
  }

  /** `t in s` for strings: `t` occurs in `s` as a contiguous substring. */
  predicate Contains(s: string, t: string)
    decreases |s|
  {
    IsPrefix(t, s) || (s != [] && Contains(s[1..], t))
  }

  lemma {:induction false} ContainsInfix(a: string, t: string, b: string)
    ensures Contains(a + t + b, t)
  {
    if a == [] {
      assert a + t + b == t + b;
      assert (t + b)[..|t|] == t;
    } else {
      assert (a + t + b)[1..] == a[1..] + t + b;
      ContainsInfix(a[1..], t, b);
    }
  }

  /** `s.replace(pat, rep)`: every non-overlapping occurrence of `pat`,
      scanning left to right, is replaced by `rep`; an empty `pat` inserts
      `rep` before every character and at the end, as Python does. */
  function Replace(s: string, pat: string, rep: string): string
    decreases |s|
  {
    if pat == [] then
      (if s == [] then rep else rep + [s[0]] + Replace(s[1..], pat, rep))
    else if IsPrefix(pat, s) then rep + Replace(s[|pat|..], pat, rep)
    else if s == [] then []
    else [s[0]] + Replace(s[1..], pat, rep)
  }

  /** Replace applied to every field of a list. */
  function ReplaceEach(fields: seq<string>, pat: string, rep: string): (r: seq<string>)
    ensures |r| == |fields|
    ensures forall i :: 0 <= i < |fields| ==> r[i] == Replace(fields[i], pat, rep)
  {
    if fields == [] then [] else [Replace(fields[0], pat, rep)] + ReplaceEach(fields[1..], pat, rep)
  }

  lemma {:induction false} ReplaceAbsent(s: string, pat: string, rep: string)
    requires pat != [] && !Contains(s, pat)
    ensures Replace(s, pat, rep) == s
  {
    if s != [] {
      ReplaceAbsent(s[1..], pat, rep);
      assert [s[0]] + s[1..] == s;
    }
  }

  /** Where no match starts, the first character is kept. */
  lemma ReplaceStep(s: string, pat: string, rep: string)
    requires pat != [] && s != [] && !IsPrefix(pat, s)
    ensures Replace(s, pat, rep) == [s[0]] + Replace(s[1..], pat, rep)
  {
  }

  /** Text that cannot start a match passes through unchanged. */
  lemma {:induction false} ReplaceSkip(a: string, b: string, pat: string, rep: string)
    requires pat != [] && pat[0] !in a
    ensures Replace(a + b, pat, rep) == a + Replace(b, pat, rep)
  {
    if a != [] {
      assert (a + b)[0] == a[0];
      assert !IsPrefix(pat, a + b) by {
        if |pat| <= |a + b| {
          assert (a + b)[..|pat|][0] == a[0];
        }
      }
      assert Replace(a + b, pat, rep) == [a[0]] + Replace((a + b)[1..], pat, rep);
      assert (a + b)[1..] == a[1..] + b;
      ReplaceSkip(a[1..], b, pat, rep);
      assert [a[0]] + (a[1..] + Replace(b, pat, rep)) == a + Replace(b, pat, rep);
    } else {
      assert a + b == b;
    }
  }

  lemma ReplaceHit(b: string, pat: string, rep: string)
    requires pat != []
    ensures Replace(pat + b, pat, rep) == rep + Replace(b, pat, rep)
  {
    assert (pat + b)[..|pat|] == pat;
    assert (pat + b)[|pat|..] == b;
  }

  /** A match at the front of `s` lies inside its first field when `pat`
      holds no separator. */
  lemma {:induction false} ReplaceCommutesWithSplit(s: string, pat: string, rep: string, c: char)
    requires pat != [] && c !in pat && c !in rep
    ensures Split(Replace(s, pat, rep), c) == ReplaceEach(Split(s, c), pat, rep)
    decreases |s|
  {
    var fs := Split(s, c);
    if s == [] {
      assert Replace(s, pat, rep) == [];
    } else if IsPrefix(pat, s) {
      var rest := s[|pat|..];
      assert s == pat + rest;
      ReplaceCommutesWithSplit(rest, pat, rep, c);
      var rs := Split(rest, c);
      SplitFreePrefix(pat, rest, c);
      SplitFreePrefix(rep, Replace(rest, pat, rep), c);
      ReplaceHit(rs[0], pat, rep);
      assert fs == [pat + rs[0]] + rs[1..];
      assert ReplaceEach(fs, pat, rep)[1..] == ReplaceEach(rs[1..], pat, rep);
    } else {
      var r1 := Replace(s[1..], pat, rep);
      assert Replace(s, pat, rep) == [s[0]] + r1;
      ReplaceCommutesWithSplit(s[1..], pat, rep, c);
      var rs := Split(s[1..], c);
      if s[0] == c {
        assert Replace([], pat, rep) == [];
        assert ReplaceEach(fs, pat, rep)[1..] == ReplaceEach(rs, pat, rep);
      } else {
        var f0 := [s[0]] + rs[0];
        assert !IsPrefix(pat, f0) by {
          FirstFieldIsPrefix(s[1..], c);
          assert f0 == s[..|f0|];
          if |pat| <= |f0| {
            assert f0[..|pat|] == s[..|pat|];
          }
        }
        assert Replace(f0, pat, rep) == [s[0]] + Replace(rs[0], pat, rep);
        assert ReplaceEach(fs, pat, rep)[1..] == ReplaceEach(rs[1..], pat, rep);
      }
    }
  }

  /** The first field of a split is a prefix of the string. */
  lemma {:induction false} FirstFieldIsPrefix(s: string, c: char)
    ensures IsPrefix(Split(s, c)[0], s)
  {
    if s != [] {
      FirstFieldIsPrefix(s[1..], c);
    }
  }

  /** Taking the last field and replacing commute when neither `pat` nor
      `rep` contains the separator. */
  lemma LastFieldReplaceCommute(s: string, pat: string, rep: string, c: char)
    requires pat != [] && c !in pat && c !in rep
    ensures LastField(Replace(s, pat, rep), c) == Replace(LastField(s, c), pat, rep)
  {
    ReplaceCommutesWithSplit(s, pat, rep, c);
    var fs := Split(s, c);
    var rs := ReplaceEach(fs, pat, rep);
    assert Split(Replace(s, pat, rep), c) == rs;
    assert rs[|rs| - 1] == Replace(fs[|fs| - 1], pat, rep);
  }
}
