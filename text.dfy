/** String operations the audit applies to names and record texts, with the
    semantics of Python's `str.split`, `str.join`, `reversed` and `in`. */
module Text {

  /** Python's `s.split(sep)`: the pieces between the occurrences of `sep`;
      `n` separators give `n + 1` pieces, so there is always at least one. */
  function Split(s: string, sep: char): (parts: seq<string>)
    ensures |parts| >= 1
    ensures forall k :: 0 <= k < |parts| ==> sep !in parts[k]
    decreases |s|
  {
    if s == [] then [""]
    else
      var rest := Split(s[1..], sep);
      if s[0] == sep then [""] + rest
      else [[s[0]] + rest[0]] + rest[1..]
  }

  /** Python's `sep.join(parts)`: it starts with the first piece. */
  function Join(parts: seq<string>, sep: char): (s: string)
    ensures |parts| == 0 ==> s == ""
    ensures |parts| > 0 ==> parts[0] <= s
    decreases |parts|
  {
    if |parts| == 0 then ""
    else if |parts| == 1 then parts[0]
    else parts[0] + [sep] + Join(parts[1..], sep)
  }

  /** Python's `list(reversed(xs))`. */
  function Reverse<T>(xs: seq<T>): (r: seq<T>)
    ensures |r| == |xs|
    ensures forall i :: 0 <= i < |xs| ==> r[i] == xs[|xs| - 1 - i]
  {
    if xs == [] then [] else Reverse(xs[1..]) + [xs[0]]
  }

  /** `sep.join(reversed(s.split(sep)))`: the labels of `s` in the opposite
      order. A name with a single label is left as it is; the first label of
      the result is the last label of `s`, and its last label the first. */
  function ReversedLabels(s: string, sep: char): (r: string)
    ensures sep !in s ==> r == s
    ensures Split(s, sep)[|Split(s, sep)| - 1] <= r
  {
    var parts := Split(s, sep);
    assert sep !in s ==> parts == [s] by {
      if sep !in s {
        SplitPlain(s, sep);
      }
    }
    Join(Reverse(parts), sep)
  }

  /** Python's `pat in s`: does `pat` occur in `s` at some position? The
      empty pattern occurs everywhere, a string occurs in itself, and no
      pattern occurs in a shorter string (`ContainsIff` gives the full
      characterisation). */
  function Contains(s: string, pat: string): (r: bool)
    ensures |pat| == 0 ==> r
    ensures pat == s ==> r
    ensures r ==> |pat| <= |s|
    decreases |s|
  {
    if |pat| > |s| then false
    else if s[..|pat|] == pat then true
    else Contains(s[1..], pat)
  }

  /** `pat` occurs in `s` starting at index `i`. */
  predicate OccursAt(s: string, pat: string, i: int)
  {
    0 <= i && i + |pat| <= |s| && s[i..i + |pat|] == pat
  }

  /** `pat in s` holds exactly when `pat` occurs in `s` at some index. */
  lemma {:induction false} ContainsIff(s: string, pat: string)
    ensures Contains(s, pat) <==> exists i :: OccursAt(s, pat, i)
    decreases |s|
  {
    if |pat| > |s| {
    } else if s[..|pat|] == pat {
      assert OccursAt(s, pat, 0);
    } else {
      ContainsIff(s[1..], pat);
      if exists i :: OccursAt(s, pat, i) {
        var i :| OccursAt(s, pat, i);
        assert i != 0;
        assert OccursAt(s[1..], pat, i - 1);
      }
      if Contains(s[1..], pat) {
        var i :| OccursAt(s[1..], pat, i);
        assert OccursAt(s, pat, i + 1);
      }
    }
  }

  /** Reversing twice gives back the original sequence. */
  lemma ReverseReverse<T>(xs: seq<T>)
    ensures Reverse(Reverse(xs)) == xs
  {
  }

  /** Splitting a piece free of separators leaves it whole. */
  lemma {:induction false} SplitPlain(p: string, sep: char)
    requires sep !in p
    ensures Split(p, sep) == [p]
    decreases |p|
  {
    if p != [] {
      SplitPlain(p[1..], sep);
      assert [p[0]] + p[1..] == p;
    }
  }

  /** A separator-free head followed by a separator splits off as one piece. */
  lemma {:induction false} SplitCons(p: string, sep: char, t: string)
    requires sep !in p
    ensures Split(p + [sep] + t, sep) == [p] + Split(t, sep)
    decreases |p|
  {
    var s := p + [sep] + t;
    if p == [] {
      assert s[1..] == t;
    } else {
      assert s[1..] == p[1..] + [sep] + t;
      SplitCons(p[1..], sep, t);
      assert [p[0]] + p[1..] == p;
    }
  }

  /** Joining the pieces of a split gives back the string. */
  lemma {:induction false} JoinSplit(s: string, sep: char)
    ensures Join(Split(s, sep), sep) == s
    decreases |s|
  {
    if s != [] {
      var rest := Split(s[1..], sep);
      JoinSplit(s[1..], sep);
      if s[0] == sep {
        var parts := [""] + rest;
        assert parts[1..] == rest;
        assert s == [sep] + s[1..];
      } else {
        var parts := [[s[0]] + rest[0]] + rest[1..];
        if |rest| == 1 {
          assert s == [s[0]] + s[1..];
        } else {
          assert parts[1..] == rest[1..];
          assert Join(rest, sep) == rest[0] + [sep] + Join(rest[1..], sep);
          assert s == [s[0]] + s[1..];
        }
      }
    }
  }

  /** Splitting a join of separator-free pieces gives back the pieces. */
  lemma {:induction false} SplitJoin(parts: seq<string>, sep: char)
    requires |parts| >= 1
    requires forall k :: 0 <= k < |parts| ==> sep !in parts[k]
    ensures Split(Join(parts, sep), sep) == parts
    decreases |parts|
  {
    if |parts| == 1 {
      SplitPlain(parts[0], sep);
    } else {
      SplitJoin(parts[1..], sep);
      SplitCons(parts[0], sep, Join(parts[1..], sep));
      assert [parts[0]] + parts[1..] == parts;
    }
  }

  /** Reversing the labels twice gives back the original name. */
  lemma ReversedLabelsInvolution(s: string, sep: char)
    ensures ReversedLabels(ReversedLabels(s, sep), sep) == s
  {
    var parts := Split(s, sep);
    var rev := Reverse(parts);
    SplitJoin(rev, sep);
    ReverseReverse(parts);
    JoinSplit(s, sep);
  }

  /** Joining four pieces puts a separator between each two. */
  lemma JoinFour(a: string, b: string, c: string, d: string, sep: char)
    ensures Join([a, b, c, d], sep) == a + [sep] + b + [sep] + c + [sep] + d
  {
    assert [a, b, c, d][1..] == [b, c, d];
    assert [b, c, d][1..] == [c, d];
    assert [c, d][1..] == [d];
    assert Join([c, d], sep) == c + [sep] + d;
    assert Join([b, c, d], sep) == b + [sep] + (c + [sep] + d);
  }

  /** Four separator-free labels joined by `sep` come back in the opposite order. */
  lemma ReversedFourLabels(a: string, b: string, c: string, d: string, sep: char)
    requires sep !in a && sep !in b && sep !in c && sep !in d
    ensures ReversedLabels(a + [sep] + b + [sep] + c + [sep] + d, sep)
         == d + [sep] + c + [sep] + b + [sep] + a
  {
    JoinFour(a, b, c, d, sep);
    SplitJoin([a, b, c, d], sep);
    assert Reverse([a, b, c, d]) == [d, c, b, a];
    JoinFour(d, c, b, a, sep);
  }
}
