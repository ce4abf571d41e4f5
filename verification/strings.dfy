/**
 The JavaScript string operations the bot uses, on `seq<char>`:
 `split` on a one-character separator, `join`, ASCII `toLowerCase`,
 `trim`, `indexOf` of a substring, `replace` with a string pattern
 (first occurrence only) and `slice` with a possibly negative end.
 */
module Strings {

  // ---------------------------------------------------------------------------
  // split / join

  /** `s.split(sep)` for a one-character separator: the pieces between
      separators, always at least one (`''.split(' ')` is `['']`). */
  function Split(s: string, sep: char): (r: seq<string>)
    ensures |r| >= 1
    ensures forall i :: 0 <= i < |r| ==> sep !in r[i]
    decreases |s|
  {
    if |s| == 0 then [""]
    else
      var rest := Split(s[1..], sep);
      if s[0] == sep then [""] + rest
      else [[s[0]] + rest[0]] + rest[1..]
  }

  /** `xs.join(sep)`. */
  function Join(xs: seq<string>, sep: char): string
  {
    if |xs| == 0 then ""
    else if |xs| == 1 then xs[0]
    else xs[0] + [sep] + Join(xs[1..], sep)
  }

  predicate NoneContains(xs: seq<string>, c: char)
  {
    forall i :: 0 <= i < |xs| ==> c !in xs[i]
  }

  /** Splitting a piece that holds no separator gives that piece alone. */
  lemma {:induction false} SplitNoSep(a: string, sep: char)
    requires sep !in a
    ensures Split(a, sep) == [a]
    decreases |a|
  {
    if |a| > 0 {
      SplitNoSep(a[1..], sep);
      assert [a[0]] + a[1..] == a;
    }
  }

  /** Splitting `a + sep + b` peels `a` off as the first piece. */
  lemma {:induction false} SplitCons(a: string, sep: char, b: string)
    requires sep !in a
    ensures Split(a + [sep] + b, sep) == [a] + Split(b, sep)
    decreases |a|
  {
    var s := a + [sep] + b;
    if |a| == 0 {
      assert s[1..] == b;
    } else {
      assert s[1..] == a[1..] + [sep] + b;
      SplitCons(a[1..], sep, b);
      assert [a[0]] + a[1..] == a;
    }
  }

  /** Joining then splitting gives the pieces back, as long as no piece holds
      the separator. */
  lemma {:induction false} SplitJoin(xs: seq<string>, sep: char)
    requires |xs| >= 1
    requires NoneContains(xs, sep)
    ensures Split(Join(xs, sep), sep) == xs
    decreases |xs|
  {
    if |xs| == 1 {
      SplitNoSep(xs[0], sep);
    } else {
      SplitCons(xs[0], sep, Join(xs[1..], sep));
      SplitJoin(xs[1..], sep);
    }
  }

  /** Splitting then joining gives the string back. */
  lemma {:induction false} JoinSplit(s: string, sep: char)
    ensures Join(Split(s, sep), sep) == s
    decreases |s|
  {
    if |s| > 0 {
      var rest := Split(s[1..], sep);
      JoinSplit(s[1..], sep);
      if s[0] == sep {
        assert ([""] + rest)[1..] == rest;
      } else {
        var r := [[s[0]] + rest[0]] + rest[1..];
        if |rest| == 1 {
          assert r == [[s[0]] + rest[0]];
        } else {
          assert r[1..] == rest[1..];
          assert Join(rest, sep) == rest[0] + [sep] + Join(rest[1..], sep);
        }
      }
    }
  }

  /** Appending one piece to a non-empty join. */
  lemma {:induction false} JoinSnoc(xs: seq<string>, x: string, sep: char)
    requires |xs| >= 1
    ensures Join(xs + [x], sep) == Join(xs, sep) + [sep] + x
    decreases |xs|
  {
    if |xs| == 1 {
      assert (xs + [x])[1..] == [x];
    } else {
      assert (xs + [x])[1..] == xs[1..] + [x];
      JoinSnoc(xs[1..], x, sep);
    }
  }

  /** A separator-free prefix of `s` is a prefix of its first piece. */
  lemma {:induction false} FirstPiecePrefix(s: string, sep: char, n: nat)
    requires n <= |s| && sep !in s[..n]
    ensures n <= |Split(s, sep)[0]| && Split(s, sep)[0][..n] == s[..n]
    decreases n
  {
    if n > 0 {
      assert s[0] in s[..n];
      assert s[1..][..n - 1] == s[1..n];
      assert sep !in s[1..][..n - 1];
      FirstPiecePrefix(s[1..], sep, n - 1);
    }
  }

  /** A separator-free stretch `s[i..i+n]` lies inside one piece, at some
      offset `j` of piece `k`. */
  lemma {:induction false} PieceAround(s: string, sep: char, i: nat, n: nat) returns (k: nat, j: nat)
    requires i + n <= |s| && sep !in s[i..i + n]
    ensures k < |Split(s, sep)| && j + n <= |Split(s, sep)[k]|
    ensures Split(s, sep)[k][j..j + n] == s[i..i + n]
    decreases i
  {
    if i == 0 {
      assert s[..n] == s[i..i + n];
      FirstPiecePrefix(s, sep, n);
      k, j := 0, 0;
    } else {
      var rest := Split(s[1..], sep);
      assert s[1..][i - 1..i - 1 + n] == s[i..i + n];
      var k', j' := PieceAround(s[1..], sep, i - 1, n);
      if s[0] == sep {
        assert Split(s, sep) == [""] + rest;
        k, j := k' + 1, j';
        assert Split(s, sep)[k] == rest[k'];
      } else if k' == 0 {
        var first := [s[0]] + rest[0];
        assert Split(s, sep) == [first] + rest[1..];
        k, j := 0, j' + 1;
        assert first[j..j + n] == rest[0][j'..j' + n];
      } else {
        assert Split(s, sep) == [[s[0]] + rest[0]] + rest[1..];
        k, j := k', j';
        assert Split(s, sep)[k] == rest[k'];
      }
    }
  }

  /** Every piece of a split sits in the string at some offset (the first one
      at the start). */
  lemma {:induction false} PieceOffset(s: string, sep: char, k: nat) returns (o: nat)
    requires k < |Split(s, sep)|
    ensures o + |Split(s, sep)[k]| <= |s| && s[o..o + |Split(s, sep)[k]|] == Split(s, sep)[k]
    ensures k == 0 ==> o == 0
    decreases |s|
  {
    if |s| == 0 {
      o := 0;
    } else {
      var rest := Split(s[1..], sep);
      if s[0] == sep {
        if k == 0 {
          o := 0;
        } else {
          assert Split(s, sep)[k] == rest[k - 1];
          var o' := PieceOffset(s[1..], sep, k - 1);
          o := o' + 1;
          SliceOfTail(s, o', |rest[k - 1]|);
        }
      } else if k == 0 {
        var o' := PieceOffset(s[1..], sep, 0);
        o := 0;
        assert s[..1 + |rest[0]|] == [s[0]] + s[1..][..|rest[0]|];
      } else {
        assert Split(s, sep)[k] == rest[k];
        var o' := PieceOffset(s[1..], sep, k);
        o := o' + 1;
        SliceOfTail(s, o', |rest[k]|);
      }
    }
  }

  lemma SliceOfTail(s: string, o: nat, n: nat)
    requires 0 < |s| && o + n <= |s| - 1
    ensures s[o + 1..o + 1 + n] == s[1..][o..o + n]
  {
    var a, b := s[o + 1..o + 1 + n], s[1..][o..o + n];
    forall x | 0 <= x < n ensures a[x] == b[x] {
    }
  }

  /** The last piece of `s.split(sep)`, i.e. `s.split(sep).pop()`. */
  function LastPiece(s: string, sep: char): string
  {
    var ps := Split(s, sep);
    ps[|ps| - 1]
  }

  /** The last piece is a separator-free suffix, preceded by a separator
      whenever it is not the whole string. */
  lemma {:induction false} LastPieceIsSuffix(s: string, sep: char)
    ensures var p := LastPiece(s, sep);
      && sep !in p
      && |p| <= |s|
      && s[|s| - |p|..] == p
      && (|p| < |s| ==> s[|s| - |p| - 1] == sep)
    decreases |s|
  {
    if |s| > 0 {
      LastPieceIsSuffix(s[1..], sep);
      var rest := Split(s[1..], sep);
      if s[0] == sep {
        assert Split(s, sep) == [""] + rest;
      } else if |rest| > 1 {
        assert Split(s, sep)[|Split(s, sep)| - 1] == rest[|rest| - 1];
        if |LastPiece(s, sep)| == |s| - 1 {
          assert s[1..] == LastPiece(s, sep);
          SplitNoSep(s[1..], sep);
        }
      } else {
        assert LastPiece(s, sep) == [s[0]] + rest[0];
        SplitNoSep'(s[1..], sep);
      }
    }
  }

  /** A string ending in the separator has an empty last piece. */
  lemma {:induction false} LastPieceAfterSep(s: string, sep: char)
    ensures |Split(s + [sep], sep)| >= 2
    ensures LastPiece(s + [sep], sep) == ""
    decreases |s|
  {
    var t := s + [sep];
    if |s| == 0 {
      assert t[1..] == "";
    } else {
      assert t[1..] == s[1..] + [sep];
      LastPieceAfterSep(s[1..], sep);
    }
  }

  /** Whatever precedes the last separator, the piece after it is the last
      piece. */
  lemma LastPieceAfter(a: string, sep: char, b: string)
    requires sep !in b
    ensures LastPiece(a + [sep] + b, sep) == b
  {
    var s := a + [sep] + b;
    var p := LastPiece(s, sep);
    LastPieceIsSuffix(s, sep);
    assert s[|s| - |b|..] == b && s[|s| - |b| - 1] == sep;
    assert forall i :: |s| - |p| <= i < |s| ==> s[i] == p[i - (|s| - |p|)];
    assert forall i :: |s| - |b| <= i < |s| ==> s[i] == b[i - (|s| - |b|)];
  }

  /** A single-piece split means the string holds no separator. */
  lemma {:induction false} SplitNoSep'(s: string, sep: char)
    requires |Split(s, sep)| == 1
    ensures Split(s, sep) == [s]
    decreases |s|
  {
    if |s| > 0 {
      var rest := Split(s[1..], sep);
      if s[0] != sep {
        SplitNoSep'(s[1..], sep);
        assert [s[0]] + s[1..] == s;
      }
    }
  }

  // ---------------------------------------------------------------------------
  // case

  /** ASCII `toLowerCase` of one character. */
  function LowerChar(c: char): char
  {
    if 'A' <= c <= 'Z' then (c as int - 'A' as int + 'a' as int) as char else c
  }

  /** ASCII `toLowerCase`. */
  function Lower(s: string): (r: string)
    ensures |r| == |s|
    ensures forall i :: 0 <= i < |s| ==> r[i] == LowerChar(s[i])
  {
    seq(|s|, i requires 0 <= i < |s| => LowerChar(s[i]))
  }

  predicate IsLower(s: string)
  {
    forall i :: 0 <= i < |s| ==> !('A' <= s[i] <= 'Z')
  }

  lemma LowerIsLower(s: string)
    ensures IsLower(Lower(s))
    ensures Lower(Lower(s)) == Lower(s)
  {
  }

  // ---------------------------------------------------------------------------
  // searching and replacing

  predicate StartsWith(s: string, p: string)
  {
    |p| <= |s| && s[..|p|] == p
  }

  predicate OccursAt(s: string, pat: string, i: int)
  {
    0 <= i && i + |pat| <= |s| && s[i..i + |pat|] == pat
  }

  /** `pat` occurs at `i` and nowhere before. */
  predicate FirstOccurrence(s: string, pat: string, i: int)
  {
    OccursAt(s, pat, i) && forall j :: 0 <= j < i ==> !OccursAt(s, pat, j)
  }

  /** `s.indexOf(pat) !== -1`. */
  predicate Contains(s: string, pat: string)
  {
    exists i | 0 <= i <= |s| :: OccursAt(s, pat, i)
  }

  /** `s.indexOf(pat)`: the first position where `pat` occurs, or -1. */
  function IndexOf(s: string, pat: string): (r: int)
    ensures -1 <= r <= |s|
    ensures r == -1 <==> !Contains(s, pat)
    ensures r >= 0 ==> OccursAt(s, pat, r)
    ensures r >= 0 ==> forall j :: 0 <= j < r ==> !OccursAt(s, pat, j)
  {
    IndexFrom(s, pat, 0)
  }

  function IndexFrom(s: string, pat: string, k: nat): (r: int)
    requires k <= |s|
    requires forall j :: 0 <= j < k ==> !OccursAt(s, pat, j)
    ensures -1 <= r <= |s|
    ensures r == -1 <==> !Contains(s, pat)
    ensures r >= 0 ==> k <= r && OccursAt(s, pat, r)
    ensures r >= 0 ==> forall j :: 0 <= j < r ==> !OccursAt(s, pat, j)
    decreases |s| - k
  {
    if OccursAt(s, pat, k) then k
    else if k == |s| then
      assert forall j :: 0 <= j <= |s| ==> !OccursAt(s, pat, j);
      -1
    else IndexFrom(s, pat, k + 1)
  }

  /** `s.replace(pat, rep)` with a string pattern: only the first occurrence
      is replaced (the replacement here never holds `$`). */
  function ReplaceFirst(s: string, pat: string, rep: string): (r: string)
    ensures !Contains(s, pat) ==> r == s
    ensures Contains(s, pat) ==>
      exists i :: FirstOccurrence(s, pat, i) && r == s[..i] + rep + s[i + |pat|..]
  {
    var i := IndexOf(s, pat);
    if i < 0 then s else s[..i] + rep + s[i + |pat|..]
  }

  /** Replacing the first occurrence, when it sits right after `a`. */
  lemma ReplaceSplice(a: string, pat: string, b: string, rep: string)
    requires FirstOccurrence(a + pat + b, pat, |a|)
    ensures ReplaceFirst(a + pat + b, pat, rep) == a + rep + b
  {
    var u := a + pat + b;
    ReplaceAtFirst(u, pat, rep, |a|);
    assert u[..|a|] == a;
    assert u[|a| + |pat|..] == b;
  }

  /** A pattern does not occur where one of its characters is missing. */
  lemma MismatchAt(s: string, pat: string, j: int, k: int)
    requires 0 <= j && 0 <= k < |pat| && (j + k >= |s| || s[j + k] != pat[k])
    ensures !OccursAt(s, pat, j)
  {
  }

  /** An occurrence inside an infix is an occurrence in the whole string. */
  lemma OccursInInfix(s: string, t: string, o: nat, pat: string, j: int)
    requires o + |t| <= |s| && s[o..o + |t|] == t
    requires OccursAt(t, pat, j)
    ensures OccursAt(s, pat, o + j)
  {
    var a, b := s[o + j..o + j + |pat|], t[j..j + |pat|];
    forall x | 0 <= x < |pat| ensures a[x] == b[x] {
      assert a[x] == s[o + j + x] && b[x] == t[j + x];
    }
  }

  /** Once the first occurrence is known, `replace` is a splice there. */
  lemma ReplaceAtFirst(s: string, pat: string, rep: string, i: int)
    requires FirstOccurrence(s, pat, i)
    ensures ReplaceFirst(s, pat, rep) == s[..i] + rep + s[i + |pat|..]
  {
    assert Contains(s, pat);
    var j :| FirstOccurrence(s, pat, j) && ReplaceFirst(s, pat, rep) == s[..j] + rep + s[j + |pat|..];
    FirstOccurrenceUnique(s, pat, i, j);
  }

  lemma FirstOccurrenceUnique(s: string, pat: string, i: int, j: int)
    requires FirstOccurrence(s, pat, i) && FirstOccurrence(s, pat, j)
    ensures i == j
  {
  }

  /** `s.slice(0, end)`: a negative end counts from the back. */
  function SliceTo(s: string, end: int): (r: string)
    ensures end >= 0 ==> r == s[..if end <= |s| then end else |s|]
    ensures end < 0 && |s| + end >= 0 ==> r == s[..|s| + end]
    ensures end < 0 && |s| + end < 0 ==> r == ""
  {
    var e := if end < 0 then |s| + end else end;
    if e <= 0 then "" else if e <= |s| then s[..e] else s
  }

  /** Position of the first character of `s` that is in `stops`, or `|s|`. */
  function FirstOf(s: string, stops: set<char>): (r: nat)
    ensures r <= |s|
    ensures forall k :: 0 <= k < r ==> s[k] !in stops
    ensures r < |s| ==> s[r] in stops
  {
    if |s| == 0 then 0
    else if s[0] in stops then 0
    else 1 + FirstOf(s[1..], stops)
  }

  /** `FirstOf` over a concatenation whose left part holds no stop. */
  lemma {:induction false} FirstOfConcat(a: string, b: string, stops: set<char>)
    requires forall c :: c in a ==> c !in stops
    ensures FirstOf(a + b, stops) == |a| + FirstOf(b, stops)
    decreases |a|
  {
    if |a| > 0 {
      assert (a + b)[1..] == a[1..] + b;
      FirstOfConcat(a[1..], b, stops);
    } else {
      assert a + b == b;
    }
  }

  // ---------------------------------------------------------------------------
  // trim

  /** ECMAScript WhiteSpace and LineTerminator code points, the set `trim`
      strips (and that `Number(string)` ignores around a numeral). */
  predicate IsJsSpace(c: char)
  {
    || c == '\t' || c == '\n' || c == '\U{000B}' || c == '\U{000C}' || c == '\r'
    || c == ' ' || c == '\U{00A0}' || c == '\U{1680}'
    || ('\U{2000}' <= c <= '\U{200A}')
    || c == '\U{2028}' || c == '\U{2029}' || c == '\U{202F}' || c == '\U{205F}'
    || c == '\U{3000}' || c == '\U{FEFF}'
  }

  function TrimStart(s: string): (r: string)
    ensures |r| <= |s| && s[|s| - |r|..] == r
    ensures |r| > 0 ==> !IsJsSpace(r[0])
    ensures forall i :: 0 <= i < |s| - |r| ==> IsJsSpace(s[i])
    decreases |s|
  {
    if |s| > 0 && IsJsSpace(s[0]) then TrimStart(s[1..]) else s
  }

  function TrimEnd(s: string): (r: string)
    ensures |r| <= |s| && s[..|r|] == r
    ensures |r| > 0 ==> !IsJsSpace(r[|r| - 1])
    ensures forall i :: |r| <= i < |s| ==> IsJsSpace(s[i])
    decreases |s|
  {
    if |s| > 0 && IsJsSpace(s[|s| - 1]) then TrimEnd(s[..|s| - 1]) else s
  }

  /** `s.trim()`: the result is the infix of `s` left after removing leading
      and trailing white space; it neither starts nor ends with white space. */
  function Trim(s: string): (r: string)
    ensures |r| <= |s|
    ensures exists k :: TrimmedAt(s, r, k)
    ensures |r| > 0 ==> !IsJsSpace(r[0]) && !IsJsSpace(r[|r| - 1])
  {
    var a := TrimStart(s);
    var r := TrimEnd(a);
    var k := |s| - |a|;
    assert s[k..] == a && a[..|r|] == r;
    assert s[k..k + |r|] == r by {
      assert s[k..k + |r|] == s[k..][..|r|];
    }
    forall i | k + |r| <= i < |s| ensures IsJsSpace(s[i]) {
      assert s[i] == a[i - k];
    }
    assert TrimmedAt(s, r, k);
    r
  }

  /** `r` sits at offset `k` of `s` with only white space around it. */
  predicate TrimmedAt(s: string, r: string, k: int)
  {
    && 0 <= k && k + |r| <= |s| && s[k..k + |r|] == r
    && (forall i :: 0 <= i < k ==> IsJsSpace(s[i]))
    && (forall i :: k + |r| <= i < |s| ==> IsJsSpace(s[i]))
  }
}
