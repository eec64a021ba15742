/** The JavaScript string operations the forwarder relies on:
    `String.prototype.split` with a one-character separator, the joining that
    undoes it, and `String.prototype.trim`. */
module JsString {

  /** `s.split(sep)`: the maximal separator-free pieces of `s`, in order.
      The empty string splits into one empty piece. */
  function Split(s: string, sep: char): (r: seq<string>)
    ensures |r| >= 1
    ensures forall k :: 0 <= k < |r| ==> sep !in r[k]
    decreases |s|
  {
    if s == [] then [[]]
    else
      var rest := Split(s[1..], sep);
      if s[0] == sep then [[]] + rest
      else [[s[0]] + rest[0]] + rest[1..]
  }

  /** `ps.join(sep)`. */
  function Join(ps: seq<string>, sep: char): string
  {
    if |ps| == 0 then []
    else if |ps| == 1 then ps[0]
    else ps[0] + [sep] + Join(ps[1..], sep)
  }

  /** Number of occurrences of `c` in `s`. */
  function Count(s: string, c: char): nat
  {
    if s == [] then 0
    else (if s[0] == c then 1 else 0) + Count(s[1..], c)
  }

  /** Joining the pieces back with the separator gives the original string. */
  lemma {:induction false} JoinSplit(s: string, sep: char)
    ensures Join(Split(s, sep), sep) == s
    decreases |s|
  {
    if s != [] {
      var rest := Split(s[1..], sep);
      JoinSplit(s[1..], sep);
      if s[0] == sep {
        assert Split(s, sep)[1..] == rest;
        assert s == [sep] + s[1..];
      } else if |rest| == 1 {
        assert s == [s[0]] + s[1..];
      } else {
        assert Split(s, sep)[1..] == rest[1..];
        assert Join(rest, sep) == rest[0] + [sep] + Join(rest[1..], sep);
        assert s == [s[0]] + s[1..];
      }
    }
  }

  /** There is one more piece than there are separators. */
  lemma {:induction false} SplitCount(s: string, sep: char)
    ensures |Split(s, sep)| == Count(s, sep) + 1
    decreases |s|
  {
    if s != [] {
      SplitCount(s[1..], sep);
    }
  }

  /** A string without the separator is a single piece. */
  lemma {:induction false} SplitNoSep(s: string, sep: char)
    requires sep !in s
    ensures Split(s, sep) == [s]
    decreases |s|
  {
    if s != [] {
      assert sep !in s[1..] by {
        forall k | 0 <= k < |s| - 1 ensures s[1..][k] != sep { assert s[1..][k] == s[k + 1]; }
      }
      SplitNoSep(s[1..], sep);
      assert s == [s[0]] + s[1..];
    }
  }

  /** Splitting distributes over a separator occurrence. */
  lemma {:induction false} SplitConcat(x: string, y: string, sep: char)
    ensures Split(x + [sep] + y, sep) == Split(x, sep) + Split(y, sep)
    decreases |x|
  {
    var s := x + [sep] + y;
    if x == [] {
      assert s == [sep] + y;
      assert s[1..] == y;
    } else {
      assert s[0] == x[0];
      assert s[1..] == x[1..] + [sep] + y;
      SplitConcat(x[1..], y, sep);
    }
  }

  /** The converse round trip: separator-free pieces are recovered from their join. */
  lemma {:induction false} SplitJoin(ps: seq<string>, sep: char)
    requires |ps| >= 1
    requires forall k :: 0 <= k < |ps| ==> sep !in ps[k]
    ensures Split(Join(ps, sep), sep) == ps
    decreases |ps|
  {
    if |ps| == 1 {
      SplitNoSep(ps[0], sep);
    } else {
      SplitJoin(ps[1..], sep);
      SplitNoSep(ps[0], sep);
      SplitConcat(ps[0], Join(ps[1..], sep), sep);
      assert ps == [ps[0]] + ps[1..];
    }
  }

  /** `name` occupies `s[i..i + |name|]` as a whole separator-delimited field:
      it holds no separator and is bounded on each side by a separator or by
      an end of `s`. */
  predicate FieldAt(s: string, sep: char, name: string, i: int)
  {
    && 0 <= i && i + |name| <= |s|
    && s[i..i + |name|] == name
    && sep !in name
    && (i == 0 || s[i - 1] == sep)
    && (i + |name| == |s| || s[i + |name|] == sep)
  }

  ghost predicate IsField(s: string, sep: char, name: string)
  {
    exists i :: FieldAt(s, sep, name, i)
  }

  /** Position in the joined string at which piece `k` starts. */
  function Offset(ps: seq<string>, k: nat): nat
    requires k <= |ps|
  {
    if k == 0 then 0 else |ps[0]| + 1 + Offset(ps[1..], k - 1)
  }

  lemma ShiftField(s: string, sep: char, name: string, i: int)
    requires |s| > 0 && FieldAt(s[1..], sep, name, i)
    requires i > 0 || s[0] == sep
    ensures FieldAt(s, sep, name, i + 1)
  {
    assert s[i + 1..i + 1 + |name|] == s[1..][i..i + |name|];
  }

  lemma ExtendField(s: string, sep: char, name: string)
    requires |s| > 0 && s[0] != sep && FieldAt(s[1..], sep, name, 0)
    ensures FieldAt(s, sep, [s[0]] + name, 0)
  {
    assert s[0..1 + |name|] == [s[0]] + s[1..][0..|name|];
  }

  /** Every piece of the split is a whole field of the string. */
  lemma {:induction false} SplitPieceAt(s: string, sep: char, k: nat)
    requires k < |Split(s, sep)|
    ensures FieldAt(s, sep, Split(s, sep)[k], Offset(Split(s, sep), k))
    decreases |s|
  {
    if s != [] {
      var ps := Split(s, sep);
      var rest := Split(s[1..], sep);
      if s[0] == sep {
        assert ps == [[]] + rest;
        if k > 0 {
          SplitPieceAt(s[1..], sep, k - 1);
          assert ps[k] == rest[k - 1];
          assert ps[1..] == rest;
          assert Offset(ps, k) == Offset(rest, k - 1) + 1;
          ShiftField(s, sep, rest[k - 1], Offset(rest, k - 1));
        }
      } else {
        assert ps == [[s[0]] + rest[0]] + rest[1..];
        SplitPieceAt(s[1..], sep, k);
        if k == 0 {
          ExtendField(s, sep, rest[0]);
        } else {
          assert ps[k] == rest[k];
          assert ps[1..] == rest[1..];
          assert Offset(rest, k) == |rest[0]| + 1 + Offset(rest[1..], k - 1);
          assert Offset(ps, k) == Offset(rest, k) + 1;
          ShiftField(s, sep, rest[k], Offset(rest, k));
        }
      }
    }
  }

  /** A whole field is one of the pieces of the split. */
  lemma FieldInSplit(s: string, sep: char, name: string, i: int)
    requires FieldAt(s, sep, name, i)
    ensures name in Split(s, sep)
  {
    var t := s[i..];
    if i + |name| == |s| {
      assert t == name;
      SplitNoSep(name, sep);
    } else {
      assert t == name + [sep] + t[|name| + 1..];
      SplitConcat(name, t[|name| + 1..], sep);
      SplitNoSep(name, sep);
    }
    assert name in Split(t, sep);
    if i > 0 {
      assert s == s[..i - 1] + [sep] + t;
      SplitConcat(s[..i - 1], t, sep);
    }
  }

  /** List membership after splitting is exactly whole-field occurrence in the
      unsplit string: no prefix, suffix or pattern matching is involved. */
  lemma FieldMembership(s: string, sep: char, name: string)
    ensures name in Split(s, sep) <==> IsField(s, sep, name)
  {
    if name in Split(s, sep) {
      var k :| 0 <= k < |Split(s, sep)| && Split(s, sep)[k] == name;
      SplitPieceAt(s, sep, k);
    }
    if IsField(s, sep, name) {
      var i :| FieldAt(s, sep, name, i);
      FieldInSplit(s, sep, name, i);
    }
  }

  /** JavaScript white space and line terminators, the characters `trim` removes. */
  predicate IsSpace(c: char)
  {
    || c == '\t' || c == '\n' || c == '\U{B}' || c == '\U{C}' || c == '\r'
    || c == ' ' || c == '\U{A0}' || c == '\U{1680}'
    || ('\U{2000}' <= c <= '\U{200A}')
    || c == '\U{2028}' || c == '\U{2029}' || c == '\U{202F}' || c == '\U{205F}'
    || c == '\U{3000}' || c == '\U{FEFF}'
  }

  predicate AllSpace(s: string)
  {
    forall k :: 0 <= k < |s| ==> IsSpace(s[k])
  }

  /** `s.trimStart()`: the suffix left after the leading white space. */
  function TrimStart(s: string): (r: string)
    ensures |r| <= |s| && r == s[|s| - |r|..]
    ensures AllSpace(s[..|s| - |r|])
    ensures r != [] ==> !IsSpace(r[0])
    decreases |s|
  {
    if s != [] && IsSpace(s[0]) then
      var r := TrimStart(s[1..]);
      assert s[..|s| - |r|] == [s[0]] + s[1..][..|s| - 1 - |r|];
      r
    else s
  }

  /** `s.trimEnd()`: the prefix left before the trailing white space. */
  function TrimEnd(s: string): (r: string)
    ensures |r| <= |s| && r == s[..|r|]
    ensures AllSpace(s[|r|..])
    ensures r != [] ==> !IsSpace(r[|r| - 1])
    decreases |s|
  {
    if s != [] && IsSpace(s[|s| - 1]) then
      var r := TrimEnd(s[..|s| - 1]);
      assert s[|r|..] == s[..|s| - 1][|r|..] + [s[|s| - 1]];
      r
    else s
  }

  /** `r` is `s[i..i + |r|]` and everything of `s` around it is white space. */
  predicate TrimmedAt(s: string, r: string, i: int)
  {
    0 <= i && i + |r| <= |s| && r == s[i..i + |r|] && AllSpace(s[..i]) && AllSpace(s[i + |r|..])
  }

  lemma TrimBounds(s: string)
    ensures TrimmedAt(s, TrimEnd(TrimStart(s)), |s| - |TrimStart(s)|)
  {
    var t := TrimStart(s);
    var r := TrimEnd(t);
    var d := |s| - |t|;
    assert s[d..d + |r|] == r;
    assert s[d + |r|..] == t[|r|..];
  }

  lemma TrimEmpty(s: string)
    ensures TrimEnd(TrimStart(s)) == [] <==> AllSpace(s)
  {
    var t := TrimStart(s);
    var d := |s| - |t|;
    if TrimEnd(t) == [] {
      assert t[0..] == t;
      assert s[..d] == s;
    }
  }

  /** `s.trim()`: the infix of `s` between its leading and trailing white
      space; it is empty exactly when `s` is all white space. */
  function Trim(s: string): (r: string)
    ensures exists i :: TrimmedAt(s, r, i)
    ensures r != [] ==> !IsSpace(r[0]) && !IsSpace(r[|r| - 1])
    ensures r == [] <==> AllSpace(s)
  {
    TrimBounds(s);
    TrimEmpty(s);
    TrimEnd(TrimStart(s))
  }

  /** Trimming twice is trimming once. */
  lemma TrimIdempotent(s: string)
    ensures Trim(Trim(s)) == Trim(s)
  {
    var r := Trim(s);
    assert TrimStart(r) == r;
    assert TrimEnd(r) == r;
  }
}
