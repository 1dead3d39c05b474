/**
 * The Python string operations the menu generator relies on: the `in`
 * operator, `str.replace`, `"".join` of run texts, and the decimal
 * formatting of slot numbers used in form-field names (`f"{i}"`) and in
 * placeholders (`f"{i:02}"`). `str.split` is here only as the reference
 * definition `str.replace` is proved against.
 */
module Text {

  /** `t` occurs in `s` starting at position `i`. */
  predicate OccursAt(s: string, t: string, i: nat) {
    i + |t| <= |s| && s[i..i + |t|] == t
  }

  /** Python's `t in s`. */
  predicate Contains(s: string, t: string)
    decreases |s|
  {
    |t| <= |s| && (s[..|t|] == t || Contains(s[1..], t))
  }

  lemma OccursShift(s: string, t: string, i: nat)
    requires |s| > 0
    ensures OccursAt(s[1..], t, i) <==> OccursAt(s, t, i + 1)
  {
    if i + 1 + |t| <= |s| {
      assert s[1..][i..i + |t|] == s[i + 1..i + 1 + |t|];
    }
  }

  lemma OccursAtChar(s: string, t: string, i: nat, m: nat)
    requires OccursAt(s, t, i) && m < |t|
    ensures s[i + m] == t[m]
  {
    assert s[i..i + |t|][m] == s[i + m];
  }

  /** `Contains` holds exactly when some position of `s` starts a copy of `t`. */
  lemma {:induction false} ContainsIff(s: string, t: string)
    ensures Contains(s, t) <==> exists i: nat :: OccursAt(s, t, i)
    decreases |s|
  {
    if |t| <= |s| {
      if s[..|t|] == t {
        assert OccursAt(s, t, 0);
      } else if |s| > 0 {
        ContainsIff(s[1..], t);
        if Contains(s[1..], t) {
          var i: nat :| OccursAt(s[1..], t, i);
          OccursShift(s, t, i);
        }
        if exists i: nat :: OccursAt(s, t, i) {
          var i: nat :| OccursAt(s, t, i);
          assert i != 0;
          OccursShift(s, t, i - 1);
        }
      }
    } else {
      forall i: nat ensures !OccursAt(s, t, i) { }
    }
  }

  lemma ContainsMiddle(p: string, t: string, q: string)
    ensures Contains(p + (t + q), t)
  {
    var r := p + (t + q);
    assert r[|p|..|p| + |t|] == t;
    assert OccursAt(r, t, |p|);
    ContainsIff(r, t);
  }

  /** Containment of substrings is transitive. */
  lemma {:induction false} ContainsTransitive(a: string, b: string, c: string)
    requires Contains(a, b) && Contains(b, c)
    ensures Contains(a, c)
  {
    ContainsIff(a, b);
    ContainsIff(b, c);
    var i: nat :| OccursAt(a, b, i);
    var j: nat :| OccursAt(b, c, j);
    forall k | 0 <= k < |c|
      ensures a[i + j + k] == c[k]
    {
      assert b[j + k] == c[k];
      assert a[i + (j + k)] == b[j + k];
    }
    assert a[i + j..i + j + |c|] == c;
    assert OccursAt(a, c, i + j);
    ContainsIff(a, c);
  }

  /**
   * Python's `s.replace(t, v)`: occurrences of `t` are found from the left,
   * never overlapping, and each becomes `v`. An empty `t` matches before
   * every character and at the end, as in Python.
   */
  function ReplaceAll(s: string, t: string, v: string): string
    decreases |s|
  {
    if t == [] then
      (if s == [] then v else v + [s[0]] + ReplaceAll(s[1..], t, v))
    else if |s| < |t| then s
    else if s[..|t|] == t then v + ReplaceAll(s[|t|..], t, v)
    else [s[0]] + ReplaceAll(s[1..], t, v)
  }

  /** Python's `s.split(t)` for a non-empty separator `t`. */
  function Split(s: string, t: string): (pieces: seq<string>)
    requires t != []
    ensures |pieces| >= 1
    decreases |s|
  {
    if |s| < |t| then [s]
    else if s[..|t|] == t then [""] + Split(s[|t|..], t)
    else
      var rest := Split(s[1..], t);
      [[s[0]] + rest[0]] + rest[1..]
  }

  /** Python's `sep.join(pieces)`. */
  function Join(pieces: seq<string>, sep: string): string
  {
    if |pieces| == 0 then ""
    else if |pieces| == 1 then pieces[0]
    else pieces[0] + sep + Join(pieces[1..], sep)
  }

  /** Replacing a string that does not occur changes nothing. */
  lemma {:induction false} ReplaceAbsent(s: string, t: string, v: string)
    requires !Contains(s, t)
    ensures ReplaceAll(s, t, v) == s
    decreases |s|
  {
    assert t != [];
    if |s| >= |t| {
      ReplaceAbsent(s[1..], t, v);
      assert [s[0]] + s[1..] == s;
    }
  }

  /** A string replaced in itself gives the replacement. */
  lemma ReplaceWhole(t: string, v: string)
    ensures ReplaceAll(t, t, v) == v
  {
    assert t[..|t|] == t;
    assert t[|t|..] == [];
    assert v + [] == v;
  }

  lemma JoinPrepend(c: string, pieces: seq<string>, sep: string)
    requires |pieces| >= 1
    ensures Join([c + pieces[0]] + pieces[1..], sep) == c + Join(pieces, sep)
  {
    var joined := [c + pieces[0]] + pieces[1..];
    if |pieces| > 1 {
      assert joined[1..] == pieces[1..];
    }
  }

  lemma JoinHead(pieces: seq<string>, sep: string)
    requires |pieces| >= 1
    ensures Join(pieces, sep)[..|pieces[0]|] == pieces[0]
  {
  }

  /** Every piece occurs in the joined text. */
  lemma {:induction false} JoinContains(pieces: seq<string>, sep: string, k: nat)
    requires k < |pieces|
    ensures Contains(Join(pieces, sep), pieces[k])
    decreases |pieces|
  {
    if |pieces| == 1 {
      ContainsMiddle([], pieces[0], []);
      assert [] + (pieces[0] + []) == pieces[0];
    } else {
      var rest := Join(pieces[1..], sep);
      ConcatAssoc(pieces[0], sep, rest);
      if k == 0 {
        ContainsMiddle([], pieces[0], sep + rest);
        assert [] + (pieces[0] + (sep + rest)) == Join(pieces, sep);
      } else {
        JoinContains(pieces[1..], sep, k - 1);
        ContainsMiddle(pieces[0] + sep, rest, []);
        assert (pieces[0] + sep) + (rest + []) == Join(pieces, sep);
        ContainsTransitive(Join(pieces, sep), rest, pieces[k]);
      }
    }
  }

  /** Splitting on `t` and joining the pieces with `t` gives back the string. */
  lemma {:induction false} SplitJoin(s: string, t: string)
    requires t != []
    ensures Join(Split(s, t), t) == s
    decreases |s|
  {
    if |s| < |t| {
    } else if s[..|t|] == t {
      var rest := Split(s[|t|..], t);
      SplitJoin(s[|t|..], t);
      var pieces := [""] + rest;
      assert pieces[1..] == rest;
      calc {
        Join(pieces, t);
        pieces[0] + t + Join(rest, t);
        "" + t + s[|t|..];
        { assert "" + t == s[..|t|]; }
        s[..|t|] + s[|t|..];
        s;
      }
    } else {
      var rest := Split(s[1..], t);
      SplitJoin(s[1..], t);
      JoinPrepend([s[0]], rest, t);
      assert [s[0]] + s[1..] == s;
    }
  }

  /** No piece produced by `Split` contains the separator. */
  lemma {:induction false} SplitPiecesFree(s: string, t: string)
    requires t != []
    ensures forall k :: 0 <= k < |Split(s, t)| ==> !Contains(Split(s, t)[k], t)
    decreases |s|
  {
    var pieces := Split(s, t);
    if |s| < |t| {
    } else if s[..|t|] == t {
      SplitPiecesFree(s[|t|..], t);
      assert !Contains(pieces[0], t);
      assert pieces[1..] == Split(s[|t|..], t);
    } else {
      var rest := Split(s[1..], t);
      SplitPiecesFree(s[1..], t);
      assert pieces[1..] == rest[1..];
      var head := [s[0]] + rest[0];
      SplitJoin(s[1..], t);
      JoinHead(rest, t);
      assert head == s[..|head|];
      assert head[1..] == rest[0];
      assert !Contains(rest[0], t);
      if |t| <= |head| {
        assert head[..|t|] == s[..|t|];
      }
      assert !Contains(head, t);
    }
  }

  /** No occurrence of `t` in `x + y` starts inside `x` and ends inside `y`. */
  predicate NoStraddle(x: string, y: string, t: string) {
    forall j :: 0 <= j < |x| < j + |t| ==> !OccursAt(x + y, t, j)
  }

  /** Dropping a prefix of `x` keeps occurrences of `t` from straddling the cut. */
  lemma NoStraddleDrop(x: string, y: string, t: string, n: nat)
    requires n <= |x| && NoStraddle(x, y, t)
    ensures NoStraddle(x[n..], y, t)
  {
    var x' := x[n..];
    assert (x + y)[n..] == x' + y;
    forall j | 0 <= j < |x'| < j + |t|
      ensures !OccursAt(x' + y, t, j)
    {
      assert !OccursAt(x + y, t, j + n);
      if j + |t| <= |x' + y| {
        assert (x' + y)[j..j + |t|] == (x + y)[j + n..j + n + |t|];
      }
    }
  }

  lemma ConcatAssoc(a: string, b: string, c: string)
    ensures a + (b + c) == (a + b) + c
  {
  }

  /** Where no occurrence of `t` straddles the cut, `str.replace` works on each side separately. */
  lemma {:induction false} ReplaceConcat(x: string, y: string, t: string, v: string)
    requires t != [] && NoStraddle(x, y, t)
    ensures ReplaceAll(x + y, t, v) == ReplaceAll(x, t, v) + ReplaceAll(y, t, v)
    decreases |x|
  {
    var s := x + y;
    var ry := ReplaceAll(y, t, v);
    if x == [] {
      assert s == y;
      assert ReplaceAll(x, t, v) == [];
    } else if |s| < |t| {
      assert ReplaceAll(x, t, v) == x && ry == y;
    } else if s[..|t|] == t {
      assert OccursAt(s, t, 0);
      assert x[..|t|] == t;
      var x' := x[|t|..];
      assert s[|t|..] == x' + y;
      NoStraddleDrop(x, y, t, |t|);
      ReplaceConcat(x', y, t, v);
      var rx := ReplaceAll(x', t, v);
      assert ReplaceAll(s, t, v) == v + (rx + ry);
      assert ReplaceAll(x, t, v) == v + rx;
      ConcatAssoc(v, rx, ry);
    } else {
      var x' := x[1..];
      assert s[1..] == x' + y;
      NoStraddleDrop(x, y, t, 1);
      ReplaceConcat(x', y, t, v);
      var rx := ReplaceAll(x', t, v);
      assert ReplaceAll(s, t, v) == [x[0]] + (rx + ry);
      if |x| >= |t| {
        assert x[..|t|] == s[..|t|];
        assert ReplaceAll(x, t, v) == [x[0]] + rx;
      } else {
        assert rx == x';
        assert ReplaceAll(x, t, v) == x == [x[0]] + x';
      }
      ConcatAssoc([x[0]], rx, ry);
    }
  }

  /** Python's identity `s.replace(t, v) == v.join(s.split(t))`. */
  lemma {:induction false} ReplaceIsSplitJoin(s: string, t: string, v: string)
    requires t != []
    ensures ReplaceAll(s, t, v) == Join(Split(s, t), v)
    decreases |s|
  {
    if |s| < |t| {
    } else if s[..|t|] == t {
      var rest := Split(s[|t|..], t);
      ReplaceIsSplitJoin(s[|t|..], t, v);
      assert ([""] + rest)[1..] == rest;
    } else {
      var rest := Split(s[1..], t);
      ReplaceIsSplitJoin(s[1..], t, v);
      JoinPrepend([s[0]], rest, v);
    }
  }

  predicate IsDigit(c: char) {
    '0' <= c <= '9'
  }

  predicate AllDigits(s: string) {
    forall k :: 0 <= k < |s| ==> IsDigit(s[k])
  }

  function DigitChar(d: nat): (c: char)
    requires d < 10
  {
    ('0' as int + d) as char
  }

  function DigitValue(c: char): nat
    requires IsDigit(c)
  {
    c as int - '0' as int
  }

  /** Python's `str(n)` for a natural number: its decimal digits, without leading zeros. */
  function Decimal(n: nat): (r: string)
    ensures |r| >= 1 && AllDigits(r)
    ensures |r| > 1 ==> r[0] != '0'
  {
    if n < 10 then [DigitChar(n)] else Decimal(n / 10) + [DigitChar(n % 10)]
  }

  /** The number a string of decimal digits denotes (Python's `int(s)` on digits). */
  function ParseDecimal(s: string): nat
    requires AllDigits(s)
  {
    if s == [] then 0 else ParseDecimal(s[..|s| - 1]) * 10 + DigitValue(s[|s| - 1])
  }

  /** Reading back the digits of `n` gives `n`. */
  lemma {:induction false} DecimalRoundTrip(n: nat)
    ensures ParseDecimal(Decimal(n)) == n
  {
    var r := Decimal(n);
    if n >= 10 {
      DecimalRoundTrip(n / 10);
      assert r[..|r| - 1] == Decimal(n / 10);
    } else {
      assert r[..|r| - 1] == [];
    }
  }

  /** Python's `f"{n:02}"`: the decimal digits of `n`, zero-padded to at least two. */
  function Pad2(n: nat): (r: string)
    ensures |r| >= 2 && AllDigits(r)
    ensures ParseDecimal(r) == n
    ensures n < 100 ==> |r| == 2
  {
    DecimalRoundTrip(n);
    if n < 10 then
      var r := "0" + Decimal(n);
      assert r[..1] == "0";
      r
    else
      Decimal(n)
  }
}
