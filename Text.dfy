/**
 * The string operations the log reader relies on: Python's `str.strip()`
 * with no argument, and `str.split(',')`.
 */
module Text {
  import opened Sequences

  /** The characters Python's `str.isspace()` accepts, which `str.strip()` removes. */
  predicate IsSpace(c: char)
  {
    ('\t' <= c <= '\r') || ('\U{1C}' <= c <= '\U{1F}') || c == ' '
    || c == '\U{85}' || c == '\U{A0}' || c == '\U{1680}'
    || ('\U{2000}' <= c <= '\U{200A}') || c == '\U{2028}' || c == '\U{2029}'
    || c == '\U{202F}' || c == '\U{205F}' || c == '\U{3000}'
  }

  predicate AllSpace(s: string)
  {
    forall k :: 0 <= k < |s| ==> IsSpace(s[k])
  }

  /** `s` with its leading whitespace removed. */
  function TrimStart(s: string): string
  {
    if s != [] && IsSpace(s[0]) then TrimStart(s[1..]) else s
  }

  /** `s` with its trailing whitespace removed. */
  function TrimEnd(s: string): string
  {
    if s != [] && IsSpace(s[|s| - 1]) then TrimEnd(s[..|s| - 1]) else s
  }

  /** Python's `s.strip()` with no argument. */
  function Trim(s: string): string
  {
    TrimEnd(TrimStart(s))
  }

  /** `TrimStart` drops a whitespace prefix and keeps the rest, which starts with a non-space. */
  lemma {:induction false} TrimStartSpec(s: string)
    ensures var r := TrimStart(s);
      && |r| <= |s| && r == s[|s| - |r|..] && AllSpace(s[..|s| - |r|])
      && (r == [] || !IsSpace(r[0]))
  {
    if s != [] && IsSpace(s[0]) {
      TrimStartSpec(s[1..]);
      var r := TrimStart(s[1..]);
      assert s[1..][|s| - 1 - |r|..] == s[|s| - |r|..];
      assert s[..|s| - |r|] == [s[0]] + s[1..][..|s| - 1 - |r|];
    }
  }

  /** `TrimEnd` drops a whitespace suffix and keeps the rest, which ends with a non-space. */
  lemma {:induction false} TrimEndSpec(s: string)
    ensures var r := TrimEnd(s);
      && |r| <= |s| && r == s[..|r|] && AllSpace(s[|r|..])
      && (r == [] || !IsSpace(r[|r| - 1]))
  {
    if s != [] && IsSpace(s[|s| - 1]) {
      TrimEndSpec(s[..|s| - 1]);
      var r := TrimEnd(s[..|s| - 1]);
      assert s[..|s| - 1][..|r|] == s[..|r|];
      assert s[|r|..] == s[..|s| - 1][|r|..] + [s[|s| - 1]];
    }
  }

  /**
   * `Trim(s)` is a slice of `s` whose ends are not whitespace, and everything
   * cut away on either side is whitespace.
   */
  lemma TrimSpec(s: string)
    ensures var r := Trim(s);
      exists i :: 0 <= i <= |s| - |r| && r == s[i..i + |r|] && AllSpace(s[..i]) && AllSpace(s[i + |r|..])
    ensures var r := Trim(s); r == [] || (!IsSpace(r[0]) && !IsSpace(r[|r| - 1]))
  {
    TrimStartSpec(s);
    var m := TrimStart(s);
    TrimEndSpec(m);
    var r := TrimEnd(m);
    var i := |s| - |m|;
    assert r == s[i..i + |r|];
    assert s[i + |r|..] == m[|r|..];
    assert 0 <= i <= |s| - |r| && r == s[i..i + |r|] && AllSpace(s[..i]) && AllSpace(s[i + |r|..]);
    if r != [] {
      assert r[0] == m[0];
    }
  }

  lemma {:induction false} TrimStartPadding(p: string, s: string)
    requires AllSpace(p)
    ensures TrimStart(p + s) == TrimStart(s)
  {
    if p != [] {
      assert (p + s)[0] == p[0];
      assert (p + s)[1..] == p[1..] + s;
      assert AllSpace(p[1..]) by {
        forall k | 1 <= k < |p| ensures IsSpace(p[k]) { }
      }
      TrimStartPadding(p[1..], s);
      assert TrimStart(p + s) == TrimStart((p + s)[1..]);
    } else {
      assert p + s == s;
    }
  }

  lemma {:induction false} TrimEndPadding(s: string, q: string)
    requires AllSpace(q)
    ensures TrimEnd(s + q) == TrimEnd(s)
  {
    if q != [] {
      assert (s + q)[|s + q| - 1] == q[|q| - 1];
      assert (s + q)[..|s + q| - 1] == s + q[..|q| - 1];
      assert AllSpace(q[..|q| - 1]) by {
        forall k | 0 <= k < |q| - 1 ensures IsSpace(q[k]) { }
      }
      TrimEndPadding(s, q[..|q| - 1]);
      assert TrimEnd(s + q) == TrimEnd((s + q)[..|s + q| - 1]);
    } else {
      assert s + q == s;
    }
  }

  /** Leading whitespace stops at the first non-space character, whatever follows it. */
  lemma {:induction false} TrimStartAppend(s: string, q: string)
    requires !AllSpace(s)
    ensures TrimStart(s + q) == TrimStart(s) + q
  {
    assert s != [];
    if IsSpace(s[0]) {
      assert (s + q)[1..] == s[1..] + q;
      assert !AllSpace(s[1..]) by {
        var k :| 0 <= k < |s| && !IsSpace(s[k]);
        assert s[1..][k - 1] == s[k];
      }
      TrimStartAppend(s[1..], q);
    }
  }

  /** Whitespace around a field does not change what `strip()` returns. */
  lemma TrimIgnoresPadding(p: string, s: string, q: string)
    requires AllSpace(p) && AllSpace(q)
    ensures Trim(p + s + q) == Trim(s)
  {
    assert p + s + q == p + (s + q);
    TrimStartPadding(p, s + q);
    if AllSpace(s) {
      assert AllSpace(s + q) by {
        forall k | 0 <= k < |s + q| ensures IsSpace((s + q)[k]) {
          if k < |s| { assert (s + q)[k] == s[k]; } else { assert (s + q)[k] == q[k - |s|]; }
        }
      }
      TrimStartSpec(s + q);
      TrimStartSpec(s);
      assert TrimStart(s + q) == [];
      assert TrimStart(s) == [];
    } else {
      TrimStartAppend(s, q);
      TrimEndPadding(TrimStart(s), q);
    }
  }

  /** `s` holds no comma. */
  predicate NoComma(s: string)
  {
    forall j :: 0 <= j < |s| ==> s[j] != ','
  }

  lemma NoCommaCount(s: string)
    requires NoComma(s)
    ensures multiset(s)[','] == 0
  {
    assert ',' !in s;
  }

  /** Index of the first comma in `s`, or `|s|` when there is none. */
  function FirstComma(s: string): (k: nat)
    ensures k <= |s|
    ensures k < |s| ==> s[k] == ','
  {
    if s == [] || s[0] == ',' then 0 else 1 + FirstComma(s[1..])
  }

  /** No comma comes before `FirstComma(s)`. */
  lemma {:induction false} FirstCommaIsFirst(s: string)
    ensures forall j :: 0 <= j < FirstComma(s) ==> s[j] != ','
  {
    if s != [] && s[0] != ',' {
      FirstCommaIsFirst(s[1..]);
      forall j | 0 < j < FirstComma(s) ensures s[j] != ',' {
        assert s[j] == s[1..][j - 1];
      }
    }
  }

  /** The first field holds no comma. */
  lemma FirstCommaPrefix(s: string)
    ensures NoComma(s[..FirstComma(s)])
  {
    FirstCommaIsFirst(s);
    var k := FirstComma(s);
    forall j | 0 <= j < k ensures s[..k][j] != ',' {
      assert s[..k][j] == s[j];
    }
  }

  lemma FirstCommaUnique(s: string, k: nat)
    requires k <= |s| && NoComma(s[..k]) && (k < |s| ==> s[k] == ',')
    ensures FirstComma(s) == k
  {
    FirstCommaIsFirst(s);
    assert forall i :: 0 <= i < k ==> s[i] != ',' by {
      forall i | 0 <= i < k ensures s[i] != ',' { assert s[..k][i] == s[i]; }
    }
  }

  /** Python's `s.split(',')`: the pieces between commas, in order. */
  function SplitComma(s: string): seq<string>
    decreases |s|
  {
    var k := FirstComma(s);
    if k == |s| then [s] else [s[..k]] + SplitComma(s[k + 1..])
  }

  /**
   * `SplitComma(s)` has one more piece than `s` has commas, no piece holds a
   * comma, and joining the pieces with commas gives `s` back.
   */
  lemma SplitCommaSpec(s: string)
    ensures var fields := SplitComma(s);
      && |fields| == multiset(s)[','] + 1
      && (forall k :: 0 <= k < |fields| ==> NoComma(fields[k]))
      && JoinComma(fields) == s
  {
    SplitCommaJoin(s);
    SplitCommaFields(s);
  }

  lemma {:induction false} SplitCommaJoin(s: string)
    ensures |SplitComma(s)| == multiset(s)[','] + 1
    ensures JoinComma(SplitComma(s)) == s
    decreases |s|
  {
    var k := FirstComma(s);
    FirstCommaPrefix(s);
    if k == |s| {
      SplitCommaWhole(s);
    } else {
      SplitCommaJoin(s[k + 1..]);
      SplitCommaStep(s, k, SplitComma(s[k + 1..]));
    }
  }

  lemma {:induction false} SplitCommaFields(s: string)
    ensures forall k :: 0 <= k < |SplitComma(s)| ==> NoComma(SplitComma(s)[k])
    decreases |s|
  {
    var k := FirstComma(s);
    FirstCommaPrefix(s);
    if k == |s| {
      assert s[..k] == s;
      assert SplitComma(s) == [s[..k]];
    } else {
      SplitCommaFields(s[k + 1..]);
      assert SplitComma(s) == [s[..k]] + SplitComma(s[k + 1..]);
      ConsNoComma(s[..k], SplitComma(s[k + 1..]));
    }
  }

  lemma ConsNoComma(f: string, rest: seq<string>)
    requires NoComma(f) && forall k :: 0 <= k < |rest| ==> NoComma(rest[k])
    ensures forall k :: 0 <= k < |[f] + rest| ==> NoComma(([f] + rest)[k])
  {
  }

  lemma SplitCommaWhole(s: string)
    requires FirstComma(s) == |s|
    ensures SplitComma(s) == [s] && multiset(s)[','] == 0
  {
    FirstCommaPrefix(s);
    assert s[..|s|] == s;
    NoCommaCount(s);
  }

  lemma SplitCommaStep(s: string, k: nat, rest: seq<string>)
    requires k < |s| && s[k] == ',' && NoComma(s[..k])
    requires |rest| == multiset(s[k + 1..])[','] + 1 && JoinComma(rest) == s[k + 1..]
    ensures |[s[..k]] + rest| == multiset(s)[','] + 1
    ensures JoinComma([s[..k]] + rest) == s
  {
    assert s == s[..k] + [','] + s[k + 1..];
    NoCommaCount(s[..k]);
    JoinCons(s[..k], rest);
  }

  /** Python's `','.join(fields)`. */
  function JoinComma(fields: seq<string>): string
    requires |fields| > 0
  {
    if |fields| == 1 then fields[0] else fields[0] + [','] + JoinComma(fields[1..])
  }

  lemma JoinCons(f: string, rest: seq<string>)
    requires |rest| > 0
    ensures JoinComma([f] + rest) == f + [','] + JoinComma(rest)
  {
    assert ([f] + rest)[1..] == rest;
  }

  /** Splitting at a comma splits the two halves independently. */
  lemma {:induction false} SplitAppend(a: string, b: string)
    ensures SplitComma(a + [','] + b) == SplitComma(a) + SplitComma(b)
    decreases |a|
  {
    var k := FirstComma(a);
    FirstCommaAppend(a, b);
    if k < |a| {
      SplitAppend(a[k + 1..], b);
      SplitAppendStep(a, b, k);
    } else {
      SplitAppendLast(a, b);
    }
  }

  /** The first comma of `a + "," + b` is the first comma of `a`, or the added one. */
  lemma FirstCommaAppend(a: string, b: string)
    ensures FirstComma(a + [','] + b) == FirstComma(a)
  {
    var t, k := [','] + b, FirstComma(a);
    FirstCommaPrefix(a);
    SeqAssoc(a, [','], b);
    SliceToAppend(a, t, k);
    assert (a + t)[k] == ',';
    FirstCommaUnique(a + t, k);
  }

  lemma SplitAppendLast(a: string, b: string)
    requires FirstComma(a) == |a| && FirstComma(a + [','] + b) == |a|
    ensures SplitComma(a + [','] + b) == SplitComma(a) + SplitComma(b)
  {
    var t := [','] + b;
    SeqAssoc(a, [','], b);
    SliceToAppend(a, t, |a|);
    SliceFromRight(a, t, 1);
    assert a[..|a|] == a;
    assert t[1..] == b;
    assert SplitComma(a + t) == [a] + SplitComma(b);
  }

  lemma SplitAppendStep(a: string, b: string, k: nat)
    requires k == FirstComma(a) < |a| && FirstComma(a + [','] + b) == k
    requires SplitComma(a[k + 1..] + [','] + b) == SplitComma(a[k + 1..]) + SplitComma(b)
    ensures SplitComma(a + [','] + b) == SplitComma(a) + SplitComma(b)
  {
    var t := [','] + b;
    var a' := a[k + 1..];
    SeqAssoc(a, [','], b);
    SeqAssoc(a', [','], b);
    SliceToAppend(a, t, k);
    SliceFromAppend(a, t, k + 1);
    SplitUnfold(a + t, k);
    SplitUnfold(a, k);
    var x, p, q := a[..k], SplitComma(a'), SplitComma(b);
    assert SplitComma(a + t) == [x] + (p + q);
    SeqAssoc([x], p, q);
  }

  lemma SplitUnfold(s: string, k: nat)
    requires k == FirstComma(s) < |s|
    ensures SplitComma(s) == [s[..k]] + SplitComma(s[k + 1..])
  {
  }

  /** Joining comma-free fields and splitting again gives the fields back. */
  lemma {:induction false} SplitJoin(fields: seq<string>)
    requires |fields| > 0
    requires forall k :: 0 <= k < |fields| ==> NoComma(fields[k])
    ensures SplitComma(JoinComma(fields)) == fields
  {
    if |fields| == 1 {
      FirstCommaUnique(fields[0], |fields[0]|);
    } else {
      SplitJoin(fields[1..]);
      SplitAppend(fields[0], JoinComma(fields[1..]));
      FirstCommaUnique(fields[0], |fields[0]|);
      assert [fields[0]] + fields[1..] == fields;
    }
  }

  /** A comma-free prefix cannot reach past a comma appended to `a` into what follows it. */
  lemma PrefixBeforeComma(w: string, a: string, t: string)
    requires NoComma(w)
    ensures (w <= a + [','] + t) <==> (w <= a)
  {
    var u := a + [','] + t;
    assert u[|a|] == ',';
    assert |w| > |a| ==> w[|a|] != ',';
    if w <= a {
      assert u[..|w|] == a[..|w|];
    }
    if w <= u {
      assert u[..|w|] == a[..|w|];
    }
  }
}
