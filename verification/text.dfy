/** String helpers with the semantics of the JavaScript built-ins the reporter uses:
    `Array.prototype.join`, plus the `split` that undoes it and a substring test. */
module Text {

  /** `s` begins with `prefix`. */
  predicate StartsWith(s: string, prefix: string)
  {
    |prefix| <= |s| && s[..|prefix|] == prefix
  }

  /** `x` occurs inside `s` starting at position `k`. */
  predicate OccursAt(x: string, s: string, k: int)
  {
    0 <= k <= |s| - |x| && s[k..k + |x|] == x
  }

  /** `x` occurs somewhere inside `s`. */
  ghost predicate Infix(x: string, s: string)
  {
    exists k :: OccursAt(x, s, k)
  }

  /** The summed lengths of `parts`. */
  function TotalLength(parts: seq<string>): nat
  {
    if |parts| == 0 then 0 else |parts[0]| + TotalLength(parts[1..])
  }

  /** `parts.join(sep)`: the empty array joins to "", one element joins to
      itself, and otherwise each pair of neighbours gets exactly one separator. */
  function Join(parts: seq<string>, sep: string): (s: string)
    ensures |parts| == 0 ==> s == ""
    ensures |parts| > 0 ==> |s| == TotalLength(parts) + (|parts| - 1) * |sep|
    decreases |parts|
  {
    if |parts| == 0 then ""
    else if |parts| == 1 then parts[0]
    else parts[0] + sep + Join(parts[1..], sep)
  }

  /** `s.split(sep)` for a one-character separator: always at least one piece. */
  function Split(s: string, sep: char): (pieces: seq<string>)
    ensures |pieces| >= 1
    decreases |s|
  {
    if |s| == 0 then [""]
    else if s[0] == sep then [""] + Split(s[1..], sep)
    else
      var rest := Split(s[1..], sep);
      [[s[0]] + rest[0]] + rest[1..]
  }

  /** Joining two non-empty lists puts exactly one separator between their joins. */
  lemma {:induction false} JoinAppend(a: seq<string>, b: seq<string>, sep: string)
    requires |a| > 0 && |b| > 0
    ensures Join(a + b, sep) == Join(a, sep) + sep + Join(b, sep)
    decreases |a|
  {
    if |a| == 1 {
      assert (a + b)[1..] == b;
    } else {
      assert (a + b)[1..] == a[1..] + b;
      JoinAppend(a[1..], b, sep);
    }
  }

  /** A separator-free string splits into itself alone. */
  lemma {:induction false} SplitWithoutSeparator(p: string, sep: char)
    requires sep !in p
    ensures Split(p, sep) == [p]
    decreases |p|
  {
    if |p| > 0 {
      SplitWithoutSeparator(p[1..], sep);
      assert [p[0]] + p[1..] == p;
    }
  }

  /** Splitting at the first separator peels off the separator-free piece before it. */
  lemma {:induction false} SplitAtFirstSeparator(p: string, t: string, sep: char)
    requires sep !in p
    ensures Split(p + [sep] + t, sep) == [p] + Split(t, sep)
    decreases |p|
  {
    var s := p + [sep] + t;
    if |p| == 0 {
      assert s[1..] == t;
    } else {
      assert s[1..] == p[1..] + [sep] + t;
      SplitAtFirstSeparator(p[1..], t, sep);
      assert [p[0]] + p[1..] == p;
    }
  }

  /** Split undoes Join whenever no piece contains the separator. */
  lemma {:induction false} SplitJoin(parts: seq<string>, sep: char)
    requires |parts| >= 1
    requires forall i :: 0 <= i < |parts| ==> sep !in parts[i]
    ensures Split(Join(parts, [sep]), sep) == parts
    decreases |parts|
  {
    if |parts| == 1 {
      SplitWithoutSeparator(parts[0], sep);
    } else {
      SplitJoin(parts[1..], sep);
      SplitAtFirstSeparator(parts[0], Join(parts[1..], [sep]), sep);
      assert [parts[0]] + parts[1..] == parts;
    }
  }

  /** Join undoes Split for every string. */
  lemma {:induction false} JoinSplit(s: string, sep: char)
    ensures Join(Split(s, sep), [sep]) == s
    decreases |s|
  {
    if |s| > 0 {
      JoinSplit(s[1..], sep);
      var rest := Split(s[1..], sep);
      if s[0] == sep {
        assert Split(s, sep)[1..] == rest;
        assert [sep] + s[1..] == s;
      } else {
        var pieces := Split(s, sep);
        assert pieces[1..] == rest[1..];
        assert [s[0]] + s[1..] == s;
      }
    }
  }

  /** Every element of a list occurs inside its join. */
  lemma {:induction false} JoinContains(parts: seq<string>, sep: string, i: int)
    requires 0 <= i < |parts|
    ensures Infix(parts[i], Join(parts, sep))
    decreases |parts|
  {
    var s := Join(parts, sep);
    if i == 0 {
      assert OccursAt(parts[0], s, 0);
    } else {
      JoinContains(parts[1..], sep, i - 1);
      var tail := Join(parts[1..], sep);
      var k' :| OccursAt(parts[i], tail, k');
      var k := |parts[0]| + |sep| + k';
      assert s == parts[0] + sep + tail;
      assert s[k..k + |parts[i]|] == tail[k'..k' + |parts[i]|];
      assert OccursAt(parts[i], s, k);
    }
  }

  /** Split undoes Join when the list is non-empty and no piece contains the separator. */
  lemma SplitJoinWhenClean(parts: seq<string>, sep: char)
    ensures |parts| >= 1 && (forall i :: 0 <= i < |parts| ==> sep !in parts[i]) ==>
      Split(Join(parts, [sep]), sep) == parts
  {
    if |parts| >= 1 && (forall i :: 0 <= i < |parts| ==> sep !in parts[i]) {
      SplitJoin(parts, sep);
    }
  }

  /** Every element of a list occurs inside its join, all at once. */
  lemma JoinContainsAll(parts: seq<string>, sep: string)
    ensures forall i :: 0 <= i < |parts| ==> Infix(parts[i], Join(parts, sep))
  {
    forall i | 0 <= i < |parts| ensures Infix(parts[i], Join(parts, sep))
    {
      JoinContains(parts, sep, i);
    }
  }

  /** Occurring inside is transitive. */
  lemma InfixTransitive(a: string, b: string, c: string)
    requires Infix(a, b) && Infix(b, c)
    ensures Infix(a, c)
  {
    var i :| OccursAt(a, b, i);
    var j :| OccursAt(b, c, j);
    forall k | 0 <= k < |a| ensures c[j + i + k] == a[k]
    {
      assert c[j + i + k] == b[i + k];
    }
    assert OccursAt(a, c, j + i);
  }
}
