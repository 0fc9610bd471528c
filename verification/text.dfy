/**
 * The handful of Python string operations the mediation layer relies on:
 * `s.split(c)`, `s.split(c)[0]`, `s.split(c)[1]`, `p in s` and `s.replace(c, '')`.
 */
module Text {

  /** Index of the first occurrence of `c` in `s`, or `|s|` when `c` does not occur. */
  function Find(s: string, c: char): (i: nat)
    ensures i <= |s|
    ensures i < |s| <==> c in s
    ensures i < |s| ==> s[i] == c
    ensures forall k :: 0 <= k < i ==> s[k] != c
  {
    if s == [] then 0 else if s[0] == c then 0 else 1 + Find(s[1..], c)
  }

  /** `s.split(c)[0]`: everything before the first `c`. */
  function Before(s: string, c: char): (r: string)
    ensures c !in r
    ensures |r| <= |s| && r == s[..|r|]
    ensures |r| < |s| ==> s[|r|] == c
    ensures c !in s ==> r == s
  {
    s[..Find(s, c)]
  }

  /** `s.split(c)`: the pieces between the occurrences of `c`. */
  function Split(s: string, c: char): (parts: seq<string>)
    ensures |parts| >= 1
    decreases |s|
  {
    var i := Find(s, c);
    if i == |s| then [s] else [s[..i]] + Split(s[i + 1..], c)
  }

  /** No piece of `s.split(c)` contains `c`. */
  lemma {:induction false} SplitPieces(s: string, c: char)
    ensures forall p :: p in Split(s, c) ==> c !in p
    decreases |s|
  {
    var i := Find(s, c);
    if i < |s| {
      SplitPieces(s[i + 1..], c);
      SplitAt(s, c, i);
    }
  }

  /** `c.join(parts)`. */
  function Join(parts: seq<string>, c: char): string
  {
    if parts == [] then ""
    else if |parts| == 1 then parts[0]
    else parts[0] + [c] + Join(parts[1..], c)
  }

  /** A join starts with its first piece. */
  lemma JoinHead(parts: seq<string>, c: char)
    requires parts != []
    ensures StartsWith(Join(parts, c), parts[0])
  {
  }

  /** Joining a piece in front of a non-empty list puts one separator between them. */
  lemma JoinCons(a: string, rest: seq<string>, c: char)
    requires rest != []
    ensures Join([a] + rest, c) == a + [c] + Join(rest, c)
  {
    assert ([a] + rest)[1..] == rest;
  }

  /** Splitting a text at a first separator found at `i`. */
  lemma SplitAt(s: string, c: char, i: nat)
    requires i == Find(s, c) && i < |s|
    ensures Split(s, c) == [s[..i]] + Split(s[i + 1..], c)
  {
  }

  /** Splitting and joining again gives back the text. */
  lemma {:induction false} JoinSplit(s: string, c: char)
    ensures Join(Split(s, c), c) == s
    decreases |s|
  {
    var i := Find(s, c);
    if i < |s| {
      var tail := s[i + 1..];
      JoinSplit(tail, c);
      SplitAt(s, c, i);
      JoinCons(s[..i], Split(tail, c), c);
      Around(s, i);
    }
  }

  /** A text is what comes before position `i`, the character there, and what comes after. */
  lemma Around(s: string, i: nat)
    requires i < |s|
    ensures s == s[..i] + [s[i]] + s[i + 1..]
  {
  }

  /** Joining pieces that contain no separator and splitting again gives back the pieces. */
  lemma {:induction false} SplitJoin(parts: seq<string>, c: char)
    requires |parts| >= 1
    requires forall p :: p in parts ==> c !in p
    ensures Split(Join(parts, c), c) == parts
    decreases |parts|
  {
    if |parts| == 1 {
      SplitNone(parts[0], c);
    } else {
      var p0 := parts[0];
      var tail := Join(parts[1..], c);
      JoinCons(p0, parts[1..], c);
      assert parts == [p0] + parts[1..];
      var s := p0 + [c] + tail;
      assert forall k :: 0 <= k < |p0| ==> s[k] == p0[k] && p0[k] in parts[0];
      FindAt(s, c, |p0|);
      SplitAt(s, c, |p0|);
      assert s == (p0 + [c]) + tail;
      assert s[..|p0|] == p0 && s[|p0| + 1..] == tail;
      assert forall p :: p in parts[1..] ==> p in parts;
      SplitJoin(parts[1..], c);
    }
  }

  /** When `s[n] == c` and no earlier character is `c`, the first `c` is at `n`. */
  lemma {:induction false} FindAt(s: string, c: char, n: nat)
    requires n < |s| && s[n] == c
    requires forall k :: 0 <= k < n ==> s[k] != c
    ensures Find(s, c) == n
  {
  }

  /** When `b` starts with `c`, the text before the first `c` of `a + b` lies within `a`. */
  lemma BeforeAppend(a: string, b: string, c: char)
    requires b != [] && b[0] == c
    ensures Before(a + b, c) == Before(a, c)
  {
    var n := Find(a, c);
    assert forall k :: 0 <= k < n ==> (a + b)[k] == a[k];
    if n == |a| {
      assert (a + b)[n] == b[0];
    }
    FindAt(a + b, c, n);
    assert (a + b)[..n] == a[..n];
  }

  /** `p` is a prefix of `s`. */
  predicate StartsWith(s: string, p: string)
  {
    |p| <= |s| && s[..|p|] == p
  }

  /** Python's `p in s` for strings: `p` occurs somewhere in `s`. */
  predicate Occurs(p: string, s: string)
    decreases |s|
  {
    StartsWith(s, p) || (s != [] && Occurs(p, s[1..]))
  }

  /** An occurrence at position `k` is an occurrence. */
  lemma {:induction false} OccursAt(p: string, s: string, k: nat)
    requires k <= |s| && StartsWith(s[k..], p)
    ensures Occurs(p, s)
    decreases k
  {
    if k > 0 {
      assert s[1..][k - 1..] == s[k..];
      OccursAt(p, s[1..], k - 1);
    }
  }

  /** An occurrence has a position. */
  lemma {:induction false} OccursWitness(p: string, s: string)
    requires Occurs(p, s)
    ensures exists k :: 0 <= k <= |s| && StartsWith(s[k..], p)
    decreases |s|
  {
    if !StartsWith(s, p) {
      OccursWitness(p, s[1..]);
      var k :| 0 <= k <= |s[1..]| && StartsWith(s[1..][k..], p);
      assert s[1..][k..] == s[k + 1..];
    } else {
      assert s[0..] == s;
    }
  }

  /** A pattern holding a character the text lacks does not occur in the text. */
  lemma {:induction false} NotOccurs(p: string, s: string, c: char)
    requires c in p && c !in s
    ensures !Occurs(p, s)
    decreases |s|
  {
    if s != [] {
      NotOccurs(p, s[1..], c);
    }
  }

  /** Removing a character from a concatenation removes it from each part. */
  lemma {:induction false} RemoveCharAppend(a: string, b: string, c: char)
    ensures RemoveChar(a + b, c) == RemoveChar(a, c) + RemoveChar(b, c)
    decreases |a|
  {
    if a == [] {
      assert a + b == b;
    } else {
      assert (a + b)[0] == a[0];
      assert (a + b)[1..] == a[1..] + b;
      RemoveCharAppend(a[1..], b, c);
    }
  }

  /** A single character is dropped when it is `c` and kept otherwise. */
  lemma RemoveCharSingle(x: char, c: char)
    ensures RemoveChar([x], c) == if x == c then [] else [x]
  {
    assert [x][1..] == [];
  }

  /** `s.replace(c, '')`. */
  function RemoveChar(s: string, c: char): (r: string)
    ensures c !in r
    ensures |r| <= |s|
    ensures forall ch :: ch in r ==> ch in s
    ensures c !in s ==> r == s
  {
    if s == [] then ""
    else if s[0] == c then RemoveChar(s[1..], c)
    else [s[0]] + RemoveChar(s[1..], c)
  }

  /**
   * The longest prefix of `rest` without `(` or `)`: splitting `rest` at `(`,
   * keeping the first piece, then splitting that at `)` and keeping the first piece.
   */
  function UpToParen(rest: string): (text: string)
    ensures '(' !in text && ')' !in text
    ensures |text| <= |rest| && rest[..|text|] == text
    ensures |text| == |rest| || rest[|text|] == '(' || rest[|text|] == ')'
  {
    if rest == [] || rest[0] == '(' || rest[0] == ')' then []
    else [rest[0]] + UpToParen(rest[1..])
  }

  /** The first `(` or `)` of `rest` is at `n`, so the kept text is `rest[..n]`. */
  lemma {:induction false} UpToParenAt(rest: string, n: nat)
    requires n < |rest| && (rest[n] == '(' || rest[n] == ')')
    requires forall i :: 0 <= i < n ==> rest[i] != '(' && rest[i] != ')'
    ensures UpToParen(rest) == rest[..n]
    decreases n
  {
    if n > 0 {
      UpToParenAt(rest[1..], n - 1);
      assert rest[..n] == [rest[0]] + rest[1..][..n - 1];
    }
  }

  /** The argument text of `head(p)...` is `p` when `head` has no `(` and `p` no paren. */
  lemma InnerOf(head: string, p: string, tail: string)
    requires '(' !in head && '(' !in p && ')' !in p
    requires tail != [] && tail[0] == ')'
    ensures Inner(head + "(" + p + tail) == p
  {
    var s := head + "(" + p + tail;
    assert forall k :: 0 <= k < |head| ==> s[k] == head[k] && head[k] in head;
    FindAt(s, '(', |head|);
    assert s == (head + "(") + (p + tail);
    var rest := p + tail;
    assert s[|head| + 1..] == rest;
    assert forall i :: 0 <= i < |p| ==> rest[i] == p[i] && p[i] in p;
    UpToParenAt(rest, |p|);
    assert rest[..|p|] == p;
  }

  /** A text without the separator splits into itself alone. */
  lemma SplitNone(s: string, c: char)
    requires c !in s
    ensures Split(s, c) == [s]
  {
  }

  /**
   * `s.split("(")[1].split(")")[0]`: the text after the first `(` up to the next
   * `(` or `)`, whichever comes first, or to the end.
   */
  function Inner(s: string): (text: string)
    requires '(' in s
    ensures '(' !in text && ')' !in text
    ensures var k := Find(s, '(') + 1;
      k + |text| <= |s| && s[k..k + |text|] == text &&
      (k + |text| == |s| || s[k + |text|] == '(' || s[k + |text|] == ')')
  {
    var k := Find(s, '(') + 1;
    var text := UpToParen(s[k..]);
    assert s[k..][..|text|] == s[k..k + |text|];
    text
  }
}
