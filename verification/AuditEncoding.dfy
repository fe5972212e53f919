/** The text that an audit event's hash is taken of: its fields joined by a separator. */
module AuditEncoding {

  const SEPARATOR := '|'

  predicate Clean(s: string) { SEPARATOR !in s }

  function Join(fields: seq<string>): string
    requires fields != []
  {
    if |fields| == 1 then fields[0] else fields[0] + [SEPARATOR] + Join(fields[1..])
  }

  /** Splitting at the first separator is unique. */
  lemma {:induction false} SplitFirst(a: string, x: string, b: string, y: string)
    requires Clean(a) && Clean(b) && a + [SEPARATOR] + x == b + [SEPARATOR] + y
    ensures a == b && x == y
  {
    var s, t := a + [SEPARATOR] + x, b + [SEPARATOR] + y;
    assert s[|a|] == SEPARATOR && forall i | 0 <= i < |a| :: s[i] == a[i];
    assert t[|b|] == SEPARATOR && forall i | 0 <= i < |b| :: t[i] == b[i];
    assert |a| == |b|;
    assert a == s[..|a|] == t[..|b|] == b;
    assert x == s[|a| + 1..] == t[|b| + 1..] == y;
  }

  /** Splitting at the last separator is unique. */
  lemma {:induction false} SplitLast(x: string, a: string, y: string, b: string)
    requires Clean(a) && Clean(b) && x + [SEPARATOR] + a == y + [SEPARATOR] + b
    ensures a == b && x == y
  {
    var s, t := x + [SEPARATOR] + a, y + [SEPARATOR] + b;
    assert s[|x|] == SEPARATOR && forall i | |x| < i < |s| :: s[i] == a[i - |x| - 1];
    assert t[|y|] == SEPARATOR && forall i | |y| < i < |t| :: t[i] == b[i - |y| - 1];
    assert |x| == |y|;
    assert x == s[..|x|] == t[..|y|] == y;
    assert a == s[|x| + 1..] == t[|y| + 1..] == b;
  }

  lemma {:induction false} JoinLast(fields: seq<string>)
    requires |fields| > 1
    ensures Join(fields) == Join(fields[..|fields| - 1]) + [SEPARATOR] + fields[|fields| - 1]
  {
    var front, last := fields[..|fields| - 1], fields[|fields| - 1];
    if |fields| > 2 {
      JoinLast(fields[1..]);
      assert fields[1..][..|fields| - 2] == front[1..];
      assert Join(fields) == fields[0] + [SEPARATOR] + (Join(front[1..]) + [SEPARATOR] + last);
    } else {
      assert fields[1..] == [last] && front == [fields[0]];
    }
  }

  /** Every field but perhaps the one at `p` is free of separators. */
  ghost predicate CleanExcept(fields: seq<string>, p: int) {
    forall i | 0 <= i < |fields| && i != p :: Clean(fields[i])
  }

  /** With separators in one position at most, the fields can be read back from the text. */
  lemma {:induction false} JoinInjective(f: seq<string>, g: seq<string>, p: int)
    requires |f| == |g| > 0 && CleanExcept(f, p) && CleanExcept(g, p) && Join(f) == Join(g)
    ensures f == g
    decreases |f|
  {
    if |f| > 1 {
      var n := |f| - 1;
      if p != 0 {
        SplitFirst(f[0], Join(f[1..]), g[0], Join(g[1..]));
        JoinInjective(f[1..], g[1..], p - 1);
        assert f == [f[0]] + f[1..] && g == [g[0]] + g[1..];
      } else {
        JoinLast(f);
        JoinLast(g);
        SplitLast(Join(f[..n]), f[n], Join(g[..n]), g[n]);
        JoinInjective(f[..n], g[..n], p);
        assert f == f[..n] + [f[n]] && g == g[..n] + [g[n]];
      }
    }
  }

  // ----- exactly one position is the limit -----

  /** `open[i]` says whether field `i` may contain separators. */
  ghost predicate CleanOutside(fields: seq<string>, open: seq<bool>) {
    |fields| == |open| && forall i | 0 <= i < |fields| && !open[i] :: Clean(fields[i])
  }

  ghost predicate AtMostOne(open: seq<bool>) {
    forall i, j | 0 <= i < j < |open| :: !(open[i] && open[j])
  }

  /** Lists of fields with separators only where allowed have distinct texts. */
  ghost predicate Readable(open: seq<bool>)
    requires open != []
  {
    forall f: seq<string>, g: seq<string> | CleanOutside(f, open) && CleanOutside(g, open) ::
      Join(f) == Join(g) ==> f == g
  }

  lemma {:induction false} JoinAppend(a: seq<string>, b: seq<string>)
    requires a != [] && b != []
    ensures Join(a + b) == Join(a) + [SEPARATOR] + Join(b)
  {
    assert (a + b)[0] == a[0];
    if |a| == 1 {
      assert (a + b)[1..] == b;
    } else {
      assert (a + b)[1..] == a[1..] + b;
      JoinAppend(a[1..], b);
      assert a[0] + [SEPARATOR] + (Join(a[1..]) + [SEPARATOR] + Join(b)) == a[0] + [SEPARATOR] + Join(a[1..]) + [SEPARATOR] + Join(b);
    }
  }

  /** The text from the end of one field to the beginning of another, with the fields `middle` between. */
  function Border(middle: seq<string>): string {
    [SEPARATOR] + if middle == [] then "" else Join(middle) + [SEPARATOR]
  }

  lemma JoinAcross(x: string, middle: seq<string>, y: string)
    ensures Join([x] + middle + [y]) == x + Border(middle) + y
  {
    if middle == [] {
      assert [x] + middle + [y] == [x] + [y];
      JoinAppend([x], [y]);
    } else {
      JoinAppend([x] + middle, [y]);
      JoinAppend([x], middle);
    }
  }

  /** Text that repeats the border can move from one of two fields to the other, whatever stands between
      them, before and behind. */
  lemma BorderMoves(front: seq<string>, x: string, middle: seq<string>, back: seq<string>)
    ensures var long := x + Border(middle) + x;
            Join(front + ([x] + middle + [long]) + back) == Join(front + ([long] + middle + [x]) + back)
  {
    var border := Border(middle);
    var long := x + border + x;
    JoinAcross(x, middle, long);
    JoinAcross(long, middle, x);
    assert x + border + (x + border + x) == (x + border + x) + border + x;
    hide Border;
    SameInside(front, [x] + middle + [long], [long] + middle + [x], back);
  }

  lemma SameInside(front: seq<string>, a: seq<string>, b: seq<string>, back: seq<string>)
    requires a != [] && b != [] && Join(a) == Join(b)
    ensures Join(front + a + back) == Join(front + b + back)
  {
    hide Join;
    if front != [] {
      JoinAppend(front, a);
      JoinAppend(front, b);
    } else {
      assert front + a == a && front + b == b;
    }
    if back != [] {
      JoinAppend(front + a, back);
      JoinAppend(front + b, back);
    } else {
      assert front + a + back == front + a && front + b + back == front + b;
    }
  }

  /** Any two positions collide, with any text in the other fields. */
  lemma TwoPositionsCollide(fields: seq<string>, i: nat, j: nat, x: string) returns (long: string)
    requires i < j < |fields|
    ensures long != x && x <= long
    ensures Join(fields[i := x][j := long]) == Join(fields[i := long][j := x])
  {
    var front, middle, back := fields[..i], fields[i + 1..j], fields[j + 1..];
    long := x + Border(middle) + x;
    BorderMoves(front, x, middle, back);
    TwoFieldsSet(fields, i, j, x, long);
    TwoFieldsSet(fields, i, j, long, x);
    assert |Border(middle)| > 0;
    hide Border, Join;
  }

  lemma TwoFieldsSet(fields: seq<string>, i: nat, j: nat, x: string, y: string)
    requires i < j < |fields|
    ensures fields[i := x][j := y] == fields[..i] + ([x] + fields[i + 1..j] + [y]) + fields[j + 1..]
  {
    var middle := [x] + fields[i + 1..j] + [y];
    var whole := fields[..i] + middle + fields[j + 1..];
    assert |middle| == j - i + 1 && |whole| == |fields|;
    forall n | 0 <= n < |fields| ensures whole[n] == fields[i := x][j := y][n] {
      if i <= n <= j {
        assert whole[n] == middle[n - i];
      }
    }
  }

  /** The encoding is injective exactly when at most one field may contain separators. */
  lemma ReadableIffOneOpenField(open: seq<bool>)
    requires open != []
    ensures Readable(open) <==> AtMostOne(open)
  {
    var n := |open|;
    if AtMostOne(open) {
      var p := if exists i :: 0 <= i < n && open[i] then var i :| 0 <= i < n && open[i]; i else -1;
      forall f: seq<string>, g: seq<string> | CleanOutside(f, open) && CleanOutside(g, open) && Join(f) == Join(g)
        ensures f == g
      {
        JoinInjective(f, g, p);
      }
    } else {
      var i, j :| 0 <= i < j < n && open[i] && open[j];
      var empty := seq(n, k => "");
      var long := TwoPositionsCollide(empty, i, j, "");
      var f, g := empty[i := ""][j := long], empty[i := long][j := ""];
      assert CleanOutside(f, open) && CleanOutside(g, open) && f[i] != g[i];
    }
  }
}
