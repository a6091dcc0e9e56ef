/** Dot-delimited state ids: JavaScript's `id.split('.')` and the
    concatenation `a + '.' + b` that builds ids. */
module Paths {

  const Sep: char := '.'

  /** A string usable as one id segment. */
  predicate DotFree(s: string) {
    Sep !in s
  }

  /** `s.split('.')`: the maximal dot-free pieces of `s`, in order. An empty
      string, and the gap between two adjacent dots, give an empty piece. */
  function Split(s: string): (parts: seq<string>)
    ensures |parts| >= 1
    ensures forall k :: 0 <= k < |parts| ==> DotFree(parts[k])
  {
    if s == [] then [""]
    else
      var rest := Split(s[1..]);
      if s[0] == Sep then [""] + rest
      else [[s[0]] + rest[0]] + rest[1..]
  }

  /** `parts.join('.')`. */
  function Join(parts: seq<string>): (s: string)
    requires |parts| >= 1
  {
    if |parts| == 1 then parts[0] else parts[0] + "." + Join(parts[1..])
  }

  /** Joining the pieces of a split gives back the id. */
  lemma {:induction false} JoinSplit(s: string)
    ensures Join(Split(s)) == s
  {
    if s != [] {
      var rest := Split(s[1..]);
      JoinSplit(s[1..]);
      if s[0] == Sep {
        assert Split(s) == [""] + rest;
        assert Join(Split(s)) == "" + "." + Join(rest);
      } else if |rest| == 1 {
        assert Split(s) == [[s[0]] + rest[0]];
      } else {
        assert Split(s) == [[s[0]] + rest[0]] + rest[1..];
        assert Join(rest) == rest[0] + "." + Join(rest[1..]);
        assert (Split(s))[1..] == rest[1..];
      }
    }
  }

  /** A dot-free string splits into itself alone. */
  lemma {:induction false} SplitDotFree(a: string)
    requires DotFree(a)
    ensures Split(a) == [a]
  {
    if a != [] {
      SplitDotFree(a[1..]);
      assert [a[0]] + a[1..] == a;
    }
  }

  /** Splitting `a + '.' + r` with `a` dot-free yields `a` followed by the
      pieces of `r`. */
  lemma {:induction false} SplitCons(a: string, r: string)
    requires DotFree(a)
    ensures Split(a + "." + r) == [a] + Split(r)
  {
    var s := a + "." + r;
    if a == [] {
      assert s[1..] == r;
    } else {
      assert s[1..] == a[1..] + "." + r;
      SplitCons(a[1..], r);
      assert [a[0]] + a[1..] == a;
    }
  }

  /** Splitting a join of dot-free pieces gives back the pieces. */
  lemma {:induction false} SplitJoin(parts: seq<string>)
    requires |parts| >= 1
    requires forall k :: 0 <= k < |parts| ==> DotFree(parts[k])
    ensures Split(Join(parts)) == parts
  {
    if |parts| == 1 {
      SplitDotFree(parts[0]);
    } else {
      SplitJoin(parts[1..]);
      SplitCons(parts[0], Join(parts[1..]));
      assert [parts[0]] + parts[1..] == parts;
    }
  }

  /** A path `a.b.c` of dot-free parts splits into those three parts. */
  lemma SplitThree(a: string, b: string, c: string)
    requires DotFree(a) && DotFree(b) && DotFree(c)
    ensures Split(a + "." + b + "." + c) == [a, b, c]
  {
    assert a + "." + b + "." + c == a + "." + (b + "." + c);
    SplitCons(a, b + "." + c);
    SplitCons(b, c);
    SplitDotFree(c);
  }
}
