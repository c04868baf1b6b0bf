/**
 * Order-preserving selection from a sequence: the `Array.prototype.filter`
 * that both the search and the removal of a favourite are built on.
 */
module Sequences {

  /** `sub` is `s` with zero or more elements deleted, the rest kept in order. */
  predicate IsSubseq<T(==)>(sub: seq<T>, s: seq<T>)
    decreases |s|
  {
    if sub == [] then true
    else if s == [] then false
    else if sub[0] == s[0] then IsSubseq(sub[1..], s[1..])
    else IsSubseq(sub, s[1..])
  }

  /** The elements of `s` that satisfy `keep`, in their original order. */
  function Keep<T(==)>(s: seq<T>, keep: T -> bool): (r: seq<T>)
    ensures |r| <= |s|
    ensures forall x :: x in r ==> x in s && keep(x)
  {
    if s == [] then []
    else (if keep(s[0]) then [s[0]] else []) + Keep(s[1..], keep)
  }

  lemma {:induction false} SubseqRefl<T>(s: seq<T>)
    ensures IsSubseq(s, s)
  {
    if s != [] {
      SubseqRefl(s[1..]);
    }
  }

  lemma {:induction false} SubseqLength<T>(sub: seq<T>, s: seq<T>)
    requires IsSubseq(sub, s)
    ensures |sub| <= |s|
  {
    if sub != [] {
      if sub[0] == s[0] {
        SubseqLength(sub[1..], s[1..]);
      } else {
        SubseqLength(sub, s[1..]);
      }
    }
  }

  /** Every element of a subsequence is an element of the sequence. */
  lemma {:induction false} SubseqMembers<T>(sub: seq<T>, s: seq<T>, x: T)
    requires IsSubseq(sub, s) && x in sub
    ensures x in s
  {
    if sub[0] == s[0] {
      if x != sub[0] {
        SubseqMembers(sub[1..], s[1..], x);
      }
    } else {
      SubseqMembers(sub, s[1..], x);
    }
  }

  /** Dropping the first element of a subsequence keeps it a subsequence. */
  lemma {:induction false} SubseqDropHead<T>(sub: seq<T>, s: seq<T>)
    requires IsSubseq(sub, s) && sub != []
    ensures IsSubseq(sub[1..], s)
    decreases |s|, 0
  {
    assert s == [s[0]] + s[1..];
    if sub[0] == s[0] {
      SubseqCons(sub[1..], s[0], s[1..]);
    } else if sub[1..] != [] {
      SubseqDropHead(sub, s[1..]);
      SubseqCons(sub[1..], s[0], s[1..]);
    }
  }

  /** Putting an element in front of the sequence keeps every subsequence. */
  lemma {:induction false} SubseqCons<T>(sub: seq<T>, x: T, s: seq<T>)
    requires IsSubseq(sub, s)
    ensures IsSubseq(sub, [x] + s)
    decreases |s|, 1
  {
    assert ([x] + s)[1..] == s;
    if sub != [] && sub[0] == x {
      SubseqDropHead(sub, s);
    }
  }

  /** A kept sequence is a subsequence of its source: nothing is reordered. */
  lemma {:induction false} KeepIsSubseq<T>(s: seq<T>, keep: T -> bool)
    ensures IsSubseq(Keep(s, keep), s)
  {
    if s != [] {
      KeepIsSubseq(s[1..], keep);
      if !keep(s[0]) {
        assert Keep(s, keep) == Keep(s[1..], keep);
        SubseqCons(Keep(s[1..], keep), s[0], s[1..]);
        assert [s[0]] + s[1..] == s;
      }
    }
  }

  /** An element is kept exactly when it occurs in the source and satisfies the predicate. */
  lemma {:induction false} KeepMembership<T>(s: seq<T>, keep: T -> bool, x: T)
    ensures x in Keep(s, keep) <==> x in s && keep(x)
  {
    if s != [] {
      KeepMembership(s[1..], keep, x);
      assert x in s <==> x == s[0] || x in s[1..];
    }
  }

  /** Selection distributes over concatenation: each element is decided on its own. */
  lemma {:induction false} KeepConcat<T>(a: seq<T>, b: seq<T>, keep: T -> bool)
    ensures Keep(a + b, keep) == Keep(a, keep) + Keep(b, keep)
  {
    if a == [] {
      assert a + b == b;
    } else {
      assert (a + b)[0] == a[0];
      assert (a + b)[1..] == a[1..] + b;
      KeepConcat(a[1..], b, keep);
    }
  }

  /** Nothing is dropped exactly when every element satisfies the predicate. */
  lemma {:induction false} KeepAll<T>(s: seq<T>, keep: T -> bool)
    ensures Keep(s, keep) == s <==> forall x :: x in s ==> keep(x)
  {
    if s != [] {
      KeepAll(s[1..], keep);
      if !keep(s[0]) {
        assert |Keep(s, keep)| < |s|;
      } else {
        assert s == [s[0]] + s[1..];
      }
    }
  }

  /** A stronger predicate keeps a subsequence of what a weaker one keeps. */
  lemma {:induction false} KeepMonotone<T>(s: seq<T>, strong: T -> bool, weak: T -> bool)
    requires forall x :: x in s && strong(x) ==> weak(x)
    ensures IsSubseq(Keep(s, strong), Keep(s, weak))
    ensures |Keep(s, strong)| <= |Keep(s, weak)|
  {
    if s != [] {
      KeepMonotone(s[1..], strong, weak);
      var rs, rw := Keep(s[1..], strong), Keep(s[1..], weak);
      if strong(s[0]) {
        assert Keep(s, strong) == [s[0]] + rs && Keep(s, weak) == [s[0]] + rw;
        assert ([s[0]] + rs)[1..] == rs && ([s[0]] + rw)[1..] == rw;
      } else if weak(s[0]) {
        assert Keep(s, strong) == rs && Keep(s, weak) == [s[0]] + rw;
        SubseqCons(rs, s[0], rw);
      } else {
        assert Keep(s, strong) == rs && Keep(s, weak) == rw;
      }
      SubseqLength(Keep(s, strong), Keep(s, weak));
    }
  }

  /**
   * The position of the first occurrence of `x` in `s`, or -1 when there is
   * none: `Array.prototype.indexOf`.
   */
  function IndexOf<T(==)>(s: seq<T>, x: T): (r: int)
    ensures -1 <= r < |s|
    ensures r == -1 <==> x !in s
    ensures 0 <= r ==> s[r] == x && forall j :: 0 <= j < r ==> s[j] != x
  {
    if s == [] then -1
    else if s[0] == x then 0
    else
      var k := IndexOf(s[1..], x);
      if k == -1 then -1 else k + 1
  }
}
