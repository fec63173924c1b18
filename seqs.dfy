/** Sequence vocabulary shared by the matcher, the prompt and the renderer. */
module Seqs {

  /** `a` is an ordered subsequence of `b`: the elements of `a` occur in `b` in the same order,
      with anything in between. */
  predicate IsSubseq<T(==)>(a: seq<T>, b: seq<T>)
    decreases |b|
  {
    if a == [] then true
    else if b == [] then false
    else (a[0] == b[0] && IsSubseq(a[1..], b[1..])) || IsSubseq(a, b[1..])
  }

  lemma {:induction false} IsSubseqRefl<T>(a: seq<T>)
    ensures IsSubseq(a, a)
  {
    if a != [] {
      IsSubseqRefl(a[1..]);
    }
  }

  lemma {:induction false} IsSubseqDropFront<T>(a: seq<T>, b: seq<T>)
    requires b != [] && IsSubseq(a, b[1..])
    ensures IsSubseq(a, b)
  {
  }

  lemma {:induction false} IsSubseqTrans<T>(a: seq<T>, b: seq<T>, c: seq<T>)
    requires IsSubseq(a, b) && IsSubseq(b, c)
    ensures IsSubseq(a, c)
    decreases |c|
  {
    if a != [] && b != [] && c != [] {
      if b[0] == c[0] && IsSubseq(b[1..], c[1..]) {
        if a[0] == b[0] && IsSubseq(a[1..], b[1..]) {
          IsSubseqTrans(a[1..], b[1..], c[1..]);
        } else {
          IsSubseqTrans(a, b[1..], c[1..]);
        }
      } else {
        IsSubseqTrans(a, b, c[1..]);
      }
    }
  }

  /** The elements of `s` that satisfy `p`, in their order in `s` (JavaScript's `Array.prototype.filter`). */
  function Filter<T>(s: seq<T>, p: T -> bool): (r: seq<T>)
    ensures |r| <= |s|
  {
    if s == [] then []
    else (if p(s[0]) then [s[0]] else []) + Filter(s[1..], p)
  }

  lemma {:induction false} FilterIsSubseq<T>(s: seq<T>, p: T -> bool)
    ensures IsSubseq(Filter(s, p), s)
  {
    if s != [] {
      FilterIsSubseq(s[1..], p);
      if p(s[0]) {
        assert Filter(s, p)[1..] == Filter(s[1..], p);
      } else {
        assert Filter(s, p) == Filter(s[1..], p);
        IsSubseqDropFront(Filter(s, p), s);
      }
    }
  }

  lemma {:induction false} FilterMembership<T>(s: seq<T>, p: T -> bool)
    ensures forall x :: x in Filter(s, p) <==> x in s && p(x)
  {
    if s != [] {
      FilterMembership(s[1..], p);
      assert forall x :: x in s <==> x == s[0] || x in s[1..];
    }
  }

  lemma FilterCons<T>(x: T, rest: seq<T>, p: T -> bool)
    ensures Filter([x] + rest, p) == (if p(x) then [x] else []) + Filter(rest, p)
  {
    assert ([x] + rest)[1..] == rest;
  }

  /** Filtering keeps every copy of an element that passes and no copy of one that fails. */
  lemma {:induction false} FilterMultiset<T>(s: seq<T>, p: T -> bool)
    ensures forall x :: multiset(Filter(s, p))[x] == if p(x) then multiset(s)[x] else 0
  {
    if s != [] {
      var y, rest := s[0], s[1..];
      assert s == [y] + rest;
      FilterCons(y, rest, p);
      FilterMultiset(rest, p);
    }
  }

  lemma {:induction false} FilterAppend<T>(a: seq<T>, b: seq<T>, p: T -> bool)
    ensures Filter(a + b, p) == Filter(a, p) + Filter(b, p)
  {
    if a == [] {
      assert a + b == b;
    } else {
      var x, rest := a[0], a[1..];
      var head: seq<T> := if p(x) then [x] else [];
      calc {
        Filter(a + b, p);
        { assert a + b == [x] + (rest + b); }
        Filter([x] + (rest + b), p);
        { FilterCons(x, rest + b, p); }
        head + Filter(rest + b, p);
        { FilterAppend(rest, b, p); }
        head + (Filter(rest, p) + Filter(b, p));
        (head + Filter(rest, p)) + Filter(b, p);
        { FilterCons(x, rest, p); assert a == [x] + rest; }
        Filter(a, p) + Filter(b, p);
      }
    }
  }

  lemma {:induction false} FilterAll<T>(s: seq<T>, p: T -> bool)
    requires forall x :: x in s ==> p(x)
    ensures Filter(s, p) == s
  {
    if s != [] {
      FilterAll(s[1..], p);
    }
  }

  lemma {:induction false} FilterNone<T>(s: seq<T>, p: T -> bool)
    requires forall x :: x in s ==> !p(x)
    ensures Filter(s, p) == []
  {
    if s != [] {
      FilterNone(s[1..], p);
    }
  }

  /** The elements of `s` that fail `p`, in order. */
  function Reject<T>(s: seq<T>, p: T -> bool): (r: seq<T>)
    ensures |r| <= |s|
  {
    if s == [] then []
    else (if p(s[0]) then [] else [s[0]]) + Reject(s[1..], p)
  }

  lemma {:induction false} RejectMembership<T>(s: seq<T>, p: T -> bool)
    ensures forall x :: x in Reject(s, p) <==> x in s && !p(x)
  {
    if s != [] {
      RejectMembership(s[1..], p);
      assert forall x :: x in s <==> x == s[0] || x in s[1..];
    }
  }

  /** The elements that fail `p` and those that pass it make up `s`. */
  lemma RejectCons<T>(x: T, rest: seq<T>, p: T -> bool)
    ensures Reject([x] + rest, p) == (if p(x) then [] else [x]) + Reject(rest, p)
  {
    assert ([x] + rest)[1..] == rest;
  }

  lemma {:induction false} RejectFilterSplit<T>(s: seq<T>, p: T -> bool)
    ensures multiset(Reject(s, p)) + multiset(Filter(s, p)) == multiset(s)
  {
    if s != [] {
      var x, rest := s[0], s[1..];
      RejectFilterSplit(rest, p);
      assert s == [x] + rest;
      FilterCons(x, rest, p);
      RejectCons(x, rest, p);
      var kept: seq<T> := if p(x) then [x] else [];
      var dropped: seq<T> := if p(x) then [] else [x];
      MultisetSplitStep(x, rest, dropped, kept, Reject(rest, p), Filter(rest, p));
    }
  }

  lemma MultisetSplitStep<T>(x: T, rest: seq<T>, dropped: seq<T>, kept: seq<T>, rr: seq<T>, kr: seq<T>)
    requires multiset(dropped) + multiset(kept) == multiset{x}
    requires multiset(rr) + multiset(kr) == multiset(rest)
    ensures multiset(dropped + rr) + multiset(kept + kr) == multiset([x] + rest)
  {
  }

  /** The parts joined with `sep` between consecutive ones (JavaScript's `Array.prototype.join`). */
  function JoinWith<T>(parts: seq<seq<T>>, sep: seq<T>): seq<T>
  {
    if parts == [] then []
    else if |parts| == 1 then parts[0]
    else parts[0] + sep + JoinWith(parts[1..], sep)
  }

  /** Joining two lists of parts with nothing between them is joining each and concatenating. */
  lemma {:induction false} JoinEmptyAppend<T>(a: seq<seq<T>>, b: seq<seq<T>>)
    ensures JoinWith(a + b, []) == JoinWith(a, []) + JoinWith(b, [])
  {
    if a == [] {
      assert a + b == b;
    } else if |a| == 1 {
      if b != [] {
        assert (a + b)[1..] == b;
      }
    } else {
      assert (a + b)[1..] == a[1..] + b;
      JoinEmptyAppend(a[1..], b);
    }
  }
}
