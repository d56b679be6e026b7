/** Values stored over part of a sequence or an array. */
module Buffers {
  function Overwrite<T>(s: seq<T>, at: nat, values: seq<T>): (r: seq<T>)
    requires at + |values| <= |s|
    ensures |r| == |s|
  {
    s[..at] + values + s[at + |values|..]
  }

  lemma OverwriteNext<T>(done: seq<T>, next: seq<T>, was: seq<T>)
    requires |done| + |next| <= |was|
    ensures Overwrite(done + was[|done|..], |done|, next) == done + next + was[|done| + |next|..]
  {
  }

  lemma OverwriteTwice<T>(s: seq<T>, at: nat, a: seq<T>, b: seq<T>)
    requires at + |a| + |b| <= |s|
    ensures Overwrite(Overwrite(s, at, a), at + |a|, b) == Overwrite(s, at, a + b)
  {
  }

  lemma SliceOfSlice<T>(s: seq<T>, a: nat, b: nat, c: nat, d: nat)
    requires a <= b <= |s| && c <= d <= b - a
    ensures s[a..b][c..d] == s[a + c..a + d]
  {
    var t := s[a..b];
    assert |t[c..d]| == |s[a + c..a + d]|;
    assert forall i :: 0 <= i < d - c ==> t[c..d][i] == t[c + i] == s[a + c..a + d][i];
  }

  lemma Associates<T>(a: seq<T>, b: seq<T>, c: seq<T>)
    ensures a + (b + c) == a + b + c
  {
  }

  /** Stores values at consecutive positions. */
  method Put<T>(output: array<T>, at: nat, values: seq<T>)
    requires at + |values| <= output.Length
    modifies output
    ensures output[..] == Overwrite(old(output[..]), at, values)
  {
    forall i | at <= i < at + |values| {
      output[i] := values[i - at];
    }
  }

  /** The parts, one after the other. */
  function Concat<T>(parts: seq<seq<T>>): seq<T>
    decreases |parts|
  {
    if parts == [] then [] else parts[0] + Concat(parts[1..])
  }

  lemma {:induction false} ConcatAppends<T>(a: seq<seq<T>>, b: seq<seq<T>>)
    ensures Concat(a + b) == Concat(a) + Concat(b)
    decreases |a|
  {
    if a == [] {
      assert a + b == b;
    } else {
      ConcatAppends(a[1..], b);
      assert (a + b)[1..] == a[1..] + b;
    }
  }

  lemma {:induction false} ConcatPrepends<T>(part: seq<T>, parts: seq<seq<T>>)
    ensures Concat([part] + parts) == part + Concat(parts)
  {
    assert ([part] + parts)[1..] == parts;
  }

  lemma {:induction false} ConcatOne<T>(part: seq<T>)
    ensures Concat([part]) == part
  {
    assert part + [] == part;
  }
}
