/** Sequences cut into groups of one size, each group mapped on its own. */
module Groups {
  import opened Buffers

  /** The images of the whole groups of `n` items, in order; a shorter rest is left out. */
  function MapGroups<A, B>(n: nat, f: seq<A> -> seq<B>, s: seq<A>): seq<B>
    requires n > 0
    decreases |s|
  {
    if |s| < n then [] else f(s[..n]) + MapGroups(n, f, s[n..])
  }

  /** What is left after the whole groups. */
  function Rest<A>(n: nat, s: seq<A>): (r: seq<A>)
    requires n > 0
    ensures |r| < n
    decreases |s|
  {
    if |s| < n then s else Rest(n, s[n..])
  }

  lemma {:induction false} MapAppends<A, B>(n: nat, f: seq<A> -> seq<B>, a: seq<A>, b: seq<A>, k: nat)
    requires n > 0 && |a| == k * n
    ensures MapGroups(n, f, a + b) == MapGroups(n, f, a) + MapGroups(n, f, b)
    ensures Rest(n, a + b) == Rest(n, b)
    decreases k
  {
    if k == 0 {
      assert a + b == b && [] + MapGroups(n, f, b) == MapGroups(n, f, b);
    } else {
      assert k * n == (k - 1) * n + n;
      MapAppends(n, f, a[n..], b, k - 1);
      assert (a + b)[..n] == a[..n] && (a + b)[n..] == a[n..] + b;
      Associates(f(a[..n]), MapGroups(n, f, a[n..]), MapGroups(n, f, b));
    }
  }

  /** Whole groups, then the rest. */
  lemma {:induction false} Split<A>(n: nat, s: seq<A>) returns (groups: seq<A>, k: nat)
    requires n > 0
    ensures s == groups + Rest(n, s) && |groups| == k * n
    decreases |s|
  {
    if |s| < n {
      return [], 0;
    }
    groups, k := Split(n, s[n..]);
    assert s == s[..n] + groups + Rest(n, s);
    groups, k := s[..n] + groups, k + 1;
    assert k * n == (k - 1) * n + n;
  }

  lemma MapOne<A, B>(n: nat, f: seq<A> -> seq<B>, g: seq<A>)
    requires n > 0 && |g| == n
    ensures MapGroups(n, f, g) == f(g)
  {
    assert g[..n] == g && g[n..] == [] && f(g) + [] == f(g);
  }

  ghost predicate All<A(!new)>(ok: A -> bool, s: seq<A>) {
    forall i :: 0 <= i < |s| ==> ok(s[i])
  }

  /** Every acceptable group of `n` items gives `m`, and `g` takes them back. */
  ghost predicate Inverts<A(!new), B>(n: nat, m: nat, ok: A -> bool, f: seq<A> -> seq<B>, g: seq<B> -> seq<A>) {
    forall x :: |x| == n && All(ok, x) ==> |f(x)| == m && g(f(x)) == x
  }

  lemma {:induction false} MapInverts<A(!new), B>(n: nat, m: nat, ok: A -> bool, f: seq<A> -> seq<B>,
                                                  g: seq<B> -> seq<A>, s: seq<A>, k: nat)
    requires n > 0 && m > 0 && |s| == k * n && All(ok, s) && Inverts(n, m, ok, f, g)
    ensures |MapGroups(n, f, s)| == k * m && MapGroups(m, g, MapGroups(n, f, s)) == s
    decreases k
  {
    if k != 0 {
      assert k * n == (k - 1) * n + n && k * m == (k - 1) * m + m;
      var first, rest := s[..n], s[n..];
      MapInverts(n, m, ok, f, g, rest, k - 1);
      assert All(ok, first) && |f(first)| == m;
      var t := MapGroups(n, f, s);
      assert t[..m] == f(first) && t[m..] == MapGroups(n, f, rest);
      assert first + rest == s;
    }
  }

  // ---- Images written into a buffer, group by group ----

  /** The images of the first `k` groups fill the front `out` places; the rest of the buffer is as it was. */
  ghost predicate Mapped<A, B>(n: nat, f: seq<A> -> seq<B>, s: seq<A>, at: nat, k: nat,
                               now: seq<B>, out: nat, was: seq<B>)
    requires n > 0
  {
    && at == k * n && at <= |s| && out <= |was| && |MapGroups(n, f, s[..at])| == out
    && now == MapGroups(n, f, s[..at]) + was[out..]
  }

  lemma MappedGrows<A, B>(n: nat, f: seq<A> -> seq<B>, s: seq<A>, at: nat, k: nat,
                          now: seq<B>, out: nat, m: nat, was: seq<B>)
    requires n > 0 && Mapped(n, f, s, at, k, now, out, was)
    requires at + n <= |s| && out + m <= |was| && |f(s[at..at + n])| == m
    ensures |now| == |was|
    ensures Mapped(n, f, s, at + n, k + 1, Overwrite(now, out, f(s[at..at + n])), out + m, was)
  {
    var g := s[at..at + n];
    assert (k + 1) * n == k * n + n;
    assert s[..at + n] == s[..at] + g;
    MapAppends(n, f, s[..at], g, k);
    MapOne(n, f, g);
    OverwriteNext(MapGroups(n, f, s[..at]), f(g), was);
  }

  lemma MappedGrowsTwice<A, B>(n: nat, f: seq<A> -> seq<B>, s: seq<A>, at: nat, k: nat,
                               now: seq<B>, out: nat, m: nat, was: seq<B>)
    requires n > 0 && Mapped(n, f, s, at, k, now, out, was)
    requires at + n + n <= |s| && out + m + m <= |was|
    requires |f(s[at..at + n])| == m && |f(s[at + n..at + n + n])| == m
    ensures |now| == |was|
    ensures Mapped(n, f, s, at + n + n, k + 2,
                   Overwrite(now, out, f(s[at..at + n]) + f(s[at + n..at + n + n])), out + m + m, was)
  {
    MappedGrows(n, f, s, at, k, now, out, m, was);
    MappedGrows(n, f, s, at + n, k + 1, Overwrite(now, out, f(s[at..at + n])), out + m, m, was);
    OverwriteTwice(now, out, f(s[at..at + n]), f(s[at + n..at + n + n]));
  }
}
