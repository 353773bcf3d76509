/** The chunk aggregator: after a text has been split, every group of n consecutive chunks is joined
    and appended to the very list that the loop slices. */
module ChunkAggregator {
  import opened Prelude

  function Join(chunks: seq<string>): string {
    if chunks == [] then "" else chunks[0] + Join(chunks[1..])
  }

  lemma {:induction false} JoinAppend(a: seq<string>, b: seq<string>)
    ensures Join(a + b) == Join(a) + Join(b)
  {
    if a == [] {
      assert a + b == b;
    } else {
      assert (a + b)[1..] == a[1..] + b;
      JoinAppend(a[1..], b);
    }
  }

  /** The full groups of n chunks, each joined, and the chunks left over. */
  function FullGroups(chunks: seq<string>, n: nat): seq<string>
    requires n > 0
  {
    if |chunks| < n then [] else [Join(chunks[..n])] + FullGroups(chunks[n..], n)
  }

  function Rest(chunks: seq<string>, n: nat): seq<string>
    requires n > 0
  {
    if |chunks| < n then chunks else Rest(chunks[n..], n)
  }

  function Take(s: seq<string>, k: nat): seq<string> {
    if k <= |s| then s[..k] else s
  }

  /** What the loop appends: the full groups and, if chunks are left over, one more aggregate that
      fills its group up with the first aggregates. */
  function Aggregates(chunks: seq<string>, n: nat): seq<string>
    requires n > 0
  {
    var full, rest := FullGroups(chunks, n), Rest(chunks, n);
    full + if rest == [] || |rest| > n then [] else [Join(rest + Take(full, n - |rest|))]
  }

  /** After the groups before index i, all of them full, have been appended. */
  ghost predicate Reached(chunks: seq<string>, n: nat, i: nat, full: seq<string>)
    requires n > 0 && i <= |chunks|
  {
    && FullGroups(chunks, n) == full + FullGroups(chunks[i..], n)
    && Rest(chunks, n) == Rest(chunks[i..], n)
  }

  lemma ReachNext(chunks: seq<string>, n: nat, i: nat, full: seq<string>)
    requires n > 0 && i + n <= |chunks| && Reached(chunks, n, i, full)
    ensures Reached(chunks, n, i + n, full + [Join(chunks[i..i + n])])
  {
    var tail := chunks[i..];
    assert tail[..n] == chunks[i..i + n] && tail[n..] == chunks[i + n..];
    assert FullGroups(tail, n) == [Join(tail[..n])] + FullGroups(tail[n..], n);
  }

  /** The slice of the growing list that starts at i. */
  function Slice(list: seq<string>, i: nat, n: nat): seq<string>
    requires i <= |list|
  {
    list[i..if i + n <= |list| then i + n else |list|]
  }

  lemma ReachEnd(chunks: seq<string>, n: nat, i: nat, full: seq<string>)
    requires n > 0 && i <= |chunks| < i + n && Reached(chunks, n, i, full)
    ensures i == |chunks| ==> chunks + full == chunks + Aggregates(chunks, n)
    ensures i < |chunks| ==> chunks + full + [Join(Slice(chunks + full, i, n))] == chunks + Aggregates(chunks, n)
  {
    var rest := chunks[i..];
    assert full + [] == full;
    assert FullGroups(chunks, n) == full && Rest(chunks, n) == rest;
    if i < |chunks| {
      assert Slice(chunks + full, i, n) == rest + Take(full, n - |rest|);
      var last := Join(rest + Take(full, n - |rest|));
      assert Aggregates(chunks, n) == full + [last];
      assert chunks + full + [last] == chunks + (full + [last]);
    }
  }

  /** The loop.  A group size of zero is an error and a negative one makes no group; otherwise the
      chunks stay in front and exactly the aggregates follow. */
  method Aggregate(chunks: seq<string>, n: int) returns (r: Option<seq<string>>)
    ensures r.None? <==> n == 0
    ensures n < 0 ==> r == Some(chunks)
    ensures n > 0 ==> r == Some(chunks + Aggregates(chunks, n))
  {
    if n == 0 { return None; }
    if n < 0 { return Some(chunks); }
    var list := chunks;
    var i := 0;
    ghost var full := [];
    assert chunks[0..] == chunks;
    while i < |chunks|
      invariant 0 <= i
      invariant i <= |chunks| ==> list == chunks + full && Reached(chunks, n, i, full)
      invariant i > |chunks| ==> list == chunks + Aggregates(chunks, n)
      decreases |chunks| - i
    {
      var group := Slice(list, i, n);
      if i + n <= |chunks| {
        assert group == chunks[i..i + n];
        ReachNext(chunks, n, i, full);
        full := full + [Join(group)];
      } else {
        ReachEnd(chunks, n, i, full);
      }
      list := list + [Join(group)];
      i := i + n;
    }
    if i == |chunks| { ReachEnd(chunks, n, i, full); }
    r := Some(list);
  }

  // ---------- what the aggregates are, in terms of the text ----------

  lemma {:induction false} FullGroupsLength(chunks: seq<string>, n: nat, q: nat, r: nat)
    requires n > 0 && |chunks| == q * n + r && r < n
    ensures |FullGroups(chunks, n)| == q && |Rest(chunks, n)| == r
  {
    if q == 0 {
      assert q * n == 0;
    } else {
      assert (q - 1) * n == q * n - n;
      assert (q - 1) * n >= 0;
      FullGroupsLength(chunks[n..], n, q - 1, r);
    }
  }

  lemma {:induction false} RestIsSuffix(chunks: seq<string>, n: nat)
    requires n > 0
    ensures |Rest(chunks, n)| <= |chunks| && Rest(chunks, n) == chunks[|chunks| - |Rest(chunks, n)|..]
  {
    if |chunks| >= n {
      RestIsSuffix(chunks[n..], n);
      assert chunks[n..][|chunks| - n - |Rest(chunks, n)|..] == chunks[|chunks| - |Rest(chunks, n)|..];
    }
  }

  /** The j-th full group is the join of its own n chunks. */
  lemma {:induction false} FullGroupIs(chunks: seq<string>, n: nat, j: nat)
    requires n > 0 && j < |FullGroups(chunks, n)|
    ensures j * n + n <= |chunks|
    ensures FullGroups(chunks, n)[j] == Join(chunks[j * n..j * n + n])
  {
    if j > 0 {
      FullGroupIs(chunks[n..], n, j - 1);
      assert (j - 1) * n == j * n - n;
      assert chunks[n..][j * n - n..j * n] == chunks[j * n..j * n + n];
    } else {
      assert j * n == 0;
    }
  }

  /** The first k full groups hold exactly the text of the first k * n chunks. */
  lemma {:induction false} FullGroupsJoin(chunks: seq<string>, n: nat, k: nat)
    requires n > 0 && k <= |FullGroups(chunks, n)|
    ensures k * n <= |chunks|
    ensures Join(FullGroups(chunks, n)[..k]) == Join(chunks[..k * n])
  {
    if k > 0 {
      var rest := chunks[n..];
      FullGroupsJoin(rest, n, k - 1);
      assert (k - 1) * n == k * n - n;
      assert FullGroups(chunks, n)[..k][1..] == FullGroups(rest, n)[..k - 1];
      assert chunks[..k * n] == chunks[..n] + rest[..k * n - n];
      JoinAppend(chunks[..n], rest[..k * n - n]);
    } else {
      assert k * n == 0;
    }
  }

  lemma {:induction false} PartsJoin(chunks: seq<string>, n: nat)
    requires n > 0
    ensures Join(FullGroups(chunks, n)) + Join(Rest(chunks, n)) == Join(chunks)
  {
    if |chunks| >= n {
      PartsJoin(chunks[n..], n);
      assert chunks == chunks[..n] + chunks[n..];
      JoinAppend(chunks[..n], chunks[n..]);
      assert FullGroups(chunks, n)[1..] == FullGroups(chunks[n..], n);
    }
  }

  function Min(a: int, b: int): int { if a <= b then a else b }

  /** How many of q earlier aggregates a last group of r chunks absorbs. */
  function Absorbed(n: nat, q: nat, r: nat): (k: nat)
    requires r < n
    ensures k <= q
  {
    if r == 0 then 0 else Min(n - r, q)
  }

  /** For L = q * n + r chunks there are ceil(L / n) aggregates: q full groups and, if r is not zero,
      one that joins the last r chunks with the text of the first Absorbed * n chunks again. */
  lemma AggregatesAre(chunks: seq<string>, n: nat, q: nat, r: nat)
    requires n > 0 && |chunks| == q * n + r && r < n
    ensures |Aggregates(chunks, n)| == q + if r == 0 then 0 else 1
    ensures Aggregates(chunks, n)[..q] == FullGroups(chunks, n)
    ensures Absorbed(n, q, r) * n <= |chunks|
    ensures r != 0 ==> Aggregates(chunks, n)[q] == Join(chunks[|chunks| - r..]) + Join(chunks[..Absorbed(n, q, r) * n])
  {
    var full, rest, k := FullGroups(chunks, n), Rest(chunks, n), Absorbed(n, q, r);
    FullGroupsLength(chunks, n, q, r);
    RestIsSuffix(chunks, n);
    FullGroupsJoin(chunks, n, k);
    if r != 0 {
      assert Take(full, n - |rest|) == full[..k];
      JoinAppend(rest, full[..k]);
    }
  }

  lemma JoinSnoc(s: seq<string>, last: string)
    ensures Join(s + [last]) == Join(s) + last
  {
    JoinAppend(s, [last]);
    assert Join([last]) == last + Join([]);
  }

  lemma Regroup(a: string, b: string, c: string, whole: string)
    requires a + b == whole
    ensures a + (b + c) == whole + c
  {
  }

  /** The aggregates together hold the whole text, followed only by what the last one absorbed. */
  lemma AggregatesJoin(chunks: seq<string>, n: nat, q: nat, r: nat)
    requires n > 0 && |chunks| == q * n + r && r < n
    ensures r == 0 ==> Join(Aggregates(chunks, n)) == Join(chunks)
    ensures Absorbed(n, q, r) * n <= |chunks|
    ensures r != 0 ==> Join(Aggregates(chunks, n)) == Join(chunks) + Join(chunks[..Absorbed(n, q, r) * n])
  {
    AggregatesAre(chunks, n, q, r);
    FullGroupsLength(chunks, n, q, r);
    RestIsSuffix(chunks, n);
    PartsJoin(chunks, n);
    var full, rest := FullGroups(chunks, n), Join(Rest(chunks, n));
    if r == 0 {
      assert rest == "";
      assert Aggregates(chunks, n) == full;
    } else {
      var again := Join(chunks[..Absorbed(n, q, r) * n]);
      assert Aggregates(chunks, n) == full + [rest + again];
      JoinSnoc(full, rest + again);
      Regroup(Join(full), rest, again, Join(chunks));
    }
  }
}
