/** Bounded backward reachability and changed-string extraction (`core/multidecode.py`). */
module Multidecode {
  import opened Graph
  import opened Wrappers

  // ---------- expand_value_feeders

  ghost function Sources<K(!new)>(g: Adjacency<K>, s: set<K>): set<K> {
    set u, v | u in s && u in g && v in g[u] :: v
  }

  /** What is reached in at most `d` rounds. */
  ghost function Within<K(!new)>(g: Adjacency<K>, s: set<K>, d: nat): set<K> {
    if d == 0 then s else Within(g, s, d - 1) + Sources(g, Within(g, s, d - 1))
  }

  /** There is a way of at most `d` edges from one of the start keys. */
  ghost predicate ReachedWithin<K(!new)>(g: Adjacency<K>, s: set<K>, d: nat, k: K) {
    exists p :: IsPath(g, p) && p[0] in s && p[|p| - 1] == k && |p| <= d + 1
  }

  lemma {:induction false} WithinHasPath<K(!new)>(g: Adjacency<K>, s: set<K>, d: nat, k: K)
    requires k in Within(g, s, d)
    ensures ReachedWithin(g, s, d, k)
  {
    if k in s {
      assert IsPath(g, [k]);
      assert ReachedWithin(g, s, d, k) by { var p := [k]; assert p[0] in s && p[|p| - 1] == k; }
    } else if k in Within(g, s, d - 1) {
      WithinHasPath(g, s, d - 1, k);
    } else {
      var u :| u in Within(g, s, d - 1) && u in g && k in g[u];
      WithinHasPath(g, s, d - 1, u);
      var p :| IsPath(g, p) && p[0] in s && p[|p| - 1] == u && |p| <= d;
      var q := p + [k];
      assert IsPath(g, q) by {
        forall i | 0 < i < |q| ensures Edge(g, q[i - 1], q[i]) { if i < |p| { assert Edge(g, p[i - 1], p[i]); } }
      }
      assert q[0] in s && q[|q| - 1] == k;
    }
  }

  lemma {:induction false} PathIsWithin<K(!new)>(g: Adjacency<K>, s: set<K>, d: nat, p: seq<K>)
    requires IsPath(g, p) && p[0] in s && |p| <= d + 1
    ensures p[|p| - 1] in Within(g, s, d)
    decreases d
  {
    if |p| == 1 {
      if d > 0 { PathIsWithin(g, s, d - 1, p); }
    } else {
      var init := p[..|p| - 1];
      assert IsPath(g, init) by {
        forall i | 0 < i < |init| ensures Edge(g, init[i - 1], init[i]) { assert Edge(g, p[i - 1], p[i]); }
      }
      PathIsWithin(g, s, d - 1, init);
      assert Edge(g, p[|p| - 2], p[|p| - 1]);
    }
  }

  lemma WithinMeaning<K(!new)>(g: Adjacency<K>, s: set<K>, d: nat, k: K)
    ensures k in Within(g, s, d) <==> ReachedWithin(g, s, d, k)
  {
    if k in Within(g, s, d) { WithinHasPath(g, s, d, k); }
    if ReachedWithin(g, s, d, k) {
      var p :| IsPath(g, p) && p[0] in s && p[|p| - 1] == k && |p| <= d + 1;
      PathIsWithin(g, s, d, p);
    }
  }

  /** Once a round adds nothing, no later round does. */
  lemma {:induction false} WithinStable<K(!new)>(g: Adjacency<K>, s: set<K>, d: nat, n: nat)
    requires d <= n && Sources(g, Within(g, s, d)) <= Within(g, s, d)
    ensures Within(g, s, n) == Within(g, s, d)
  {
    if d < n { WithinStable(g, s, d, n - 1); }
  }

  method ExpandValueFeeders<K(==, !new)>(storeValueKeys: set<K>, linkEdges: Adjacency<K>, maxDepth: int) returns (result: set<K>)
    ensures forall k :: k in result <==> ReachedWithin(linkEdges, storeValueKeys, if maxDepth > 0 then maxDepth else 0, k)
  {
    hide ReachedWithin;
    result := storeValueKeys;
    var frontier, depth := storeValueKeys, 0;
    while frontier != {} && depth < maxDepth
      invariant 0 <= depth && (depth > 0 ==> depth <= maxDepth)
      invariant result == Within(linkEdges, storeValueKeys, depth)
      invariant frontier <= result && Sources(linkEdges, result - frontier) <= result
      decreases maxDepth - depth
    {
      var next: set<K>;
      ghost var reached := result;
      result, next := ExpandRound(linkEdges, frontier, result);
      assert Sources(linkEdges, reached) <= Sources(linkEdges, reached - frontier) + Sources(linkEdges, frontier);
      assert result == Within(linkEdges, storeValueKeys, depth + 1);
      assert result - next == reached;
      frontier, depth := next, depth + 1;
    }
    var bound := if maxDepth > 0 then maxDepth else 0;
    assert result == Within(linkEdges, storeValueKeys, bound) by {
      if frontier == {} && depth < bound {
        assert result - frontier == result;
        WithinStable(linkEdges, storeValueKeys, depth, bound);
      }
    }
    forall k ensures k in result <==> ReachedWithin(linkEdges, storeValueKeys, bound, k) {
      WithinMeaning(linkEdges, storeValueKeys, bound, k);
    }
  }

  /** One round: the keys the frontier's edges add, and the keys known after it. */
  method ExpandRound<K(==, !new)>(linkEdges: Adjacency<K>, frontier: set<K>, known: set<K>) returns (result: set<K>, next: set<K>)
    ensures result == known + Sources(linkEdges, frontier)
    ensures next == result - known
  {
    result, next := known, {};
    var todo := frontier;
    while todo != {}
      invariant todo <= frontier
      invariant result == known + Sources(linkEdges, frontier - todo)
      invariant next == result - known
      decreases todo
    {
      var key :| key in todo;
      var sources := if key in linkEdges then linkEdges[key] else [];
      ghost var before := result;
      for i := 0 to |sources|
        invariant forall v :: v in result <==> v in before || v in sources[..i]
        invariant next == result - known
      {
        var src := sources[i];
        if src !in result {
          result, next := result + {src}, next + {src};
        }
      }
      assert sources[..|sources|] == sources;
      assert Sources(linkEdges, frontier - (todo - {key})) == Sources(linkEdges, frontier - todo) + set v | v in sources;
      todo := todo - {key};
    }
    assert frontier - todo == frontier;
  }

  // ---------- extract_changed_strings

  predicate Printable(b: Byte) { 0x20 <= b <= 0x7E }

  /** A maximal run of printable bytes. */
  ghost predicate IsRun(data: seq<Byte>, i: int, j: int)
    ensures IsRun(data, i, j) ==> 0 <= i < j <= |data|
  {
    && 0 <= i < j <= |data|
    && (forall k :: i <= k < j ==> Printable(data[k]))
    && (i > 0 ==> !Printable(data[i - 1]))
    && (j < |data| ==> !Printable(data[j]))
  }

  /** The part of `s` between two positions, as far as `s` goes. */
  function Slice(s: seq<Byte>, i: nat, j: nat): seq<Byte>
    requires i <= j
  {
    if i >= |s| then [] else if j >= |s| then s[i..] else s[i..j]
  }

  /** Long enough, and not what was there before. */
  predicate Reported(before: seq<Byte>, after: seq<Byte>, minLength: int, i: nat, j: nat)
    requires i <= j <= |after|
  {
    j - i >= minLength && after[i..j] != Slice(before, i, j)
  }

  /** A run counts if it is long enough and the earlier bytes end before it does or differ from it somewhere. */
  lemma ReportedExact(before: seq<Byte>, after: seq<Byte>, minLength: int, i: nat, j: nat)
    requires i < j <= |after|
    ensures Reported(before, after, minLength, i, j) <==>
      j - i >= minLength && (|before| < j || exists k :: i <= k < j && before[k] != after[k])
  {
    if |before| >= j {
      assert |before[i..j]| == |after[i..j]|;
      if forall k :: i <= k < j ==> before[k] == after[k] { assert before[i..j] == after[i..j]; }
      if after[i..j] == before[i..j] {
        forall k | i <= k < j ensures before[k] == after[k] { assert before[i..j][k - i] == after[i..j][k - i]; }
      }
      assert Slice(before, i, j) == before[i..j] by { if j == |before| { assert before[i..] == before[i..j]; } }
    }
  }

  datatype Found = Found(offset: nat, text: seq<Byte>)

  ghost predicate GenuineEntry(before: seq<Byte>, after: seq<Byte>, minLength: int, upTo: int, f: Found) {
    && f.offset + |f.text| <= upTo <= |after| && IsRun(after, f.offset, f.offset + |f.text|)
    && f.text == after[f.offset..f.offset + |f.text|]
    && Reported(before, after, minLength, f.offset, f.offset + |f.text|)
  }

  /** Every entry is a reported run, and they stand in offset order. */
  ghost predicate Genuine(before: seq<Byte>, after: seq<Byte>, minLength: int, upTo: int, results: seq<Found>) {
    && (forall r :: 0 <= r < |results| ==> GenuineEntry(before, after, minLength, upTo, results[r]))
    && (forall r, q :: 0 <= r < q < |results| ==> results[r].offset + |results[r].text| <= results[q].offset)
  }

  predicate Listed(results: seq<Found>, i: nat) { exists r :: 0 <= r < |results| && results[r].offset == i }

  /** Every reported run that starts before `upTo` is listed. */
  ghost predicate Exhaustive(before: seq<Byte>, after: seq<Byte>, minLength: int, upTo: int, results: seq<Found>) {
    forall i: nat, j: nat :: IsRun(after, i, j) && i < upTo && Reported(before, after, minLength, i, j) ==> Listed(results, i)
  }

  /** The result is the reported runs of the part scanned, and the scan stops early only when the cap is reached. */
  method ExtractChangedStrings(before: seq<Byte>, after: seq<Byte>, minLength: int, maxResults: int)
    returns (results: seq<Found>, ghost scanned: nat)
    ensures scanned <= |after|
    ensures Genuine(before, after, minLength, scanned, results) && Exhaustive(before, after, minLength, scanned, results)
    ensures |results| <= if maxResults > 0 then maxResults else 0
    ensures scanned == |after| || |results| == if maxResults > 0 then maxResults else 0
  {
    hide Genuine, Exhaustive;
    results := [];
    var i, n := 0, |after|;
    NothingScanned(before, after, minLength);
    while i < n && |results| < maxResults
      invariant 0 <= i <= n && |results| <= if maxResults > 0 then maxResults else 0
      invariant 0 < i < n ==> !Printable(after[i - 1]) || !Printable(after[i])
      invariant Genuine(before, after, minLength, i, results) && Exhaustive(before, after, minLength, i, results)
    {
      if Printable(after[i]) {
        var j := i;
        while j < n && Printable(after[j])
          invariant i <= j <= n && forall k :: i <= k < j ==> Printable(after[k])
        {
          j := j + 1;
        }
        var run := after[i..j];
        var keep := |run| >= minLength && run != Slice(before, i, j);
        RunFound(before, after, minLength, i, j, results);
        if keep { results := results + [Found(i, run)]; }
        i := j;
      } else {
        GapFound(before, after, minLength, i, results);
        i := i + 1;
      }
    }
    scanned := i;
  }

  lemma NothingScanned(before: seq<Byte>, after: seq<Byte>, minLength: int)
    ensures Genuine(before, after, minLength, 0, []) && Exhaustive(before, after, minLength, 0, [])
  {
  }

  /** Two maximal runs that share a position are the same run. */
  lemma RunsCoincide(data: seq<Byte>, i: int, j: int, k: int, l: int)
    requires IsRun(data, i, j) && IsRun(data, k, l) && i <= k < j
    ensures k == i && l == j
  {
  }

  lemma RunFound(before: seq<Byte>, after: seq<Byte>, minLength: int, i: nat, j: nat, results: seq<Found>)
    requires Genuine(before, after, minLength, i, results) && Exhaustive(before, after, minLength, i, results)
    requires IsRun(after, i, j)
    ensures var results' := if Reported(before, after, minLength, i, j) then results + [Found(i, after[i..j])] else results;
      Genuine(before, after, minLength, j, results') && Exhaustive(before, after, minLength, j, results')
  {
    hide IsRun, Reported, GenuineEntry;
    var f := Found(i, after[i..j]);
    var results' := if Reported(before, after, minLength, i, j) then results + [f] else results;
    forall r | 0 <= r < |results| ensures GenuineEntry(before, after, minLength, j, results[r]) && results[r].offset + |results[r].text| <= i {
      EntryKept(before, after, minLength, i, j, results[r]);
    }
    if Reported(before, after, minLength, i, j) { EntryNew(before, after, minLength, i, j); }
    forall k: nat, l: nat | IsRun(after, k, l) && k < j && Reported(before, after, minLength, k, l) ensures Listed(results', k) {
      if k >= i {
        RunsCoincide(after, i, j, k, l);
        assert results'[|results|].offset == k;
      } else {
        assert Listed(results, k);
        var r :| 0 <= r < |results| && results[r].offset == k;
        assert results'[r].offset == k;
      }
    }
  }

  lemma EntryKept(before: seq<Byte>, after: seq<Byte>, minLength: int, i: int, j: int, f: Found)
    requires GenuineEntry(before, after, minLength, i, f) && i <= j <= |after|
    ensures GenuineEntry(before, after, minLength, j, f) && f.offset + |f.text| <= i
  {
  }

  lemma EntryNew(before: seq<Byte>, after: seq<Byte>, minLength: int, i: nat, j: nat)
    requires IsRun(after, i, j) && Reported(before, after, minLength, i, j)
    ensures GenuineEntry(before, after, minLength, j, Found(i, after[i..j]))
  {
  }

  lemma GapFound(before: seq<Byte>, after: seq<Byte>, minLength: int, i: nat, results: seq<Found>)
    requires Genuine(before, after, minLength, i, results) && Exhaustive(before, after, minLength, i, results)
    requires i < |after| && !Printable(after[i])
    ensures Genuine(before, after, minLength, i + 1, results) && Exhaustive(before, after, minLength, i + 1, results)
  {
    hide Reported, Listed, GenuineEntry;
    forall r | 0 <= r < |results| ensures GenuineEntry(before, after, minLength, i + 1, results[r]) {
      EntryKept(before, after, minLength, i, i + 1, results[r]);
    }
    forall k: nat, l: nat | IsRun(after, k, l) && k < i + 1 && Reported(before, after, minLength, k, l) ensures Listed(results, k) {
      assert k != i;
    }
  }
}
