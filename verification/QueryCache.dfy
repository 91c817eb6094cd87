/** The bounded cache of query embeddings, and the recency list it must agree with. */
module QueryCache {
  import opened Text

  const MAX_ENTRIES: nat := 512

  /** A query is keyed by the model and the stripped text. */
  datatype Key = Key(model: string, text: string)

  type Vector = seq<real>

  /** One query: its key, and the vector the provider would return for it now. */
  datatype Query = Query(key: Key, fetched: Vector)

  /** Keys from least to most recently used, and the vector stored for each. */
  datatype Cache = Cache(order: seq<Key>, vectors: map<Key, Vector>)

  const EmptyCache: Cache := Cache([], map[])

  function Without<T(==)>(s: seq<T>, x: T): seq<T> {
    if s == [] then []
    else if s[0] == x then Without(s[1..], x)
    else [s[0]] + Without(s[1..], x)
  }

  /** One query against the cache: its new content, the vector returned, and whether the provider was called. */
  function Serve(c: Cache, q: Query): (Cache, Vector, bool) {
    if q.key in c.vectors then (c.(order := Without(c.order, q.key) + [q.key]), c.vectors[q.key], false)
    else
      var grown := Cache(c.order + [q.key], c.vectors[q.key := q.fetched]);
      if |grown.order| > MAX_ENTRIES
      then (Cache(grown.order[1..], grown.vectors - {grown.order[0]}), q.fetched, true)
      else (grown, q.fetched, true)
  }

  class EmbeddingService {
    const model: string
    var order: seq<Key>
    var vectors: map<Key, Vector>

    ghost function Content(): Cache
      reads this
    {
      Cache(order, vectors)
    }

    constructor (model: string)
      ensures this.model == model && Content() == EmptyCache
    {
      this.model := model;
      order, vectors := [], map[];
    }

    /** Embed a query text; `fetched` is what the provider returns if it is called. */
    method EmbedQuery(text: string, fetched: Vector) returns (vector: Vector, called: bool)
      modifies this`order, this`vectors
      ensures (Content(), vector, called) == Serve(old(Content()), Query(Key(model, Strip(text)), fetched))
    {
      var key := Key(model, Strip(text));
      if key in vectors {
        order := Without(order, key) + [key];
        return vectors[key], false;
      }
      order, vectors := order + [key], vectors[key := fetched];
      if |order| > MAX_ENTRIES {
        var oldest := order[0];
        order, vectors := order[1..], vectors - {oldest};
      }
      return fetched, true;
    }
  }

  // ---- The specification: only the history of queries ----

  /** The distinct keys of a history by last use, least recent first. */
  function ByLastUse(history: seq<Query>): seq<Key> {
    if history == [] then []
    else Without(ByLastUse(history[..|history| - 1]), history[|history| - 1].key) + [history[|history| - 1].key]
  }

  function LastOf<T>(s: seq<T>, n: nat): seq<T> {
    if |s| <= n then s else s[|s| - n..]
  }

  /** The cache after a history. */
  function After(history: seq<Query>): Cache {
    if history == [] then EmptyCache else Serve(After(history[..|history| - 1]), history[|history| - 1]).0
  }

  /** Query `i` of a history called the provider. */
  predicate Missed(history: seq<Query>, i: nat)
    requires i < |history|
  {
    Serve(After(history[..i]), history[i]).2
  }

  ghost predicate NoDuplicates<T>(s: seq<T>) {
    forall i, j :: 0 <= i < j < |s| ==> s[i] != s[j]
  }

  lemma {:induction false} WithoutLaws<T>(s: seq<T>, x: T)
    ensures x !in Without(s, x)
    ensures forall y :: y in Without(s, x) <==> y in s && y != x
    ensures x !in s ==> Without(s, x) == s
  {
    if s != [] {
      WithoutLaws(s[1..], x);
      assert s == [s[0]] + s[1..];
    }
  }

  lemma {:induction false} WithoutOfDistinct<T>(s: seq<T>, x: T)
    requires NoDuplicates(s)
    ensures NoDuplicates(Without(s, x))
    ensures |Without(s, x)| == if x in s then |s| - 1 else |s|
  {
    if s != [] {
      assert s == [s[0]] + s[1..];
      assert NoDuplicates(s[1..]) && s[0] !in s[1..];
      WithoutOfDistinct(s[1..], x);
      WithoutLaws(s[1..], x);
    }
  }

  lemma {:induction false} WithoutOfAppend<T>(a: seq<T>, b: seq<T>, x: T)
    ensures Without(a + b, x) == Without(a, x) + Without(b, x)
  {
    if a == [] {
      assert a + b == b;
    } else {
      WithoutOfAppend(a[1..], b, x);
      assert (a + b)[1..] == a[1..] + b;
    }
  }

  lemma {:induction false} ByLastUseHasNoDuplicates(history: seq<Query>)
    ensures NoDuplicates(ByLastUse(history))
    ensures forall k :: k in ByLastUse(history) <==> exists i :: 0 <= i < |history| && history[i].key == k
  {
    if history != [] {
      var init, last := history[..|history| - 1], history[|history| - 1];
      ByLastUseHasNoDuplicates(init);
      WithoutLaws(ByLastUse(init), last.key);
      WithoutOfDistinct(ByLastUse(init), last.key);
      forall k ensures k in ByLastUse(history) <==> exists i :: 0 <= i < |history| && history[i].key == k {
        if k in ByLastUse(init) {
          var i :| 0 <= i < |init| && init[i].key == k;
          assert history[i].key == k;
        }
        if i :| 0 <= i < |history| && history[i].key == k && k != last.key {
          assert init[i].key == k;
        }
      }
    }
  }

  lemma {:induction false} LastOfSplit<T>(a: seq<T>, b: seq<T>, n: nat)
    requires |b| == n || (a == [] && |b| <= n)
    ensures LastOf(a + b, n) == b
  {
  }

  ghost function UsedWindow(window: seq<Key>, k: Key, n: nat): seq<Key> {
    if k in window then Without(window, k) + [k]
    else if |window| == n && n > 0 then window[1..] + [k]
    else window + [k]
  }

  lemma {:induction false} UseInsideWindow(before: seq<Key>, window: seq<Key>, k: Key, n: nat)
    requires NoDuplicates(before + window) && k in window
    requires |window| == n || (before == [] && |window| <= n)
    ensures LastOf(Without(before + window, k) + [k], n) == Without(window, k) + [k]
  {
    WithoutOfAppend(before, window, k);
    DistinctParts(before, window, k);
    WindowIsDistinct(before, window);
    WithoutLaws(before, k);
    WithoutOfDistinct(window, k);
    assert Without(before + window, k) + [k] == before + (Without(window, k) + [k]);
    LastOfSplit(before, Without(window, k) + [k], n);
  }

  lemma {:induction false} Regroup<T>(a: seq<T>, window: seq<T>, k: T)
    requires window != []
    ensures (a + window) + [k] == (a + [window[0]]) + (window[1..] + [k])
  {
  }

  lemma {:induction false} UseOutsideWindow(before: seq<Key>, window: seq<Key>, k: Key)
    requires window != [] && k !in window
    ensures LastOf(Without(before + window, k) + [k], |window|) == window[1..] + [k]
  {
    WithoutOfAppend(before, window, k);
    WithoutLaws(window, k);
    var dropped := Without(before, k) + [window[0]];
    Regroup(Without(before, k), window, k);
    LastOfSplit(dropped, window[1..] + [k], |window|);
  }

  /** Using `k` once more moves it to the end of the recency list; the last `n` of the list move with it. */
  lemma {:induction false} UseMovesWindow(used: seq<Key>, k: Key, n: nat)
    requires n > 0 && NoDuplicates(used)
    ensures LastOf(Without(used, k) + [k], n) == UsedWindow(LastOf(used, n), k, n)
  {
    var window := LastOf(used, n);
    var before := used[..|used| - |window|];
    assert used == before + window;
    if k in window {
      UseInsideWindow(before, window, k, n);
    } else if |window| == n {
      UseOutsideWindow(before, window, k);
    } else {
      WithoutLaws(used, k);
    }
  }

  lemma {:induction false} DistinctParts<T>(a: seq<T>, b: seq<T>, x: T)
    requires NoDuplicates(a + b) && x in b
    ensures x !in a
  {
    var i :| 0 <= i < |b| && b[i] == x;
    assert (a + b)[|a| + i] == x;
    forall j | 0 <= j < |a| ensures a[j] != x {
      assert (a + b)[j] == a[j];
    }
  }

  lemma {:induction false} WindowIsDistinct<T>(a: seq<T>, b: seq<T>)
    requires NoDuplicates(a + b)
    ensures NoDuplicates(b)
  {
    forall i, j | 0 <= i < j < |b| ensures b[i] != b[j] {
      assert (a + b)[|a| + i] == b[i] && (a + b)[|a| + j] == b[j];
    }
  }

  ghost predicate Refines(c: Cache, history: seq<Query>) {
    c.order == LastOf(ByLastUse(history), MAX_ENTRIES) && c.vectors.Keys == set k | k in c.order
  }

  /** The stored vector of a cached key is the answer that its most recent miss fetched. */
  ghost predicate StoredByLastMiss(c: Cache, history: seq<Query>) {
    forall k :: k in c.vectors ==> exists i :: IsLastMiss(history, k, i) && history[i].fetched == c.vectors[k]
  }

  ghost predicate IsLastMiss(history: seq<Query>, k: Key, i: int) {
    && 0 <= i < |history| && history[i].key == k && Missed(history, i)
    && forall j :: i < j < |history| && history[j].key == k ==> !Missed(history, j)
  }

  lemma {:induction false} MissesOfPrefix(history: seq<Query>, n: nat, i: nat)
    requires i < n <= |history|
    ensures Missed(history[..n], i) == Missed(history, i)
  {
    assert history[..n][..i] == history[..i];
  }

  lemma {:induction false} NoLaterMiss(history: seq<Query>, init: seq<Query>, k: Key, i: int, j: nat)
    requires history != [] && init == history[..|history| - 1] && IsLastMiss(init, k, i)
    requires i < j < |history| && history[j].key == k
    requires history[|history| - 1].key == k ==> !Missed(history, |history| - 1)
    ensures !Missed(history, j)
  {
    if j < |init| {
      MissesOfPrefix(history, |init|, j);
      assert init[j].key == k;
    }
  }

  lemma {:induction false} LastMissPersists(history: seq<Query>, k: Key, i: int)
    requires history != [] && IsLastMiss(history[..|history| - 1], k, i)
    requires history[|history| - 1].key == k ==> !Missed(history, |history| - 1)
    ensures IsLastMiss(history, k, i)
  {
    var init := history[..|history| - 1];
    MissesOfPrefix(history, |init|, i);
    forall j | i < j < |history| && history[j].key == k ensures !Missed(history, j) {
      NoLaterMiss(history, init, k, i, j);
    }
  }

  /** One query keeps the order of the window and the keys of the map together. */
  lemma {:induction false} ServeMovesWindow(c: Cache, q: Query)
    requires NoDuplicates(c.order) && |c.order| <= MAX_ENTRIES && c.vectors.Keys == set k | k in c.order
    ensures var next := Serve(c, q).0;
            next.order == UsedWindow(c.order, q.key, MAX_ENTRIES) && next.vectors.Keys == set k | k in next.order
    ensures Serve(c, q).2 <==> q.key !in c.order
  {
    if q.key in c.order {
      WithoutLaws(c.order, q.key);
    } else if |c.order| == MAX_ENTRIES {
      var grown := c.order + [q.key];
      assert grown[1..] == c.order[1..] + [q.key];
      assert forall k :: k in grown[1..] <==> k in grown && k != grown[0];
    }
  }

  lemma {:induction false} ServeRefines(c: Cache, history: seq<Query>, q: Query)
    requires Refines(c, history)
    ensures Refines(Serve(c, q).0, history + [q])
    ensures Serve(c, q).2 <==> q.key !in LastOf(ByLastUse(history), MAX_ENTRIES)
  {
    assert (history + [q])[..|history|] == history;
    ByLastUseHasNoDuplicates(history);
    var used := ByLastUse(history);
    assert used == used[..|used| - |LastOf(used, MAX_ENTRIES)|] + LastOf(used, MAX_ENTRIES);
    WindowIsDistinct(used[..|used| - |LastOf(used, MAX_ENTRIES)|], LastOf(used, MAX_ENTRIES));
    UseMovesWindow(used, q.key, MAX_ENTRIES);
    ServeMovesWindow(c, q);
  }

  lemma {:induction false} ServeKeepsStored(history: seq<Query>)
    requires history != []
    requires Refines(After(history[..|history| - 1]), history[..|history| - 1])
    requires StoredByLastMiss(After(history[..|history| - 1]), history[..|history| - 1])
    ensures StoredByLastMiss(After(history), history)
  {
    var init, q := history[..|history| - 1], history[|history| - 1];
    var before, after := After(init), After(history);
    forall k | k in after.vectors
      ensures exists i :: IsLastMiss(history, k, i) && history[i].fetched == after.vectors[k]
    {
      if k == q.key && k !in before.vectors {
        assert IsLastMiss(history, k, |history| - 1);
      } else {
        assert k in before.vectors && after.vectors[k] == before.vectors[k];
        var i :| IsLastMiss(init, k, i) && init[i].fetched == before.vectors[k];
        LastMissPersists(history, k, i);
        assert history[i] == init[i];
      }
    }
  }

  /** After any history of queries the cache holds exactly the last 512 distinct keys, least recent
      first; each stored vector is what the last miss of its key fetched; and the next query calls the
      provider exactly when its key is not among those keys. */
  lemma {:induction false} CacheRefinesRecencyList(history: seq<Query>)
    ensures Refines(After(history), history)
    ensures StoredByLastMiss(After(history), history)
    ensures forall q :: Serve(After(history), q).2 <==> q.key !in LastOf(ByLastUse(history), MAX_ENTRIES)
    decreases |history|
  {
    if history != [] {
      var init, last := history[..|history| - 1], history[|history| - 1];
      CacheRefinesRecencyList(init);
      assert init + [last] == history;
      ServeRefines(After(init), init, last);
      ServeKeepsStored(history);
    }
    forall q ensures Serve(After(history), q).2 <==> q.key !in LastOf(ByLastUse(history), MAX_ENTRIES) {
      ServeRefines(After(history), history, q);
    }
  }

  /** Whatever was asked before, a query that calls the provider is answered with what the provider returns
      now, and any other query with what its own most recent provider call returned. */
  lemma {:induction false} AnswersComeFromTheProvider(history: seq<Query>, q: Query)
    ensures var (_, vector, called) := Serve(After(history), q);
            && (called ==> vector == q.fetched)
            && (!called ==> exists i :: IsLastMiss(history, q.key, i))
            && (!called ==> forall i :: IsLastMiss(history, q.key, i) ==> vector == history[i].fetched)
  {
    var (_, vector, called) := Serve(After(history), q);
    CacheRefinesRecencyList(history);
    if !called {
      var i :| IsLastMiss(history, q.key, i) && history[i].fetched == After(history).vectors[q.key];
      assert forall j :: IsLastMiss(history, q.key, j) ==> !(i < j) && !(j < i);
    }
  }
}
