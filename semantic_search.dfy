/** The in-memory semantic index of src/semantic_search.py.

    The index keeps two parallel tables keyed by page number, page text and
    page embedding. The embedding provider and the similarity measure are
    capabilities handed to the index when it is created; the model only
    assumes that similarity scores are totally ordered. */
module Search {

  type Vector = seq<real>

  /** An (index, score) pair as built by `search` before sorting. */
  datatype Scored = Scored(id: nat, score: real)

  /** One search result: (page index, page content, similarity score). */
  datatype Hit = Hit(id: nat, text: string, score: real)

  /** The page numbers 0 .. n-1. */
  ghost function Ids(n: nat): set<nat> {
    if n == 0 then {} else Ids(n - 1) + {n - 1}
  }

  lemma {:induction false} IdsBounds(n: nat)
    ensures |Ids(n)| == n
    ensures forall i: nat :: i in Ids(n) <==> i < n
  {
    if n > 0 {
      IdsBounds(n - 1);
    }
  }

  /** A map whose keys are exactly 0 .. |m|-1. Together with `enumerate`
      inserting keys upward from 0, every key first inserted is larger than
      all existing ones, so the Python dict iterates in ascending key order. */
  ghost predicate Dense<T>(m: map<nat, T>) {
    forall i: nat :: i in m <==> i < |m|
  }

  /** `for idx, x in enumerate(s): m[idx] = x`, as a function of the table. */
  ghost function Overwrite<T>(m: map<nat, T>, s: seq<T>): map<nat, T>
    decreases |s|
  {
    if s == [] then m else Overwrite(m, s[..|s| - 1])[|s| - 1 := s[|s| - 1]]
  }

  /** After the enumeration, keys below |s| hold the new entries, every other
      key of the old table keeps its entry, and no other key appears. */
  lemma {:induction false} OverwriteAt<T>(m: map<nat, T>, s: seq<T>)
    ensures forall i: nat :: i in Overwrite(m, s) <==> i in m || i < |s|
    ensures forall i: nat :: i < |s| ==> i in Overwrite(m, s) && Overwrite(m, s)[i] == s[i]
    ensures forall i :: i in m && |s| <= i ==> Overwrite(m, s)[i] == m[i]
    decreases |s|
  {
    if s != [] {
      var n := |s| - 1;
      var t := s[..n];
      OverwriteAt(m, t);
      assert Overwrite(m, s) == Overwrite(m, t)[n := s[n]];
      forall i: nat | i < n
        ensures Overwrite(m, s)[i] == s[i]
      {
        assert t[i] == s[i];
      }
    }
  }

  /** The embeddings the provider gives for each page, in page order. */
  ghost function EmbedAll(embed: string -> Vector, s: seq<string>): seq<Vector> {
    seq(|s|, i requires 0 <= i < |s| => embed(s[i]))
  }

  /** Overwriting a dense table with a fresh enumeration keeps it dense: the
      keys become 0 .. max(|m|, |s|)-1. */
  lemma {:induction false} OverwriteDense<T>(m: map<nat, T>, s: seq<T>)
    requires Dense(m)
    ensures Dense(Overwrite(m, s))
    ensures |Overwrite(m, s)| == if |s| < |m| then |m| else |s|
  {
    var n := if |s| < |m| then |m| else |s|;
    OverwriteAt(m, s);
    IdsBounds(n);
    IdsBounds(|m|);
    assert m.Keys == Ids(|m|);
    assert Overwrite(m, s).Keys == Ids(n);
  }

  /** The two tables after `add_pages(newPages)`: they still share one dense key
      set; keys below |newPages| hold the new pages and their embeddings; every
      other old key keeps its page and embedding. */
  lemma EnumeratedTables(pages: map<nat, string>, embeddings: map<nat, Vector>,
                         newPages: seq<string>, embed: string -> Vector)
    requires pages.Keys == embeddings.Keys && Dense(embeddings)
    ensures var pages', embeddings' := Overwrite(pages, newPages), Overwrite(embeddings, EmbedAll(embed, newPages));
      && pages'.Keys == embeddings'.Keys && Dense(embeddings')
      && |embeddings'| == (if |newPages| < |embeddings| then |embeddings| else |newPages|)
      && (forall i: nat :: i in pages' <==> i in pages || i < |newPages|)
      && (forall i: nat :: i < |newPages| ==>
            i in pages' && pages'[i] == newPages[i] && embeddings'[i] == embed(newPages[i]))
      && (forall i :: i in pages && |newPages| <= i ==>
            pages'[i] == pages[i] && embeddings'[i] == embeddings[i])
  {
    OverwriteAt(pages, newPages);
    OverwriteAt(embeddings, EmbedAll(embed, newPages));
    OverwriteDense(embeddings, EmbedAll(embed, newPages));
  }

  /** Python slicing `xs[:k]` on a list of length n: a non-negative k keeps at
      most k entries, a negative k drops the last |k| entries. */
  function SliceLength(k: int, n: nat): (r: nat)
    ensures r <= n
  {
    if 0 <= k then (if k < n then k else n)
    else if n + k < 0 then 0 else n + k
  }

  /** The ranking order of `search`: higher score first; among equal scores the
      lower page index first, which is what a stable descending sort of a list
      in ascending index order yields. */
  predicate RanksBefore(x: Scored, y: Scored) {
    x.score > y.score || (x.score == y.score && x.id < y.id)
  }

  ghost predicate Ranked(s: seq<Scored>) {
    forall i, j :: 0 <= i < j < |s| ==> RanksBefore(s[i], s[j])
  }

  /** Swaps two entries of the list being sorted. */
  method Swap(a: array<Scored>, i: nat, j: nat)
    requires i < a.Length && j < a.Length
    modifies a
    ensures a[i] == old(a[j]) && a[j] == old(a[i])
    ensures forall p :: 0 <= p < a.Length && p != i && p != j ==> a[p] == old(a[p])
    ensures multiset(a[..]) == old(multiset(a[..]))
  {
    a[i], a[j] := a[j], a[i];
  }

  /** One step of the insertion sort: moves `a[i]` left past the entries of
      strictly lower score, so that `a[..i+1]` is ranked. */
  method SinkLeft(a: array<Scored>, i: nat)
    requires i < a.Length
    requires forall p, q :: 0 <= p < q < i ==> RanksBefore(a[p], a[q])
    requires forall p :: 0 <= p < i ==> a[p].id < a[i].id
    modifies a
    ensures forall p, q :: 0 <= p < q <= i ==> RanksBefore(a[p], a[q])
    ensures forall p :: 0 <= p <= i ==> a[p].id <= old(a[i].id)
    ensures forall p :: i < p < a.Length ==> a[p] == old(a[p])
    ensures multiset(a[..]) == old(multiset(a[..]))
  {
    ghost var x := a[i];
    var j := i;
    while 0 < j && a[j - 1].score < a[j].score
      invariant 0 <= j <= i && a[j] == x
      invariant forall p :: 0 <= p <= i && p != j ==> a[p].id < x.id
      invariant forall p, q :: 0 <= p < q <= i && p != j && q != j ==> RanksBefore(a[p], a[q])
      invariant forall q :: j < q <= i ==> RanksBefore(x, a[q])
      invariant forall p :: i < p < a.Length ==> a[p] == old(a[p])
      invariant multiset(a[..]) == old(multiset(a[..]))
    {
      Swap(a, j - 1, j);
      j := j - 1;
    }
    forall p, q | 0 <= p < q <= i
      ensures RanksBefore(a[p], a[q])
    {
      if q == j && p < j - 1 {
        assert RanksBefore(a[p], a[j - 1]);
      }
    }
  }

  /** `similarities.sort(key=lambda x: x[1], reverse=True)` on a list whose
      indices ascend: a stable insertion sort, descending by score. An entry
      moves left only past entries of strictly lower score, so entries of equal
      score keep their order. */
  method SortByScore(a: array<Scored>)
    requires forall p, q :: 0 <= p < q < a.Length ==> a[p].id < a[q].id
    modifies a
    ensures Ranked(a[..])
    ensures multiset(a[..]) == old(multiset(a[..]))
  {
    var i := 0;
    while i < a.Length
      invariant 0 <= i <= a.Length
      invariant forall p, q :: 0 <= p < q < i ==> RanksBefore(a[p], a[q])
      invariant forall p, q :: 0 <= p < i <= q < a.Length ==> a[p].id < a[q].id
      invariant forall p, q :: i <= p < q < a.Length ==> a[p].id < a[q].id
      invariant multiset(a[..]) == old(multiset(a[..]))
    {
      SinkLeft(a, i);
      i := i + 1;
    }
  }

  /** The page indices occurring in a list of pairs. */
  ghost function IdsOf(s: seq<Scored>): set<nat> {
    set x | x in s :: x.id
  }

  /** A permutation of the pairs (0, s0), (1, s1), ... holds exactly those pairs. */
  lemma PermutedPairs(before: seq<Scored>, after: seq<Scored>)
    requires forall p :: 0 <= p < |before| ==> before[p].id == p
    requires multiset(after) == multiset(before)
    ensures |after| == |before|
    ensures forall i :: 0 <= i < |after| ==> after[i].id < |before| && after[i] == before[after[i].id]
  {
    assert |after| == |multiset(after)| == |multiset(before)| == |before|;
    forall i | 0 <= i < |after|
      ensures after[i].id < |before| && after[i] == before[after[i].id]
    {
      assert after[i] in multiset(before);
      var p :| 0 <= p < |before| && before[p] == after[i];
    }
  }

  /** In a ranked permutation of the pairs (0, s0), (1, s1), ..., a pair left
      out of the first m entries ranks after every one of them. */
  lemma LeftOutRanksAfter(before: seq<Scored>, after: seq<Scored>, m: nat, id: nat)
    requires forall p :: 0 <= p < |before| ==> before[p].id == p
    requires multiset(after) == multiset(before)
    requires Ranked(after)
    requires m <= |after|
    requires id < |before| && id !in IdsOf(after[..m])
    ensures forall i :: 0 <= i < m ==> RanksBefore(after[i], before[id])
  {
    assert before[id] in multiset(after);
    var p :| 0 <= p < |after| && after[p] == before[id];
  }

  /** The page indices occurring in a list of results. */
  function HitIds(results: seq<Hit>): set<nat> {
    set h | h in results :: h.id
  }

  /** A page whose index is missing from results taken, in order, from a
      ranked permutation of the pairs (0, s0), (1, s1), ... ranks after all of
      them. */
  lemma LeftOutOfHits(before: seq<Scored>, after: seq<Scored>, results: seq<Hit>, id: nat)
    requires forall p :: 0 <= p < |before| ==> before[p].id == p
    requires multiset(after) == multiset(before)
    requires Ranked(after)
    requires |results| <= |after|
    requires forall p :: 0 <= p < |results| ==> results[p].id == after[p].id
    requires id < |before| && id !in HitIds(results)
    ensures forall i :: 0 <= i < |results| ==> RanksBefore(after[i], before[id])
  {
    LeftOutRanksAfter(before, after, |results|, id);
  }

  class SemanticSearch {
    /** The embedding provider (`_create_embedding`). */
    const embed: string -> Vector
    /** The similarity measure (`_cosine_similarity`). */
    const similarity: (Vector, Vector) -> real
    /** `_pages`: page index to page text. */
    var pages: map<nat, string>
    /** `_embeddings`: page index to embedding. */
    var embeddings: map<nat, Vector>

    /** Both tables have the same keys, and those keys are 0 .. n-1. */
    ghost predicate Valid()
      reads this
    {
      pages.Keys == embeddings.Keys && Dense(embeddings)
    }

    /** The number of stored embeddings, `len(self._embeddings)`. */
    function Size(): nat
      reads this
    {
      |embeddings|
    }

    /** The score of stored page `id` against a query embedding. */
    function ScoreOf(query: Vector, id: nat): real
      reads this
      requires id in embeddings
    {
      similarity(query, embeddings[id])
    }

    constructor (embed: string -> Vector, similarity: (Vector, Vector) -> real)
      ensures Valid()
      ensures this.embed == embed && this.similarity == similarity
      ensures pages == map[] && embeddings == map[]
    {
      this.embed := embed;
      this.similarity := similarity;
      pages := map[];
      embeddings := map[];
    }

    /** `add_pages`: numbering restarts at 0 on every call, so keys 0 .. |newPages|-1
        are overwritten and higher keys from earlier calls are kept. */
    method AddPages(newPages: seq<string>)
      requires Valid()
      modifies this
      ensures Valid()
      ensures pages == Overwrite(old(pages), newPages)
      ensures embeddings == Overwrite(old(embeddings), EmbedAll(embed, newPages))
      ensures Size() == if |newPages| < old(Size()) then old(Size()) else |newPages|
      ensures forall i: nat :: i in pages <==> i in old(pages) || i < |newPages|
      ensures forall i: nat :: i < |newPages| ==>
        i in pages && pages[i] == newPages[i] && embeddings[i] == embed(newPages[i])
      ensures forall i :: i in old(pages) && |newPages| <= i ==>
        pages[i] == old(pages)[i] && embeddings[i] == old(embeddings)[i]
    {
      var idx := 0;
      while idx < |newPages|
        invariant 0 <= idx <= |newPages|
        invariant pages == Overwrite(old(pages), newPages[..idx])
        invariant embeddings == Overwrite(old(embeddings), EmbedAll(embed, newPages[..idx]))
      {
        var page := newPages[idx];
        pages := pages[idx := page];
        var embedding := embed(page);
        embeddings := embeddings[idx := embedding];
        assert newPages[..idx + 1][..idx] == newPages[..idx];
        assert EmbedAll(embed, newPages[..idx + 1])[..idx] == EmbedAll(embed, newPages[..idx]);
        idx := idx + 1;
      }
      assert newPages[..idx] == newPages;
      EnumeratedTables(old(pages), old(embeddings), newPages, embed);
    }

    /** The list comprehension of `search`: one (index, score) pair per stored
        embedding, in the table's iteration order, which is ascending index. */
    method ScoreAll(queryEmbedding: Vector) returns (similarities: array<Scored>)
      requires Valid()
      ensures fresh(similarities) && similarities.Length == Size()
      ensures forall p :: 0 <= p < similarities.Length ==>
        p in embeddings && similarities[p] == Scored(p, ScoreOf(queryEmbedding, p))
    {
      var n := |embeddings|;
      similarities := new Scored[n];
      var idx := 0;
      while idx < n
        invariant 0 <= idx <= n
        invariant forall p :: 0 <= p < idx ==> p in embeddings && similarities[p] == Scored(p, ScoreOf(queryEmbedding, p))
      {
        similarities[idx] := Scored(idx, similarity(queryEmbedding, embeddings[idx]));
        idx := idx + 1;
      }
    }

    /** The loop of `search` over `similarities[:k]`: attaches the stored
        text to each of the first m pairs. */
    method Collect(ranked: seq<Scored>, m: nat) returns (results: seq<Hit>)
      requires m <= |ranked|
      requires forall p :: 0 <= p < |ranked| ==> ranked[p].id in pages
      ensures |results| == m
      ensures forall p :: 0 <= p < m ==> results[p] == Hit(ranked[p].id, pages[ranked[p].id], ranked[p].score)
    {
      results := [];
      var i := 0;
      while i < m
        invariant 0 <= i <= m
        invariant |results| == i
        invariant forall p :: 0 <= p < i ==> results[p] == Hit(ranked[p].id, pages[ranked[p].id], ranked[p].score)
      {
        var entry := ranked[i];
        results := results + [Hit(entry.id, pages[entry.id], entry.score)];
        i := i + 1;
      }
    }

    /** Every entry of a permutation of the (index, score) pairs names a
        stored page. */
    lemma SortedPairsStored(queryEmbedding: Vector, before: seq<Scored>, sorted: seq<Scored>)
      requires Valid()
      requires forall p :: 0 <= p < |before| ==> p in embeddings && before[p] == Scored(p, ScoreOf(queryEmbedding, p))
      requires multiset(sorted) == multiset(before)
      ensures |sorted| == |before|
      ensures forall p :: 0 <= p < |sorted| ==> sorted[p].id in pages
    {
      PermutedPairs(before, sorted);
      forall p | 0 <= p < |sorted| ensures sorted[p].id in pages {
        assert sorted[p].id in embeddings;
      }
    }

    /** The results of `search`, read off the first entries of the ranked
        permutation of the (index, score) pairs: stored pages with their texts
        and scores, best first, and no left-out page ranking before them. */
    lemma RankedResults(queryEmbedding: Vector, before: seq<Scored>, sorted: seq<Scored>, results: seq<Hit>)
      requires Valid()
      requires |before| == Size()
      requires forall p :: 0 <= p < |before| ==> p in embeddings && before[p] == Scored(p, ScoreOf(queryEmbedding, p))
      requires multiset(sorted) == multiset(before) && Ranked(sorted)
      requires |results| <= |sorted|
      requires forall p :: 0 <= p < |results| ==>
        sorted[p].id in pages && results[p] == Hit(sorted[p].id, pages[sorted[p].id], sorted[p].score)
      ensures forall i :: 0 <= i < |results| ==>
        results[i].id in embeddings && results[i].text == pages[results[i].id]
        && results[i].score == ScoreOf(queryEmbedding, results[i].id)
      ensures forall i, j :: 0 <= i < j < |results| ==>
        results[i].score > results[j].score
        || (results[i].score == results[j].score && results[i].id < results[j].id)
      ensures forall id, i :: id in embeddings && id !in HitIds(results) && 0 <= i < |results| ==>
        ScoreOf(queryEmbedding, id) < results[i].score
        || (ScoreOf(queryEmbedding, id) == results[i].score && results[i].id < id)
    {
      PermutedPairs(before, sorted);
      forall i | 0 <= i < |results|
        ensures results[i].id in embeddings && results[i].score == ScoreOf(queryEmbedding, results[i].id)
      {
        assert sorted[i] == before[sorted[i].id];
      }
      forall id | id in embeddings && id !in HitIds(results)
        ensures forall i :: 0 <= i < |results| ==> RanksBefore(sorted[i], before[id])
      {
        LeftOutOfHits(before, sorted, results, id);
      }
    }

    /** `search`: scores every stored page against the query, sorts by score
        descending (ties in ascending page order) and returns the first k. */
    method Search(query: string, k: int := 3) returns (results: seq<Hit>)
      requires Valid()
      ensures |results| == SliceLength(k, Size())
      ensures 0 <= k ==> |results| == if k < Size() then k else Size()
      ensures Size() == 0 ==> results == []
      ensures forall i :: 0 <= i < |results| ==>
        results[i].id in embeddings && results[i].text == pages[results[i].id]
        && results[i].score == ScoreOf(embed(query), results[i].id)
      ensures forall i, j :: 0 <= i < j < |results| ==>
        results[i].score > results[j].score
        || (results[i].score == results[j].score && results[i].id < results[j].id)
      ensures forall i, j :: 0 <= i < j < |results| ==> results[i].id != results[j].id
      ensures forall id, i :: id in embeddings && id !in HitIds(results) && 0 <= i < |results| ==>
        ScoreOf(embed(query), id) < results[i].score
        || (ScoreOf(embed(query), id) == results[i].score && results[i].id < id)
    {
      var queryEmbedding := embed(query);
      var similarities := ScoreAll(queryEmbedding);
      ghost var before := similarities[..];
      SortByScore(similarities);
      var sorted := similarities[..];
      var m := SliceLength(k, similarities.Length);
      SortedPairsStored(queryEmbedding, before, sorted);
      results := Collect(sorted, m);
      RankedResults(queryEmbedding, before, sorted, results);
    }
  }

  /** A caller that relies on the default `k`, as the command-line driver does:
      at most three results. */
  method SearchTopThree(index: SemanticSearch, query: string) returns (results: seq<Hit>)
    requires index.Valid()
    ensures |results| == if index.Size() < 3 then index.Size() else 3
  {
    results := index.Search(query);
  }
}
