/** The `/calculate_similarity` endpoint of the ranking server: embed every
    submitted text, score it against each cached reference embedding, average
    the scores and return the subjects sorted by that average, highest first,
    ties in submission order (Python's `sorted` is stable). */
module Ranking {
  import opened Base
  import opened Embedding

  /** `cosine_similarity`, left as a score oracle. */
  type Cosine = (Vector, Vector) -> real

  /** One entry of the answer: the subject, its score against each reference
      company (in reference order) and the average of those scores. */
  datatype Ranked = Ranked(file: string, similarities: seq<(string, real)>, average: real)

  /** The JSON answer: the ranked list, or an error status with its message. */
  datatype RankReply = Ranking(results: seq<Ranked>) | Error(status: nat, message: string)

  const NoTextsError: string := "No file texts provided"
  /** `str(ZeroDivisionError)` raised by `sum(...) / len(similarities)` when
      there is no reference embedding. */
  const DivisionByZero: string := "division by zero"

  /** Python's `sum`, left to right. */
  function Sum(xs: seq<real>): real
  {
    if xs == [] then 0.0 else Sum(xs[..|xs| - 1]) + xs[|xs| - 1]
  }

  /** `similarities.values()`. */
  function Scores(sims: seq<(string, real)>): seq<real>
  {
    seq(|sims|, k requires 0 <= k < |sims| => sims[k].1)
  }

  /** `similarities`: the score of `v` against each reference, in reference
      order. */
  function Similarities(cosine: Cosine, v: Vector, refs: seq<(string, Vector)>): seq<(string, real)>
  {
    seq(|refs|, k requires 0 <= k < |refs| => (refs[k].0, cosine(v, refs[k].1)))
  }

  /** The `results` list built by the scoring loop, in input order. */
  function Scored(cosine: Cosine, refs: seq<(string, Vector)>, embedded: seq<(string, Vector)>): (rs: seq<Ranked>)
    requires |refs| > 0
  {
    seq(|embedded|, i requires 0 <= i < |embedded| =>
      var sims := Similarities(cosine, embedded[i].1, refs);
      Ranked(embedded[i].0, sims, Sum(Scores(sims)) / (|refs| as real)))
  }

  /** Non-increasing by average. */
  ghost predicate Descending(s: seq<Ranked>)
  {
    forall i, j :: 0 <= i < j < |s| ==> s[i].average >= s[j].average
  }

  /** The entries whose average is `v`, in order. */
  function WithAverage(s: seq<Ranked>, v: real): seq<Ranked>
  {
    if s == [] then []
    else (if s[0].average == v then [s[0]] else []) + WithAverage(s[1..], v)
  }

  /** Places `x` after every entry with a strictly larger average and before
      the rest, so that `x` stays ahead of the equal entries that followed
      it in the input. */
  function Insert(x: Ranked, s: seq<Ranked>): seq<Ranked>
  {
    if s == [] then [x]
    else if s[0].average > x.average then [s[0]] + Insert(x, s[1..])
    else [x] + s
  }

  /** Inserting adds exactly `x`. */
  lemma {:induction false} InsertPermutes(x: Ranked, s: seq<Ranked>)
    ensures multiset(Insert(x, s)) == multiset(s) + multiset{x}
  {
    if s != [] && s[0].average > x.average {
      InsertPermutes(x, s[1..]);
      assert s == [s[0]] + s[1..];
    }
  }

  /** A non-increasing list stays so when an entry no larger than its head is
      put in front. */
  lemma DescendingCons(e: Ranked, t: seq<Ranked>)
    requires Descending(t)
    requires forall k :: 0 <= k < |t| ==> t[k].average <= e.average
    ensures Descending([e] + t)
  {
    forall i, j | 0 <= i < j < |[e] + t|
      ensures ([e] + t)[i].average >= ([e] + t)[j].average
    {
      if i > 0 {
        assert ([e] + t)[i] == t[i - 1];
      }
      assert ([e] + t)[j] == t[j - 1];
    }
  }

  /** Inserting into a non-increasing list keeps it non-increasing. */
  lemma {:induction false} InsertKeepsOrder(x: Ranked, s: seq<Ranked>)
    requires Descending(s)
    ensures Descending(Insert(x, s))
  {
    if s == [] {
    } else if s[0].average > x.average {
      var rest := Insert(x, s[1..]);
      assert Descending(s[1..]) by {
        forall i, j | 0 <= i < j < |s[1..]| ensures s[1..][i].average >= s[1..][j].average {
          assert s[1..][i] == s[i + 1] && s[1..][j] == s[j + 1];
        }
      }
      InsertKeepsOrder(x, s[1..]);
      InsertPermutes(x, s[1..]);
      forall k | 0 <= k < |rest| ensures rest[k].average <= s[0].average {
        assert rest[k] in multiset(rest);
        if rest[k] != x {
          assert rest[k] in multiset(s[1..]);
          var m :| 0 <= m < |s[1..]| && s[1..][m] == rest[k];
          assert s[m + 1] == rest[k];
        }
      }
      DescendingCons(s[0], rest);
    } else {
      DescendingCons(x, s);
    }
  }

  /** A non-empty list is its head and its tail. */
  lemma HeadAndTail(s: seq<Ranked>)
    requires s != []
    ensures multiset(s) == multiset(s[1..]) + multiset{s[0]}
  {
    assert s == [s[0]] + s[1..];
  }

  /** `sorted(results, key=average, reverse=True)`: a permutation of the
      input, non-increasing by average. */
  function SortByAverage(s: seq<Ranked>): (r: seq<Ranked>)
    ensures Descending(r)
    ensures multiset(r) == multiset(s)
  {
    if s == [] then []
    else
      var sorted := SortByAverage(s[1..]);
      InsertKeepsOrder(s[0], sorted);
      InsertPermutes(s[0], sorted);
      HeadAndTail(s);
      Insert(s[0], sorted)
  }

  /** A single step of the filter. */
  lemma WithAverageCons(e: Ranked, s: seq<Ranked>, v: real)
    ensures WithAverage([e] + s, v) == (if e.average == v then [e] else []) + WithAverage(s, v)
  {
    assert ([e] + s)[1..] == s;
  }

  /** Inserting keeps the relative order of the entries with any given
      average, with `x` ahead of them. */
  lemma {:induction false} InsertIsStable(x: Ranked, s: seq<Ranked>, v: real)
    ensures WithAverage(Insert(x, s), v) == WithAverage([x] + s, v)
  {
    if s != [] && s[0].average > x.average {
      var rest := Insert(x, s[1..]);
      WithAverageCons(s[0], rest, v);
      InsertIsStable(x, s[1..], v);
      WithAverageCons(x, s[1..], v);
      WithAverageCons(x, s, v);
      WithAverageHead(s, v);
    }
  }

  /** The filter of a non-empty list, by its head and its tail. */
  lemma WithAverageHead(s: seq<Ranked>, v: real)
    requires s != []
    ensures WithAverage(s, v) == (if s[0].average == v then [s[0]] else []) + WithAverage(s[1..], v)
  {
    assert s == [s[0]] + s[1..];
    WithAverageCons(s[0], s[1..], v);
  }

  /** Stability: the entries with any given average appear in the sorted
      list in the order they had in the input. */
  lemma {:induction false} SortIsStable(s: seq<Ranked>, v: real)
    ensures WithAverage(SortByAverage(s), v) == WithAverage(s, v)
  {
    if s != [] {
      var sorted := SortByAverage(s[1..]);
      InsertIsStable(s[0], sorted, v);
      WithAverageCons(s[0], sorted, v);
      SortIsStable(s[1..], v);
      assert s == [s[0]] + s[1..];
      WithAverageCons(s[0], s[1..], v);
    }
  }

  /** The filter keeps only entries of the list with that average. */
  lemma {:induction false} WithAverageMembers(s: seq<Ranked>, v: real, e: Ranked)
    requires e in WithAverage(s, v)
    ensures e in s && e.average == v
  {
    if s != [] {
      if e != s[0] || s[0].average != v {
        WithAverageMembers(s[1..], v, e);
      }
    }
  }

  /** The head of a non-empty list always survives the filter on its own
      average. */
  lemma HeadSurvives(s: seq<Ranked>)
    requires s != []
    ensures WithAverage(s, s[0].average) != []
  {
  }

  /** Dropping the head keeps a list non-increasing. */
  lemma DescendingTail(s: seq<Ranked>)
    requires s != [] && Descending(s)
    ensures Descending(s[1..])
    ensures forall e :: e in s ==> e.average <= s[0].average
  {
    forall i, j | 0 <= i < j < |s[1..]| ensures s[1..][i].average >= s[1..][j].average {
      assert s[1..][i] == s[i + 1] && s[1..][j] == s[j + 1];
    }
  }

  /** Two non-increasing lists with the same entries per average, in the same
      order, are equal. */
  lemma {:induction false} DescendingFiltersDetermine(r: seq<Ranked>, t: seq<Ranked>)
    requires Descending(r) && Descending(t)
    requires forall v :: WithAverage(r, v) == WithAverage(t, v)
    ensures r == t
    decreases |r| + |t|
  {
    if r == [] && t != [] {
      HeadSurvives(t);
      assert false;
    } else if r != [] && t == [] {
      HeadSurvives(r);
      assert false;
    } else if r != [] {
      var a := r[0].average;
      var b := t[0].average;
      DescendingTail(r);
      DescendingTail(t);
      HeadSurvives(r);
      HeadSurvives(t);
      assert WithAverage(r, a) == WithAverage(t, a);
      assert WithAverage(r, b) == WithAverage(t, b);
      WithAverageMembers(t, a, WithAverage(t, a)[0]);
      WithAverageMembers(r, b, WithAverage(r, b)[0]);
      assert a == b;
      assert r[0] == t[0] by {
        assert WithAverage(r, a)[0] == r[0];
        assert WithAverage(t, a)[0] == t[0];
      }
      forall v ensures WithAverage(r[1..], v) == WithAverage(t[1..], v) {
        var head := if a == v then [r[0]] else [];
        assert WithAverage(r, v) == head + WithAverage(r[1..], v);
        assert WithAverage(t, v) == head + WithAverage(t[1..], v);
        assert (head + WithAverage(r[1..], v))[|head|..] == WithAverage(r[1..], v);
        assert (head + WithAverage(t[1..], v))[|head|..] == WithAverage(t[1..], v);
      }
      DescendingFiltersDetermine(r[1..], t[1..]);
      assert r == [r[0]] + r[1..] && t == [t[0]] + t[1..];
    }
  }

  /** `SortByAverage` is the stable descending sort: any non-increasing list
      that keeps, for every average, the input order of the entries with that
      average, is `SortByAverage` of the input. */
  lemma StableSortIsUnique(s: seq<Ranked>, r: seq<Ranked>)
    requires Descending(r)
    requires forall v :: WithAverage(r, v) == WithAverage(s, v)
    ensures r == SortByAverage(s)
  {
    forall v ensures WithAverage(r, v) == WithAverage(SortByAverage(s), v) {
      SortIsStable(s, v);
    }
    DescendingFiltersDetermine(r, SortByAverage(s));
  }

  /** Whether the `i`-th submitted text was embedded successfully. */
  predicate EmbedsOk(service: Service, fileTexts: seq<(string, string)>, i: nat)
    requires i < |fileTexts|
  {
    Embed(service, fileTexts[i].1).reply.Embedded?
  }

  /** `input_embeddings`, when every text embedded successfully. */
  function Embeddings(service: Service, fileTexts: seq<(string, string)>): seq<(string, Vector)>
    requires forall i :: 0 <= i < |fileTexts| ==> EmbedsOk(service, fileTexts, i)
  {
    seq(|fileTexts|, i requires 0 <= i < |fileTexts| && EmbedsOk(service, fileTexts, i) =>
      (fileTexts[i].0, Embed(service, fileTexts[i].1).reply.vector))
  }

  /** The submitted texts, in order. */
  function Texts(fileTexts: seq<(string, string)>): (ts: seq<string>)
    ensures |ts| == |fileTexts|
  {
    seq(|fileTexts|, k requires 0 <= k < |fileTexts| => fileTexts[k].1)
  }

  /** The `input_embeddings` comprehension: `get_embedding` on each text in
      order; the first failure propagates. `requests` are the texts passed to
      `get_embedding`. */
  method EmbedAll(service: Service, fileTexts: seq<(string, string)>)
    returns (embedded: Result<seq<(string, Vector)>>, requests: seq<string>)
    ensures embedded.Ok? <==> forall i :: 0 <= i < |fileTexts| ==> EmbedsOk(service, fileTexts, i)
    ensures embedded.Ok? ==> embedded.value == Embeddings(service, fileTexts) && requests == Texts(fileTexts)
    ensures forall j :: 0 <= j < |fileTexts| && !EmbedsOk(service, fileTexts, j) &&
                        (forall k :: 0 <= k < j ==> EmbedsOk(service, fileTexts, k)) ==>
              embedded == Err(Embed(service, fileTexts[j].1).reply.message) &&
              requests == Texts(fileTexts)[..j + 1]
  {
    requests := [];
    var done: seq<(string, Vector)> := [];
    var i := 0;
    while i < |fileTexts|
      invariant 0 <= i <= |fileTexts|
      invariant |done| == i
      invariant forall k :: 0 <= k < i ==>
                  (EmbedsOk(service, fileTexts, k) &&
                   done[k] == (fileTexts[k].0, Embed(service, fileTexts[k].1).reply.vector))
      invariant requests == Texts(fileTexts)[..i]
    {
      var r, _, _ := GetEmbedding(service, fileTexts[i].1);
      assert Texts(fileTexts)[..i + 1] == Texts(fileTexts)[..i] + [fileTexts[i].1];
      requests := requests + [fileTexts[i].1];
      if !r.Embedded? {
        assert !EmbedsOk(service, fileTexts, i);
        return Err(r.message), requests;
      }
      done := done + [(fileTexts[i].0, r.vector)];
      i := i + 1;
    }
    assert Texts(fileTexts)[..i] == Texts(fileTexts);
    embedded := Ok(done);
  }

  /** The scoring loop: one entry per embedded subject, in order. The
      average divides by the number of references, which fails when there is
      none. */
  method ScoreAll(cosine: Cosine, refs: seq<(string, Vector)>, embedded: seq<(string, Vector)>)
    returns (results: Result<seq<Ranked>>)
    ensures refs != [] ==> results == Ok(Scored(cosine, refs, embedded))
    ensures refs == [] ==> results == if embedded == [] then Ok([]) else Err(DivisionByZero)
  {
    var done: seq<Ranked> := [];
    var j := 0;
    while j < |embedded|
      invariant 0 <= j <= |embedded|
      invariant refs != [] ==> done == Scored(cosine, refs, embedded[..j])
      invariant refs == [] ==> j == 0 && done == []
    {
      var sims := Similarities(cosine, embedded[j].1, refs);
      if |sims| == 0 {
        return Err(DivisionByZero);
      }
      var avg := Sum(Scores(sims)) / (|sims| as real);
      assert Scored(cosine, refs, embedded[..j + 1]) == Scored(cosine, refs, embedded[..j]) + [Ranked(embedded[j].0, sims, avg)];
      done := done + [Ranked(embedded[j].0, sims, avg)];
      j := j + 1;
    }
    assert embedded[..j] == embedded;
    results := Ok(done);
  }

  /** `calculate_similarity()`. `refs` is the cached reference table in its
      order; `requests` are the texts passed to `get_embedding`, in order.
      - 400 exactly when no text was submitted, and nothing is embedded then;
      - otherwise every text is embedded in order, stopping at the first
        failure, which becomes a 500 carrying that failure's message;
      - with no reference embedding the average divides by zero: 500;
      - otherwise the answer is the scored list, sorted by average. */
  method CalculateSimilarity(service: Service, cosine: Cosine, refs: seq<(string, Vector)>,
                             fileTexts: seq<(string, string)>) returns (reply: RankReply, requests: seq<string>)
    ensures reply == Error(400, NoTextsError) <==> fileTexts == []
    ensures fileTexts == [] ==> requests == []
    ensures forall j :: 0 <= j < |fileTexts| && !EmbedsOk(service, fileTexts, j) &&
                        (forall k :: 0 <= k < j ==> EmbedsOk(service, fileTexts, k)) ==>
              reply == Error(500, Embed(service, fileTexts[j].1).reply.message) &&
              requests == Texts(fileTexts)[..j + 1]
    ensures fileTexts != [] && (forall i :: 0 <= i < |fileTexts| ==> EmbedsOk(service, fileTexts, i)) ==>
              requests == Texts(fileTexts) &&
              reply == if refs == [] then Error(500, DivisionByZero)
                       else Ranking(SortByAverage(Scored(cosine, refs, Embeddings(service, fileTexts))))
  {
    if |fileTexts| == 0 {
      return Error(400, NoTextsError), [];
    }
    var embedded;
    embedded, requests := EmbedAll(service, fileTexts);
    if embedded.Err? {
      return Error(500, embedded.message), requests;
    }
    var results := ScoreAll(cosine, refs, embedded.value);
    if results.Err? {
      return Error(500, results.message), requests;
    }
    reply := Ranking(SortByAverage(results.value));
  }
}
