/** The reference-company table of the ranking server and the start-up loop
    that fills its embedding cache. */
module ReferenceCache {
  import opened Base
  import opened Embedding

  /** `reference_companies`: (name, description) in the dict's order. */
  const ReferenceCompanies: seq<(string, string)> := [
    ("american_family_insurance",
     "American Family Insurance, commonly known as AmFam, is a leading mutual insurance company headquartered in Madison, Wisconsin..."),
    ("verizon",
     "Verizon Communications Inc. is a leading global provider of telecommunications, technology, and media services..."),
    ("rockwell",
     "Rockwell Automation is a leading global provider of industrial automation and digital transformation solutions...")
  ]

  /** `reference_embeddings`: a name maps to `None` until its embedding is
      known. */
  type Cache = map<string, Option<Vector>>

  /** The names of a table. */
  function NamesOf(companies: seq<(string, string)>): set<string>
  {
    set k | 0 <= k < |companies| :: companies[k].0
  }

  /** `{name: None for name in reference_companies}`. */
  function EmptyCache(companies: seq<(string, string)>): Cache
  {
    map name | name in NamesOf(companies) :: None
  }

  /** Dict keys are distinct. */
  ghost predicate DistinctNames(companies: seq<(string, string)>)
  {
    forall i, j :: 0 <= i < j < |companies| ==> companies[i].0 != companies[j].0
  }

  /** Whether entry `k` still has to be computed when the loop reaches it. */
  predicate Unset(cache: Cache, companies: seq<(string, string)>, k: nat)
    requires k < |companies|
  {
    companies[k].0 in cache && cache[companies[k].0].None?
  }

  /** Whether the description of entry `k` embeds successfully. */
  predicate EmbedsOk(service: Service, companies: seq<(string, string)>, k: nat)
    requires k < |companies|
  {
    Embed(service, companies[k].1).reply.Embedded?
  }

  /** `reference_embeddings.items()` once every entry is set: the dict was
      built from the table, so its order is the table's. */
  function Refs(companies: seq<(string, string)>, filled: Cache): seq<(string, Vector)>
    requires forall k :: 0 <= k < |companies| ==> companies[k].0 in filled && filled[companies[k].0].Some?
  {
    seq(|companies|, k requires 0 <= k < |companies| => (companies[k].0, filled[companies[k].0].value))
  }

  /** The descriptions of the unset entries from index `i` to `j`, in
      table order. */
  function Pending(cache: Cache, companies: seq<(string, string)>, i: nat, j: nat): seq<string>
    requires i <= j <= |companies|
    decreases j - i
  {
    if i == j then []
    else (if Unset(cache, companies, i) then [companies[i].1] else []) + Pending(cache, companies, i + 1, j)
  }

  /** What start-up ends with: the cache, the reply that aborted it if any, and
      the descriptions sent to `get_embedding`, in order. */
  datatype Startup = Startup(filled: Cache, failure: Option<Reply>, requests: seq<string>)

  /** The precompute loop from entry `i` on, as a recursive reference
      definition. */
  function FillFrom(service: Service, companies: seq<(string, string)>, i: nat, filled: Cache, requests: seq<string>)
    : (s: Startup)
    requires i <= |companies|
    requires forall k :: i <= k < |companies| ==> companies[k].0 in filled
    ensures s.filled.Keys == filled.Keys
    decreases |companies| - i
  {
    if i == |companies| then Startup(filled, None, requests)
    else
      var name := companies[i].0;
      var desc := companies[i].1;
      if filled[name].None? then
        var r := Embed(service, desc).reply;
        if !r.Embedded? then Startup(filled, Some(r), requests + [desc])
        else FillFrom(service, companies, i + 1, filled[name := Some(r.vector)], requests + [desc])
      else FillFrom(service, companies, i + 1, filled, requests)
  }

  /** Start-up from `cache`: `FillFrom` at the first entry. */
  function Fill(service: Service, companies: seq<(string, string)>, cache: Cache): Startup
    requires forall k :: 0 <= k < |companies| ==> companies[k].0 in cache
  {
    FillFrom(service, companies, 0, cache, [])
  }

  /** Entries whose unset status agrees in two caches give the same pending
      descriptions. */
  lemma {:induction false} PendingAgrees(c1: Cache, c2: Cache, companies: seq<(string, string)>, i: nat, j: nat)
    requires i <= j <= |companies|
    requires forall k :: i <= k < j ==> Unset(c1, companies, k) == Unset(c2, companies, k)
    ensures Pending(c1, companies, i, j) == Pending(c2, companies, i, j)
    decreases j - i
  {
    if i < j {
      PendingAgrees(c1, c2, companies, i + 1, j);
    }
  }

  /** The loop changes only unset entries that it reaches: an entry that is
      already set, or whose name is not in the rest of the table, keeps its
      value. */
  lemma {:induction false} FillFrame(service: Service, companies: seq<(string, string)>, i: nat, filled: Cache,
                                     requests: seq<string>, name: string)
    requires i <= |companies|
    requires forall k :: i <= k < |companies| ==> companies[k].0 in filled
    requires name in filled
    requires filled[name].Some? || forall k :: i <= k < |companies| ==> companies[k].0 != name
    ensures FillFrom(service, companies, i, filled, requests).filled[name] == filled[name]
    decreases |companies| - i
  {
    if i < |companies| {
      var n := companies[i].0;
      if filled[n].None? {
        var r := Embed(service, companies[i].1).reply;
        if r.Embedded? {
          FillFrame(service, companies, i + 1, filled[n := Some(r.vector)], requests + [companies[i].1], name);
        }
      } else {
        FillFrame(service, companies, i + 1, filled, requests, name);
      }
    }
  }

  /** Entry `k` is done: computed from its description if it was unset in
      `cache`, left as it was otherwise. */
  ghost predicate Settled(service: Service, companies: seq<(string, string)>, cache: Cache, filled: Cache, k: nat)
    requires k < |companies|
  {
    && companies[k].0 in filled
    && if Unset(cache, companies, k)
       then EmbedsOk(service, companies, k) &&
            filled[companies[k].0] == Some(Embed(service, companies[k].1).reply.vector)
       else companies[k].0 in cache && filled[companies[k].0] == cache[companies[k].0]
  }

  /** Whether `j` is the first unset entry from `i` on whose embedding fails. */
  ghost predicate FirstFailure(service: Service, companies: seq<(string, string)>, cache: Cache, i: nat, j: nat)
    requires i <= j < |companies|
  {
    && Unset(cache, companies, j) && !EmbedsOk(service, companies, j)
    && forall k :: i <= k < j && Unset(cache, companies, k) ==> EmbedsOk(service, companies, k)
  }

  /** With distinct names, the first entry's name does not occur later. */
  lemma LaterNamesDiffer(companies: seq<(string, string)>, i: nat)
    requires DistinctNames(companies)
    requires i < |companies|
    ensures forall k :: i < k < |companies| ==> companies[k].0 != companies[i].0
  {
    forall k | i < k < |companies| ensures companies[k].0 != companies[i].0 {
      assert companies[i].0 != companies[k].0;
    }
  }

  /** With distinct names, the loop from entry `i` on succeeds exactly when
      every entry that is unset there embeds successfully. */
  lemma {:induction false} FillSucceedsIff(service: Service, companies: seq<(string, string)>, i: nat, filled: Cache,
                                           requests: seq<string>)
    requires DistinctNames(companies)
    requires i <= |companies|
    requires forall k :: i <= k < |companies| ==> companies[k].0 in filled
    ensures FillFrom(service, companies, i, filled, requests).failure.None? <==>
              forall k :: i <= k < |companies| && Unset(filled, companies, k) ==> EmbedsOk(service, companies, k)
    decreases |companies| - i
  {
    if i < |companies| {
      var name := companies[i].0;
      LaterNamesDiffer(companies, i);
      if filled[name].None? {
        var r := Embed(service, companies[i].1).reply;
        if !r.Embedded? {
          assert Unset(filled, companies, i) && !EmbedsOk(service, companies, i);
        } else {
          var next := filled[name := Some(r.vector)];
          FillSucceedsIff(service, companies, i + 1, next, requests + [companies[i].1]);
          assert forall k :: i < k < |companies| ==> Unset(next, companies, k) == Unset(filled, companies, k);
        }
      } else {
        FillSucceedsIff(service, companies, i + 1, filled, requests);
      }
    }
  }

  /** With distinct names, a successful loop from entry `i` on settles every
      entry from `i` on and sends exactly the pending descriptions. */
  lemma {:induction false} FillSuccess(service: Service, companies: seq<(string, string)>, i: nat, filled: Cache,
                                       requests: seq<string>)
    requires DistinctNames(companies)
    requires i <= |companies|
    requires forall k :: i <= k < |companies| ==> companies[k].0 in filled
    requires FillFrom(service, companies, i, filled, requests).failure.None?
    ensures var s := FillFrom(service, companies, i, filled, requests);
            && s.requests == requests + Pending(filled, companies, i, |companies|)
            && forall k :: i <= k < |companies| ==> Settled(service, companies, filled, s.filled, k)
    decreases |companies| - i
  {
    if i < |companies| {
      var name := companies[i].0;
      var desc := companies[i].1;
      var s := FillFrom(service, companies, i, filled, requests);
      LaterNamesDiffer(companies, i);
      if filled[name].None? {
        var r := Embed(service, desc).reply;
        var next := filled[name := Some(r.vector)];
        FillSuccess(service, companies, i + 1, next, requests + [desc]);
        PendingAgrees(filled, next, companies, i + 1, |companies|);
        FillFrame(service, companies, i + 1, next, requests + [desc], name);
        forall k | i <= k < |companies| ensures Settled(service, companies, filled, s.filled, k) {
          if k > i {
            assert Settled(service, companies, next, s.filled, k);
            assert Unset(next, companies, k) == Unset(filled, companies, k);
          }
        }
      } else {
        FillSuccess(service, companies, i + 1, filled, requests);
        FillFrame(service, companies, i + 1, filled, requests, name);
      }
    }
  }

  /** With distinct names, the loop from entry `i` on stops at the first
      unset entry whose embedding fails: that reply aborts start-up and the
      descriptions up to it have been sent. */
  lemma {:induction false} FillFailure(service: Service, companies: seq<(string, string)>, i: nat, filled: Cache,
                                       requests: seq<string>, j: nat)
    requires DistinctNames(companies)
    requires i <= j < |companies|
    requires forall k :: i <= k < |companies| ==> companies[k].0 in filled
    requires FirstFailure(service, companies, filled, i, j)
    ensures var s := FillFrom(service, companies, i, filled, requests);
            && s.failure == Some(Embed(service, companies[j].1).reply)
            && s.requests == requests + Pending(filled, companies, i, j + 1)
    decreases j - i
  {
    var name := companies[i].0;
    var desc := companies[i].1;
    if i == j {
      assert Pending(filled, companies, i, i + 1) == [desc];
    } else if filled[name].None? {
      var r := Embed(service, desc).reply;
      assert EmbedsOk(service, companies, i);
      var next := filled[name := Some(r.vector)];
      assert FillFrom(service, companies, i, filled, requests)
          == FillFrom(service, companies, i + 1, next, requests + [desc]);
      assert Pending(filled, companies, i, j + 1) == [desc] + Pending(filled, companies, i + 1, j + 1);
      SetKeepsLaterUnset(companies, i, filled, r.vector);
      assert FirstFailure(service, companies, next, i + 1, j);
      FillFailure(service, companies, i + 1, next, requests + [desc], j);
      PendingAgrees(filled, next, companies, i + 1, j + 1);
    } else {
      assert FillFrom(service, companies, i, filled, requests)
          == FillFrom(service, companies, i + 1, filled, requests);
      assert Pending(filled, companies, i, j + 1) == Pending(filled, companies, i + 1, j + 1);
      FillFailure(service, companies, i + 1, filled, requests, j);
    }
  }

  /** With distinct names, a start-up aborted at entry `j` leaves entry `j`
      and every later entry as they were. */
  lemma {:induction false} FailureKeepsRest(service: Service, companies: seq<(string, string)>, i: nat, filled: Cache,
                                            requests: seq<string>, j: nat)
    requires DistinctNames(companies)
    requires i <= j < |companies|
    requires forall k :: i <= k < |companies| ==> companies[k].0 in filled
    requires FirstFailure(service, companies, filled, i, j)
    ensures var s := FillFrom(service, companies, i, filled, requests);
            forall k :: j <= k < |companies| ==> s.filled[companies[k].0] == filled[companies[k].0]
    decreases j - i
  {
    var name := companies[i].0;
    var desc := companies[i].1;
    LaterNamesDiffer(companies, i);
    if i < j && filled[name].None? {
      var r := Embed(service, desc).reply;
      assert EmbedsOk(service, companies, i);
      var next := filled[name := Some(r.vector)];
      assert FillFrom(service, companies, i, filled, requests)
          == FillFrom(service, companies, i + 1, next, requests + [desc]);
      SetKeepsLaterUnset(companies, i, filled, r.vector);
      assert FirstFailure(service, companies, next, i + 1, j);
      FailureKeepsRest(service, companies, i + 1, next, requests + [desc], j);
    } else if i < j {
      assert FillFrom(service, companies, i, filled, requests)
          == FillFrom(service, companies, i + 1, filled, requests);
      FailureKeepsRest(service, companies, i + 1, filled, requests, j);
    }
  }

  /** Setting entry `i` of a table with distinct names leaves the unset
      status of every later entry as it was. */
  lemma SetKeepsLaterUnset(companies: seq<(string, string)>, i: nat, filled: Cache, v: Vector)
    requires DistinctNames(companies)
    requires i < |companies|
    ensures forall k :: i < k < |companies| ==>
              Unset(filled[companies[i].0 := Some(v)], companies, k) == Unset(filled, companies, k)
  {
    LaterNamesDiffer(companies, i);
  }

  /** The precompute loop `for name, desc in reference_companies.items()`. */
  method Precompute(service: Service, companies: seq<(string, string)>, cache: Cache)
    returns (filled: Cache, failure: Option<Reply>, requests: seq<string>)
    requires forall k :: 0 <= k < |companies| ==> companies[k].0 in cache
    ensures Startup(filled, failure, requests) == Fill(service, companies, cache)
  {
    filled, requests := cache, [];
    var i := 0;
    while i < |companies|
      invariant 0 <= i <= |companies|
      invariant filled.Keys == cache.Keys
      invariant Fill(service, companies, cache) == FillFrom(service, companies, i, filled, requests)
    {
      var name := companies[i].0;
      var desc := companies[i].1;
      if filled[name].None? {
        var r, _, _ := GetEmbedding(service, desc);
        requests := requests + [desc];
        if !r.Embedded? {
          failure := Some(r);
          return;
        }
        filled := filled[name := Some(r.vector)];
      }
      i := i + 1;
    }
    failure := None;
  }

  /** The reference table has distinct names. */
  lemma ReferenceNamesDistinct()
    ensures DistinctNames(ReferenceCompanies)
  {
  }

  /** Start-up from the all-`None` cache of a table with distinct names: it
      succeeds exactly when every description embeds, and then every name has
      the embedding of its own description. */
  lemma FillFromEmpty(service: Service, companies: seq<(string, string)>)
    requires DistinctNames(companies)
    ensures var s := Fill(service, companies, EmptyCache(companies));
            && (s.failure.None? <==> forall k :: 0 <= k < |companies| ==> EmbedsOk(service, companies, k))
            && (s.failure.None? ==> s.filled.Keys == NamesOf(companies))
            && (s.failure.None? ==> forall k :: 0 <= k < |companies| ==>
                  EmbedsOk(service, companies, k) &&
                  s.filled[companies[k].0] == Some(Embed(service, companies[k].1).reply.vector))
            && (s.failure.None? ==>
                  var refs := Refs(companies, s.filled);
                  && |refs| == |companies|
                  && forall k :: 0 <= k < |companies| ==>
                       refs[k] == (companies[k].0, Embed(service, companies[k].1).reply.vector))
  {
    var cache := EmptyCache(companies);
    assert forall k :: 0 <= k < |companies| ==> Unset(cache, companies, k);
    FillSucceedsIff(service, companies, 0, cache, []);
    var s := Fill(service, companies, cache);
    if s.failure.None? {
      FillSuccess(service, companies, 0, cache, []);
      forall k | 0 <= k < |companies|
        ensures EmbedsOk(service, companies, k)
        ensures s.filled[companies[k].0] == Some(Embed(service, companies[k].1).reply.vector)
      {
        assert Settled(service, companies, cache, s.filled, k);
      }
    }
  }

  /** Start-up of the ranking server: the reference table from the empty
      cache. */
  method Initialize(service: Service) returns (filled: Cache, failure: Option<Reply>)
    ensures failure.None? <==> forall k :: 0 <= k < |ReferenceCompanies| ==> EmbedsOk(service, ReferenceCompanies, k)
    ensures failure.None? ==> filled.Keys == NamesOf(ReferenceCompanies)
    ensures failure.None? ==> forall k :: 0 <= k < |ReferenceCompanies| ==>
              EmbedsOk(service, ReferenceCompanies, k) &&
              filled[ReferenceCompanies[k].0] == Some(Embed(service, ReferenceCompanies[k].1).reply.vector)
    ensures failure.None? ==>
              var refs := Refs(ReferenceCompanies, filled);
              && |refs| == 3
              && forall k :: 0 <= k < |ReferenceCompanies| ==>
                   refs[k] == (ReferenceCompanies[k].0, Embed(service, ReferenceCompanies[k].1).reply.vector)
  {
    var requests;
    filled, failure, requests := Precompute(service, ReferenceCompanies, EmptyCache(ReferenceCompanies));
    ReferenceNamesDistinct();
    FillFromEmpty(service, ReferenceCompanies);
  }
}
