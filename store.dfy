/**
 * The article table, keyed by `url` (its unique column), and the upsert both
 * collectors issue: `upsert({ where: { url }, update: {}, create })`.
 * With an empty `update`, an existing url is left as it is.
 */
module Store {
  import opened Domain

  /** Every stored record sits under its own url. */
  ghost predicate KeyedByUrl(store: map<string, Candidate>) {
    forall u :: u in store ==> store[u].url == u
  }

  /** The effect of one upsert that does not throw: create when the url is new, otherwise nothing. */
  function UpsertInto(store: map<string, Candidate>, c: Candidate): (r: map<string, Candidate>)
    ensures r.Keys == store.Keys + {c.url}
    ensures forall u :: u in store ==> r[u] == store[u]
    ensures c.url !in store ==> r[c.url] == c
  {
    if c.url in store then store else store[c.url := c]
  }

  /** The store after a run of upserts, and how many of them did not throw. */
  datatype Ingested = Ingested(store: map<string, Candidate>, count: nat)

  /**
   * A collector run's upserts in order: attempt `i` upserts `cs[i]`, and the
   * attempts whose index is in `faults` throw (the collector catches that and
   * goes on). The counter grows for every attempt that does not throw,
   * whether or not the url was new.
   */
  function Ingest(store: map<string, Candidate>, cs: seq<Candidate>, faults: set<nat>): Ingested
    decreases |cs|
  {
    if cs == [] then Ingested(store, 0)
    else
      var prev := Ingest(store, cs[..|cs| - 1], faults);
      if |cs| - 1 in faults then prev
      else Ingested(UpsertInto(prev.store, cs[|cs| - 1]), prev.count + 1)
  }

  /** Number of attempts below `n` that do not throw. */
  function Succeeding(n: nat, faults: set<nat>): (k: nat)
    ensures k <= n
  {
    if n == 0 then 0 else Succeeding(n - 1, faults) + (if n - 1 in faults then 0 else 1)
  }

  /** One more upsert at the end of a run. */
  lemma IngestSnoc(store: map<string, Candidate>, cs: seq<Candidate>, c: Candidate, faults: set<nat>)
    ensures Ingest(store, cs + [c], faults) ==
      var prev := Ingest(store, cs, faults);
      if |cs| in faults then prev else Ingested(UpsertInto(prev.store, c), prev.count + 1)
  {
    assert (cs + [c])[..|cs|] == cs;
  }

  /** The counter is the number of upserts that did not throw; with no faults it is the number of upserts. */
  lemma {:induction false} IngestCount(store: map<string, Candidate>, cs: seq<Candidate>, faults: set<nat>)
    ensures Ingest(store, cs, faults).count == Succeeding(|cs|, faults)
    ensures faults == {} ==> Ingest(store, cs, faults).count == |cs|
    decreases |cs|
  {
    if cs != [] {
      IngestCount(store, cs[..|cs| - 1], faults);
    }
  }

  /** First seen wins: a record already present is never changed by later upserts. */
  lemma {:induction false} IngestKeepsExisting(store: map<string, Candidate>, cs: seq<Candidate>, faults: set<nat>)
    ensures store.Keys <= Ingest(store, cs, faults).store.Keys
    ensures forall u :: u in store ==> Ingest(store, cs, faults).store[u] == store[u]
    decreases |cs|
  {
    if cs != [] {
      IngestKeepsExisting(store, cs[..|cs| - 1], faults);
    }
  }

  /** The stored urls afterwards: the old ones plus the url of every upsert that did not throw. */
  lemma {:induction false} IngestKeys(store: map<string, Candidate>, cs: seq<Candidate>, faults: set<nat>)
    ensures Ingest(store, cs, faults).store.Keys ==
      store.Keys + set i | 0 <= i < |cs| && i !in faults :: cs[i].url
    decreases |cs|
  {
    if cs != [] {
      var n := |cs| - 1;
      IngestKeys(store, cs[..n], faults);
      var before := set i | 0 <= i < n && i !in faults :: cs[..n][i].url;
      var after := set i | 0 <= i < |cs| && i !in faults :: cs[i].url;
      assert before == set i | 0 <= i < n && i !in faults :: cs[i].url;
      if n in faults {
        assert after == before;
      } else {
        assert after == before + {cs[n].url};
      }
    }
  }

  /**
   * A url that was not stored before ends up holding the first candidate
   * with that url whose upsert did not throw.
   */
  lemma {:induction false} IngestFirstWins(store: map<string, Candidate>, cs: seq<Candidate>, faults: set<nat>, i: nat)
    requires i < |cs| && i !in faults && cs[i].url !in store
    requires forall j :: 0 <= j < i && j !in faults ==> cs[j].url != cs[i].url
    ensures cs[i].url in Ingest(store, cs, faults).store
    ensures Ingest(store, cs, faults).store[cs[i].url] == cs[i]
    decreases |cs|
  {
    var n := |cs| - 1;
    var prev := Ingest(store, cs[..n], faults);
    if i == n {
      IngestKeys(store, cs[..n], faults);
      assert cs[i].url !in prev.store;
    } else {
      IngestFirstWins(store, cs[..n], faults, i);
    }
  }

  /** Re-ingesting urls that are all stored already changes nothing (the counter still counts them). */
  lemma {:induction false} IngestIdempotent(store: map<string, Candidate>, cs: seq<Candidate>, faults: set<nat>)
    requires forall i :: 0 <= i < |cs| ==> cs[i].url in store
    ensures Ingest(store, cs, faults).store == store
    decreases |cs|
  {
    if cs != [] {
      IngestIdempotent(store, cs[..|cs| - 1], faults);
    }
  }

  /** The table stays keyed by url. */
  lemma {:induction false} IngestKeyedByUrl(store: map<string, Candidate>, cs: seq<Candidate>, faults: set<nat>)
    requires KeyedByUrl(store)
    ensures KeyedByUrl(Ingest(store, cs, faults).store)
    decreases |cs|
  {
    if cs != [] {
      IngestKeyedByUrl(store, cs[..|cs| - 1], faults);
    }
  }

  /**
   * The counter the url-keyed design intends: an upsert that meets a stored
   * url creates nothing and so is not counted.
   */
  function IngestCreated(store: map<string, Candidate>, cs: seq<Candidate>, faults: set<nat>): Ingested
    decreases |cs|
  {
    if cs == [] then Ingested(store, 0)
    else
      var prev := IngestCreated(store, cs[..|cs| - 1], faults);
      var c := cs[|cs| - 1];
      if |cs| - 1 in faults then prev
      else Ingested(UpsertInto(prev.store, c), prev.count + (if c.url in prev.store then 0 else 1))
  }

  /** The intended counter leaves the same table and counts exactly the rows the run added to it. */
  lemma {:induction false} IngestCreatedCountsNewRows(store: map<string, Candidate>, cs: seq<Candidate>, faults: set<nat>)
    ensures IngestCreated(store, cs, faults).store == Ingest(store, cs, faults).store
    ensures |store| + IngestCreated(store, cs, faults).count == |Ingest(store, cs, faults).store|
    decreases |cs|
  {
    if cs != [] {
      IngestCreatedCountsNewRows(store, cs[..|cs| - 1], faults);
    }
  }

  /** As written, a second upsert of the same url is counted although it stores nothing. */
  lemma DuplicateUrlCounted(c: Candidate)
    ensures Ingest(map[], [c, c], {}).store == map[c.url := c]
    ensures Ingest(map[], [c, c], {}).count == 2
    ensures IngestCreated(map[], [c, c], {}).count == 1
  {
    var empty: map<string, Candidate> := map[];
    assert [c, c][..1] == [c];
    assert [c][..0] == [];
    assert Ingest(empty, [c], {}) == Ingested(map[c.url := c], 1);
    assert IngestCreated(empty, [c], {}) == Ingested(map[c.url := c], 1);
  }

  /** The database, as the collectors see it. */
  class Repository {
    var articles: map<string, Candidate>

    constructor (initial: map<string, Candidate>)
      ensures articles == initial
    {
      articles := initial;
    }

    /**
     * One upsert. `fails` stands for the database call throwing, in which
     * case nothing is written and the caller sees the exception (`ok` false).
     */
    method Upsert(c: Candidate, fails: bool) returns (ok: bool)
      modifies this
      ensures ok == !fails
      ensures articles == if fails then old(articles) else UpsertInto(old(articles), c)
    {
      ok := !fails;
      if ok {
        if c.url !in articles {
          articles := articles[c.url := c];
        }
      }
    }
  }
}
