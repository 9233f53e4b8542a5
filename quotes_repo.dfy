/**
  QuotesRepo: the quote cache behind the home-screen quote widget.

  The repository owns two observable values, the current-quote outcome and
  the `isFetching` flag, and works on the quote table (module QuoteStore).
  It seeds the table from a bundled list of nine quotes the first time a
  quote is asked for on an empty table, draws a random quote from the table,
  and refills the table from two pages of a remote quote service.

  The remote service is a parameter `api: int -> PageResponse`; a transport
  failure is the `TransportError` answer, which, as in the source, escapes
  `fetchQuotes` and leaves the flag raised. The random draw is a
  nondeterministic choice among the stored quotes. The ghost `events` log
  records, in order, every write to the two observable values and every
  batch handed to the table, so that orderings can be stated.
 */
module Quotes {
  import opened QuoteStore
  import opened SeedData

  /** The outcome published on the current-quote flow. */
  datatype Outcome = None | Success(quote: Quote)

  /** What one call to the remote quote service yields for a page. */
  datatype PageResponse = Page(results: seq<Quote>) | TransportError

  /** One observable step of the repository, in the order it happens. */
  datatype Event =
    | FetchingSet(fetching: bool)
    | QuotesAdded(batch: seq<Quote>)
    | QuotePublished(outcome: Outcome)

  /** Seeding an empty table with distinct ids stores exactly that batch. */
  lemma SeedingEmptyTable(seeds: seq<Quote>)
    requires DistinctIds(seeds)
    ensures |Upsert(map[], seeds)| == |seeds|
    ensures KeyedById(Upsert(map[], seeds))
    ensures forall k :: k in Upsert(map[], seeds) ==> Upsert(map[], seeds)[k] in seeds
  {
    UpsertFreshSize(map[], seeds);
    UpsertKeepsKeyedById(map[], seeds);
    UpsertValues(map[], seeds);
  }

  /** Seeding an empty table with the bundled list leaves nine quotes. */
  lemma BundledSeeding()
    ensures |Upsert(map[], SeedQuotes())| == 9
  {
    SeedingEmptyTable(SeedQuotes());
  }

  /** `hasQuotesReachedLimit`: the table holds at least `limit` quotes. */
  predicate ReachedLimit(size: nat, limit: nat) {
    size >= limit
  }

  /** Once the limit is reached, adding a batch keeps it reached. */
  lemma LimitStaysReached(s: Store, batch: seq<Quote>, limit: nat)
    requires ReachedLimit(|s|, limit)
    ensures ReachedLimit(|Upsert(s, batch)|, limit)
  {
    UpsertGrows(s, batch);
  }

  class QuotesRepo {
    /** The quote table (QuotesDao). */
    var store: Store
    /** Value of the current-quote flow. */
    var currentQuote: Outcome
    /** Value of the is-fetching flow. */
    var isFetching: bool
    /** QUOTES_LIMIT; its value lives outside this model. */
    const quotesLimit: nat
    /** The parsed INITIAL_QUOTES_JSON list. */
    const initialQuotes: seq<Quote>
    /** Every observable step, oldest first. */
    ghost var events: seq<Event>

    ghost predicate Valid()
      reads this
    {
      && KeyedById(store)
      && |initialQuotes| == 9
      && DistinctIds(initialQuotes)
    }

    /** A fresh repository over an existing table: no quote yet, not fetching. */
    constructor (table: Store, limit: nat)
      requires KeyedById(table)
      ensures Valid()
      ensures store == table && quotesLimit == limit && initialQuotes == SeedQuotes()
      ensures currentQuote == None && !isFetching
      ensures events == []
    {
      store := table;
      currentQuote := None;
      isFetching := false;
      quotesLimit := limit;
      initialQuotes := SeedQuotes();
      events := [];
    }

    /**
      `nextRandomQuote`: seed an empty table, then publish a random stored
      quote, or `None` if the table is still empty. On an empty table the
      nested draw publishes `firstDraw` before the outer draw publishes its own.
     */
    method NextRandomQuote() returns (ghost firstDraw: Outcome)
      requires Valid()
      modifies this
      decreases if |store| == 0 then 2 else 0
      ensures Valid()
      ensures isFetching == old(isFetching)
      ensures currentQuote.Success? <==> |store| != 0
      ensures currentQuote.Success? ==> currentQuote.quote in store.Values
      ensures old(|store|) != 0 ==>
        store == old(store) && events == old(events) + [QuotePublished(currentQuote)]
      ensures old(|store|) == 0 ==>
        && store == Upsert(map[], initialQuotes)
        && |store| == |initialQuotes|
        && firstDraw.Success? && currentQuote.Success?
        && firstDraw.quote in initialQuotes
        && currentQuote.quote in initialQuotes
        && events == old(events) + [QuotesAdded(initialQuotes), QuotePublished(firstDraw),
                                    QuotePublished(currentQuote)]
    {
      firstDraw := None;
      if |store| == 0 {
        firstDraw := AddInitialQuotes();
      }
      var outcome;
      if |store| == 0 {
        outcome := None;
      } else {
        var id :| id in store;
        outcome := Success(store[id]);
      }
      currentQuote := outcome;
      events := events + [QuotePublished(outcome)];
    }

    /**
      `addInitialQuotes`: add the bundled quotes, then draw again. The
      nested draw finds a non-empty table, so it does not seed a second time.
     */
    method AddInitialQuotes() returns (ghost draw: Outcome)
      requires Valid()
      modifies this
      decreases 1
      ensures Valid()
      ensures isFetching == old(isFetching)
      ensures store == Upsert(old(store), initialQuotes) && |store| != 0
      ensures old(store) == map[] ==>
        |store| == |initialQuotes| && forall k :: k in store ==> store[k] in initialQuotes
      ensures draw.Success? && draw == currentQuote
      ensures draw.quote in store.Values
      ensures old(store) == map[] ==> draw.quote in initialQuotes
      ensures events == old(events) + [QuotesAdded(initialQuotes), QuotePublished(draw)]
    {
      AddAllQuotes(initialQuotes);
      UpsertNonEmpty(old(store), initialQuotes);
      var _ := NextRandomQuote();
      draw := currentQuote;
      SeedingEmptyTable(initialQuotes);
    }

    /** `addAllQuotes`: hand one batch to the table. */
    method AddAllQuotes(batch: seq<Quote>)
      requires Valid()
      modifies this
      ensures Valid()
      ensures store == Upsert(old(store), batch)
      ensures currentQuote == old(currentQuote) && isFetching == old(isFetching)
      ensures events == old(events) + [QuotesAdded(batch)]
    {
      UpsertKeepsKeyedById(store, batch);
      store := Upsert(store, batch);
      events := events + [QuotesAdded(batch)];
    }

    /** `fetchPageQuotes`: add one page; `false` when the call failed. */
    method FetchPageQuotes(api: int -> PageResponse, page: int) returns (ok: bool)
      requires Valid()
      modifies this
      ensures Valid()
      ensures ok <==> api(page).Page?
      ensures currentQuote == old(currentQuote) && isFetching == old(isFetching)
      ensures ok ==> store == Upsert(old(store), api(page).results)
      ensures ok ==> events == old(events) + [QuotesAdded(api(page).results)]
      ensures !ok ==> store == old(store) && events == old(events)
    {
      var response := api(page);
      if response.TransportError? {
        return false;
      }
      AddAllQuotes(response.results);
      return true;
    }

    /**
      `fetchQuotes`: raise the flag, add page 1 then page 2, lower the flag.
      There is no guard against a refill already in progress and no
      `finally`: a failed page ends the call with the flag still raised.
     */
    method FetchQuotes(api: int -> PageResponse) returns (ok: bool)
      requires Valid()
      modifies this
      ensures Valid()
      ensures currentQuote == old(currentQuote)
      ensures ok <==> api(1).Page? && api(2).Page?
      ensures ok ==>
        && store == Upsert(Upsert(old(store), api(1).results), api(2).results)
        && !isFetching
        && events == old(events) + [FetchingSet(true), QuotesAdded(api(1).results),
                                    QuotesAdded(api(2).results), FetchingSet(false)]
      ensures api(1).TransportError? ==>
        && store == old(store) && isFetching
        && events == old(events) + [FetchingSet(true)]
      ensures api(1).Page? && api(2).TransportError? ==>
        && store == Upsert(old(store), api(1).results) && isFetching
        && events == old(events) + [FetchingSet(true), QuotesAdded(api(1).results)]
    {
      isFetching := true;
      events := events + [FetchingSet(true)];
      ok := FetchPageQuotes(api, 1);
      if !ok {
        return;
      }
      ok := FetchPageQuotes(api, 2);
      if !ok {
        return;
      }
      isFetching := false;
      events := events + [FetchingSet(false)];
    }

    /** `hasQuotesReachedLimit`. */
    method HasQuotesReachedLimit() returns (reached: bool)
      ensures reached <==> |store| >= quotesLimit
    {
      reached := ReachedLimit(|store|, quotesLimit);
    }
  }
}
