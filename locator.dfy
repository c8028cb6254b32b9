/**
 * The file locator: given a file descriptor, search the personal drive and then
 * the site drive, term by term, for a spreadsheet whose name contains the
 * descriptor's substring, and download the first one found.
 *
 * The remote service is abstracted as two oracles. `query(scope, term)` is the
 * list of items a search returns, or None when the request did not answer 200
 * or raised (including a body that is not JSON); a 200 answer without a
 * "value" key is Some([]). `fetch(scope, id)` is the downloaded content, or
 * None when the download raised or answered an error status.
 */
module Locator {
  import opened Base
  import opened Text

  /** The two drive scopes that are searched, in this order. */
  datatype Scope = PersonalDrive | SiteDrive

  /** One search hit; either key of the JSON object may be missing. */
  datatype Item = Item(id: Option<string>, name: Option<string>)

  /** One HTTP request the locator issues, in the order it issues them. */
  datatype Request = Query(scope: Scope, term: string) | Download(scope: Scope, id: string)

  /** What a stretch of the search produced: the content, if any, and the requests made. */
  datatype Attempt = Attempt(content: Option<Bytes>, requests: seq<Request>)

  /** A configured file: search terms in order, the name substring, the output name and a label. */
  datatype FileDescriptor = FileDescriptor(
    searchTerms: seq<string>,
    filenameContains: string,
    outputName: string,
    description: string)

  type QueryOracle = (Scope, string) -> Option<seq<Item>>
  type FetchOracle = (Scope, string) -> Option<Bytes>

  /** The name of an item, the empty string when the key is missing. */
  function ItemName(item: Item): string
  {
    match item.name
    case Some(n) => n
    case None => ""
  }

  /**
   * The file-match test: the lower-cased name contains the lower-cased
   * substring and ends with ".xlsx" or ".xls".
   */
  predicate Matches(name: string, filenameContains: string)
  {
    var filename := Lower(name);
    Contains(Lower(filenameContains), filename) &&
    (EndsWith(filename, ".xlsx") || EndsWith(filename, ".xls"))
  }

  /** The match test, stated through occurrence rather than through `Contains`. */
  lemma MatchesMeaning(name: string, filenameContains: string)
    ensures Matches(name, filenameContains) <==>
      (exists i :: OccursAt(Lower(filenameContains), Lower(name), i)) &&
      (EndsWith(Lower(name), ".xlsx") || EndsWith(Lower(name), ".xls"))
  {
    var filename := Lower(name);
    ContainsIff(Lower(filenameContains), filename);
    assert Matches(name, filenameContains) ==
      (Contains(Lower(filenameContains), filename) && (EndsWith(filename, ".xlsx") || EndsWith(filename, ".xls")));
  }

  /** The match test does not see the case of either the name or the substring. */
  lemma MatchesIgnoresCase(name: string, filenameContains: string)
    ensures Matches(Lower(name), filenameContains) == Matches(name, filenameContains)
    ensures Matches(name, Lower(filenameContains)) == Matches(name, filenameContains)
  {
    LowerIdempotent(name);
    LowerIdempotent(filenameContains);
  }

  /** The position of the first item at or after `k` whose name matches, if any. */
  function FirstMatchFrom(items: seq<Item>, filenameContains: string, k: nat): (r: Option<nat>)
    requires k <= |items|
    ensures r.Some? ==> k <= r.value < |items| && Matches(ItemName(items[r.value]), filenameContains)
    ensures r.Some? ==> forall j :: k <= j < r.value ==> !Matches(ItemName(items[j]), filenameContains)
    ensures r.None? ==> forall j :: k <= j < |items| ==> !Matches(ItemName(items[j]), filenameContains)
    decreases |items| - k
  {
    if k == |items| then None
    else if Matches(ItemName(items[k]), filenameContains) then Some(k)
    else FirstMatchFrom(items, filenameContains, k + 1)
  }

  /** The position of the first item of the list whose name matches, if any. */
  function FirstMatch(items: seq<Item>, filenameContains: string): Option<nat>
  {
    FirstMatchFrom(items, filenameContains, 0)
  }

  /**
   * One term in one scope: query, take the first matching item, download it.
   * A failed query, no match, a match without an id, or a failed download all
   * give no content.
   */
  function TryTerm(scope: Scope, term: string, filenameContains: string,
                   query: QueryOracle, fetch: FetchOracle): Attempt
  {
    match query(scope, term)
    case None => Attempt(None, [Query(scope, term)])
    case Some(items) =>
      match FirstMatch(items, filenameContains)
      case None => Attempt(None, [Query(scope, term)])
      case Some(j) =>
        match items[j].id
        case None => Attempt(None, [Query(scope, term)])
        case Some(id) => Attempt(fetch(scope, id), [Query(scope, term), Download(scope, id)])
  }

  /** The terms tried in order in one scope until one of them yields content. */
  function SearchScope(scope: Scope, terms: seq<string>, filenameContains: string,
                       query: QueryOracle, fetch: FetchOracle): Attempt
    decreases |terms|
  {
    if terms == [] then Attempt(None, [])
    else
      var first := TryTerm(scope, terms[0], filenameContains, query, fetch);
      if first.content.Some? then first
      else
        var rest := SearchScope(scope, terms[1..], filenameContains, query, fetch);
        Attempt(rest.content, first.requests + rest.requests)
  }

  /** The whole search: the personal drive first, then the site drive. */
  function Locate(terms: seq<string>, filenameContains: string,
                  query: QueryOracle, fetch: FetchOracle): Attempt
  {
    var personal := SearchScope(PersonalDrive, terms, filenameContains, query, fetch);
    if personal.content.Some? then personal
    else
      var site := SearchScope(SiteDrive, terms, filenameContains, query, fetch);
      Attempt(site.content, personal.requests + site.requests)
  }

  /** Content comes from a term only through the first matching item of its results, fetched by its id. */
  lemma TryTermChoosesFirstMatch(scope: Scope, term: string, filenameContains: string,
                                 query: QueryOracle, fetch: FetchOracle)
    requires TryTerm(scope, term, filenameContains, query, fetch).content.Some?
    ensures query(scope, term).Some?
    ensures exists j ::
      && 0 <= j < |query(scope, term).value|
      && Matches(ItemName(query(scope, term).value[j]), filenameContains)
      && (forall k :: 0 <= k < j ==> !Matches(ItemName(query(scope, term).value[k]), filenameContains))
      && query(scope, term).value[j].id.Some?
      && fetch(scope, query(scope, term).value[j].id.value) == TryTerm(scope, term, filenameContains, query, fetch).content
  {
  }

  /**
   * The converse: when the query succeeds and its first matching item has an
   * id, the term's result is the download of that id, whether it succeeds or not.
   */
  lemma TryTermDownloadsFirstMatch(scope: Scope, term: string, filenameContains: string,
                                   query: QueryOracle, fetch: FetchOracle, items: seq<Item>, j: nat, id: string)
    requires query(scope, term) == Some(items)
    requires j < |items| && Matches(ItemName(items[j]), filenameContains)
    requires forall k :: 0 <= k < j ==> !Matches(ItemName(items[k]), filenameContains)
    requires items[j].id == Some(id)
    ensures TryTerm(scope, term, filenameContains, query, fetch) ==
      Attempt(fetch(scope, id), [Query(scope, term), Download(scope, id)])
  {
    assert FirstMatch(items, filenameContains) == Some(j);
  }

  /** A scope yields nothing exactly when every term in it yields nothing. */
  lemma {:induction false} SearchScopeNoneIff(scope: Scope, terms: seq<string>, filenameContains: string,
                                              query: QueryOracle, fetch: FetchOracle)
    ensures SearchScope(scope, terms, filenameContains, query, fetch).content.None? <==>
      forall i :: 0 <= i < |terms| ==> TryTerm(scope, terms[i], filenameContains, query, fetch).content.None?
    decreases |terms|
  {
    if terms != [] {
      SearchScopeNoneIff(scope, terms[1..], filenameContains, query, fetch);
      assert forall i :: 1 <= i < |terms| ==> terms[i] == terms[1..][i - 1];
    }
  }

  /** Terms are tried in order: the first term that yields content decides what the scope yields. */
  lemma {:induction false} SearchScopeFirstSuccess(scope: Scope, terms: seq<string>, k: nat, filenameContains: string,
                                                   query: QueryOracle, fetch: FetchOracle)
    requires k < |terms|
    requires TryTerm(scope, terms[k], filenameContains, query, fetch).content.Some?
    requires forall i :: 0 <= i < k ==> TryTerm(scope, terms[i], filenameContains, query, fetch).content.None?
    ensures SearchScope(scope, terms, filenameContains, query, fetch).content ==
      TryTerm(scope, terms[k], filenameContains, query, fetch).content
    decreases k
  {
    if k > 0 {
      assert TryTerm(scope, terms[0], filenameContains, query, fetch).content.None?;
      assert terms[1..][k - 1] == terms[k];
      SearchScopeFirstSuccess(scope, terms[1..], k - 1, filenameContains, query, fetch);
    }
  }

  /** A search of one scope sends requests to that scope only. */
  lemma {:induction false} SearchScopeStaysInScope(scope: Scope, terms: seq<string>, filenameContains: string,
                                                   query: QueryOracle, fetch: FetchOracle)
    ensures forall r :: r in SearchScope(scope, terms, filenameContains, query, fetch).requests ==> r.scope == scope
    decreases |terms|
  {
    if terms != [] {
      SearchScopeStaysInScope(scope, terms[1..], filenameContains, query, fetch);
    }
  }

  /** A scope that yields nothing has queried every one of the terms. */
  lemma {:induction false} FailedScopeQueriedEveryTerm(scope: Scope, terms: seq<string>, filenameContains: string,
                                                       query: QueryOracle, fetch: FetchOracle)
    requires SearchScope(scope, terms, filenameContains, query, fetch).content.None?
    ensures forall i :: 0 <= i < |terms| ==>
      Query(scope, terms[i]) in SearchScope(scope, terms, filenameContains, query, fetch).requests
    decreases |terms|
  {
    if terms != [] {
      FailedScopeQueriedEveryTerm(scope, terms[1..], filenameContains, query, fetch);
      assert forall i :: 1 <= i < |terms| ==> terms[i] == terms[1..][i - 1];
    }
  }

  /** The search finds nothing exactly when no term in either scope yields content. */
  lemma LocateNoneIff(terms: seq<string>, filenameContains: string, query: QueryOracle, fetch: FetchOracle)
    ensures Locate(terms, filenameContains, query, fetch).content.None? <==>
      forall scope: Scope, i :: 0 <= i < |terms| ==> TryTerm(scope, terms[i], filenameContains, query, fetch).content.None?
  {
    SearchScopeNoneIff(PersonalDrive, terms, filenameContains, query, fetch);
    SearchScopeNoneIff(SiteDrive, terms, filenameContains, query, fetch);
    if Locate(terms, filenameContains, query, fetch).content.None? {
      forall scope: Scope, i | 0 <= i < |terms|
        ensures TryTerm(scope, terms[i], filenameContains, query, fetch).content.None?
      {
        if scope == PersonalDrive { } else { }
      }
    }
  }

  /** When some term yields content on the personal drive, that is the result and the site drive is never contacted. */
  lemma PersonalDriveTakesPrecedence(terms: seq<string>, k: nat, filenameContains: string,
                                     query: QueryOracle, fetch: FetchOracle)
    requires k < |terms|
    requires TryTerm(PersonalDrive, terms[k], filenameContains, query, fetch).content.Some?
    ensures Locate(terms, filenameContains, query, fetch) == SearchScope(PersonalDrive, terms, filenameContains, query, fetch)
    ensures forall r :: r in Locate(terms, filenameContains, query, fetch).requests ==> r.scope == PersonalDrive
  {
    SearchScopeNoneIff(PersonalDrive, terms, filenameContains, query, fetch);
    SearchScopeStaysInScope(PersonalDrive, terms, filenameContains, query, fetch);
  }

  /**
   * The site drive is contacted only after every term has failed on the
   * personal drive, and after each of them has been queried there.
   */
  lemma SiteDriveOnlyAfterPersonalFails(terms: seq<string>, filenameContains: string,
                                        query: QueryOracle, fetch: FetchOracle)
    requires exists r :: r in Locate(terms, filenameContains, query, fetch).requests && r.scope == SiteDrive
    ensures forall i :: 0 <= i < |terms| ==> TryTerm(PersonalDrive, terms[i], filenameContains, query, fetch).content.None?
    ensures Locate(terms, filenameContains, query, fetch).requests ==
      SearchScope(PersonalDrive, terms, filenameContains, query, fetch).requests +
      SearchScope(SiteDrive, terms, filenameContains, query, fetch).requests
    ensures forall i :: 0 <= i < |terms| ==>
      Query(PersonalDrive, terms[i]) in SearchScope(PersonalDrive, terms, filenameContains, query, fetch).requests
  {
    SearchScopeStaysInScope(PersonalDrive, terms, filenameContains, query, fetch);
    SearchScopeNoneIff(PersonalDrive, terms, filenameContains, query, fetch);
    FailedScopeQueriedEveryTerm(PersonalDrive, terms, filenameContains, query, fetch);
  }

  /** How the search of the terms from position `i` on unfolds into the term at `i` and the rest. */
  lemma SearchScopeStep(scope: Scope, terms: seq<string>, i: nat, filenameContains: string,
                        query: QueryOracle, fetch: FetchOracle)
    requires i < |terms|
    ensures var first := TryTerm(scope, terms[i], filenameContains, query, fetch);
      var rest := SearchScope(scope, terms[i + 1..], filenameContains, query, fetch);
      SearchScope(scope, terms[i..], filenameContains, query, fetch) ==
        if first.content.Some? then first else Attempt(rest.content, first.requests + rest.requests)
  {
  }

  /** The loop over one term's results: the position of the first item whose name matches. */
  method FindFirstMatch(items: seq<Item>, filenameContains: string) returns (found: Option<nat>)
    ensures found == FirstMatch(items, filenameContains)
  {
    var k := 0;
    while k < |items|
      invariant 0 <= k <= |items|
      invariant FirstMatchFrom(items, filenameContains, k) == FirstMatch(items, filenameContains)
    {
      if Matches(ItemName(items[k]), filenameContains) {
        return Some(k);
      }
      k := k + 1;
    }
    return None;
  }

  /**
   * The body of the `try` for one term: query, look for the first match,
   * download it. Every failure gives no content.
   */
  method SearchTerm(scope: Scope, term: string, filenameContains: string,
                    query: QueryOracle, fetch: FetchOracle)
    returns (content: Option<Bytes>, ghost requests: seq<Request>)
    ensures content == TryTerm(scope, term, filenameContains, query, fetch).content
    ensures requests == TryTerm(scope, term, filenameContains, query, fetch).requests
  {
    content, requests := None, [Query(scope, term)];
    var response := query(scope, term);
    if response.Some? {
      var items := response.value;
      var found := FindFirstMatch(items, filenameContains);
      if found.Some? && items[found.value].id.Some? {
        var id := items[found.value].id.value;
        requests := requests + [Download(scope, id)];
        content := fetch(scope, id);
      }
    }
  }

  /** One scope's loop over the terms; returns as soon as a term yields content. */
  method SearchDrive(scope: Scope, terms: seq<string>, filenameContains: string,
                     query: QueryOracle, fetch: FetchOracle)
    returns (content: Option<Bytes>, ghost requests: seq<Request>)
    ensures content == SearchScope(scope, terms, filenameContains, query, fetch).content
    ensures requests == SearchScope(scope, terms, filenameContains, query, fetch).requests
  {
    content, requests := None, [];
    var i := 0;
    assert terms[0..] == terms;
    while i < |terms|
      invariant 0 <= i <= |terms|
      invariant SearchScope(scope, terms, filenameContains, query, fetch).content ==
        SearchScope(scope, terms[i..], filenameContains, query, fetch).content
      invariant SearchScope(scope, terms, filenameContains, query, fetch).requests ==
        requests + SearchScope(scope, terms[i..], filenameContains, query, fetch).requests
    {
      SearchScopeStep(scope, terms, i, filenameContains, query, fetch);
      var found;
      ghost var termRequests;
      found, termRequests := SearchTerm(scope, terms[i], filenameContains, query, fetch);
      if found.Some? {
        content, requests := found, requests + termRequests;
        return;
      }
      ghost var rest := SearchScope(scope, terms[i + 1..], filenameContains, query, fetch);
      requests := requests + termRequests;
      i := i + 1;
    }
  }

  /** The whole search for one descriptor: the personal drive's loop, then the site drive's. */
  method SearchForFile(descriptor: FileDescriptor, query: QueryOracle, fetch: FetchOracle)
    returns (content: Option<Bytes>, ghost requests: seq<Request>)
    ensures content == Locate(descriptor.searchTerms, descriptor.filenameContains, query, fetch).content
    ensures requests == Locate(descriptor.searchTerms, descriptor.filenameContains, query, fetch).requests
  {
    content, requests := SearchDrive(PersonalDrive, descriptor.searchTerms, descriptor.filenameContains, query, fetch);
    if content.Some? {
      return;
    }
    var siteContent;
    ghost var siteRequests;
    siteContent, siteRequests := SearchDrive(SiteDrive, descriptor.searchTerms, descriptor.filenameContains, query, fetch);
    content, requests := siteContent, requests + siteRequests;
  }
}
