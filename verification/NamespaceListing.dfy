/** Listing namespaces: following continue tokens, filtering, and label selectors. */
module NamespaceListing {
  import opened Wrappers
  import opened Seqs
  import opened Strings
  import opened MergePatch
  import opened Kube
  import opened LabelSelector
  import NodeErrors
  import Namespaces

  datatype Item = Item(name: string, labels: StringMap, phase: Namespaces.Phase)

  /** `next` is the continue token, empty on the last page. */
  datatype Page = Page(items: seq<Item>, next: string)

  /** What an API server answers to its k-th list request, sent with this token. */
  type Server = (nat, string) -> Result<Page, Fault>

  datatype ListError = UnknownStatus | InvalidSelector | Api(error: NodeErrors.ServiceError)

  /** Following the tokens from request `k` on comes to an end within `n` requests. */
  predicate Ends(server: Server, k: nat, token: string, n: nat)
    decreases n
  {
    n > 0 && var r := server(k, token); r.Err? || r.value.next == "" || Ends(server, k + 1, r.value.next, n - 1)
  }

  /** All that is on the pages from request `k` on, or the first failure. */
  function Collected(server: Server, k: nat, token: string, n: nat): Result<seq<Item>, Fault>
    requires Ends(server, k, token, n)
    decreases n
  {
    var r := server(k, token);
    if r.Err? then Err(r.error)
    else if r.value.next == "" then Ok(r.value.items)
    else Prepend(r.value.items, Collected(server, k + 1, r.value.next, n - 1))
  }

  function Prepend(items: seq<Item>, r: Result<seq<Item>, Fault>): Result<seq<Item>, Fault> {
    if r.Ok? then Ok(items + r.value) else r
  }

  function PhaseNamed(status: string): Option<Namespaces.Phase> {
    var s := Lower(status);
    if s == "active" then Some(Namespaces.Active) else if s == "terminating" then Some(Namespaces.Terminating) else None
  }

  /** An empty list does not filter. */
  predicate Wanted(prefixes: seq<string>, statuses: seq<string>, item: Item) {
    && (prefixes == [] || exists i :: 0 <= i < |prefixes| && StartsWith(item.name, prefixes[i]))
    && (statuses == [] || exists i :: 0 <= i < |statuses| && PhaseNamed(statuses[i]) == Some(item.phase))
  }

  function Keep(prefixes: seq<string>, statuses: seq<string>): Item -> bool {
    item => Wanted(prefixes, statuses, item)
  }

  predicate StatusesKnown(statuses: seq<string>) {
    forall i :: 0 <= i < |statuses| ==> PhaseNamed(statuses[i]).Some?
  }

  function ListFailure(f: Fault): ListError {
    if f == ApiError(Some(400)) then InvalidSelector else Api(NodeErrors.Translate(f, None))
  }

  /** The wanted ones among all namespaces there are, or the first failure. */
  function Listing(server: Server, prefixes: seq<string>, statuses: seq<string>, n: nat): Result<seq<Item>, ListError>
    requires Ends(server, 0, "", n)
  {
    var all := Collected(server, 0, "", n);
    if !StatusesKnown(statuses) then Err(UnknownStatus)
    else if all.Ok? then Ok(Filter(all.value, Keep(prefixes, statuses)))
    else Err(ListFailure(all.error))
  }

  /** Filters spelled out: one of the prefixes if there are any, and one of the statuses, in whatever case, if
      there are any. */
  lemma WantedMeans(prefixes: seq<string>, statuses: seq<string>, item: Item)
    ensures Wanted(prefixes, statuses, item) <==>
              && (prefixes == [] || exists p :: p in prefixes && p <= item.name)
              && (statuses == [] || exists s :: s in statuses && Spells(s, item.phase))
    ensures StatusesKnown(statuses) <==> forall s :: s in statuses ==> Lower(s) in {"active", "terminating"}
  {
    forall s ensures PhaseNamed(s) == Some(item.phase) <==> Spells(s, item.phase) {
      assert "active" != "terminating";
    }
    forall p: string ensures StartsWith(item.name, p) <==> p <= item.name {
    }
    assert forall i :: 0 <= i < |prefixes| ==> prefixes[i] in prefixes;
    assert forall i :: 0 <= i < |statuses| ==> statuses[i] in statuses;
  }

  /** The text names the phase, in whatever case. */
  ghost predicate Spells(s: string, phase: Namespaces.Phase) {
    Lower(s) == match phase case Active => "active" case Terminating => "terminating"
  }

  /** No namespace is asked for when a status is unknown; a failing request is reported, a 400 as the caller's. */
  lemma FailuresOfAListing(server: Server, prefixes: seq<string>, statuses: seq<string>, n: nat, f: Fault)
    requires Ends(server, 0, "", n)
    ensures Listing(server, prefixes, statuses, n) == Err(UnknownStatus)
       <==> exists s :: s in statuses && Lower(s) !in {"active", "terminating"}
    ensures StatusesKnown(statuses) && Collected(server, 0, "", n) == Err(f) ==>
              Listing(server, prefixes, statuses, n)
              == Err(if f == ApiError(Some(400)) then InvalidSelector else Api(NodeErrors.Translate(f, None)))
  {
    WantedMeans(prefixes, statuses, Item("", map[], Namespaces.Active));
  }

  method ListNamespaces(server: Server, prefixes: seq<string>, statuses: seq<string>, ghost n: nat)
      returns (r: Result<seq<Item>, ListError>)
    requires Ends(server, 0, "", n)
    ensures r == Listing(server, prefixes, statuses, n)
  {
    if !StatusesKnown(statuses) {
      return Err(UnknownStatus);
    }
    var namespaces: seq<Item>, token, k := [], "", 0;
    ghost var read: seq<Item> := [];
    PrependNothing(Collected(server, 0, "", n));
    while true
      invariant k <= n && Ends(server, k, token, n - k)
      invariant namespaces == Filter(read, Keep(prefixes, statuses))
      invariant Collected(server, 0, "", n) == Prepend(read, Collected(server, k, token, n - k))
      decreases n - k
    {
      var page := server(k, token);
      if page.Err? {
        return Err(ListFailure(page.error));
      }
      FilterAppends(read, page.value.items, Keep(prefixes, statuses));
      namespaces := namespaces + Filter(page.value.items, Keep(prefixes, statuses));
      if page.value.next == "" {
        return Ok(namespaces);
      }
      PrependTwice(read, page.value.items, Collected(server, k + 1, page.value.next, n - k - 1));
      read := read + page.value.items;
      token, k := page.value.next, k + 1;
    }
  }

  lemma PrependNothing(r: Result<seq<Item>, Fault>)
    ensures Prepend([], r) == r
  {
    assert r.Ok? ==> [] + r.value == r.value;
  }

  lemma PrependTwice(a: seq<Item>, b: seq<Item>, r: Result<seq<Item>, Fault>)
    ensures Prepend(a, Prepend(b, r)) == Prepend(a + b, r)
  {
    if r.Ok? {
      assert a + (b + r.value) == (a + b) + r.value;
    }
  }

  /******* A server that pages *******/

  function Token(offset: nat): string {
    seq(offset, _ => 'x')
  }

  /** A server that cuts a list into pages of `size`; its token says how much has been sent. */
  function Pager(items: seq<Item>, size: nat): Server {
    (k, token) =>
      var from := if |token| <= |items| then |token| else |items|;
      if from + size < |items| then Ok(Page(items[from..from + size], Token(from + size)))
      else Ok(Page(items[from..], ""))
  }

  lemma {:induction false} PagesJoinUp(items: seq<Item>, size: nat, k: nat, token: string, n: nat)
    requires size > 0 && |token| <= |items| && n > |items| - |token|
    ensures Ends(Pager(items, size), k, token, n)
    ensures Collected(Pager(items, size), k, token, n) == Ok(items[|token|..])
    decreases n
  {
    var server, next := Pager(items, size), |token| + size;
    if next < |items| {
      assert server(k, token) == Ok(Page(items[|token|..next], Token(next)));
      PagesJoinUp(items, size, k + 1, Token(next), n - 1);
      assert Collected(server, k, token, n)
          == Prepend(items[|token|..next], Collected(server, k + 1, Token(next), n - 1));
      assert items[|token|..] == items[|token|..next] + items[next..];
    } else {
      assert server(k, token) == Ok(Page(items[|token|..], ""));
    }
  }

  /** Whatever the page size, no namespace is lost, repeated or moved by paging. */
  lemma PagingIsInvisible(items: seq<Item>, size: nat, prefixes: seq<string>, statuses: seq<string>)
    requires size > 0 && StatusesKnown(statuses)
    ensures Ends(Pager(items, size), 0, "", |items| + 1)
    ensures Listing(Pager(items, size), prefixes, statuses, |items| + 1) == Ok(Filter(items, Keep(prefixes, statuses)))
  {
    PagesJoinUp(items, size, 0, "", |items| + 1);
    assert items[0..] == items;
  }

  /******* The in-memory server *******/

  function Selected(items: seq<Item>, tests: seq<Test>): seq<Item> {
    Filter(items, (item: Item) => PassesAll(tests, item.labels))
  }

  /** One page, whatever is asked for; a malformed selector is a 400. */
  function InMemory(items: seq<Item>, selector: string): Server {
    (k, token) =>
      var tests := Selector(selector);
      if tests.None? then Err(ApiError(Some(400))) else Ok(Page(Selected(items, tests.value), ""))
  }

  predicate HoldsAll(cs: seq<Clause>, labels: StringMap) {
    forall i :: 0 <= i < |cs| ==> Holds(cs[i], labels)
  }

  /** A caller who writes well-formed clauses gets exactly the namespaces that satisfy every clause,
      one of the prefixes and one of the statuses, in the order the server has them. */
  lemma ListingMeansItsFilters(items: seq<Item>, cs: seq<Clause>, prefixes: seq<string>, statuses: seq<string>)
    requires |cs| > 0 && (forall i :: 0 <= i < |cs| ==> WellFormed(cs[i])) && StatusesKnown(statuses)
    ensures var server := InMemory(items, Join(PrintAll(cs), ','));
            && Ends(server, 0, "", 1)
            && Listing(server, prefixes, statuses, 1)
            == Ok(Filter(items, (item: Item) => HoldsAll(cs, item.labels) && Wanted(prefixes, statuses, item)))
  {
    var selector := Join(PrintAll(cs), ',');
    SelectorUndoesPrint(cs, map[]);
    var tests := Selector(selector).value;
    forall item: Item ensures PassesAll(tests, item.labels) <==> HoldsAll(cs, item.labels) {
      SelectorUndoesPrint(cs, item.labels);
    }
    FilterFilter(items, (item: Item) => PassesAll(tests, item.labels), Keep(prefixes, statuses),
                 (item: Item) => HoldsAll(cs, item.labels) && Wanted(prefixes, statuses, item));
  }

  /** Without a selector all namespaces are looked at. */
  lemma NoSelectorNoTest(items: seq<Item>, prefixes: seq<string>, statuses: seq<string>)
    requires StatusesKnown(statuses)
    ensures Ends(InMemory(items, ""), 0, "", 1)
    ensures Listing(InMemory(items, ""), prefixes, statuses, 1) == Ok(Filter(items, Keep(prefixes, statuses)))
  {
    FilterAll(items, (item: Item) => PassesAll([], item.labels));
    assert InMemory(items, "")(0, "") == Ok(Page(items, ""));
  }

  /** A selector with a malformed clause is the caller's mistake, on an empty cluster too. */
  lemma MalformedSelectorIsRefused(items: seq<Item>, selector: string, prefixes: seq<string>, statuses: seq<string>)
    requires selector != "" && StatusesKnown(statuses)
    ensures Ends(InMemory(items, selector), 0, "", 1)
    ensures Listing(InMemory(items, selector), prefixes, statuses, 1) == Err(InvalidSelector)
       <==> exists i :: 0 <= i < |Split(selector, ',')| && LabelMatcher(Strip(Split(selector, ',')[i])) == None
  {
    OneBadClauseRefusesAll(Split(selector, ','));
    var server := InMemory(items, selector);
    assert server(0, "").Err? <==> Selector(selector) == None;
    assert server(0, "").Err? ==> Collected(server, 0, "", 1) == Err(ApiError(Some(400)));
    assert server(0, "").Ok? ==> Collected(server, 0, "", 1).Ok?;
    assert Selector(selector) == LabelMatchers(Split(selector, ','));
    assert Listing(server, prefixes, statuses, 1) == Err(InvalidSelector) <==> Selector(selector) == None;
  }
}
