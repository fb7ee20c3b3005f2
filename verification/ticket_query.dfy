/**
 * The declared semantics of the ticket list endpoint: the query set ordered
 * newest first, narrowed by exact matches on category, priority and status
 * and by a search term looked up in the title or the description.
 *
 * The filter backends themselves are not modelled; a query arrives already
 * parsed into enumeration values, and the search term is taken as one
 * case-insensitive substring (ASCII letters only).
 */
module TicketQuery {
  import opened Wrappers
  import opened Tickets

  /** The query parameters the list endpoint honours; `None` imposes no constraint. */
  datatype ListQuery = ListQuery(
    category: Option<Category>,
    priority: Option<Priority>,
    status: Option<Status>,
    search: Option<string>)

  const Unfiltered: ListQuery := ListQuery(None, None, None, None)

  function LowerChar(c: char): char
  {
    if 'A' <= c <= 'Z' then (c as int + 32) as char else c
  }

  function Lower(s: string): (r: string)
    ensures |r| == |s|
    ensures forall i | 0 <= i < |s| :: r[i] == LowerChar(s[i])
  {
    if s == [] then [] else [LowerChar(s[0])] + Lower(s[1..])
  }

  /** `term` starts at position `i` of `text`, letters compared without case. */
  predicate OccursAtIgnoringCase(text: string, term: string, i: nat)
  {
    i + |term| <= |text| && Lower(text[i..i + |term|]) == Lower(term)
  }

  /** `term` occurs somewhere in `text`, letters compared without case. */
  predicate ContainsIgnoringCase(text: string, term: string)
  {
    exists i: nat | i <= |text| :: OccursAtIgnoringCase(text, term, i)
  }

  /** A ticket satisfies every constraint the query carries. */
  predicate Matches(q: ListQuery, t: Ticket)
    ensures q == Unfiltered ==> Matches(q, t)
  {
    && (q.category.Some? ==> t.category == q.category.value)
    && (q.priority.Some? ==> t.priority == q.priority.value)
    && (q.status.Some? ==> t.status == q.status.value)
    && (q.search.Some? ==>
          ContainsIgnoringCase(t.title, q.search.value) || ContainsIgnoringCase(t.description, q.search.value))
  }

  /** The tickets of the store that satisfy the query, in store order. */
  function Select(store: seq<Ticket>, q: ListQuery): (r: seq<Ticket>)
    ensures forall t | t in r :: t in store && Matches(q, t)
    ensures forall t | t in store && Matches(q, t) :: t in r
    ensures multiset(r) <= multiset(store)
    ensures forall t :: multiset(r)[t] == if Matches(q, t) then multiset(store)[t] else 0
    ensures (forall t | t in store :: Matches(q, t)) ==> r == store
  {
    if store == [] then []
    else
      var rest := Select(store[1..], q);
      assert store == [store[0]] + store[1..];
      assert multiset(store) == multiset{store[0]} + multiset(store[1..]);
      if Matches(q, store[0]) then
        assert multiset([store[0]] + rest) == multiset{store[0]} + multiset(rest);
        [store[0]] + rest
      else rest
  }

  /** Newest first: no ticket is newer than the one before it. */
  predicate NewestFirst(ts: seq<Ticket>)
  {
    forall i | 0 < i < |ts| :: ts[i - 1].createdAt >= ts[i].createdAt
  }

  /** Newest first also orders every pair, not only neighbours. */
  lemma {:induction false} NewestFirstOrdersAllPairs(ts: seq<Ticket>, i: nat, j: nat)
    requires NewestFirst(ts)
    requires i <= j < |ts|
    ensures ts[i].createdAt >= ts[j].createdAt
    decreases j - i
  {
    if i < j {
      NewestFirstOrdersAllPairs(ts, i + 1, j);
    }
  }

  /** Places `t` in front of the first ticket that is not newer than it. */
  function Insert(t: Ticket, ts: seq<Ticket>): (r: seq<Ticket>)
    requires NewestFirst(ts)
    ensures NewestFirst(r)
    ensures |r| == |ts| + 1
    ensures r[0] == t || (ts != [] && r[0] == ts[0])
    ensures multiset(r) == multiset(ts) + multiset{t}
  {
    if ts == [] || ts[0].createdAt <= t.createdAt then
      [t] + ts
    else
      var rest := Insert(t, ts[1..]);
      assert ts == [ts[0]] + ts[1..];
      var r := [ts[0]] + rest;
      assert r[1..] == rest;
      r
  }

  /** `order_by('-created_at')`: the same tickets, newest first. */
  function SortNewestFirst(ts: seq<Ticket>): (r: seq<Ticket>)
    ensures NewestFirst(r)
    ensures multiset(r) == multiset(ts)
  {
    if ts == [] then []
    else
      assert ts == [ts[0]] + ts[1..];
      Insert(ts[0], SortNewestFirst(ts[1..]))
  }

  /**
   * The list endpoint: exactly the tickets of the store that satisfy the
   * query, each as often as it is stored, newest first.
   */
  function List(store: seq<Ticket>, q: ListQuery): (r: seq<Ticket>)
    ensures NewestFirst(r)
    ensures multiset(r) == multiset(Select(store, q))
    ensures forall t :: t in r <==> t in store && Matches(q, t)
  {
    var r := SortNewestFirst(Select(store, q));
    assert forall t :: t in r <==> t in multiset(r);
    r
  }

  /** With no filter and no search term the endpoint returns the whole store, reordered. */
  lemma UnfilteredListsWholeStore(store: seq<Ticket>)
    ensures multiset(List(store, Unfiltered)) == multiset(store)
    ensures |List(store, Unfiltered)| == |store|
  {
    assert forall t | t in store :: Matches(Unfiltered, t);
    var r := List(store, Unfiltered);
    assert |r| == |multiset(r)|;
  }
}
