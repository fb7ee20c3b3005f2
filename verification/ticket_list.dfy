/**
 * The ticket list component: the filter state, its change handler, the
 * request parameters built from it, the two halves of the fetch, and the
 * display helpers for status and priority.
 */
module TicketList {
  import opened Wrappers
  import opened Tickets

  /** The names of the filter inputs. */
  datatype FilterField = StatusFilter | PriorityFilter | CategoryFilter | SearchFilter

  /** The `filters` state; an empty string means "any". */
  datatype Filters = Filters(status: string, priority: string, category: string, search: string)
  {
    function Get(f: FilterField): string
    {
      match f
      case StatusFilter => status
      case PriorityFilter => priority
      case CategoryFilter => category
      case SearchFilter => search
    }

    /** `{ ...filters, [name]: value }`: the named filter takes the value, the others keep theirs. */
    function With(f: FilterField, v: string): (r: Filters)
      ensures forall g: FilterField :: r.Get(g) == if g == f then v else Get(g)
    {
      match f
      case StatusFilter => this.(status := v)
      case PriorityFilter => this.(priority := v)
      case CategoryFilter => this.(category := v)
      case SearchFilter => this.(search := v)
    }
  }

  const NoFilters: Filters := Filters("", "", "", "")

  /** The query-parameter name of each filter. */
  function ParamName(f: FilterField): string
  {
    match f
    case StatusFilter => "status"
    case PriorityFilter => "priority"
    case CategoryFilter => "category"
    case SearchFilter => "search"
  }

  const ParamNames: set<string> := {"status", "priority", "category", "search"}

  /**
   * The request parameters: a filter's name is a key exactly when its
   * value is non-empty, and then maps to that value; no other key appears.
   */
  function Params(filters: Filters): (params: map<string, string>)
    ensures forall f: FilterField :: ParamName(f) in params <==> filters.Get(f) != ""
    ensures forall f: FilterField :: ParamName(f) in params ==> params[ParamName(f)] == filters.Get(f)
    ensures params.Keys <= ParamNames
  {
    var p0: map<string, string> := map[];
    var p1 := if filters.status != "" then p0["status" := filters.status] else p0;
    var p2 := if filters.priority != "" then p1["priority" := filters.priority] else p1;
    var p3 := if filters.category != "" then p2["category" := filters.category] else p2;
    var p4 := if filters.search != "" then p3["search" := filters.search] else p3;
    assert ParamName(StatusFilter) in p4 <==> filters.status != "";
    assert ParamName(PriorityFilter) in p4 <==> filters.priority != "";
    assert ParamName(CategoryFilter) in p4 <==> filters.category != "";
    assert ParamName(SearchFilter) in p4 <==> filters.search != "";
    p4
  }

  /** The initial filters constrain nothing: the request carries no parameter. */
  lemma InitialFiltersSendNoParams()
    ensures Params(NoFilters) == map[]
  {
    var p := Params(NoFilters);
    assert ParamName(StatusFilter) !in p && ParamName(PriorityFilter) !in p;
    assert ParamName(CategoryFilter) !in p && ParamName(SearchFilter) !in p;
    assert p.Keys == {};
  }

  /** `statusColors`: the badge class of each status. */
  function StatusClass(s: Status): (cls: string)
    ensures cls == "status-" + StatusName(s)
  {
    match s
    case Open => "status-open"
    case InProgress => "status-in_progress"
    case Resolved => "status-resolved"
    case Closed => "status-closed"
  }

  /** Position of the first `c` in `s`, or `|s|` when there is none. */
  function FirstIndex(s: string, c: char): (k: nat)
    ensures k <= |s|
    ensures k < |s| ==> s[k] == c
    ensures forall j | 0 <= j < k :: s[j] != c
  {
    if s == [] || s[0] == c then 0 else 1 + FirstIndex(s[1..], c)
  }

  /**
   * JavaScript's `s.replace(from, to)` with a one-character pattern: the
   * first occurrence of `from` becomes `to`, every other character stays.
   */
  function ReplaceFirst(s: string, from: char, to: char): (r: string)
    ensures |r| == |s|
    ensures forall i | 0 <= i < |s| :: r[i] == if i == FirstIndex(s, from) then to else s[i]
  {
    if s == [] then []
    else if s[0] == from then [to] + s[1..]
    else [s[0]] + ReplaceFirst(s[1..], from, to)
  }

  /**
   * The status label: the first underscore of the wire name becomes a
   * space, so only `in_progress` is shown differently from its wire name.
   */
  function StatusLabel(s: Status): (text: string)
    ensures s == InProgress ==> text == "in progress"
    ensures s != InProgress ==> text == StatusName(s)
  {
    match s
    case InProgress =>
      InProgressLabel();
      ReplaceFirst(StatusName(s), '_', ' ')
    case _ =>
      ReplaceFirstAbsent(StatusName(s), '_', ' ');
      ReplaceFirst(StatusName(s), '_', ' ')
  }

  /** Text without the pattern character is left as it is. */
  lemma ReplaceFirstAbsent(s: string, from: char, to: char)
    requires from !in s
    ensures ReplaceFirst(s, from, to) == s
  {
    assert FirstIndex(s, from) == |s|;
  }

  /** The one underscore of `in_progress` becomes a space. */
  lemma InProgressLabel()
    ensures ReplaceFirst(StatusName(InProgress), '_', ' ') == "in progress"
  {
    var n, r := StatusName(InProgress), ReplaceFirst(StatusName(InProgress), '_', ' ');
    assert n[0] == 'i' && n[1] == 'n' && n[2] == '_';
    assert FirstIndex(n, '_') == 2;
    forall i | 0 <= i < |r| ensures r[i] == "in progress"[i] {
      if i != 2 {
        assert r[i] == n[i];
      }
    }
  }

  /** `toUpperCase` on ASCII letters. */
  function UpperChar(c: char): char
  {
    if 'a' <= c <= 'z' then (c as int - 32) as char else c
  }

  function Upper(s: string): (r: string)
    ensures |r| == |s|
    ensures forall i | 0 <= i < |s| :: r[i] == UpperChar(s[i])
  {
    if s == [] then [] else [UpperChar(s[0])] + Upper(s[1..])
  }

  /** The priority label: the wire name in capitals. */
  function PriorityLabel(p: Priority): (text: string)
    ensures text == match p
      case Low => "LOW"
      case Medium => "MEDIUM"
      case High => "HIGH"
      case Critical => "CRITICAL"
  {
    Upper(PriorityName(p))
  }

  /** The list component's state and handlers. */
  class TicketListView {
    var tickets: seq<Ticket>
    var loading: bool
    var filters: Filters

    constructor ()
      ensures tickets == [] && loading && filters == NoFilters
    {
      tickets := [];
      loading := true;
      filters := NoFilters;
    }

    /** The filter change handler: only the named filter changes. */
    method HandleFilterChange(field: FilterField, value: string)
      modifies this`filters
      ensures filters == old(filters).With(field, value)
      ensures forall g: FilterField :: g != field ==> filters.Get(g) == old(filters).Get(g)
    {
      filters := filters.With(field, value);
    }

    /** The fetch up to the request: raises `loading` and builds the parameters. */
    method BeginFetch() returns (params: map<string, string>)
      modifies this`loading
      ensures loading
      ensures params == Params(filters)
    {
      loading := true;
      params := Params(filters);
    }

    /** The fetch after the request: a response replaces the list, a failure keeps it; `loading` ends false. */
    method FinishFetch(response: Option<seq<Ticket>>)
      modifies this`tickets, this`loading
      ensures !loading
      ensures response.Some? ==> tickets == response.value
      ensures response.None? ==> tickets == old(tickets)
    {
      if response.Some? {
        tickets := response.value;
      }
      loading := false;
    }
  }
}
