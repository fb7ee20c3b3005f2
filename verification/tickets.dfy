/**
 * The ticket record shared by the backend view set and the two frontend
 * components: its three closed enumerations, their wire names, and the
 * record itself.
 */
module Tickets {

  datatype Category = Billing | Technical | Account | General

  datatype Priority = Low | Medium | High | Critical

  datatype Status = Open | InProgress | Resolved | Closed

  /** Every category, in the order the intake form offers them. */
  const AllCategories: seq<Category> := [Billing, Technical, Account, General]

  /** Every priority, in the order the intake form offers them. */
  const AllPriorities: seq<Priority> := [Low, Medium, High, Critical]

  /** Every status, in the order the list filter offers them. */
  const AllStatuses: seq<Status> := [Open, InProgress, Resolved, Closed]

  /** No value is listed twice. */
  predicate Distinct<K(==)>(keys: seq<K>)
  {
    forall i, j | 0 <= i < j < |keys| :: keys[i] != keys[j]
  }

  /** Each choice list names every value of its enumeration exactly once. */
  lemma ChoicesComplete()
    ensures forall c: Category :: c in AllCategories
    ensures forall p: Priority :: p in AllPriorities
    ensures forall s: Status :: s in AllStatuses
    ensures Distinct(AllCategories) && Distinct(AllPriorities) && Distinct(AllStatuses)
  {
    forall c: Category ensures c in AllCategories {
      match c
      case Billing => assert AllCategories[0] == c;
      case Technical => assert AllCategories[1] == c;
      case Account => assert AllCategories[2] == c;
      case General => assert AllCategories[3] == c;
    }
    forall p: Priority ensures p in AllPriorities {
      match p
      case Low => assert AllPriorities[0] == p;
      case Medium => assert AllPriorities[1] == p;
      case High => assert AllPriorities[2] == p;
      case Critical => assert AllPriorities[3] == p;
    }
    forall s: Status ensures s in AllStatuses {
      match s
      case Open => assert AllStatuses[0] == s;
      case InProgress => assert AllStatuses[1] == s;
      case Resolved => assert AllStatuses[2] == s;
      case Closed => assert AllStatuses[3] == s;
    }
  }

  function CategoryName(c: Category): string
  {
    match c
    case Billing => "billing"
    case Technical => "technical"
    case Account => "account"
    case General => "general"
  }

  function PriorityName(p: Priority): string
  {
    match p
    case Low => "low"
    case Medium => "medium"
    case High => "high"
    case Critical => "critical"
  }

  function StatusName(s: Status): string
  {
    match s
    case Open => "open"
    case InProgress => "in_progress"
    case Resolved => "resolved"
    case Closed => "closed"
  }

  /**
   * A persisted ticket. `createdAt` is the creation timestamp the list is
   * ordered by; `createdDay` is the calendar day that timestamp falls on,
   * kept abstract (the time-zone rules of the date truncation are not modelled).
   */
  datatype Ticket = Ticket(
    id: nat,
    title: string,
    description: string,
    category: Category,
    priority: Priority,
    status: Status,
    createdAt: int,
    createdDay: int)

  function CategoryOf(t: Ticket): Category { t.category }

  function PriorityOf(t: Ticket): Priority { t.priority }

  function StatusOf(t: Ticket): Status { t.status }

  function DayOf(t: Ticket): int { t.createdDay }
}
