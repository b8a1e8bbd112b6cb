/** The entities of the service-ticket store and the lists it is seeded with
    (Program.cs:8-31), plus the id predicates the handlers' lambdas stand for. */
module Models {
  import opened Linq

  const MIN_INT32: int := -0x8000_0000
  const MAX_INT32: int := 0x7fff_ffff
  const TWO_TO_32: int := 0x1_0000_0000

  /** C# `int`: every id and foreign key is one. */
  type Int32 = x: int | MIN_INT32 <= x <= MAX_INT32

  /** Unchecked C# arithmetic: the result reduced into the 32-bit range. */
  function Wrap(x: int): (r: Int32)
    ensures MIN_INT32 <= x <= MAX_INT32 ==> r == x
    ensures (x - r) % TWO_TO_32 == 0
  {
    (x - MIN_INT32) % TWO_TO_32 + MIN_INT32
  }

  /** A calendar date; `DateTime` as the handlers use it (no time of day). */
  datatype Date = Date(year: int, month: int, day: int)

  datatype Customer = Customer(id: Int32, name: string, address: string)

  datatype Employee = Employee(id: Int32, name: string, specialty: string)

  /** `EmployeeId` and `DateCompleted` are nullable (`int?`, `DateTime?`). */
  datatype ServiceTicket = ServiceTicket(
    id: Int32,
    customerId: Int32,
    employeeId: Option<Int32>,
    description: string,
    emergency: bool,
    dateCompleted: Option<Date>)

  // The lambdas of the handlers, one per comparison they make.

  /** `c => c.Id == id` */
  function CustomerHasId(id: int): Customer -> bool { (c: Customer) => c.id == id }

  /** `e => e.Id == id` */
  function EmployeeHasId(id: int): Employee -> bool { (e: Employee) => e.id == id }

  /** `e => e.Id == key` with `key` an `int?`: the lifted comparison is false for null. */
  function EmployeeMatches(key: Option<Int32>): Employee -> bool { (e: Employee) => Some(e.id) == key }

  /** `st => st.Id == id` */
  function TicketHasId(id: int): ServiceTicket -> bool { (t: ServiceTicket) => t.id == id }

  /** `st => st.CustomerId == id` */
  function OwnedBy(id: int): ServiceTicket -> bool { (t: ServiceTicket) => t.customerId == id }

  /** `st => st.EmployeeId == id`: false for an unassigned ticket. */
  function AssignedTo(id: int): ServiceTicket -> bool { (t: ServiceTicket) => t.employeeId == Some(id) }

  /** `st => st.Id` */
  function TicketId(t: ServiceTicket): int { t.id }

  /** No two tickets share an id: the invariant the store keeps. */
  ghost predicate UniqueTicketIds(ts: seq<ServiceTicket>)
  {
    forall i, j :: 0 <= i < j < |ts| ==> ts[i].id != ts[j].id
  }

  /** Under unique ids, the first ticket with a given id is the only one. */
  lemma OnlyMatch(ts: seq<ServiceTicket>, i: nat)
    requires UniqueTicketIds(ts)
    requires i < |ts|
    ensures FirstIndex(ts, TicketHasId(ts[i].id)) == Some(i)
    ensures forall j :: 0 <= j < |ts| && j != i ==> ts[j].id != ts[i].id
  {
  }

  function SeedCustomers(): (cs: seq<Customer>)
    ensures |cs| == 3
    ensures forall i, j :: 0 <= i < j < |cs| ==> cs[i].id != cs[j].id
  {
    [ Customer(1, "Dwight Schrute", "123 Main Street"),
      Customer(2, "Jim Halpert", "321 Other Street"),
      Customer(3, "Kelly Kapoor", "456 Grape Street") ]
  }

  function SeedEmployees(): (es: seq<Employee>)
    ensures |es| == 2
    ensures forall i, j :: 0 <= i < j < |es| ==> es[i].id != es[j].id
  {
    [ Employee(1, "Stanley Hudson", "Cell Phone Repair"),
      Employee(2, "Michael Scott", "Customer Service") ]
  }

  function SeedTickets(): (ts: seq<ServiceTicket>)
    ensures |ts| == 5
    ensures UniqueTicketIds(ts)
  {
    [ ServiceTicket(1, 1, Some(2), "Phone dosent turn on", false, Some(Date(2023, 11, 23))),
      ServiceTicket(2, 1, Some(1), "Phone screen is cracked", false, None),
      ServiceTicket(3, 2, None, "Laptop won't open", true, Some(Date(2023, 11, 20))),
      ServiceTicket(4, 2, Some(2), "Monitor is stuck on a black screen", false, None),
      ServiceTicket(5, 3, None, "Xbox has red ring of death", true, Some(Date(2023, 11, 15))) ]
  }
}
