/** The response shapes (the DTO classes) and the handlers' results.
    A DTO property the handler does not set is null, here None. The three
    DTOs refer to each other, but every value is a finite tree, so no
    response can contain a cycle. */
module Dtos {
  import opened Linq
  import opened Models

  datatype CustomerDTO = CustomerDTO(
    id: Int32,
    name: string,
    address: string,
    serviceTickets: Option<seq<ServiceTicketDTO>>)

  datatype EmployeeDTO = EmployeeDTO(
    id: Int32,
    name: string,
    specialty: string,
    serviceTickets: Option<seq<ServiceTicketDTO>>)

  datatype ServiceTicketDTO = ServiceTicketDTO(
    id: Int32,
    customerId: Int32,
    customer: Option<CustomerDTO>,
    employeeId: Option<Int32>,
    employee: Option<EmployeeDTO>,
    description: string,
    emergency: bool,
    dateCompleted: Option<Date>)

  /** The `Results.*` values a handler returns. `Created` carries the id
      that the Location header names. `ServerError` is an exception the
      handler does not catch, which the host answers with status 500. */
  datatype Response<+T> =
    | Ok(body: T)
    | Created(location: Int32, body: T)
    | NoContent
    | NotFound
    | BadRequest
    | ServerError

  /** A ticket copied field for field, with no nested party
      (Program.cs:93-101 and 122-130). */
  function TicketSummary(t: ServiceTicket): ServiceTicketDTO
  {
    ServiceTicketDTO(t.id, t.customerId, None, t.employeeId, None,
                     t.description, t.emergency, t.dateCompleted)
  }

  /** A customer nested in a ticket: no ticket list (Program.cs:152-157). */
  function CustomerSummary(c: Customer): CustomerDTO
  {
    CustomerDTO(c.id, c.name, c.address, None)
  }

  /** An employee nested in a ticket: no ticket list (Program.cs:159-164). */
  function EmployeeSummary(e: Employee): EmployeeDTO
  {
    EmployeeDTO(e.id, e.name, e.specialty, None)
  }

  /** The tickets of a party's detail view: those matching p, in store order,
      each flattened. */
  function TicketList(ts: seq<ServiceTicket>, p: ServiceTicket -> bool): seq<ServiceTicketDTO>
  {
    Select(Where(ts, p), TicketSummary)
  }

  /** The single-ticket view: the ticket's own fields and its two foreign
      keys resolved one level deep; a key that does not resolve gives null. */
  function TicketDetail(cs: seq<Customer>, es: seq<Employee>, t: ServiceTicket): (d: ServiceTicketDTO)
    ensures d.id == t.id && d.customerId == t.customerId && d.employeeId == t.employeeId
    ensures d.description == t.description && d.emergency == t.emergency
    ensures d.dateCompleted == t.dateCompleted
    ensures d.customer.Some? <==> exists c :: c in cs && c.id == t.customerId
    ensures d.customer.Some? ==> d.customer.value.id == t.customerId &&
                                 d.customer.value.serviceTickets.None?
    ensures d.employee.Some? <==> t.employeeId.Some? && exists e :: e in es && e.id == t.employeeId.value
    ensures d.employee.Some? ==> Some(d.employee.value.id) == t.employeeId &&
                                 d.employee.value.serviceTickets.None?
    ensures d.customer.Some? ==>
              exists i ::
                && 0 <= i < |cs| && cs[i].id == t.customerId
                && (forall j :: 0 <= j < i ==> cs[j].id != t.customerId)
                && d.customer.value.name == cs[i].name && d.customer.value.address == cs[i].address
    ensures d.employee.Some? ==>
              exists i ::
                && 0 <= i < |es| && Some(es[i].id) == t.employeeId
                && (forall j :: 0 <= j < i ==> Some(es[j].id) != t.employeeId)
                && d.employee.value.name == es[i].name && d.employee.value.specialty == es[i].specialty
  {
    var employee := First(es, EmployeeMatches(t.employeeId));
    var customer := First(cs, CustomerHasId(t.customerId));
    ServiceTicketDTO(
      t.id,
      t.customerId,
      match customer case None => None case Some(c) => Some(CustomerSummary(c)),
      t.employeeId,
      match employee case None => None case Some(e) => Some(EmployeeSummary(e)),
      t.description,
      t.emergency,
      t.dateCompleted)
  }

  /** The body of a Created response: the stored ticket's id, customer id,
      description and emergency flag and the resolved customer; EmployeeId,
      Employee and DateCompleted are left null whatever the ticket holds
      (Program.cs:190-202). */
  function CreatedView(c: Customer, t: ServiceTicket): ServiceTicketDTO
  {
    ServiceTicketDTO(t.id, t.customerId, Some(CustomerSummary(c)), None, None,
                     t.description, t.emergency, None)
  }

  /** Every entry of a party's ticket list is a flattened copy of a matching
      ticket, and every matching ticket is there, as often as it is stored. */
  lemma TicketListExact(ts: seq<ServiceTicket>, p: ServiceTicket -> bool)
    ensures |TicketList(ts, p)| == |Where(ts, p)|
    ensures forall d :: d in TicketList(ts, p) ==>
              d.customer.None? && d.employee.None? &&
              exists t :: t in ts && p(t) && d == TicketSummary(t)
    ensures forall t :: t in ts && p(t) ==> TicketSummary(t) in TicketList(ts, p)
  {
  }

  /** Splitting the store splits a party's ticket list the same way: the
      list keeps store order. */
  lemma TicketListAppend(a: seq<ServiceTicket>, b: seq<ServiceTicket>, p: ServiceTicket -> bool)
    ensures TicketList(a + b, p) == TicketList(a, p) + TicketList(b, p)
  {
    WhereAppend(a, b, p);
    var l, la, lb := TicketList(a + b, p), TicketList(a, p), TicketList(b, p);
    assert |l| == |la + lb|;
    forall k | 0 <= k < |l| ensures l[k] == (la + lb)[k]
    {
      if k < |la| {
        assert Where(a + b, p)[k] == Where(a, p)[k];
      } else {
        assert Where(a + b, p)[k] == Where(b, p)[k - |la|];
      }
    }
  }
}
