/** The GET handlers (Program.cs:59-169): pure reads of the three lists. */
module Endpoints {
  import opened Linq
  import opened Models
  import opened Dtos

  /** GET /employees, /customers, /servicetickets: the list as held, in
      insertion order (Program.cs:59-74). */
  function ListAll<T>(s: seq<T>): Response<seq<T>>
  {
    Ok(s)
  }

  /** GET /employees/{id} (Program.cs:77-103). */
  function GetEmployee(es: seq<Employee>, ts: seq<ServiceTicket>, id: Int32): (r: Response<EmployeeDTO>)
    ensures r.Ok? || r.NotFound?
    ensures r.NotFound? <==> forall e :: e in es ==> e.id != id
    ensures r.Ok? ==> exists i :: 0 <= i < |es| && es[i].id == id &&
                        (forall j :: 0 <= j < i ==> es[j].id != id) &&
                        r.body.name == es[i].name && r.body.specialty == es[i].specialty
    ensures r.Ok? ==> r.body.id == id && r.body.serviceTickets == Some(TicketList(ts, AssignedTo(id)))
  {
    match First(es, EmployeeHasId(id))
    case None => NotFound
    case Some(e) =>
      Ok(EmployeeDTO(e.id, e.name, e.specialty, Some(TicketList(ts, AssignedTo(id)))))
  }

  /** GET /customers/{id} (Program.cs:106-132). */
  function GetCustomer(cs: seq<Customer>, ts: seq<ServiceTicket>, id: Int32): (r: Response<CustomerDTO>)
    ensures r.Ok? || r.NotFound?
    ensures r.NotFound? <==> forall c :: c in cs ==> c.id != id
    ensures r.Ok? ==> exists i :: 0 <= i < |cs| && cs[i].id == id &&
                        (forall j :: 0 <= j < i ==> cs[j].id != id) &&
                        r.body.name == cs[i].name && r.body.address == cs[i].address
    ensures r.Ok? ==> r.body.id == id && r.body.serviceTickets == Some(TicketList(ts, OwnedBy(id)))
  {
    match First(cs, CustomerHasId(id))
    case None => NotFound
    case Some(c) =>
      Ok(CustomerDTO(c.id, c.name, c.address, Some(TicketList(ts, OwnedBy(id)))))
  }

  /** GET /servicetickets/{id} (Program.cs:135-169). */
  function GetTicket(cs: seq<Customer>, es: seq<Employee>, ts: seq<ServiceTicket>, id: Int32)
    : (r: Response<ServiceTicketDTO>)
    ensures r.Ok? || r.NotFound?
    ensures r.NotFound? <==> forall t :: t in ts ==> t.id != id
    ensures r.Ok? ==> exists i :: 0 <= i < |ts| && ts[i].id == id &&
                        (forall j :: 0 <= j < i ==> ts[j].id != id) &&
                        r.body == TicketDetail(cs, es, ts[i])
  {
    match First(ts, TicketHasId(id))
    case None => NotFound
    case Some(t) => Ok(TicketDetail(cs, es, t))
  }

  /** A ticket appears in an employee's detail exactly when it is assigned to
      that employee, flattened and in store order; an unassigned ticket never
      appears (Program.cs:86-101). */
  lemma EmployeeDetailTickets(es: seq<Employee>, ts: seq<ServiceTicket>, id: Int32)
    requires GetEmployee(es, ts, id).Ok?
    ensures var ds := GetEmployee(es, ts, id).body.serviceTickets.value;
      && |ds| == |Where(ts, AssignedTo(id))|
      && (forall d :: d in ds ==> d.employeeId == Some(id) && d.customer.None? && d.employee.None?)
      && (forall t :: t in ts ==> (TicketSummary(t) in ds <==> t.employeeId == Some(id)))
  {
  }

  /** The customer-side twin of EmployeeDetailTickets (Program.cs:115-130). */
  lemma CustomerDetailTickets(cs: seq<Customer>, ts: seq<ServiceTicket>, id: Int32)
    requires GetCustomer(cs, ts, id).Ok?
    ensures var ds := GetCustomer(cs, ts, id).body.serviceTickets.value;
      && |ds| == |Where(ts, OwnedBy(id))|
      && (forall d :: d in ds ==> d.customerId == id && d.customer.None? && d.employee.None?)
      && (forall t :: t in ts ==> (TicketSummary(t) in ds <==> t.customerId == id))
  {
  }
}
