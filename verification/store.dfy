/** The in-memory store and the four ticket lifecycle handlers
    (Program.cs:172-261). The customer and employee lists are never written
    after seeding; the ticket list is the store's only mutable state. */
module TicketStore {
  import opened Linq
  import opened Models
  import opened Dtos
  import Endpoints

  /** `serviceTickets.Max(st => st.Id) + 1` exactly as compiled: `Max`
      throws on an empty list (None here) and the addition is unchecked, so
      it wraps past MAX_INT32. */
  function NextIdAsWritten(ts: seq<ServiceTicket>): (r: Option<Int32>)
    ensures r.None? <==> ts == []
    ensures r.Some? && (forall t :: t in ts ==> t.id < MAX_INT32) ==>
              forall t :: t in ts ==> t.id < r.value
  {
    if ts == [] then None else Some(Wrap(MaxOf(ts, TicketId) + 1))
  }

  /** Once some ticket holds MAX_INT32, the as-written id wraps to MIN_INT32
      and stays there: two creates in a row store two tickets with one id. */
  lemma NextIdAsWrittenReissues(ts: seq<ServiceTicket>, a: ServiceTicket, b: ServiceTicket)
    requires exists t :: t in ts && t.id == MAX_INT32
    ensures NextIdAsWritten(ts) == Some(MIN_INT32)
    ensures var ts1 := ts + [a.(id := MIN_INT32)];
      && NextIdAsWritten(ts1) == Some(MIN_INT32)
      && !UniqueTicketIds(ts1 + [b.(id := MIN_INT32)])
  {
    var ts1 := ts + [a.(id := MIN_INT32)];
    NextIdAsWrittenAtMax(ts);
    assert exists t :: t in ts1 && t.id == MAX_INT32 by {
      var t :| t in ts && t.id == MAX_INT32;
      assert t in ts1;
    }
    NextIdAsWrittenAtMax(ts1);
    var ts2 := ts1 + [b.(id := MIN_INT32)];
    assert ts2[|ts|].id == ts2[|ts| + 1].id;
  }

  /** A stored MAX_INT32 makes the as-written id wrap to MIN_INT32. */
  lemma NextIdAsWrittenAtMax(ts: seq<ServiceTicket>)
    requires exists t :: t in ts && t.id == MAX_INT32
    ensures NextIdAsWritten(ts) == Some(MIN_INT32)
  {
    var t :| t in ts && t.id == MAX_INT32;
    assert TicketId(t) <= MaxOf(ts, TicketId);
    var u :| u in ts && TicketId(u) == MaxOf(ts, TicketId);
    assert Wrap(MAX_INT32 + 1) == MIN_INT32;
  }

  /** The id the create handler evidently means to assign: one more than the
      largest stored id. None when there is no such id: `Max` of an empty
      list, or a checked addition that would overflow. */
  function NextId(ts: seq<ServiceTicket>): (r: Option<Int32>)
    ensures r.None? <==> ts == [] || exists t :: t in ts && t.id == MAX_INT32
    ensures r.Some? ==> forall t :: t in ts ==> t.id < r.value
    ensures r.Some? ==> exists t :: t in ts && t.id + 1 == r.value
  {
    if ts == [] then None
    else
      var m := MaxOf(ts, TicketId);
      if m == MAX_INT32 then None else Some(m + 1)
  }

  /** Wherever the corrected id exists, the code as written assigns the same one. */
  lemma NextIdAgrees(ts: seq<ServiceTicket>)
    requires NextId(ts).Some?
    ensures NextIdAsWritten(ts) == NextId(ts)
  {
  }

  /** Appending a ticket with the next id keeps ids unique (Program.cs:175, 187). */
  lemma AppendKeepsUnique(ts: seq<ServiceTicket>, t: ServiceTicket)
    requires UniqueTicketIds(ts)
    requires NextId(ts) == Some(t.id)
    ensures UniqueTicketIds(ts + [t])
  {
  }

  /** Dropping one ticket keeps ids unique, and under unique ids the dropped
      id is gone afterwards, so a second delete finds nothing (Program.cs:210-218). */
  lemma RemoveKeepsUnique(ts: seq<ServiceTicket>, i: nat)
    requires UniqueTicketIds(ts)
    requires i < |ts|
    ensures UniqueTicketIds(ts[..i] + ts[i + 1..])
    ensures FirstIndex(ts[..i] + ts[i + 1..], TicketHasId(ts[i].id)).None?
  {
  }

  /** List.Remove of the object FirstOrDefault found removes exactly the
      first ticket with that id (Program.cs:210, 218). */
  lemma RemoveFirstMatch(ts: seq<ServiceTicket>, id: int, i: nat)
    requires FirstIndex(ts, TicketHasId(id)) == Some(i)
    ensures Remove(ts, ts[i]) == ts[..i] + ts[i + 1..]
  {
    forall j | 0 <= j < i ensures ts[j] != ts[i]
    {
      assert !TicketHasId(id)(ts[j]);
    }
    RemoveFirst(ts, ts[i], i);
  }

  /** Replacing a ticket by one with the same id keeps ids unique
      (Program.cs:237-241, 257). */
  lemma ReplaceKeepsUnique(ts: seq<ServiceTicket>, i: nat, t: ServiceTicket)
    requires UniqueTicketIds(ts)
    requires i < |ts| && t.id == ts[i].id
    ensures UniqueTicketIds(ts[i := t])
  {
  }

  /** The update handler's five assignments (Program.cs:237-241): every field
      but Id taken from the body. */
  function Overwrite(stored: ServiceTicket, body: ServiceTicket): ServiceTicket
  {
    stored.(customerId := body.customerId, employeeId := body.employeeId,
            description := body.description, emergency := body.emergency,
            dateCompleted := body.dateCompleted)
  }

  /** Once the path id matches both the stored ticket and the body, the
      overwritten ticket is the body itself: a wholesale replacement, not a merge. */
  lemma OverwriteIsWholesale(stored: ServiceTicket, body: ServiceTicket)
    requires stored.id == body.id
    ensures Overwrite(stored, body) == body
    ensures Overwrite(stored, body).id == stored.id
  {
  }

  /** A created ticket can be read back at once: GET on the new id gives the
      stored ticket, with the body's fields, its foreign keys resolved. */
  lemma CreatedIsRetrievable(cs: seq<Customer>, es: seq<Employee>, ts: seq<ServiceTicket>, body: ServiceTicket)
    requires NextId(ts).Some?
    ensures var t := body.(id := NextId(ts).value);
      Endpoints.GetTicket(cs, es, ts + [t], t.id) == Ok(TicketDetail(cs, es, t))
  {
  }

  /** After the complete handler, GET on the same id shows the date it set
      and the ticket's other fields as they were (Program.cs:250-257). */
  lemma CompletedIsObservable(cs: seq<Customer>, es: seq<Employee>, ts: seq<ServiceTicket>, id: Int32, i: nat, today: Date)
    requires FirstIndex(ts, TicketHasId(id)) == Some(i)
    ensures var r := Endpoints.GetTicket(cs, es, ts[i := ts[i].(dateCompleted := Some(today))], id);
      && r.Ok?
      && r.body.dateCompleted == Some(today)
      && r.body == TicketDetail(cs, es, ts[i]).(dateCompleted := Some(today))
  {
    FirstIndexAfterReplace(ts, TicketHasId(id), i, ts[i].(dateCompleted := Some(today)));
  }

  class Store {
    const customers: seq<Customer>
    const employees: seq<Employee>
    var tickets: seq<ServiceTicket>

    /** Ticket ids are unique. */
    ghost predicate Valid()
      reads this
    {
      UniqueTicketIds(tickets)
    }

    /** The store as seeded at start-up (Program.cs:8-31). */
    constructor ()
      ensures customers == SeedCustomers() && employees == SeedEmployees()
      ensures tickets == SeedTickets()
      ensures Valid()
    {
      customers := SeedCustomers();
      employees := SeedEmployees();
      tickets := SeedTickets();
    }

    function ListEmployees(): Response<seq<Employee>>
    {
      Endpoints.ListAll(employees)
    }

    function ListCustomers(): Response<seq<Customer>>
    {
      Endpoints.ListAll(customers)
    }

    function ListTickets(): Response<seq<ServiceTicket>>
      reads this
    {
      Endpoints.ListAll(tickets)
    }

    function GetEmployee(id: Int32): Response<EmployeeDTO>
      reads this
    {
      Endpoints.GetEmployee(employees, tickets, id)
    }

    function GetCustomer(id: Int32): Response<CustomerDTO>
      reads this
    {
      Endpoints.GetCustomer(customers, tickets, id)
    }

    function GetTicket(id: Int32): Response<ServiceTicketDTO>
      reads this
    {
      Endpoints.GetTicket(customers, employees, tickets, id)
    }

    /** POST /servicetickets (Program.cs:172-204). The id is computed before
        the customer is checked, so an empty store fails even for a body
        whose customer is unknown. */
    method Create(body: ServiceTicket) returns (r: Response<ServiceTicketDTO>)
      requires Valid()
      modifies this
      ensures Valid()
      ensures NextId(old(tickets)).None? ==> r == ServerError && tickets == old(tickets)
      ensures NextId(old(tickets)).Some? && First(customers, CustomerHasId(body.customerId)).None? ==>
                r == BadRequest && tickets == old(tickets)
      ensures NextId(old(tickets)).Some? && First(customers, CustomerHasId(body.customerId)).Some? ==>
                var t := body.(id := NextId(old(tickets)).value);
                && tickets == old(tickets) + [t]
                && ListTickets() == Ok(old(tickets) + [t])
                && r == Created(t.id, CreatedView(First(customers, CustomerHasId(body.customerId)).value, t))
      ensures r.Created? ==>
                && |tickets| == |old(tickets)| + 1
                && (forall u :: u in old(tickets) ==> u.id < r.location)
                && r.body.id == r.location && r.body.customerId == body.customerId
                && r.body.customer.Some? && r.body.customer.value.id == body.customerId
                && r.body.description == body.description && r.body.emergency == body.emergency
                && r.body.employeeId.None? && r.body.employee.None? && r.body.dateCompleted.None?
      ensures r.Created? ==> GetTicket(r.location) == Ok(TicketDetail(customers, employees, tickets[|tickets| - 1]))
    {
      var id := NextId(tickets);
      if id.None? {
        return ServerError;
      }
      var ticket := body.(id := id.value);
      var customer := First(customers, CustomerHasId(ticket.customerId));
      if customer.None? {
        return BadRequest;
      }
      AppendKeepsUnique(tickets, ticket);
      CreatedIsRetrievable(customers, employees, tickets, body);
      tickets := tickets + [ticket];
      r := Created(ticket.id, CreatedView(customer.value, ticket));
    }

    /** DELETE /servicetickets/{id} (Program.cs:207-221). */
    method Delete(id: Int32) returns (r: Response<()>)
      requires Valid()
      modifies this
      ensures Valid()
      ensures match FirstIndex(old(tickets), TicketHasId(id))
        case None => r == NotFound && tickets == old(tickets)
        case Some(i) =>
          && r == NoContent && tickets == old(tickets)[..i] + old(tickets)[i + 1..]
          && ListTickets() == Ok(old(tickets)[..i] + old(tickets)[i + 1..])
      ensures r == NoContent ==> |tickets| == |old(tickets)| - 1
      ensures FirstIndex(tickets, TicketHasId(id)).None?
    {
      var found := First(tickets, TicketHasId(id));
      if found.None? {
        return NotFound;
      }
      var i := FirstIndex(tickets, TicketHasId(id)).value;
      RemoveFirstMatch(tickets, id, i);
      RemoveKeepsUnique(tickets, i);
      tickets := Remove(tickets, found.value);
      r := NoContent;
    }

    /** PUT /servicetickets/{id} (Program.cs:224-244). A missing id wins over
        a path/body mismatch; foreign keys are not checked. */
    method Update(id: Int32, body: ServiceTicket) returns (r: Response<()>)
      requires Valid()
      modifies this
      ensures Valid()
      ensures match FirstIndex(old(tickets), TicketHasId(id))
        case None => r == NotFound && tickets == old(tickets)
        case Some(i) =>
          if id != body.id then r == BadRequest && tickets == old(tickets)
          else r == NoContent && tickets == old(tickets)[i := Overwrite(old(tickets)[i], body)] &&
               tickets == old(tickets)[i := body]
    {
      var k := FirstIndex(tickets, TicketHasId(id));
      if k.None? {
        return NotFound;
      }
      if id != body.id {
        return BadRequest;
      }
      var i := k.value;
      var stored := Overwrite(tickets[i], body);
      OverwriteIsWholesale(tickets[i], body);
      ReplaceKeepsUnique(tickets, i, stored);
      tickets := tickets[i := stored];
      r := NoContent;
    }

    /** POST /servicetickets/{id}/complete (Program.cs:247-261); `today`
        stands for DateTime.Today. */
    method Complete(id: Int32, today: Date) returns (r: Response<()>)
      requires Valid()
      modifies this
      ensures Valid()
      ensures match FirstIndex(old(tickets), TicketHasId(id))
        case None => r == NotFound && tickets == old(tickets)
        case Some(i) =>
          r == NoContent && tickets == old(tickets)[i := old(tickets)[i].(dateCompleted := Some(today))]
      ensures r == NoContent ==> GetTicket(id).Ok? && GetTicket(id).body.dateCompleted == Some(today)
    {
      var k := FirstIndex(tickets, TicketHasId(id));
      if k.None? {
        return NotFound;
      }
      var i := k.value;
      var stored := tickets[i].(dateCompleted := Some(today));
      ReplaceKeepsUnique(tickets, i, stored);
      CompletedIsObservable(customers, employees, tickets, id, i, today);
      tickets := tickets[i := stored];
      r := NoContent;
    }
  }
}
