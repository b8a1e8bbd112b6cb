/** The seeded scenarios the handlers are meant to support, checked against
    the method contracts alone. */
module Scenarios {
  import opened Linq
  import opened Models
  import opened Dtos
  import opened TicketStore

  /** POST {customerId: 1, description: "Phone", emergency: false} on the
      seeded store is created as ticket 6 with customer 1 nested. */
  method CreateOnSeeds()
  {
    var store := new Store();
    SeedNextId();
    assert CustomerHasId(1)(store.customers[0]);
    var created := store.Create(ServiceTicket(0, 1, None, "Phone", false, None));
    assert created.Created? && created.location == 6;
    assert created.body.customer.Some? && created.body.customer.value.id == 1;
  }

  /** GET on a seeded ticket with no employee: the employee is null, the
      customer is not. */
  method UnassignedTicketView()
  {
    var store := new Store();
    assert TicketHasId(3)(store.tickets[2]);
    assert CustomerHasId(2)(store.customers[1]);
    var view := store.GetTicket(3);
    assert view.Ok? && view.body.employee.None? && view.body.customer.Some?;
  }

  /** A seeded ticket goes away on the first delete and is not found on the
      second; an update whose body names another id is refused. */
  method DeleteTwiceOnSeeds()
  {
    var store := new Store();
    assert TicketHasId(2)(store.tickets[1]);
    var mismatch := store.Update(2, ServiceTicket(3, 1, Some(1), "x", true, None));
    assert mismatch == BadRequest;
    var first := store.Delete(2);
    assert first == NoContent && |store.tickets| == 4;
    var second := store.Delete(2);
    assert second == NotFound;
  }

  /** The seeded store assigns id 6 next. */
  lemma SeedNextId()
    ensures NextId(SeedTickets()) == Some(6)
  {
    var ts := SeedTickets();
    var m := MaxOf(ts, TicketId);
    assert 5 <= m by {
      assert ts[4] in ts;
    }
    var u :| u in ts && TicketId(u) == m;
    assert u.id <= 5 by {
      var k :| 0 <= k < |ts| && ts[k] == u;
      assert k == 0 || k == 1 || k == 2 || k == 3 || k == 4;
    }
  }
}
