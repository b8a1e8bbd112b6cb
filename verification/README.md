# HoneyRaesAPI service-ticket store, in Dafny

HoneyRaesAPI is a small web API that tracks repair tickets for customers and
employees. Everything is held in three in-memory lists that `Program.cs`
seeds at start-up. This project models the part of it that has logic:

- the lookups by id (`FirstOrDefault`);
- the filtering of tickets by foreign key (`Where`);
- the DTO projections the GET endpoints return;
- the four ticket lifecycle handlers: create, delete, update and complete.

It then proves what those handlers promise. The main promise is that ticket
ids stay unique.

Layout, one module per concern:

- `linq.dfy` (`Linq`): `Option` (for C# null) and sequence versions of the
  LINQ and `List<T>` members the handlers call: `FirstOrDefault`, `Where`,
  `Select`, `Max` and `Remove`.
- `models.dfy` (`Models`): C# `int` as the subset type `Int32`, unchecked
  wrap-around (`Wrap`), `Date`, the entity records, the handlers' lambdas
  as named predicates, and the seed lists.
- `dtos.dfy` (`Dtos`): `CustomerDTO`, `EmployeeDTO`, `ServiceTicketDTO`, the
  `Response` datatype that stands for `Results.*`, and the projections.
- `endpoints.dfy` (`Endpoints`): the GET handlers. They are pure functions of
  the lists.
- `store.dfy` (`TicketStore`): the `Store` class. Its `customers` and
  `employees` are `const`, and `tickets` is the one mutable field. It has
  one method per lifecycle handler, plus the lemmas those methods rely on.
  `Store.Valid()` is the unique-ids invariant. Every method requires it and
  keeps it.
- `scenarios.dfy` (`Scenarios`): the seeded scenarios stated as verified
  client code, which relies on the method contracts alone. Examples: create on the seeds
  gives ticket 6, and a second delete gives NotFound.

Modelling choices:

- `Response` has `Ok`, `Created` (carrying the id of the Location header),
  `NoContent`, `NotFound` and `BadRequest`. It also has `ServerError`, which
  stands for an exception the handler does not catch; the host answers it
  with status 500.
- `Max` on an empty ticket list throws (Program.cs:175). The model follows
  the code and returns `ServerError`, with the store unchanged. A
  precondition would exclude an input that callers can produce: deleting
  every ticket leaves the list empty. The id is computed before the
  customer is checked, so on an empty store the result is `ServerError`
  even when the customer is unknown.
- One might expect a ticket read back right after creation to show no
  employee id, since the Created response omits it. The code stores the
  body's `EmployeeId` (and `DateCompleted`) as supplied; only the Created
  response leaves them null. The model follows the code (`Store.Create`,
  `CreatedIsRetrievable`).
- The model does not check foreign keys on update (Program.cs:237-241),
  because the code does not.
- `List.Remove(ticket)` compares by reference. The model removes the first
  element equal by value. `RemoveFirstMatch` proves that this is exactly
  the first ticket with the id, which is the object `FirstOrDefault` found.
- The DTO classes are not part of this model. Their fields are inferred
  from the handlers. A `ServiceTickets` list that a handler does not set is
  taken to be null (`None`).

## Model

| member | source | states |
|---|---|---|
| Linq.FirstIndex | Program.cs:226 | the position of the first element satisfying the predicate; None exactly when no element satisfies it |
| Linq.First | Program.cs:79 | FirstOrDefault: None iff no element matches; otherwise an element at some position i that matches, with no match before i |
| Linq.Where | Program.cs:86 | Where: no longer than the input; an element is in the result iff it is in the input and matches |
| Linq.WhereAppend | Program.cs:115 | filtering distributes over concatenation, so the result keeps store order |
| Linq.WhereCount | Program.cs:86 | each matching element occurs in the result exactly as often as in the input; non-matching elements never occur |
| Linq.Select | Program.cs:93-101 | Select: same length, and element k is the projection of input element k |
| Linq.MaxOf | Program.cs:175 | Max on a non-empty list: no key exceeds the result, and some element has it |
| Linq.Remove | Program.cs:218 | List.Remove: unchanged when the value is absent; otherwise the length drops by one |
| Linq.RemoveFirst | Program.cs:218 | List.Remove cuts out exactly the first occurrence, and the rest keep their order |
| Linq.FirstIndexAfterReplace | Program.cs:257 | replacing the first match with another matching value leaves the first match at the same position |
| Models.Wrap | Program.cs:175 | unchecked int arithmetic: identity inside the 32-bit range; otherwise congruent modulo 2^32 |
| Models.OnlyMatch | Program.cs:210 | under unique ids, the ticket at i is the first and only one with its id |
| Models.SeedCustomers | Program.cs:8-13 | three seeded customers with distinct ids |
| Models.SeedEmployees | Program.cs:16-20 | two seeded employees with distinct ids |
| Models.SeedTickets | Program.cs:23-31 | five seeded tickets with unique ids |
| Dtos.TicketDetail | Program.cs:144-168 | ticket detail: own fields copied; nested customer present iff the customer id resolves, and then it carries the id, name and address of the first customer with that id; nested employee present iff an employee id is set and resolves, and then it carries the id, name and specialty of the first employee with that id; nested parties carry no ticket lists |
| Dtos.TicketListExact | Program.cs:93-101 | a party's ticket list has one entry per matching ticket; each entry is a flat copy of a matching ticket with no nested party; every matching ticket appears |
| Dtos.TicketListAppend | Program.cs:115-130 | a party's ticket list of a concatenated store is the concatenation of the parts' lists (store order) |
| Endpoints.GetEmployee | Program.cs:77-103 | NotFound iff no employee has the id; otherwise the first such employee's id, name and specialty, with the tickets assigned to that id |
| Endpoints.GetCustomer | Program.cs:106-132 | NotFound iff no customer has the id; otherwise the first such customer's id, name and address, with the tickets owned by that id |
| Endpoints.GetTicket | Program.cs:135-169 | NotFound iff no ticket has the id; otherwise the detail view of the first ticket with that id |
| Endpoints.EmployeeDetailTickets | Program.cs:86-101 | the employee detail lists exactly the tickets assigned to that employee (unassigned ones never), flattened, one entry per matching ticket |
| Endpoints.CustomerDetailTickets | Program.cs:115-130 | the customer detail lists exactly the tickets owned by that customer, flattened, one entry per matching ticket |
| TicketStore.NextIdAsWritten | Program.cs:175 | the id as compiled: absent only for an empty list; above every stored id only while no stored id is MAX_INT32 |
| TicketStore.NextIdAsWrittenReissues | Program.cs:175 | once a ticket holds MAX_INT32, two creates in a row both get MIN_INT32, and the ids are no longer unique |
| TicketStore.NextIdAsWrittenAtMax | Program.cs:175 | when a stored id is MAX_INT32, the as-written id wraps to MIN_INT32 |
| TicketStore.NextId | Program.cs:175 | the corrected id: absent iff the list is empty or holds MAX_INT32; otherwise one more than some stored id and above all of them |
| TicketStore.NextIdAgrees | Program.cs:175 | wherever the corrected id exists, the code as written computes the same one |
| TicketStore.AppendKeepsUnique | Program.cs:175-187 | appending a ticket with the next id keeps ticket ids unique |
| TicketStore.RemoveKeepsUnique | Program.cs:210-218 | removing a ticket keeps ids unique, and no ticket with the removed id remains |
| TicketStore.RemoveFirstMatch | Program.cs:210-218 | List.Remove of the found ticket cuts out exactly the position of the first id match |
| TicketStore.ReplaceKeepsUnique | Program.cs:237-241 | replacing a ticket by one with the same id keeps ids unique |
| TicketStore.OverwriteIsWholesale | Program.cs:232-241 | once the ids match, the five assignments turn the stored ticket into the body itself, with the id unchanged |
| TicketStore.CreatedIsRetrievable | Program.cs:187 | after the append, GET on the new id returns the detail view of the stored ticket, which carries the body's fields |
| TicketStore.CompletedIsObservable | Program.cs:250-257 | after complete, GET on the id shows today's date and otherwise the same view |
| Scenarios.SeedNextId | Program.cs:23-31 | on the seeded tickets the next id is 6 |
| TicketStore.Store.constructor | Program.cs:8-31 | the store holds the seed lists, and the unique-ids invariant holds |
| TicketStore.Store.Create | Program.cs:172-204 | ServerError when no id can be computed; BadRequest for an unknown customer; in both cases the store is unchanged. Otherwise the ticket is appended with an id above every stored id (so GET /servicetickets lists the old tickets followed by the new one), and Created carries that id, the customer id, the nested customer, the description and the emergency flag, with employee and completion date null |
| TicketStore.Store.Delete | Program.cs:207-221 | NotFound and unchanged for an absent id; otherwise exactly the first match is removed and GET /servicetickets lists the rest in their old order, and the length drops by one; afterwards no ticket has the id |
| TicketStore.Store.Update | Program.cs:224-244 | NotFound for an absent id, checked before the id mismatch; BadRequest and unchanged for a mismatch; otherwise only the matched position changes, and it becomes the body (the five fields overwritten, the id kept) |
| TicketStore.Store.Complete | Program.cs:247-261 | NotFound and unchanged for an absent id; otherwise only the matched ticket's completion date changes, set to today, which a following GET shows |

## Findings

| source | as written | input that shows it | evidently intended | confidence | as-written member | corrected member |
|---|---|---|---|---|---|---|
| Program.cs:175 | `serviceTickets.Max(st => st.Id) + 1` in unchecked C# int arithmetic wraps 2147483647 + 1 to -2147483648 | a store holding a ticket of id 2147483647, then two creates: both new tickets get id -2147483648. The store reaches that state from the seeds by 2147483642 rounds of one create followed by a delete of the oldest ticket, which raise the largest id while the list stays at five tickets | a new id above every stored id, failing (checked overflow, a 500) when none exists, so that ids stay unique | medium, not executed | TicketStore.NextIdAsWrittenReissues | TicketStore.NextId |

`Store.Create` uses the corrected `NextId`. `NextIdAgrees` shows that the two
differ only once the id space is used up.

## Left out

- Web host setup, Swagger/OpenAPI, HTTPS redirection and `app.Run()` (Program.cs:33-56, 264): framework plumbing with no logic of the store.
- The JSON serializer's `ReferenceHandler.IgnoreCycles` (Program.cs:36-39): serialization is a library concern, and the DTO datatypes here cannot hold cycles.
- HTTP status codes, the Location header text and route binding (a path id outside `int` is refused by the framework before any handler runs): `Response` is abstract and carries the new id only.
- `DateTime.Today` (Program.cs:257): the system clock is the `today` parameter of `Store.Complete`; `Date` is an opaque year/month/day record and is not checked to be a real date.
- Reference semantics: updating a stored ticket object in place is modelled as replacing the element at its index. Aliasing between a response and the live list is not modelled. In particular, GET /servicetickets returns the live list, and the model returns a copy of its value.
- Concurrency: the handlers use no locking; each call is taken to be atomic.
- C# null for string fields and for a missing request body: strings are always present.
- TicketStore.Store.Create: once a stored id is MAX_INT32 it returns ServerError, where the code as written wraps the id; see Findings.
