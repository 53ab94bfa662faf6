# Project-management service store, in Dafny

A model of the in-memory store behind the Express handlers of a small project-management REST
service (`server.js`). The service keeps three arrays of records (projects, tasks, people) and
three id counters that all start at 2. For each resource it offers five handlers: list, get by id,
create, update and delete. Two deletes also clean up the task store:

- deleting a project drops the tasks whose `projectID` is that id;
- deleting a person sets `assignedTo` to `null` on the tasks assigned to that id.

The model has four modules:

- `Values` (`values.dfy`) covers the JavaScript the handlers rely on:
  - a field value is `Null | Bool | Num(int) | NaN | Str`;
  - a record is a `map<string, Value>`, where an absent key stands for `undefined`;
  - `Truthy` is `!x`, `StrictEquals` and `Refers` are `===`, and `ParseInt` is `parseInt`.
  
  `ParseInt` goes through `String(x)` and then skips leading white space, takes an optional sign,
  takes an optional `0x` prefix and reads the longest run of digits. No digits gives `NaN`.
- `Records` (`records.dfy`) covers the array operations the handlers use:
  - `findIndex`/`find` by id;
  - `filter` by `r[key] !== id`;
  - the spread `{ ...r, ...body, id }`;
  - clearing a field that referred to a deleted record.

  Each is a specification function with its meaning proved. The scans are loop methods proved
  against those functions. The module also holds the id invariants (unique within a store, below
  the store's counter) and the lemmas showing that every operation keeps them.
- `Server` (`server.dfy`) holds the `Service` class:
  - three `seq<Record>` fields and three counter fields;
  - a constructor that seeds one record per store;
  - the fifteen handlers as methods that return a `Reply` (status code, message, record).

  Create, update and delete change the fields in place. They state the whole new state in terms
  of the old one and keep `Valid()`. A failed validation or a 404 leaves everything unchanged.
  Deleting a person clears `assignedTo` with a loop over the task array, as the source's `forEach`
  does.
- `Scenarios` (`scenarios.dfy`) states short request sequences against a freshly seeded service
  and verifies them against the handlers' contracts alone.

The path parameter reaches the handlers already parsed, as `Option<int>`. `None` is the `NaN`
that `parseInt` gives for a non-numeric segment, and it never matches a record.

Points where the code's behaviour is easy to misread:

- The 400 message for projects is "El nombre es obligatorio y el cuerpo no debe estar vacío.".
- Task create requires `projectID` to be truthy, not just present. So `0`, `""` and `null` are
  rejected, while a non-numeric string is accepted and stored as `NaN`.
- The seeded task has no `id` and no `status`. It can never be reached by get, update or delete by
  id. Only the two delete clean-ups touch it. So after `DELETE /people/1`, `GET /tasks/1` is a 404,
  not the seeded task with `assignedTo` cleared.
- Delete removes every record with the id, because it is a filter. With unique ids, which the
  model proves are kept, that is exactly the one record `findIndex` finds.
- Deleting a person sets `assignedTo` to `null`; it does not remove the field.

## Model

| member | source | states |
|---|---|---|
| `Values.Truthy` | server.js:61 | definition: JavaScript truthiness as tested by `!x` at server.js:61, 130, 135, 140, 197 and 205; `null`, `false`, `0`, `NaN` and `""` are falsy |
| `Values.StrictEquals` | server.js:46 | definition of `===` on primitives |
| `Values.StrictEqualsLaws` | server.js:46 | `===` is symmetric and transitive, is reflexive on every value except `NaN`, and holds only between equal values |
| `Values.Refers` | server.js:46 | definition: `r[key] === id` with an absent key read as `undefined`, as at server.js:46, 78, 95, 99, 164, 228 and 233 |
| `Values.ParseInt` | server.js:138-141 | definition: `parseInt(x)` with no radix, reading `String(x)`, with `NaN` as `None` |
| `Values.RefersExactly` | server.js:46 | `r[key] === id` holds exactly when `id` is a number and the field holds that number; a `NaN` id matches nothing |
| `Values.ParseIntDecimalPrefix` | server.js:138 | `parseInt` of a decimal numeral followed by text that does not continue it (`"12abc"`) is that number |
| `Values.ParseIntNegativeDecimal` | server.js:138 | a minus sign followed by a decimal numeral parses as the negative number |
| `Values.ParseIntNonNegativeDecimal` | server.js:138 | a numeral with no sign parses as its value |
| `Values.ParseIntOfNumber` | server.js:138-141 | `parseInt` of an integer is that integer, so numeric `projectID`/`assignedTo` are stored unchanged |
| `Values.ParseIntOfDecimalString` | server.js:137-141 | a string-typed decimal number is coerced to that number |
| `Values.ParseIntOfNonNumber` | server.js:138 | `parseInt` of `null`, `true`, `false` or `NaN` is `NaN` |
| `Values.ParseIntStringNoDigit` | server.js:138 | a string that starts with no white space, sign or digit parses as `NaN` |
| `Values.DigitsValueOfDigits` | server.js:138 | reading the decimal digits of `n` back gives `n` |
| `Values.DigitRunOfDigits` | server.js:138 | the digit run read by `parseInt` stops exactly where the number's digits end |
| `Values.ParseDigitsOfDigits` | server.js:138 | the digits of `n` followed by a non-digit parse as `n` |
| `Values.ParseUnsignedOfDigits` | server.js:138 | an unsigned numeral is not mistaken for a `0x` prefix and parses as its value |
| `Values.ParseSignedOfDigits` | server.js:138 | a numeral starting with a digit has no white space or sign to skip |
| `Records.FirstIndex` | server.js:78 | the first index whose record's id is `===` the id, -1 exactly when no record has it |
| `Records.FindIndex` | server.js:78 | the linear scan returns that first matching index, or -1 |
| `Records.Find` | server.js:46 | `find` gives `undefined` exactly when no record has the id, and otherwise the record at the first matching index |
| `Records.Without` | server.js:95 | the filter never grows the store, keeps no record that refers to the id, and keeps the length exactly when no record refers to it |
| `Records.WithoutMembers` | server.js:99 | the filter keeps exactly the records whose field is `!==` the id |
| `Records.WithoutAppend` | server.js:164 | the filter keeps the surviving records in their original order (it distributes over concatenation) |
| `Records.WithoutNothing` | server.js:97-102 | when no record matches, the filter returns the store unchanged |
| `Records.WithoutUniqueId` | server.js:90-100 | with unique ids, deleting a present id removes exactly the record at the first matching index and keeps the rest in order |
| `Records.DeleteAgainFindsNothing` | server.js:161-170 | after a delete no record has the id, so repeating the delete finds nothing and changes nothing |
| `Records.Filter` | server.js:228 | the filter loop builds exactly the filtered store |
| `Records.ClearIfRefers` | server.js:233-234 | the cleared task no longer refers to the id, keeps the same fields, keeps every other field's value, and holds `null` where it referred |
| `Records.Cleared` | server.js:232-236 | tasks with `assignedTo === id` get `null` there; no task refers to the id afterwards; length, order, every other field and every other task are unchanged |
| `Records.Merge` | server.js:82 | the merged record has the old and body fields; body fields win over old ones; the id is pinned to the path id whatever the body says |
| `Records.AppendFresh` | server.js:67-70 | the new id is above every id already in the store; ids stay unique and below the advanced counter; looking up the new id finds the appended record |
| `Records.ReplaceSameId` | server.js:153 | replacing a record by one with the same id keeps ids unique and below the counter |
| `Records.WithoutKeepsIds` | server.js:99 | filtering keeps ids unique and below the counter |
| `Records.ClearedKeepsIds` | server.js:232-236 | clearing `assignedTo` keeps every id, so lookups by id and the id invariants are unchanged |
| `Server.ProjectAccepted` | server.js:61 | definition: a project create passes validation when the body is present and `name` is truthy |
| `Server.TaskAccepted` | server.js:130 | definition: a task create passes validation when `title` and `projectID` are both truthy |
| `Server.PersonAccepted` | server.js:197 | definition: a person create passes validation when `name` and `email` are both truthy |
| `Server.BodyFields` | server.js:82 | definition: the fields that `...req.body` spreads; an absent body spreads nothing |
| `Server.NewProject` | server.js:67 | the stored project is the body as sent, with `id` overwritten by the counter |
| `Server.NewTask` | server.js:134-142 | the stored task has the counter's id; `status` is truthy (the body's if truthy, else `"todo"`); `projectID` is its `parseInt`; `assignedTo` is parsed only when truthy; every other field is as sent |
| `Server.NewTaskCoercesNumbers` | server.js:137-142 | numeric or decimal-string `projectID` and `assignedTo` are stored as numbers, including `assignedTo` `0` (kept because falsy) and `"0"` (parsed to `0`) |
| `Server.NewPerson` | server.js:202-205 | the stored person has the counter's id; `role` is the body's if truthy, else `"Miembro"`; every other field is as sent |
| `Server.Get` | server.js:114-122 | a get is 404 with the resource's message exactly when no record has the id; otherwise it returns the first record with the id |
| `Server.Service.constructor` | server.js:17-35 | the stores hold the three seeded records (the task with no id) and every counter is 2 |
| `Server.Service.ListProjects` | server.js:39-41 | returns the whole project store, status 200 |
| `Server.Service.ListTasks` | server.js:109-111 | returns the whole task store, status 200 |
| `Server.Service.ListPeople` | server.js:176-178 | returns the whole people store, status 200 |
| `Server.Service.GetProject` | server.js:44-52 | 404 "Proyecto no encontrado" exactly when no project has the id; otherwise 200 with the first one that does |
| `Server.Service.GetTask` | server.js:114-122 | 404 "Tarea no encontrada" exactly when no task has the id; otherwise 200 with the first one that does |
| `Server.Service.GetPerson` | server.js:181-189 | 404 "Persona no encontrada" exactly when no person has the id; otherwise 200 with the first one that does |
| `Server.Service.CreateProject` | server.js:56-74 | if the body is absent or `name` is falsy: 400 and nothing changes; otherwise the project with the counter's id is appended, the counter advances by one, nothing else changes, and get by the new id finds it |
| `Server.Service.CreateTask` | server.js:126-146 | if `title` or `projectID` is falsy: 400 and nothing changes; otherwise the defaulted, coerced task is appended under the next id and the counter advances by one |
| `Server.Service.CreatePerson` | server.js:193-209 | if `name` or `email` is falsy: 400 and nothing changes; otherwise the person with the default role is appended under the next id and the counter advances by one |
| `Server.Service.UpdateProject` | server.js:76-87 | 404 and nothing changes when no project has the id; otherwise only the first match is replaced by the merge with the id pinned, and the length and all other entries are unchanged |
| `Server.Service.UpdateTask` | server.js:148-158 | the same for tasks |
| `Server.Service.UpdatePerson` | server.js:212-222 | the same for people |
| `Server.Service.DeleteProject` | server.js:90-104 | 404 and no store changes when no project has the id; otherwise the project is removed with order kept, every task with that `projectID` is dropped with the others kept in order, and no task refers to it |
| `Server.Service.DeleteTask` | server.js:161-171 | 404 and nothing changes when no task has the id; otherwise exactly that task is removed, and there is no clean-up elsewhere |
| `Server.Service.DeletePerson` | server.js:225-241 | 404 and nothing changes when no person has the id; otherwise the person is removed, and the tasks keep their count and order with `assignedTo` nulled where it was that id |

## Left out

- Express, body-parser, the port and base-URL constants, `app.listen` and the console output
  (server.js:1-12, 243-247) are not modelled. They are framework and I/O wiring. Replies are
  values with a status code, not HTTP responses.
- JSON decoding and encoding are not modelled. Bodies arrive as decoded records, and an absent body
  is `None`. The key order of a serialised record is not modelled because a record is a map.
- The path segment reaches the handlers as the parsed `Option<int>`, and its `parseInt` is not
  modelled. It is the same `parseInt` as `Values.ParseIntString`.
- Numbers are integers. Fractions, `-0` as distinct from `0`, the loss of precision above 2^53, and
  numbers at or above 1e21 (which `String(n)` writes in exponent notation, so `parseInt(1e21)` is
  `1`) are not modelled.
- Values.ParseIntOfNumber: in JavaScript it holds only for integers below 1e21 in magnitude, since
  `String(n)` switches to exponent notation there; the model's `Decimal` always writes every digit.
- Nested objects and arrays in a body are not modelled as field values; `Value` has only
  primitives.
- `parseInt` skips ASCII white space, no-break space, the byte-order mark and the line and paragraph
  separators. It does not skip the other Unicode space separators.
- Object aliasing is not modelled: the source pushes `req.body` itself into the store, and the model
  stores a copy.
- Concurrency is not modelled, because each handler runs to completion.
