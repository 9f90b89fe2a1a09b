# TaskMgmt task store — a Dafny model

TaskMgmt is a small HTTP service that keeps tasks (`Tarefa`). Each task has a
title, a description, a status and a due date. This project models the core of
that service in Dafny:

- the repository: a table of rows keyed by id, and the listing pipeline that
  filters, orders and pages those rows;
- the input validator;
- the entity/DTO mapper;
- the service, which forwards every call to the repository;
- the decisions of the controller: which outcome each action returns, which
  row it stores or removes, and the three navigation links on every task.

Files, one module each:

- `domain.dfy` (`Domain`): the entity, the two DTOs, the link, the three-member
  status enum, and `DateTime` as a count of ticks with `Date`.
- `text.dfy` (`Text`): ASCII `ToLower` and decimal rendering of an `int`, with
  its read-back.
- `validation.dfy` (`Validation`): `TarefaInputDtoValidator` as a function from
  a payload to its list of violations.
- `mapper.dfy` (`Mapper`): `TarefaMapper`.
- `sorting.dfy` (`Sorting`): the four sort keys, both directions, and a sort
  proved to return an ordered permutation.
- `query.dfy` (`Query`): the listing pipeline of `GetAllAsync` as functions
  over sequences of rows, with its properties.
- `repository.dfy` (`Repository`): the `TarefaRepository` class. Its table is a
  `map<int, Tarefa>` field, and its methods change it in place.
- `service.dfy` (`Service`): the `TarefaService` class, which wraps a repository.
- `controller.dfy` (`Controller`): the `TarefaController` class and the
  `ActionResult` outcome datatype.

Design choices:

- A `DateTime` is a natural number of ticks. `DateTime.MinValue` is 0, and the
  calendar day of `t` is `t - t % TicksPerDay`.
- The status enum is not among the source files. The seed code casts `i % 3` to
  it, so it has three members with ordinals 0, 1 and 2. The model names them
  `Pendente`, `EmAndamento` and `Concluido`. The tests use the first and the
  last. The middle name is assumed.
- The database is abstracted:
  - A query over the table starts from its rows in ascending id order (`Rows`).
  - Titles are compared code point by code point. This is SQLite's default
    BINARY collation on UTF-8 text.
  - The sort is stable. No contract depends on how ties come out: the store
    does not promise a tie order, so the contracts state only that the result
    is ordered and is a permutation.
  - A generated id continues from the largest id handed out so far, as an
    `AUTOINCREMENT` key does. The contracts state only that the id is positive
    and unused.
- Model state is the binding errors followed by what the validator reports.
  This is how the validator is registered for automatic validation
  (`TaskMgmt.API/Program.cs:20`). `Criar` receives it as an argument.
- The route generator `Url.Action` and the request path `HttpContext.Request.Path`
  are fields of the controller. The route generator is a function from an action
  name and an id to an optional href.

Notes on the source's behaviour:

- The sort-field whitelist is `"titulo"`, `"status"` and `"datavencimento"`,
  compared after lowering.
- A recognised sort field with an `order` other than `"desc"` sorts ascending.
  An unrecognised field sorts by id ascending and ignores `order`.
- `NotEmpty` also rejects text made only of white space.
- A blank text that is also too long gets both violations, because both rules
  of a chain run.
- `Atualizar` does no validation of its own.

## Model

| member | source | states |
|---|---|---|
| Domain.Ordinal | TaskMgmt.API/Program.cs:44 | each status is stored as an ordinal below 3 |
| Domain.Date | TaskMgmt.Infrastructure/Repositories/TarefaRepository.cs:27 | `DateTime.Date` is the midnight that starts the day: a multiple of a day, at most `t` and less than a day before it |
| Text.ToLower | TaskMgmt.Infrastructure/Repositories/TarefaRepository.cs:32-33 | the lowered string has the same length, and each character is lowered on its own |
| Text.IntToStringRoundTrip | TaskMgmt.API/Controllers/TarefaController.cs:158 | the interpolated id reads back as the same id |
| Validation.TextRule | TaskMgmt.Domain/Validators/TarefaInputDtoValidator.cs:10-16 | a `NotEmpty().MaximumLength(n)` chain reports nothing iff the text is non-blank and at most n long; it reports the required message iff the text is blank and the length message iff the text is too long; a blank over-long text gets both, required first; nothing else is reported, and at most two violations |
| Validation.TituloRule | TaskMgmt.Domain/Validators/TarefaInputDtoValidator.cs:10-12 | an empty title gives exactly "O título é obrigatório."; a non-blank title of at most 100 characters gives nothing; a non-blank one over 100 gives exactly the length message; only these two messages can appear |
| Validation.DescricaoRule | TaskMgmt.Domain/Validators/TarefaInputDtoValidator.cs:14-16 | an empty description gives exactly "A descrição é obrigatória."; a non-blank one of at most 500 characters gives nothing; a non-blank one over 500 gives exactly the length message; only these two messages can appear |
| Validation.DataVencimentoRule | TaskMgmt.Domain/Validators/TarefaInputDtoValidator.cs:18-19 | the due date passes iff it is strictly after `DateTime.MinValue`, and otherwise gives exactly "A data de vencimento é obrigatória." |
| Validation.Validate | TaskMgmt.Domain/Validators/TarefaInputDtoValidator.cs:8-20 | a payload gets at most five violations, each one of the five (field, message) pairs the three rule chains declare |
| Validation.ValidIffAllRulesPass | TaskMgmt.Domain/Validators/TarefaInputDtoValidator.cs:8-20 | a payload has no violations iff all three field rules pass |
| Validation.ViolationsAreIndependent | TaskMgmt.Domain/Validators/TarefaInputDtoValidator.cs:8-20 | the violations under each field are exactly that field's own rule, whatever the other fields hold, so violations of different fields are reported together |
| Validation.TitleLengthBoundary | TaskMgmt.Domain/Validators/TarefaInputDtoValidator.cs:12 | a title over 100 characters is reported with the length message; a non-blank title of exactly 100 gets no title violation |
| Mapper.ToOutputDto | TaskMgmt.Domain/Mappers/TarefaMapper.cs:8-15 | id, title, description, status and due date are copied unchanged, and `Links` keeps its empty default |
| Mapper.ToEntity | TaskMgmt.Domain/Mappers/TarefaMapper.cs:17-23 | the four input fields are copied, and `Id` keeps its default 0 |
| Mapper.InputToOutputRoundTrip | TaskMgmt.Domain/Mappers/TarefaMapper.cs:8-23 | mapping an input to an entity and then to an output gives the input's four fields, id 0 and no links |
| Sorting.LexLeTransitive | TaskMgmt.Infrastructure/Repositories/TarefaRepository.cs:35 | the title order is transitive |
| Sorting.LexLeTotal | TaskMgmt.Infrastructure/Repositories/TarefaRepository.cs:35 | any two titles are comparable |
| Sorting.LexLeAntisymmetric | TaskMgmt.Infrastructure/Repositories/TarefaRepository.cs:35 | titles that order both ways are equal |
| Sorting.InsertSorted | TaskMgmt.Infrastructure/Repositories/TarefaRepository.cs:33-39 | inserting into an ordered sequence keeps it ordered, for every key and direction |
| Sorting.Sort | TaskMgmt.Infrastructure/Repositories/TarefaRepository.cs:33-44 | `OrderBy`/`OrderByDescending` return a permutation of their input that is ordered by the key in the chosen direction |
| Query.Where | TaskMgmt.Infrastructure/Repositories/TarefaRepository.cs:24-27 | `Where` keeps exactly the rows that satisfy the predicate, each as often as before, and drops all others |
| Query.Filtered | TaskMgmt.Infrastructure/Repositories/TarefaRepository.cs:24-27 | a row survives the two optional filters, as often as it occurs, iff it has the given status and falls due on the given day; an absent filter excludes nothing |
| Query.ChooseOrdering | TaskMgmt.Infrastructure/Repositories/TarefaRepository.cs:30-44 | ordering by id is always ascending |
| Query.RecognisedSortField | TaskMgmt.Infrastructure/Repositories/TarefaRepository.cs:30-37 | a sort field that lowers to "titulo", "status" or "datavencimento" selects that key, and the order is descending iff `order` is given and lowers to exactly "desc" |
| Query.UnrecognisedSortField | TaskMgmt.Infrastructure/Repositories/TarefaRepository.cs:30-44 | a null, empty or unrecognised sort field orders by id ascending, whatever `order` is |
| Sorting.KeyLe | TaskMgmt.Infrastructure/Repositories/TarefaRepository.cs:35-38 | comparing by a key selector (`Id`, `Titulo`, `Status` ordinal, `DataVencimento`) places every row no later than itself |
| Sorting.Precedes | TaskMgmt.Infrastructure/Repositories/TarefaRepository.cs:35-38 | `OrderByDescending` is `OrderBy` with the two rows swapped, and every row may precede itself in either direction |
| Query.Skip | TaskMgmt.Infrastructure/Repositories/TarefaRepository.cs:47 | `Skip(n)` returns the input for n ≤ 0, nothing for n at or past the end, and otherwise the suffix after the first n rows |
| Query.Take | TaskMgmt.Infrastructure/Repositories/TarefaRepository.cs:47 | `Take(n)` returns nothing for n ≤ 0, and otherwise the prefix of min(n, length) rows |
| Query.Paginate | TaskMgmt.Infrastructure/Repositories/TarefaRepository.cs:47 | a page holds at most `pageSize` rows, all from its input, and is the contiguous slice that starts at offset `(page-1)*pageSize`, clipped to the input |
| Query.Arranged | TaskMgmt.Infrastructure/Repositories/TarefaRepository.cs:22-44 | the rows before paging are ordered by the chosen key and direction, and each row occurs as often as in the input if it passes both filters and not at all otherwise |
| Query.ListedRowsMatch | TaskMgmt.Infrastructure/Repositories/TarefaRepository.cs:22-47 | every listed row is one of the queried rows and passes both filters |
| Query.StatusFilterHolds | TaskMgmt.Infrastructure/Repositories/TarefaRepository.cs:24-25 | with a status filter, every listed row has exactly that status |
| Query.DateFilterHolds | TaskMgmt.Infrastructure/Repositories/TarefaRepository.cs:26-27 | with a due-date filter, every listed row falls due on the same calendar day |
| Query.DateFilterIgnoresTime | TaskMgmt.Infrastructure/Repositories/TarefaRepository.cs:26-27 | two due-date filters on the same calendar day list the same rows, so the time of day is ignored |
| Query.NoFilterKeepsAllRows | TaskMgmt.Infrastructure/Repositories/TarefaRepository.cs:22-44 | without filters, the ordered rows before paging are a permutation of all rows |
| Query.List | TaskMgmt.Infrastructure/Repositories/TarefaRepository.cs:22-47 | the listed page holds at most `pageSize` rows and is ordered by the key and direction chosen from `sortBy` and `order` |
| Query.ListLength | TaskMgmt.Infrastructure/Repositories/TarefaRepository.cs:47 | the page length is min(pageSize, max(0, matches - (page-1)*pageSize)), so never more than pageSize |
| Query.SecondPageOfPending | TaskMgmt.Tests/Repositories/TarefaRepositoryTests.cs:131-146 | with exactly ten pending rows, page 2 of size 5 sorted by "titulo" "asc" gives five rows, all pending, ordered by title |
| Repository.MinKey | TaskMgmt.Infrastructure/Repositories/TarefaRepository.cs:22 | the query source is scanned in key order: the next key taken is in the set and no greater than any other key |
| Repository.Rows | TaskMgmt.Infrastructure/Repositories/TarefaRepository.cs:22 | `_context.Tarefas.AsQueryable()` holds one row per stored key, each a stored row |
| Repository.KeysAscending | TaskMgmt.Infrastructure/Repositories/TarefaRepository.cs:22 | the query source is scanned in key order: the keys come out once each, all of them, strictly increasing (the repository constructor also takes its last id from it) |
| Repository.RowsAreStored | TaskMgmt.Infrastructure/Repositories/TarefaRepository.cs:22 | the query source holds exactly the stored rows |
| Repository.RowsByIncreasingId | TaskMgmt.Infrastructure/Repositories/TarefaRepository.cs:22 | the query source is scanned in key order: in a table keyed by id, its rows come out by strictly increasing id |
| Repository.ListedRowsAreStored | TaskMgmt.Infrastructure/Repositories/TarefaRepository.cs:22-47 | every listed row is a stored row that passes the filters given |
| Repository.UnfilteredListingKeepsEveryRow | TaskMgmt.Infrastructure/Repositories/TarefaRepository.cs:22-44 | without filters, no stored row is excluded before paging: the ordered rows are exactly the stored rows, and there are as many as the table holds |
| Repository.DefaultOrderIsById | TaskMgmt.Infrastructure/Repositories/TarefaRepository.cs:38-44 | without a recognised sort field, the page is in ascending id order whatever `order` says |
| Repository.Deleted | TaskMgmt.Infrastructure/Repositories/TarefaRepository.cs:67-75 | removing an id leaves it absent and every other row unchanged; for an absent id the table is unchanged, and for a present one it shrinks by one |
| Repository.Stored | TaskMgmt.Infrastructure/Repositories/TarefaRepository.cs:55-65 | writing a row puts it under its id and changes no other row; the table grows by one iff the id was new |
| Repository.TarefaRepository.constructor | TaskMgmt.Infrastructure/Repositories/TarefaRepository.cs:14-17 | a repository over a table keyed by id holds that table |
| Repository.TarefaRepository.GetAllAsync | TaskMgmt.Infrastructure/Repositories/TarefaRepository.cs:19-50 | the query built step by step (filters, ordering, `Skip`/`Take`) returns the listing of the stored rows, with defaults page 1, pageSize 10, no sort field and "asc" |
| Repository.TarefaRepository.GetByIdAsync | TaskMgmt.Infrastructure/Repositories/TarefaRepository.cs:52-53 | the row stored under the id, or none iff there is none |
| Repository.TarefaRepository.AddAsync | TaskMgmt.Infrastructure/Repositories/TarefaRepository.cs:55-59 | the table grows by exactly one row; an id of 0 becomes a fresh positive id and any other id is kept; only the id changes; the row can then be got back by its id |
| Repository.TarefaRepository.UpdateAsync | TaskMgmt.Infrastructure/Repositories/TarefaRepository.cs:61-65 | the stored row with the same id is replaced and nothing else changes |
| Repository.TarefaRepository.DeleteAsync | TaskMgmt.Infrastructure/Repositories/TarefaRepository.cs:67-75 | the row with the id is removed if present, the table is unchanged if absent, and every other row is kept |
| Service.TarefaService.ListarAsync | TaskMgmt.Application/Services/TarefaService.cs:16-20 | returns the repository's listing for the same six arguments, with defaults page 1, pageSize 10, no sort field and "asc" |
| Service.TarefaService.ObterPorIdAsync | TaskMgmt.Application/Services/TarefaService.cs:22-23 | returns what `GetByIdAsync` returns for the same id |
| Service.TarefaService.CriarAsync | TaskMgmt.Application/Services/TarefaService.cs:25-29 | adds the entity once and returns it as stored, with only its id filled in |
| Service.TarefaService.AtualizarAsync | TaskMgmt.Application/Services/TarefaService.cs:31-32 | has exactly the effect of `UpdateAsync` on the same entity |
| Service.TarefaService.RemoverAsync | TaskMgmt.Application/Services/TarefaService.cs:34-35 | has exactly the effect of `DeleteAsync` on the same id |
| Controller.NotFoundProblem | TaskMgmt.API/Controllers/TarefaController.cs:57-63 | a not-found problem has status 404 and the title "Tarefa não encontrada" |
| Controller.NotFoundDetail | TaskMgmt.API/Controllers/TarefaController.cs:60 | a not-found detail is its prefix, then text that reads back as the id, then " foi encontrada." |
| Controller.NotFoundDetailInjective | TaskMgmt.API/Controllers/TarefaController.cs:60 | details built on the same prefix differ for different ids |
| Controller.GetDetail | TaskMgmt.API/Controllers/TarefaController.cs:60 | the detail of `ObterPorId`'s 404 names the requested id after "Nenhuma tarefa com o id " |
| Controller.UpdateDetail | TaskMgmt.API/Controllers/TarefaController.cs:110 | the detail of `Atualizar`'s 404 names the requested id after "Não foi possível atualizar. Nenhuma tarefa com o id " |
| Controller.DeleteDetail | TaskMgmt.API/Controllers/TarefaController.cs:139 | the detail of `Remover`'s 404 names the requested id after "Não foi possível remover. Nenhuma tarefa com o id " |
| Controller.InvalidInputProblem | TaskMgmt.API/Controllers/TarefaController.cs:80-85 | the invalid-input problem has status 400 and the request path as its instance |
| Controller.ModelState | TaskMgmt.API/Controllers/TarefaController.cs:78 | model state is valid iff binding succeeded and the validator reports nothing, and it holds every violation the validator reports |
| Controller.LongTitleInvalidatesModelState | TaskMgmt.API/Controllers/TarefaController.cs:78-86 | a title over 100 characters makes model state invalid, with the title-length violation among its errors |
| Controller.FallbackHref | TaskMgmt.API/Controllers/TarefaController.cs:158 | the fallback href is "api/tarefa/" followed by text that reads back as the id |
| Controller.FallbackHrefInjective | TaskMgmt.API/Controllers/TarefaController.cs:158-170 | distinct ids get distinct fallback hrefs |
| Controller.Overwrite | TaskMgmt.API/Controllers/TarefaController.cs:116-119 | the overwritten entity keeps its id, and its four mutable fields are exactly those of the input |
| Controller.TarefaController.GerarLinks | TaskMgmt.API/Controllers/TarefaController.cs:152-176 | exactly three links, in order (self, GET), (update, PUT), (delete, DELETE), each to its action's generated route or else to `api/tarefa/{id}` |
| Controller.TarefaController.Representation | TaskMgmt.API/Controllers/TarefaController.cs:65-66 | a task's representation is its mapped DTO with the three links of its id |
| Controller.TarefaController.Listar | TaskMgmt.API/Controllers/TarefaController.cs:31-44 | 200 with one representation per listed row, in the service's order, each carrying its three links |
| Controller.TarefaController.Represent | TaskMgmt.API/Controllers/TarefaController.cs:40-42 | mapping each row and then setting its links in place gives, position by position, the representation of each row |
| Controller.TarefaController.ObterPorId | TaskMgmt.API/Controllers/TarefaController.cs:52-68 | an absent id gives 404 with a problem naming the id; a present id gives 200 with that row's representation |
| Controller.TarefaController.Criar | TaskMgmt.API/Controllers/TarefaController.cs:76-93 | invalid model state gives 400 with its errors and stores nothing; otherwise the mapped input is stored under a fresh positive id, and 201 names the ObterPorId action with that id and carries the stored row's representation |
| Controller.TarefaController.Atualizar | TaskMgmt.API/Controllers/TarefaController.cs:102-123 | an absent id gives 404 and leaves the store unchanged; a present id gives 204 and stores the row with the input's four fields under the same id |
| Controller.TarefaController.Remover | TaskMgmt.API/Controllers/TarefaController.cs:131-147 | an absent id gives 404 and leaves the store unchanged; a present id gives 204 and removes that row |

## Left out

- Application startup and wiring (`TaskMgmt.API/Program.cs`) is not modelled: dependency registration, Swagger, SQLite initialisation and the 1100-row seeding. The migration and `AppDbContext` are not modelled either; the table is an abstract map.
- Asynchrony (`Task`, `await`) is not modelled. Every operation runs sequentially, and store failures (connectivity, constraint violations) are not modelled.
- Entities are values, not shared mutable objects. `AddAsync` returns the stored row with its id instead of setting `Id` on the caller's object. `Atualizar` builds the overwritten row instead of mutating the tracked entity. The aliasing between the caller's object and the tracked one is therefore not captured.
- Repository.TarefaRepository.GetAllAsync: requires page ≥ 1, 0 ≤ pageSize, both within 32 bits, and `(page-1)*pageSize` without 32-bit overflow. Outside those bounds the store's behaviour (for example a negative LIMIT) is store-specific.
- Repository.TarefaRepository.UpdateAsync: requires the id to be stored. Updating an absent id depends on the data-access layer, and the controller always checks first.
- Repository.TarefaRepository.AddAsync: requires a non-zero explicit id to be unused. A duplicate key is a store failure.
- Id generation is not modelled beyond "fresh and positive". Ids are unbounded integers with no 32-bit wrap-around.
- Database collation and tie order are not modelled beyond the choices above. `Sort` is stable, but no contract relies on it.
- Text.ToLower: lowers ASCII letters only. The source's `ToLower` is culture-sensitive; under a Turkish culture, for example, "TITULO" would not match.
- Lengths count Unicode scalar values. .NET counts UTF-16 code units, so the two differ for characters outside the Basic Multilingual Plane.
- FluentValidation's automatic 400 response under `[ApiController]`, which runs before an action is entered, is not modelled. `Criar`'s own model-state check is modelled instead, and `Atualizar` validates nothing itself.
- Parsing of query parameters and bodies is not modelled. Binding errors enter only as the `bindingErrors` part of model state.
- The generated route (`Url.Action`) and the `ProblemDetails` formatting are not modelled beyond title, detail, status and request path. The route generator is an arbitrary function of the action name and the id.
- The status enum file is not part of this model. Its member names beyond `Pendente` and `Concluido`, and its ordinals, are assumed.
- `DateTime.Kind`, time zones and the upper bound `DateTime.MaxValue` are not modelled.
- The interface files `ITarefaRepository.cs` and `ITarefaService.cs` are declarations only. Their signatures are the class methods' signatures.
