/**
 * `TarefaController`: the decisions of the HTTP layer. Each action asks the
 * service, maps entities to output representations with their three
 * navigation links, and picks an outcome: 200, 201, 204, 400 or 404.
 */
module Controller {
  import opened Domain
  import opened Text
  import opened Validation
  import opened Mapper
  import opened Query
  import opened Repository
  import opened Service

  /** `ProblemDetails`: the body of a failure outcome. */
  datatype ProblemDetails = ProblemDetails(title: string, detail: string, status: int, instance: string)

  /** The outcomes the actions return. */
  datatype ActionResult =
    | OkList(items: seq<TarefaOutputDto>)
    | Ok(item: TarefaOutputDto)
    | Created(actionName: string, routeId: int, item: TarefaOutputDto)
    | NoContent
    | NotFound(problem: ProblemDetails)
    | ValidationProblem(problem: ProblemDetails, errors: seq<Violation>)
  {
    function StatusCode(): int {
      match this
      case OkList(_) => 200
      case Ok(_) => 200
      case Created(_, _, _) => 201
      case NoContent => 204
      case NotFound(_) => 404
      case ValidationProblem(_, _) => 400
    }
  }

  const NotFoundTitle: string := "Tarefa não encontrada"

  function NotFoundProblem(detail: string, instance: string): (p: ProblemDetails)
    ensures p.status == 404 && p.title == NotFoundTitle
  {
    ProblemDetails(NotFoundTitle, detail, 404, instance)
  }

  /** The closing words shared by the three not-found details. */
  const NotFoundSuffix: string := " foi encontrada."

  /** `detail` is `prefix`, then a rendering that reads back as `id`, then the closing words. */
  ghost predicate NamesId(detail: string, prefix: string, id: int) {
    && |prefix| + |NotFoundSuffix| < |detail|
    && detail[..|prefix|] == prefix
    && detail[|detail| - |NotFoundSuffix|..] == NotFoundSuffix
    && ParseInt(detail[|prefix|..|detail| - |NotFoundSuffix|]) == Value(id)
  }

  /** `$"{prefix}{id} foi encontrada."` */
  function NotFoundDetail(prefix: string, id: int): (detail: string)
    ensures NamesId(detail, prefix, id)
  {
    IntToStringRoundTrip(id);
    var n := IntToString(id);
    var detail := prefix + n + NotFoundSuffix;
    assert detail[..|prefix|] == prefix;
    assert detail[|prefix|..|detail| - |NotFoundSuffix|] == n;
    assert detail[|detail| - |NotFoundSuffix|..] == NotFoundSuffix;
    detail
  }

  function GetDetail(id: int): (detail: string)
    ensures NamesId(detail, "Nenhuma tarefa com o id ", id)
  {
    NotFoundDetail("Nenhuma tarefa com o id ", id)
  }

  function UpdateDetail(id: int): (detail: string)
    ensures NamesId(detail, "Não foi possível atualizar. Nenhuma tarefa com o id ", id)
  {
    NotFoundDetail("Não foi possível atualizar. Nenhuma tarefa com o id ", id)
  }

  function DeleteDetail(id: int): (detail: string)
    ensures NamesId(detail, "Não foi possível remover. Nenhuma tarefa com o id ", id)
  {
    NotFoundDetail("Não foi possível remover. Nenhuma tarefa com o id ", id)
  }

  /** Two details built on the same prefix are equal only for the same id. */
  lemma NotFoundDetailInjective(prefix: string, a: int, b: int)
    requires NotFoundDetail(prefix, a) == NotFoundDetail(prefix, b)
    ensures a == b
  {
    var d := NotFoundDetail(prefix, a);
    assert d[|prefix|..|d| - |NotFoundSuffix|] == NotFoundDetail(prefix, b)[|prefix|..|d| - |NotFoundSuffix|];
  }

  function InvalidInputProblem(instance: string): (p: ProblemDetails)
    ensures p.status == 400 && p.instance == instance
  {
    ProblemDetails("Dados inválidos", "Um ou mais campos estão inválidos.", 400, instance)
  }

  /**
   * The model state of a request body: the errors of binding it, followed by
   * those the registered validator reports.
   */
  function ModelState(bindingErrors: seq<Violation>, dto: TarefaInputDto): (errors: seq<Violation>)
    ensures errors == [] <==> bindingErrors == [] && IsValid(dto)
    ensures forall v :: v in Validate(dto) ==> v in errors
  {
    bindingErrors + Validate(dto)
  }

  /** The href used when the route cannot be generated. */
  function FallbackHref(id: int): (href: string)
    ensures |href| > 11 && href[..11] == "api/tarefa/"
    ensures ParseInt(href[11..]) == Value(id)
  {
    IntToStringRoundTrip(id);
    var href := "api/tarefa/" + IntToString(id);
    assert href[11..] == IntToString(id);
    href
  }

  /** Distinct ids get distinct fallback hrefs, so a link names exactly one task. */
  lemma FallbackHrefInjective(a: int, b: int)
    requires FallbackHref(a) == FallbackHref(b)
    ensures a == b
  {
    assert FallbackHref(a)[11..] == FallbackHref(b)[11..];
  }

  /** A title over 100 characters makes the model state invalid, with the title-length violation among its errors. */
  lemma LongTitleInvalidatesModelState(bindingErrors: seq<Violation>, dto: TarefaInputDto)
    requires |dto.titulo| > TituloMaxLength
    ensures ModelState(bindingErrors, dto) != []
    ensures Violation(TituloField, TituloTooLong) in ModelState(bindingErrors, dto)
  {
    TitleLengthBoundary(dto);
  }

  /** `Atualizar`'s in-place overwrite: the four input fields replace the stored ones, the id stays. */
  function Overwrite(existing: Tarefa, dto: TarefaInputDto): (t: Tarefa)
    ensures t.id == existing.id
    ensures ToInputDto(t) == dto
  {
    existing.(titulo := dto.titulo, descricao := dto.descricao,
              status := dto.status, dataVencimento := dto.dataVencimento)
  }

  class TarefaController {
    const service: TarefaService
    /** `Url.Action(action, new { id })`: the generated route, or none when it cannot be built. */
    const url: (string, int) -> Option<string>
    /** `HttpContext.Request.Path`. */
    const path: string

    constructor (service: TarefaService, url: (string, int) -> Option<string>, path: string)
      ensures this.service == service && this.url == url && this.path == path
    {
      this.service := service;
      this.url := url;
      this.path := path;
    }

    ghost predicate Valid()
      reads service.repository
    {
      service.repository.Valid()
    }

    /** `GerarLinks`: self/GET, update/PUT and delete/DELETE, each to its action's route or the fallback. */
    function GerarLinks(id: int): (links: seq<LinkDto>)
      ensures |links| == 3
      ensures links[0].rel == "self" && links[0].verb == "GET"
      ensures links[1].rel == "update" && links[1].verb == "PUT"
      ensures links[2].rel == "delete" && links[2].verb == "DELETE"
      ensures links[0].href == url("ObterPorId", id).GetOr(FallbackHref(id))
      ensures links[1].href == url("Atualizar", id).GetOr(FallbackHref(id))
      ensures links[2].href == url("Remover", id).GetOr(FallbackHref(id))
    {
      [ LinkDto(url("ObterPorId", id).GetOr(FallbackHref(id)), "self", "GET"),
        LinkDto(url("Atualizar", id).GetOr(FallbackHref(id)), "update", "PUT"),
        LinkDto(url("Remover", id).GetOr(FallbackHref(id)), "delete", "DELETE") ]
    }

    /** The output representation of a stored row, links attached. */
    function Representation(t: Tarefa): (dto: TarefaOutputDto)
      ensures dto.(links := []) == ToOutputDto(t)
      ensures dto.links == GerarLinks(t.id)
    {
      var dto := ToOutputDto(t);
      dto.(links := GerarLinks(dto.id))
    }

    /** `Listar`: the service's page, in its order, each row mapped and given its links. */
    method Listar(status: Option<Status>, dataVencimento: Option<Ticks>, page: int := 1,
                  pageSize: int := 10, sortBy: Option<string> := None, order: Option<string> := Some("asc"))
      returns (result: ActionResult)
      requires ValidPaging(page, pageSize)
      ensures result.OkList? && result.StatusCode() == 200
      ensures var tarefas := List(Rows(service.repository.table), status, dataVencimento, page, pageSize, sortBy, order);
        && |result.items| == |tarefas|
        && forall i :: 0 <= i < |tarefas| ==> result.items[i] == Representation(tarefas[i])
    {
      var tarefas := service.ListarAsync(status, dataVencimento, page, pageSize, sortBy, order);
      var dtos := Represent(tarefas);
      result := OkList(dtos);
    }

    /** The `Select` and `foreach` of `Listar`: each row mapped, then given its links in place. */
    method Represent(tarefas: seq<Tarefa>) returns (dtos: seq<TarefaOutputDto>)
      ensures |dtos| == |tarefas|
      ensures forall i :: 0 <= i < |tarefas| ==> dtos[i] == Representation(tarefas[i])
    {
      dtos := seq(|tarefas|, i requires 0 <= i < |tarefas| => ToOutputDto(tarefas[i]));
      var i := 0;
      while i < |dtos|
        invariant 0 <= i <= |dtos| == |tarefas|
        invariant forall j :: 0 <= j < i ==> dtos[j] == Representation(tarefas[j])
        invariant forall j :: i <= j < |dtos| ==> dtos[j] == ToOutputDto(tarefas[j])
      {
        dtos := dtos[i := dtos[i].(links := GerarLinks(dtos[i].id))];
        i := i + 1;
      }
    }

    /** `ObterPorId`: 404 with a problem for an absent id, otherwise 200 with the row's representation. */
    method ObterPorId(id: int) returns (result: ActionResult)
      ensures id !in service.repository.table ==>
        result == NotFound(NotFoundProblem(GetDetail(id), path)) && result.StatusCode() == 404
      ensures id in service.repository.table ==>
        result == Ok(Representation(service.repository.table[id])) && result.StatusCode() == 200
    {
      var tarefa := service.ObterPorIdAsync(id);
      if tarefa.None? {
        return NotFound(NotFoundProblem(GetDetail(id), path));
      }
      var dto := ToOutputDto(tarefa.value);
      dto := dto.(links := GerarLinks(dto.id));
      return Ok(dto);
    }

    /**
     * `Criar`: an invalid model state gives 400 and stores nothing; otherwise
     * the input is stored under a fresh id and 201 points at it.
     */
    method Criar(dto: TarefaInputDto, modelState: seq<Violation>) returns (result: ActionResult)
      requires Valid()
      modifies service.repository
      ensures Valid()
      ensures modelState != [] ==>
        && result == ValidationProblem(InvalidInputProblem(path), modelState)
        && result.StatusCode() == 400
        && service.repository.table == old(service.repository.table)
      ensures modelState == [] ==>
        && result.Created? && result.StatusCode() == 201
        && result.actionName == "ObterPorId"
        && result.routeId == result.item.id
        && result.routeId !in old(service.repository.table)
        && result.routeId > 0
        && service.repository.table == Stored(old(service.repository.table), ToEntity(dto).(id := result.routeId))
        && result.item == Representation(service.repository.table[result.routeId])
    {
      if modelState != [] {
        return ValidationProblem(InvalidInputProblem(path), modelState);
      }
      var tarefa := ToEntity(dto);
      var criada := service.CriarAsync(tarefa);
      var output := ToOutputDto(criada);
      output := output.(links := GerarLinks(output.id));
      return Created("ObterPorId", output.id, output);
    }

    /**
     * `Atualizar`: 404 and no change for an absent id; otherwise the stored
     * row takes the four input fields, keeps its id, and 204 is returned.
     */
    method Atualizar(id: int, dto: TarefaInputDto) returns (result: ActionResult)
      requires Valid()
      modifies service.repository
      ensures Valid()
      ensures old(id !in service.repository.table) ==>
        && result == NotFound(NotFoundProblem(UpdateDetail(id), path))
        && result.StatusCode() == 404
        && service.repository.table == old(service.repository.table)
      ensures old(id in service.repository.table) ==>
        && result == NoContent && result.StatusCode() == 204
        && service.repository.table == Stored(old(service.repository.table), Overwrite(old(service.repository.table[id]), dto))
        && service.repository.table[id] == ToEntity(dto).(id := id)
    {
      var existente := service.ObterPorIdAsync(id);
      if existente.None? {
        return NotFound(NotFoundProblem(UpdateDetail(id), path));
      }
      var atualizada := Overwrite(existente.value, dto);
      service.AtualizarAsync(atualizada);
      return NoContent;
    }

    /** `Remover`: 404 and no change for an absent id; otherwise the row is deleted and 204 is returned. */
    method Remover(id: int) returns (result: ActionResult)
      requires Valid()
      modifies service.repository
      ensures Valid()
      ensures old(id !in service.repository.table) ==>
        && result == NotFound(NotFoundProblem(DeleteDetail(id), path))
        && result.StatusCode() == 404
        && service.repository.table == old(service.repository.table)
      ensures old(id in service.repository.table) ==>
        && result == NoContent && result.StatusCode() == 204
        && service.repository.table == Deleted(old(service.repository.table), id)
        && id !in service.repository.table
    {
      var existente := service.ObterPorIdAsync(id);
      if existente.None? {
        return NotFound(NotFoundProblem(DeleteDetail(id), path));
      }
      service.RemoverAsync(id);
      return NoContent;
    }
  }
}
