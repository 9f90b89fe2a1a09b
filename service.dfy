/**
 * `TarefaService`: one method per repository operation, forwarding its
 * arguments unchanged to the repository it holds.
 */
module Service {
  import opened Domain
  import opened Query
  import opened Repository

  class TarefaService {
    const repository: TarefaRepository

    constructor (repository: TarefaRepository)
      ensures this.repository == repository
    {
      this.repository := repository;
    }

    /** `ListarAsync`: the repository's listing for the same six arguments, with the same defaults. */
    method ListarAsync(status: Option<Status>, dataVencimento: Option<Ticks>, page: int := 1,
                       pageSize: int := 10, sortBy: Option<string> := None, order: Option<string> := Some("asc"))
      returns (r: seq<Tarefa>)
      requires ValidPaging(page, pageSize)
      ensures r == List(Rows(repository.table), status, dataVencimento, page, pageSize, sortBy, order)
    {
      r := repository.GetAllAsync(status, dataVencimento, page, pageSize, sortBy, order);
    }

    /** `ObterPorIdAsync`: the stored row with that id, or none. */
    method ObterPorIdAsync(id: int) returns (r: Option<Tarefa>)
      ensures r == repository.GetByIdAsync(id)
      ensures r.Some? <==> id in repository.table
      ensures r.Some? ==> r.value == repository.table[id]
    {
      r := repository.GetByIdAsync(id);
    }

    /** `CriarAsync`: adds the entity once and returns it as stored, with its id filled in. */
    method CriarAsync(tarefa: Tarefa) returns (r: Tarefa)
      requires repository.Valid()
      requires tarefa.id == 0 || tarefa.id !in repository.table
      modifies repository
      ensures repository.Valid()
      ensures r == tarefa.(id := r.id)
      ensures tarefa.id != 0 ==> r.id == tarefa.id
      ensures tarefa.id == 0 ==> r.id > 0
      ensures r.id !in old(repository.table)
      ensures repository.table == Stored(old(repository.table), r)
    {
      r := repository.AddAsync(tarefa);
    }

    /** `AtualizarAsync`: exactly the effect of `UpdateAsync`. */
    method AtualizarAsync(tarefa: Tarefa)
      requires repository.Valid()
      requires tarefa.id in repository.table
      modifies repository
      ensures repository.Valid()
      ensures repository.table == Stored(old(repository.table), tarefa)
    {
      repository.UpdateAsync(tarefa);
    }

    /** `RemoverAsync`: exactly the effect of `DeleteAsync`. */
    method RemoverAsync(id: int)
      requires repository.Valid()
      modifies repository
      ensures repository.Valid()
      ensures repository.table == Deleted(old(repository.table), id)
    {
      repository.DeleteAsync(id);
    }
  }
}
