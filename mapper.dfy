/**
 * `TarefaMapper`: field-by-field copies between the entity and its transfer
 * objects. Neither direction computes anything; what is worth stating is
 * which fields are carried over and what the untouched ones default to.
 */
module Mapper {
  import opened Domain

  /** `ToOutputDto`: every entity field is copied and `Links` keeps its empty default. */
  function ToOutputDto(t: Tarefa): (dto: TarefaOutputDto)
    ensures dto.id == t.id && dto.titulo == t.titulo && dto.descricao == t.descricao
    ensures dto.status == t.status && dto.dataVencimento == t.dataVencimento
    ensures dto.links == []
  {
    TarefaOutputDto(t.id, t.titulo, t.descricao, t.status, t.dataVencimento, [])
  }

  /** `ToEntity`: the four input fields are copied and `Id` keeps its default 0. */
  function ToEntity(dto: TarefaInputDto): (t: Tarefa)
    ensures t.titulo == dto.titulo && t.descricao == dto.descricao
    ensures t.status == dto.status && t.dataVencimento == dto.dataVencimento
    ensures t.id == 0
  {
    Tarefa(0, dto.titulo, dto.descricao, dto.status, dto.dataVencimento)
  }

  /** The input a client would send to recreate an entity: its four mutable fields. */
  function ToInputDto(t: Tarefa): TarefaInputDto {
    TarefaInputDto(t.titulo, t.descricao, t.status, t.dataVencimento)
  }

  /** Mapping an input to an entity and the entity to an output keeps the four fields; the id is 0. */
  lemma InputToOutputRoundTrip(dto: TarefaInputDto)
    ensures ToOutputDto(ToEntity(dto)) ==
      TarefaOutputDto(0, dto.titulo, dto.descricao, dto.status, dto.dataVencimento, [])
  {
  }

  /** An entity is determined by its id and the input that carries its other fields. */
  lemma EntityRoundTrip(t: Tarefa)
    ensures ToEntity(ToInputDto(t)).(id := t.id) == t
    ensures ToInputDto(ToEntity(ToInputDto(t))) == ToInputDto(t)
  {
  }

  /** `ToOutputDto` loses nothing: distinct entities give distinct outputs. */
  lemma ToOutputDtoInjective(s: Tarefa, t: Tarefa)
    requires ToOutputDto(s) == ToOutputDto(t)
    ensures s == t
  {
  }
}
