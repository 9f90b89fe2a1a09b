/**
 * The records of the task store: the entity `Tarefa`, its input and output
 * transfer objects, the navigation link, and the calendar arithmetic on
 * `DateTime` values that the listing filter needs.
 */
module Domain {

  /** A nullable value (`T?` in the source). */
  datatype Option<+T> = None | Some(value: T) {
    function GetOr(default: T): T {
      match this
      case Some(v) => v
      case None => default
    }
  }

  /**
   * `StatusTarefa`. Stored by its ordinal; the seed data casts `i % 3`,
   * so the three members have ordinals 0, 1 and 2.
   */
  datatype Status = Pendente | EmAndamento | Concluido

  function Ordinal(s: Status): (n: nat)
    ensures n < 3
  {
    match s
    case Pendente => 0
    case EmAndamento => 1
    case Concluido => 2
  }

  /** A `DateTime` is its count of 100-nanosecond ticks; `DateTime.MinValue` is 0. */
  type Ticks = nat

  const MinValue: Ticks := 0
  const TicksPerDay: nat := 864_000_000_000

  /** `DateTime.Date`: the midnight that starts the day of `t`. */
  function Date(t: Ticks): (d: Ticks)
    ensures d <= t < d + TicksPerDay
    ensures d % TicksPerDay == 0
  {
    t - t % TicksPerDay
  }

  /** `Tarefa`: the single stored entity. */
  datatype Tarefa = Tarefa(
    id: int,
    titulo: string,
    descricao: string,
    status: Status,
    dataVencimento: Ticks)

  /** `TarefaInputDto`: the request body of create and update; it has no id. */
  datatype TarefaInputDto = TarefaInputDto(
    titulo: string,
    descricao: string,
    status: Status,
    dataVencimento: Ticks)

  /** `LinkDto`: one navigation link; `verb` is its `Method` property. */
  datatype LinkDto = LinkDto(href: string, rel: string, verb: string)

  /** `TarefaOutputDto`: the representation of a task in a response. */
  datatype TarefaOutputDto = TarefaOutputDto(
    id: int,
    titulo: string,
    descricao: string,
    status: Status,
    dataVencimento: Ticks,
    links: seq<LinkDto>)
}
