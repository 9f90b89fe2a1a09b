/**
 * `TarefaInputDtoValidator`: three independent rule chains, one per field of
 * the input, each reporting a (property, message) violation per failed rule.
 * A payload is valid when no rule reports anything.
 */
module Validation {
  import opened Domain

  datatype Violation = Violation(field: string, message: string)

  const TituloField: string := "Titulo"
  const DescricaoField: string := "Descricao"
  const DataVencimentoField: string := "DataVencimento"

  const TituloRequired: string := "O título é obrigatório."
  const TituloTooLong: string := "O título deve ter no máximo 100 caracteres."
  const DescricaoRequired: string := "A descrição é obrigatória."
  const DescricaoTooLong: string := "A descrição deve ter no máximo 500 caracteres."
  const DataVencimentoRequired: string := "A data de vencimento é obrigatória."

  const TituloMaxLength: nat := 100
  const DescricaoMaxLength: nat := 500

  /** `char.IsWhiteSpace`: the Unicode space, line and paragraph separators and the control characters it admits. */
  predicate IsWhiteSpace(c: char) {
    || '\U{0009}' <= c <= '\U{000D}'
    || c == '\U{0020}' || c == '\U{0085}' || c == '\U{00A0}' || c == '\U{1680}'
    || '\U{2000}' <= c <= '\U{200A}'
    || c == '\U{2028}' || c == '\U{2029}' || c == '\U{202F}' || c == '\U{205F}' || c == '\U{3000}'
  }

  /** `NotEmpty` on a string fails when it is empty or holds only white space. */
  predicate NotEmpty(s: string) {
    exists i :: 0 <= i < |s| && !IsWhiteSpace(s[i])
  }

  /** A `NotEmpty().MaximumLength(max)` chain; both rules run, as under the default cascade mode. */
  function TextRule(field: string, s: string, required: string, max: nat, tooLong: string): (r: seq<Violation>)
    requires required != tooLong
    ensures r == [] <==> NotEmpty(s) && |s| <= max
    ensures Violation(field, required) in r <==> !NotEmpty(s)
    ensures Violation(field, tooLong) in r <==> |s| > max
    ensures |s| == 0 ==> r == [Violation(field, required)]
    ensures !NotEmpty(s) && |s| > max ==> r == [Violation(field, required), Violation(field, tooLong)]
    ensures |r| <= 2 && forall v :: v in r ==> v == Violation(field, required) || v == Violation(field, tooLong)
  {
    (if NotEmpty(s) then [] else [Violation(field, required)])
    + (if |s| <= max then [] else [Violation(field, tooLong)])
  }

  function TituloRule(titulo: string): (r: seq<Violation>)
    ensures |titulo| == 0 ==> r == [Violation(TituloField, TituloRequired)]
    ensures NotEmpty(titulo) && |titulo| <= TituloMaxLength ==> r == []
    ensures NotEmpty(titulo) && |titulo| > TituloMaxLength ==> r == [Violation(TituloField, TituloTooLong)]
    ensures |titulo| > TituloMaxLength ==> Violation(TituloField, TituloTooLong) in r
    ensures |r| <= 2 && forall v :: v in r ==> v == Violation(TituloField, TituloRequired) || v == Violation(TituloField, TituloTooLong)
  {
    TextRule(TituloField, titulo, TituloRequired, TituloMaxLength, TituloTooLong)
  }

  function DescricaoRule(descricao: string): (r: seq<Violation>)
    ensures |descricao| == 0 ==> r == [Violation(DescricaoField, DescricaoRequired)]
    ensures NotEmpty(descricao) && |descricao| <= DescricaoMaxLength ==> r == []
    ensures NotEmpty(descricao) && |descricao| > DescricaoMaxLength ==> r == [Violation(DescricaoField, DescricaoTooLong)]
    ensures |descricao| > DescricaoMaxLength ==> Violation(DescricaoField, DescricaoTooLong) in r
    ensures |r| <= 2 && forall v :: v in r ==> v == Violation(DescricaoField, DescricaoRequired) || v == Violation(DescricaoField, DescricaoTooLong)
  {
    TextRule(DescricaoField, descricao, DescricaoRequired, DescricaoMaxLength, DescricaoTooLong)
  }

  /** `GreaterThan(DateTime.MinValue)`: an unset due date is reported. */
  function DataVencimentoRule(d: Ticks): (r: seq<Violation>)
    ensures r == [] <==> d > MinValue
    ensures r != [] ==> r == [Violation(DataVencimentoField, DataVencimentoRequired)]
  {
    if d > MinValue then [] else [Violation(DataVencimentoField, DataVencimentoRequired)]
  }

  /** All violations of a payload, field by field in rule order. */
  function Validate(dto: TarefaInputDto): (r: seq<Violation>)
    ensures |r| <= 5
    ensures forall v :: v in r ==>
      || v == Violation(TituloField, TituloRequired) || v == Violation(TituloField, TituloTooLong)
      || v == Violation(DescricaoField, DescricaoRequired) || v == Violation(DescricaoField, DescricaoTooLong)
      || v == Violation(DataVencimentoField, DataVencimentoRequired)
  {
    var t, d, v := TituloRule(dto.titulo), DescricaoRule(dto.descricao), DataVencimentoRule(dto.dataVencimento);
    t + d + v
  }

  predicate IsValid(dto: TarefaInputDto) {
    Validate(dto) == []
  }

  /** The violations of `vs` that concern `field`. */
  function ForField(vs: seq<Violation>, field: string): (r: seq<Violation>)
    ensures forall v :: v in r <==> v in vs && v.field == field
  {
    if vs == [] then []
    else (if vs[0].field == field then [vs[0]] else []) + ForField(vs[1..], field)
  }

  lemma {:induction false} ForFieldAppend(a: seq<Violation>, b: seq<Violation>, field: string)
    ensures ForField(a + b, field) == ForField(a, field) + ForField(b, field)
  {
    if a == [] {
      assert a + b == b;
    } else {
      assert (a + b)[1..] == a[1..] + b;
      ForFieldAppend(a[1..], b, field);
    }
  }

  lemma ForFieldOther(vs: seq<Violation>, field: string)
    requires forall v :: v in vs ==> v.field != field
    ensures ForField(vs, field) == []
  {
  }

  lemma ForFieldSame(vs: seq<Violation>, field: string)
    requires forall v :: v in vs ==> v.field == field
    ensures ForField(vs, field) == vs
  {
  }

  /** A payload is valid exactly when each of the three field rules passes. */
  lemma ValidIffAllRulesPass(dto: TarefaInputDto)
    ensures IsValid(dto) <==>
      && NotEmpty(dto.titulo) && |dto.titulo| <= TituloMaxLength
      && NotEmpty(dto.descricao) && |dto.descricao| <= DescricaoMaxLength
      && dto.dataVencimento > MinValue
  {
  }

  lemma {:induction false} ForFieldOfThree(a: seq<Violation>, b: seq<Violation>, c: seq<Violation>, field: string)
    ensures ForField(a + b + c, field) == ForField(a, field) + ForField(b, field) + ForField(c, field)
  {
    ForFieldAppend(a + b, c, field);
    ForFieldAppend(a, b, field);
  }

  lemma TituloViolationsAreIndependent(dto: TarefaInputDto)
    ensures ForField(Validate(dto), TituloField) == TituloRule(dto.titulo)
  {
    var t, d, v := TituloRule(dto.titulo), DescricaoRule(dto.descricao), DataVencimentoRule(dto.dataVencimento);
    ForFieldOfThree(t, d, v, TituloField);
    ForFieldSame(t, TituloField);
    ForFieldOther(d, TituloField);
    ForFieldOther(v, TituloField);
    assert ForField(t, TituloField) + [] + [] == t;
  }

  lemma DescricaoViolationsAreIndependent(dto: TarefaInputDto)
    ensures ForField(Validate(dto), DescricaoField) == DescricaoRule(dto.descricao)
  {
    var t, d, v := TituloRule(dto.titulo), DescricaoRule(dto.descricao), DataVencimentoRule(dto.dataVencimento);
    ForFieldOfThree(t, d, v, DescricaoField);
    ForFieldOther(t, DescricaoField);
    ForFieldSame(d, DescricaoField);
    ForFieldOther(v, DescricaoField);
    assert [] + ForField(d, DescricaoField) + [] == d;
  }

  lemma DataVencimentoViolationsAreIndependent(dto: TarefaInputDto)
    ensures ForField(Validate(dto), DataVencimentoField) == DataVencimentoRule(dto.dataVencimento)
  {
    var t, d, v := TituloRule(dto.titulo), DescricaoRule(dto.descricao), DataVencimentoRule(dto.dataVencimento);
    ForFieldOfThree(t, d, v, DataVencimentoField);
    ForFieldOther(t, DataVencimentoField);
    ForFieldOther(d, DataVencimentoField);
    ForFieldSame(v, DataVencimentoField);
    assert [] + [] + ForField(v, DataVencimentoField) == v;
  }

  /**
   * The rules are independent: the violations reported for each field are
   * those of that field's own rule, whatever the other fields hold.
   */
  lemma ViolationsAreIndependent(dto: TarefaInputDto)
    ensures ForField(Validate(dto), TituloField) == TituloRule(dto.titulo)
    ensures ForField(Validate(dto), DescricaoField) == DescricaoRule(dto.descricao)
    ensures ForField(Validate(dto), DataVencimentoField) == DataVencimentoRule(dto.dataVencimento)
  {
    TituloViolationsAreIndependent(dto);
    DescricaoViolationsAreIndependent(dto);
    DataVencimentoViolationsAreIndependent(dto);
  }

  /** A title of 101 characters or more is rejected with the length message, one of exactly 100 passes. */
  lemma TitleLengthBoundary(dto: TarefaInputDto)
    ensures |dto.titulo| > TituloMaxLength ==> Violation(TituloField, TituloTooLong) in Validate(dto)
    ensures NotEmpty(dto.titulo) && |dto.titulo| == TituloMaxLength ==>
      ForField(Validate(dto), TituloField) == []
  {
    ViolationsAreIndependent(dto);
  }
}
