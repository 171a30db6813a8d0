/** The records and constant tables of `src/types/lead.ts`. Timestamps
    (`created_at`, `data_prevista`, ...) are ISO strings in the source; here
    they are integers, milliseconds in local time, so that `parseISO(..)`
    followed by `getTime()` is the identity and a calendar day is a whole
    number of `DAY_MS`. A `string | null` column is an `Option<string>`. */
module LeadTypes {
  import opened Wrappers
  import opened Text
  import opened Seqs

  /** Milliseconds in a day. */
  const DAY_MS: int := 86_400_000

  /** The local calendar day a timestamp falls on (`yyyy-MM-dd`, numbered). */
  function Day(t: int): int
  {
    t / DAY_MS
  }

  /** Integer division rounding toward zero, as date-fns rounds a
      difference of whole days. */
  function TruncDiv(a: int, b: int): (q: int)
    requires b > 0
  {
    if a >= 0 then a / b else -((-a) / b)
  }

  /** `differenceInDays(later, earlier)`: the number of whole days between
      two instants, negative when `later` is earlier. */
  function DifferenceInDays(later: int, earlier: int): (n: int)
  {
    TruncDiv(later - earlier, DAY_MS)
  }

  /** A difference of at least one whole day means exactly that much time
      has passed. */
  lemma DifferenceInDaysAtLeast(later: int, earlier: int, n: int)
    requires n >= 1
    ensures DifferenceInDays(later, earlier) >= n <==> later - earlier >= n * DAY_MS
  {
    var d := later - earlier;
    if d >= 0 {
      assert DifferenceInDays(later, earlier) == d / DAY_MS;
      assert (d / DAY_MS) * DAY_MS <= d < (d / DAY_MS + 1) * DAY_MS;
    } else {
      assert DifferenceInDays(later, earlier) <= 0;
    }
  }

  /** `TipoInteracao`. */
  datatype Tipo = Ligacao | Mensagem

  function TipoValue(t: Tipo): string
  {
    match t
    case Ligacao => "ligacao"
    case Mensagem => "mensagem"
  }

  /** Reading a `tipo` column back: exactly the two values of the union. */
  function ParseTipo(s: string): (r: Option<Tipo>)
    ensures r.Some? <==> s == "ligacao" || s == "mensagem"
    ensures r.Some? ==> TipoValue(r.value) == s
  {
    if s == "ligacao" then Some(Ligacao)
    else if s == "mensagem" then Some(Mensagem)
    else None
  }

  lemma TipoRoundTrip(t: Tipo)
    ensures ParseTipo(TipoValue(t)) == Some(t)
  {
  }

  // ----- outcomes -----

  /** `ResultadoLigacao`. */
  datatype ResultadoLigacao = NaoAtendeu | AtendeuInteressado | AtendeuNaoInteressado | NumeroInvalido | LigacaoAgendou

  /** `ResultadoMensagem`. */
  datatype ResultadoMensagem = NaoRespondeu | RespondeuInteressado | RespondeuNaoInteressado | MensagemAgendou

  function LigacaoValue(r: ResultadoLigacao): string
  {
    match r
    case NaoAtendeu => "nao_atendeu"
    case AtendeuInteressado => "atendeu_interessado"
    case AtendeuNaoInteressado => "atendeu_nao_interessado"
    case NumeroInvalido => "numero_invalido"
    case LigacaoAgendou => "agendou_reuniao"
  }

  function MensagemValue(r: ResultadoMensagem): string
  {
    match r
    case NaoRespondeu => "nao_respondeu"
    case RespondeuInteressado => "respondeu_interessado"
    case RespondeuNaoInteressado => "respondeu_nao_interessado"
    case MensagemAgendou => "agendou_reuniao"
  }

  function ParseLigacao(s: string): (r: Option<ResultadoLigacao>)
    ensures r.Some? ==> LigacaoValue(r.value) == s
  {
    if s == "nao_atendeu" then Some(NaoAtendeu)
    else if s == "atendeu_interessado" then Some(AtendeuInteressado)
    else if s == "atendeu_nao_interessado" then Some(AtendeuNaoInteressado)
    else if s == "numero_invalido" then Some(NumeroInvalido)
    else if s == "agendou_reuniao" then Some(LigacaoAgendou)
    else None
  }

  function ParseMensagem(s: string): (r: Option<ResultadoMensagem>)
    ensures r.Some? ==> MensagemValue(r.value) == s
  {
    if s == "nao_respondeu" then Some(NaoRespondeu)
    else if s == "respondeu_interessado" then Some(RespondeuInteressado)
    else if s == "respondeu_nao_interessado" then Some(RespondeuNaoInteressado)
    else if s == "agendou_reuniao" then Some(MensagemAgendou)
    else None
  }

  /** The stored values of the two unions are distinct, so each reads back
      as the outcome it came from. */
  lemma OutcomeRoundTrip(a: ResultadoLigacao, b: ResultadoMensagem)
    ensures ParseLigacao(LigacaoValue(a)) == Some(a)
    ensures ParseMensagem(MensagemValue(b)) == Some(b)
  {
    assert "numero_invalido"[0] != "agendou_reuniao"[0];
  }

  /** 'agendou_reuniao' is the only value the two unions share. */
  lemma SharedOutcome(a: ResultadoLigacao, b: ResultadoMensagem)
    ensures LigacaoValue(a) == MensagemValue(b) <==> a == LigacaoAgendou && b == MensagemAgendou
  {
  }

  /** One offered outcome: its stored value, label and emoji. */
  datatype ResultOption = ResultOption(value: string, labelText: string, emoji: string)

  const RESULTADOS_LIGACAO: seq<ResultOption> := [
    ResultOption("nao_atendeu", "N\U{E3}o atendeu", "\U{1F4F5}"),
    ResultOption("atendeu_interessado", "Atendeu - Interessado", "\U{2705}"),
    ResultOption("atendeu_nao_interessado", "Atendeu - N\U{E3}o interessado", "\U{274C}"),
    ResultOption("numero_invalido", "N\U{FA}mero inv\U{E1}lido", "\U{26A0}\U{FE0F}"),
    ResultOption("agendou_reuniao", "Agendou reuni\U{E3}o", "\U{1F4C5}")
  ]

  const RESULTADOS_MENSAGEM: seq<ResultOption> := [
    ResultOption("nao_respondeu", "N\U{E3}o respondeu", "\U{1F4F5}"),
    ResultOption("respondeu_interessado", "Respondeu - Interessado", "\U{2705}"),
    ResultOption("respondeu_nao_interessado", "Respondeu - N\U{E3}o interessado", "\U{274C}"),
    ResultOption("agendou_reuniao", "Agendou reuni\U{E3}o", "\U{1F4C5}")
  ]

  /** The outcomes offered for an interaction of the given type. */
  function ResultsFor(t: Tipo): seq<ResultOption>
  {
    if t == Ligacao then RESULTADOS_LIGACAO else RESULTADOS_MENSAGEM
  }

  /** The values of a table, in order. */
  function OptionValues(table: seq<ResultOption>): (r: seq<string>)
    ensures |r| == |table|
    ensures forall k :: 0 <= k < |table| ==> r[k] == table[k].value
  {
    if table == [] then [] else [table[0].value] + OptionValues(table[1..])
  }

  /** The call table lists every call outcome exactly once, in the order of
      its positions. */
  lemma LigacaoTable()
    ensures |RESULTADOS_LIGACAO| == 5
    ensures forall k :: 0 <= k < 5 ==> ParseLigacao(RESULTADOS_LIGACAO[k].value).Some?
    ensures forall r: ResultadoLigacao :: LigacaoValue(r) in OptionValues(RESULTADOS_LIGACAO)
    ensures forall i, j :: 0 <= i < j < 5 ==> RESULTADOS_LIGACAO[i].value != RESULTADOS_LIGACAO[j].value
  {
    var v := OptionValues(RESULTADOS_LIGACAO);
    assert v == ["nao_atendeu", "atendeu_interessado", "atendeu_nao_interessado", "numero_invalido", "agendou_reuniao"];
    forall i, j | 0 <= i < j < 5
      ensures RESULTADOS_LIGACAO[i].value != RESULTADOS_LIGACAO[j].value
    {
      assert |v[i]| != |v[j]| || v[i][0] != v[j][0];
    }
  }

  /** The message table lists every message outcome exactly once. */
  lemma MensagemTable()
    ensures |RESULTADOS_MENSAGEM| == 4
    ensures forall k :: 0 <= k < 4 ==> ParseMensagem(RESULTADOS_MENSAGEM[k].value).Some?
    ensures forall r: ResultadoMensagem :: MensagemValue(r) in OptionValues(RESULTADOS_MENSAGEM)
    ensures forall i, j :: 0 <= i < j < 4 ==> RESULTADOS_MENSAGEM[i].value != RESULTADOS_MENSAGEM[j].value
  {
    var v := OptionValues(RESULTADOS_MENSAGEM);
    assert v == ["nao_respondeu", "respondeu_interessado", "respondeu_nao_interessado", "agendou_reuniao"];
    forall i, j | 0 <= i < j < 4
      ensures RESULTADOS_MENSAGEM[i].value != RESULTADOS_MENSAGEM[j].value
    {
      assert |v[i]| != |v[j]|;
    }
  }

  // ----- statuses -----

  /** One entry of `STATUS_OPTIONS`. */
  datatype StatusOption = StatusOption(value: string, labelText: string, color: string)

  const STATUS_OPTIONS: seq<StatusOption> := [
    StatusOption("novo", "Novo", "accent"),
    StatusOption("standy_por_falta_de_resposta", "Standby - Sem resposta", "warning"),
    StatusOption("atendido", "Atendido", "success"),
    StatusOption("interessado", "Interessado", "success"),
    StatusOption("descartado", "Descartado", "destructive"),
    StatusOption("reuniao_agendada", "Reuni\U{E3}o agendada", "primary")
  ]

  /** One of the six statuses the application knows. */
  predicate KnownStatus(s: string)
  {
    exists k :: 0 <= k < |STATUS_OPTIONS| && STATUS_OPTIONS[k].value == s
  }

  // ----- records -----

  /** A row of `leads`. */
  datatype Lead = Lead(
    id: string,
    status: string,
    nome: Option<string>,
    whatsapp: string,
    fonte: Option<string>,
    leadTipo: string,
    createdAt: int,
    updatedAt: int)

  /** A row of `interacoes`; `dataPrevista`/`dataRealizada` are the planned
      and the realised timestamps. */
  datatype Interacao = Interacao(
    id: string,
    leadId: string,
    tipo: Tipo,
    numeroSequencia: int,
    dataPrevista: Option<int>,
    dataRealizada: Option<int>,
    resultado: Option<string>,
    engajou: bool,
    comentarios: Option<string>,
    audioUrl: Option<string>,
    createdAt: int)

  /** `LeadWithInteracoes`: a lead with its interactions. */
  datatype LeadWithInteracoes = LeadWithInteracoes(lead: Lead, interacoes: seq<Interacao>)
}
