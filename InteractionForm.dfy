/** The business rules of the interaction form
    (`src/components/InteractionForm.tsx`): the engagement flag, the new
    lead status, the sequence number, the automatic follow-up, the writes a
    submission makes, the merge of the AI summary into the comments, and the
    form state the handlers step through. */
module InteractionForm {
  import opened Wrappers
  import opened Text
  import opened Seqs
  import opened LeadTypes
  import opened Selectors
  import opened Gemini

  // ----- engagement -----

  /** `engajou`: the outcome mentions "interessado" or is a booked meeting. */
  predicate Engajou(resultado: string)
  {
    Contains(resultado, "interessado") || resultado == "agendou_reuniao"
  }

  /** What the rules test in each stored outcome value. */
  lemma NaoAtendeuText()
    ensures !Contains("nao_atendeu", "interessado") && !Contains("nao_atendeu", "nao_interessado")
  {
    NotContainsPairAt("nao_atendeu", "interessado", 1);
    if Contains("nao_atendeu", "nao_interessado") {
      NaoInteressadoMentions("nao_atendeu");
    }
  }

  lemma NaoRespondeuText()
    ensures !Contains("nao_respondeu", "interessado") && !Contains("nao_respondeu", "nao_interessado")
  {
    NotContainsPairAt("nao_respondeu", "interessado", 1);
    if Contains("nao_respondeu", "nao_interessado") {
      NaoInteressadoMentions("nao_respondeu");
    }
  }

  lemma NumeroInvalidoText()
    ensures !Contains("numero_invalido", "interessado") && !Contains("numero_invalido", "nao_interessado")
  {
    NotContainsPairAt("numero_invalido", "interessado", 1);
    if Contains("numero_invalido", "nao_interessado") {
      NaoInteressadoMentions("numero_invalido");
    }
  }

  lemma AtendeuInteressadoText()
    ensures Contains("atendeu_interessado", "interessado") && !Contains("atendeu_interessado", "nao")
  {
    ContainsAt("atendeu_interessado", "interessado", 8);
    NotContainsPairAt("atendeu_interessado", "nao", 0);
  }

  lemma RespondeuInteressadoText()
    ensures Contains("respondeu_interessado", "interessado") && !Contains("respondeu_interessado", "nao")
  {
    ContainsAt("respondeu_interessado", "interessado", 10);
    NotContainsPairAt("respondeu_interessado", "nao", 0);
  }

  lemma AtendeuNaoInteressadoText()
    ensures Contains("atendeu_nao_interessado", "nao_interessado") && Contains("atendeu_nao_interessado", "interessado")
  {
    ContainsAt("atendeu_nao_interessado", "nao_interessado", 8);
    NaoInteressadoMentions("atendeu_nao_interessado");
  }

  lemma RespondeuNaoInteressadoText()
    ensures Contains("respondeu_nao_interessado", "nao_interessado") && Contains("respondeu_nao_interessado", "interessado")
  {
    ContainsAt("respondeu_nao_interessado", "nao_interessado", 10);
    NaoInteressadoMentions("respondeu_nao_interessado");
  }

  /** Every call outcome engages except no answer and an invalid number; the
      "not interested" outcome engages too. */
  lemma EngajouLigacao(a: ResultadoLigacao)
    ensures Engajou(LigacaoValue(a)) <==> a != NaoAtendeu && a != NumeroInvalido
  {
    match a {
      case NaoAtendeu => NaoAtendeuText();
      case NumeroInvalido => NumeroInvalidoText();
      case AtendeuInteressado => AtendeuInteressadoText();
      case AtendeuNaoInteressado => AtendeuNaoInteressadoText();
      case LigacaoAgendou =>
    }
  }

  /** Every message outcome engages except no reply. */
  lemma EngajouMensagem(b: ResultadoMensagem)
    ensures Engajou(MensagemValue(b)) <==> b != NaoRespondeu
  {
    match b {
      case NaoRespondeu => NaoRespondeuText();
      case RespondeuInteressado => RespondeuInteressadoText();
      case RespondeuNaoInteressado => RespondeuNaoInteressadoText();
      case MensagemAgendou =>
    }
  }

  // ----- new lead status -----

  /** `getNewStatus`: the lead status after an interaction with this
      outcome; an outcome none of the rules knows keeps `current`. */
  function NewStatus(resultado: string, current: string): string
  {
    if resultado == "agendou_reuniao" then "reuniao_agendada"
    else if Contains(resultado, "interessado") && !Contains(resultado, "nao") then "interessado"
    else if Contains(resultado, "nao_interessado") then "descartado"
    else if resultado == "nao_atendeu" || resultado == "nao_respondeu" then "standy_por_falta_de_resposta"
    else if resultado == "numero_invalido" then "descartado"
    else current
  }

  /** The status each call outcome leads to. */
  function LigacaoStatus(a: ResultadoLigacao): string
  {
    match a
    case NaoAtendeu => "standy_por_falta_de_resposta"
    case AtendeuInteressado => "interessado"
    case AtendeuNaoInteressado => "descartado"
    case NumeroInvalido => "descartado"
    case LigacaoAgendou => "reuniao_agendada"
  }

  /** The status each message outcome leads to. */
  function MensagemStatus(b: ResultadoMensagem): string
  {
    match b
    case NaoRespondeu => "standy_por_falta_de_resposta"
    case RespondeuInteressado => "interessado"
    case RespondeuNaoInteressado => "descartado"
    case MensagemAgendou => "reuniao_agendada"
  }

  /** `getNewStatus` on each stored outcome value. */
  lemma NewStatusNoAnswer(current: string)
    ensures NewStatus("nao_atendeu", current) == "standy_por_falta_de_resposta"
    ensures NewStatus("nao_respondeu", current) == "standy_por_falta_de_resposta"
  {
    NaoAtendeuText();
    NaoRespondeuText();
  }

  lemma NewStatusInvalidNumber(current: string)
    ensures NewStatus("numero_invalido", current) == "descartado"
  {
    NumeroInvalidoText();
  }

  lemma NewStatusInterested(current: string)
    ensures NewStatus("atendeu_interessado", current) == "interessado"
    ensures NewStatus("respondeu_interessado", current) == "interessado"
  {
    AtendeuInteressadoText();
    RespondeuInteressadoText();
  }

  lemma NewStatusCallNotInterested(current: string)
    ensures NewStatus("atendeu_nao_interessado", current) == "descartado"
  {
    AtendeuNaoInteressadoText();
    ContainsAt("atendeu_nao_interessado", "nao", 8);
  }

  lemma NewStatusMessageNotInterested(current: string)
    ensures NewStatus("respondeu_nao_interessado", current) == "descartado"
  {
    RespondeuNaoInteressadoText();
    ContainsAt("respondeu_nao_interessado", "nao", 10);
  }

  /** `getNewStatus` follows the call table, whatever the current status. */
  lemma NewStatusLigacao(a: ResultadoLigacao, current: string)
    ensures NewStatus(LigacaoValue(a), current) == LigacaoStatus(a)
  {
    match a {
      case NaoAtendeu => NewStatusNoAnswer(current);
      case NumeroInvalido => NewStatusInvalidNumber(current);
      case AtendeuInteressado => NewStatusInterested(current);
      case AtendeuNaoInteressado => NewStatusCallNotInterested(current);
      case LigacaoAgendou =>
    }
  }

  /** `getNewStatus` follows the message table, whatever the current status. */
  lemma NewStatusMensagem(b: ResultadoMensagem, current: string)
    ensures NewStatus(MensagemValue(b), current) == MensagemStatus(b)
  {
    match b {
      case NaoRespondeu => NewStatusNoAnswer(current);
      case RespondeuInteressado => NewStatusInterested(current);
      case RespondeuNaoInteressado => NewStatusMessageNotInterested(current);
      case MensagemAgendou =>
    }
  }

  /** An outcome that matches none of the rules leaves the status as it was. */
  lemma NewStatusOther(resultado: string, current: string)
    requires !Contains(resultado, "interessado")
    requires resultado !in ["agendou_reuniao", "nao_atendeu", "nao_respondeu", "numero_invalido"]
    ensures NewStatus(resultado, current) == current
  {
    if Contains(resultado, "nao_interessado") {
      NaoInteressadoMentions(resultado);
    }
  }

  /** "nao_interessado" mentions "interessado". */
  lemma NaoInteressadoMentions(s: string)
    requires Contains(s, "nao_interessado")
    ensures Contains(s, "interessado")
  {
    assert "nao_interessado"[4..] == "interessado";
    ContainsSuffixOf(s, "nao_interessado", 4);
  }

  /** Starting from one of the six known statuses, every outcome, offered or
      not, leads to one of the six known statuses. */
  lemma NewStatusKnown(resultado: string, current: string)
    requires KnownStatus(current)
    ensures KnownStatus(NewStatus(resultado, current))
  {
    assert STATUS_OPTIONS[1].value == "standy_por_falta_de_resposta";
    assert STATUS_OPTIONS[3].value == "interessado";
    assert STATUS_OPTIONS[4].value == "descartado";
    assert STATUS_OPTIONS[5].value == "reuniao_agendada";
  }

  // ----- sequence number and follow-up -----

  /** The sequence number of a new interaction: one more than the lead's
      interactions of the same type. */
  function Sequencia(xs: seq<Interacao>, t: Tipo): (n: int)
    ensures n >= 1
    ensures n == 1 <==> forall i :: i in xs ==> i.tipo != t
  {
    Count(OfTipo(t), xs) + 1
  }

  /** Recording one more interaction moves the number on by one for its own
      type only. */
  lemma SequenciaNext(xs: seq<Interacao>, t: Tipo, i: Interacao)
    ensures Sequencia(xs + [i], t) == Sequencia(xs, t) + (if i.tipo == t then 1 else 0)
  {
    CountAppend(OfTipo(t), xs, [i]);
  }

  /** `delayByAttempt`: days until the next attempt, for the first three. */
  function DelayByAttempt(n: int): Option<int>
  {
    if n == 1 then Some(1)
    else if n == 2 then Some(3)
    else if n == 3 then Some(6)
    else None
  }

  /** No answer and no reply leave the lead "in the void". */
  predicate IsVacuo(resultado: string)
  {
    resultado == "nao_respondeu" || resultado == "nao_atendeu"
  }

  /** A pending interaction of the same type with the next number exists. */
  predicate AlreadyPlanned(xs: seq<Interacao>, t: Tipo, n: int)
  {
    exists k :: 0 <= k < |xs| && xs[k].tipo == t && xs[k].numeroSequencia == n + 1 && Pending(xs[k])
  }

  /** The columns of an `interacoes` insert. */
  datatype InteracaoInsert = InteracaoInsert(
    leadId: string,
    tipo: Tipo,
    numeroSequencia: int,
    dataPrevista: Option<int>,
    dataRealizada: Option<int>,
    resultado: Option<string>,
    engajou: bool,
    comentarios: Option<string>,
    audioUrl: Option<string>)

  /** The follow-up planned after interaction number `n`, if any. */
  function FollowUp(xs: seq<Interacao>, t: Tipo, resultado: string, n: int, now: int, leadId: string): Option<InteracaoInsert>
  {
    var delay := DelayByAttempt(n);
    if IsVacuo(resultado) && delay.Some? && !AlreadyPlanned(xs, t, n) then
      Some(InteracaoInsert(leadId, t, n + 1, Some(now + delay.value * DAY_MS), None, None, false, None, None))
    else None
  }

  /** A follow-up is planned exactly for an unanswered first, second or third
      attempt that has no pending successor yet: one, three or six days
      later, numbered next, not realised, with no outcome and not engaged. */
  lemma FollowUpSpec(xs: seq<Interacao>, t: Tipo, resultado: string, n: int, now: int, leadId: string)
    ensures FollowUp(xs, t, resultado, n, now, leadId).Some? <==>
      IsVacuo(resultado) && 1 <= n <= 3 && !AlreadyPlanned(xs, t, n)
    ensures FollowUp(xs, t, resultado, n, now, leadId).Some? ==>
      var f := FollowUp(xs, t, resultado, n, now, leadId).value;
      f.leadId == leadId && f.tipo == t && f.numeroSequencia == n + 1 &&
      f.dataRealizada.None? && f.resultado.None? && !f.engajou &&
      f.comentarios.None? && f.audioUrl.None? &&
      f.dataPrevista == Some(now + (if n == 1 then 1 else if n == 2 then 3 else 6) * DAY_MS)
  {
  }

  /** The row an insert becomes once stored. */
  function Stored(f: InteracaoInsert, id: string, createdAt: int): Interacao
  {
    Interacao(id, f.leadId, f.tipo, f.numeroSequencia, f.dataPrevista, f.dataRealizada,
      f.resultado, f.engajou, f.comentarios, f.audioUrl, createdAt)
  }

  /** Once the follow-up is stored, the same attempt does not plan it again. */
  lemma FollowUpNotRepeated(xs: seq<Interacao>, t: Tipo, resultado: string, n: int, now: int, later: int, leadId: string, id: string, createdAt: int)
    requires FollowUp(xs, t, resultado, n, now, leadId).Some?
    ensures FollowUp(xs + [Stored(FollowUp(xs, t, resultado, n, now, leadId).value, id, createdAt)], t, resultado, n, later, leadId).None?
  {
    var ys := xs + [Stored(FollowUp(xs, t, resultado, n, now, leadId).value, id, createdAt)];
    assert ys[|xs|].numeroSequencia == n + 1 && Pending(ys[|xs|]);
  }

  // ----- submission -----

  /** A write the submission makes. */
  datatype Write = CreateInteracao(row: InteracaoInsert) | UpdateStatus(leadId: string, status: string)

  const NO_RESULT: string := "Selecione um resultado"
  const SAVE_FAILED: string := "Erro ao registrar interação"

  /** The writes of `handleSubmit` once the audio is settled: the realised
      interaction, the follow-up when one is due, then the lead's status. */
  function SubmitWrites(lead: LeadWithInteracoes, tipo: Tipo, resultado: string, comentarios: string, audioUrl: Option<string>, now: int): Result<seq<Write>, string>
  {
    if resultado == "" then Err(NO_RESULT)
    else
      var n := Sequencia(lead.interacoes, tipo);
      var done := InteracaoInsert(lead.lead.id, tipo, n, None, Some(now), Some(resultado), Engajou(resultado),
        if comentarios == "" then None else Some(comentarios), audioUrl);
      var follow := FollowUp(lead.interacoes, tipo, resultado, n, now, lead.lead.id);
      Ok([CreateInteracao(done)] +
        (if follow.Some? then [CreateInteracao(follow.value)] else []) +
        [UpdateStatus(lead.lead.id, NewStatus(resultado, lead.lead.status))])
  }

  /** No outcome, no write. Otherwise the first write records the realised
      interaction under the next number with the notes (none when blank),
      the last one sets the status the outcome calls for (a known one when
      the lead had one), and a middle one, the planned follow-up, appears
      exactly when a follow-up is due. */
  lemma SubmitWritesSpec(lead: LeadWithInteracoes, tipo: Tipo, resultado: string, comentarios: string, audioUrl: Option<string>, now: int)
    ensures SubmitWrites(lead, tipo, resultado, comentarios, audioUrl, now).Err? <==> resultado == ""
    ensures SubmitWrites(lead, tipo, resultado, comentarios, audioUrl, now).Ok? ==>
      var w := SubmitWrites(lead, tipo, resultado, comentarios, audioUrl, now).value;
      (|w| == 2 || |w| == 3) &&
      w[0].CreateInteracao? && w[0].row.leadId == lead.lead.id && w[0].row.tipo == tipo &&
      w[0].row.numeroSequencia == Sequencia(lead.interacoes, tipo) &&
      w[0].row.dataRealizada == Some(now) && w[0].row.resultado == Some(resultado) &&
      w[0].row.engajou == Engajou(resultado) && w[0].row.audioUrl == audioUrl &&
      w[0].row.dataPrevista.None? &&
      w[0].row.comentarios == (if comentarios == "" then None else Some(comentarios)) &&
      w[|w| - 1] == UpdateStatus(lead.lead.id, NewStatus(resultado, lead.lead.status)) &&
      (KnownStatus(lead.lead.status) ==> KnownStatus(w[|w| - 1].status)) &&
      (|w| == 3 <==> FollowUp(lead.interacoes, tipo, resultado, Sequencia(lead.interacoes, tipo), now, lead.lead.id).Some?) &&
      (|w| == 3 ==> w[1] == CreateInteracao(FollowUp(lead.interacoes, tipo, resultado, Sequencia(lead.interacoes, tipo), now, lead.lead.id).value))
  {
    if resultado != "" && KnownStatus(lead.lead.status) {
      NewStatusKnown(resultado, lead.lead.status);
    }
  }

  // ----- the AI summary in the comments -----

  const AI_PREFIX: string := "IA ("

  /** `blocoIa`: confidence and summary, then the next step when there is one. */
  function AiBlock(out: Interpretation): (b: string)
    ensures StartsWith(b, AI_PREFIX)
  {
    var head := "IA (" + ConfiancaValue(out.confianca) + "): " + out.resumo;
    assert head[..4] == AI_PREFIX;
    head + (if out.proximoPasso.Some? && out.proximoPasso.value != "" then "\nPr\U{F3}ximo passo: " + out.proximoPasso.value else "")
  }

  /** The comments after an interpretation: the block alone when they were
      blank, unchanged (trimmed) when they already start with an AI block,
      else the block, a blank line and the old notes. */
  function MergeAiComment(prev: string, bloco: string): string
  {
    var base := Trim(prev);
    if base == "" then bloco
    else if StartsWith(base, AI_PREFIX) then base
    else bloco + "\n\n" + base
  }

  /** The merge keeps the user's notes after the new block. */
  lemma MergeAiKeepsNotes(prev: string, bloco: string)
    requires Trim(prev) != [] && !StartsWith(Trim(prev), AI_PREFIX)
    ensures StartsWith(MergeAiComment(prev, bloco), bloco)
    ensures EndsWith(MergeAiComment(prev, bloco), Trim(prev))
  {
    var r := bloco + "\n\n" + Trim(prev);
    assert r[..|bloco|] == bloco;
    assert r[|r| - |Trim(prev)|..] == Trim(prev);
  }

  /** Trimming keeps a leading AI prefix. */
  lemma TrimKeepsAiPrefix(s: string)
    requires StartsWith(s, AI_PREFIX)
    ensures StartsWith(Trim(s), AI_PREFIX)
  {
    assert !IsSpace(s[0]) && !IsSpace(s[3]);
    assert TrimStart(s) == s;
  }

  /** A second interpretation adds nothing: the comments only lose
      surrounding white space. */
  lemma MergeAiTwice(prev: string, b1: string, b2: string)
    requires StartsWith(b1, AI_PREFIX)
    ensures MergeAiComment(MergeAiComment(prev, b1), b2) == Trim(MergeAiComment(prev, b1))
  {
    var m := MergeAiComment(prev, b1);
    var base := Trim(prev);
    if base != [] && !StartsWith(base, AI_PREFIX) {
      assert m[..4] == b1[..4];
    }
    assert StartsWith(m, AI_PREFIX);
    TrimKeepsAiPrefix(m);
  }

  // ----- the form state -----

  /** `audioStatus`. */
  datatype AudioStatus = Idle | Recording | Recorded | Uploading | Uploaded | UploadError

  /** `audioStatusLabel`. */
  function AudioStatusLabel(s: AudioStatus): string
  {
    match s
    case Idle => "Nenhum \U{E1}udio gravado"
    case Recording => "Gravando\U{2026}"
    case Recorded => "\U{C1}udio gravado"
    case Uploading => "Salvando \U{E1}udio\U{2026}"
    case Uploaded => "\U{C1}udio salvo"
    case UploadError => "Falha ao salvar \U{E1}udio"
  }

  /** A recorded blob, by identity. */
  type BlobId = nat

  /** The blob an upload must save before the writes: the one the recorder
      returns when it was still running, else a stored blob that has no URL
      yet. */
  function PendingUpload(recorderActive: bool, stoppedBlob: Option<BlobId>, audioUrl: Option<string>, audioBlob: Option<BlobId>): Option<BlobId>
  {
    if recorderActive then stoppedBlob
    else if audioUrl.None? && audioBlob.Some? then audioBlob
    else None
  }

  /** The state of one interaction form. */
  class FormState {
    var tipo: Tipo
    var resultado: string
    var comentarios: string
    var hasEditedComments: bool
    var audioBlob: Option<BlobId>
    var audioUrl: Option<string>
    var audioStatus: AudioStatus

    /** The type starts as the next planned contact's, else a call. */
    constructor (lead: LeadWithInteracoes)
      ensures tipo == (if NextPlanned(lead.interacoes).Some? then NextPlanned(lead.interacoes).value.tipo else Ligacao)
      ensures resultado == "" && comentarios == "" && !hasEditedComments
      ensures audioBlob.None? && audioUrl.None? && audioStatus == Idle
    {
      var next := NextPlanned(lead.interacoes);
      tipo := if next.Some? then next.value.tipo else Ligacao;
      resultado := "";
      comentarios := "";
      hasEditedComments := false;
      audioBlob := None;
      audioUrl := None;
      audioStatus := Idle;
    }

    /** The outcomes offered for the current type. */
    function Offered(): seq<ResultOption>
      reads this
    {
      ResultsFor(tipo)
    }

    /** The submit button is enabled once an outcome is chosen. */
    predicate SubmitEnabled()
      reads this
    {
      resultado != ""
    }

    /** Choosing the type keeps the chosen outcome. */
    method SelectTipo(t: Tipo)
      modifies this`tipo
      ensures tipo == t
    {
      tipo := t;
    }

    method SelectResultado(value: string)
      modifies this`resultado
      ensures resultado == value
    {
      resultado := value;
    }

    /** Typing in the comments marks them edited and keeps 500 characters. */
    method EditComments(text: string)
      modifies this`comentarios, this`hasEditedComments
      ensures comentarios == Take(text, 500) && |comentarios| <= 500
      ensures hasEditedComments
    {
      hasEditedComments := true;
      comentarios := Take(text, 500);
    }

    /** The transcript is copied into the comments while they are unedited. */
    method SyncTranscript(transcript: string)
      modifies this`comentarios
      ensures comentarios == if transcript != "" && !hasEditedComments then transcript else old(comentarios)
    {
      if transcript != "" && !hasEditedComments {
        comentarios := transcript;
      }
    }

    /** The recorder reports a change of `isRecording`. */
    method RecordingChanged(isRecording: bool)
      modifies this`audioStatus
      ensures audioStatus == if isRecording then Recording else old(audioStatus)
    {
      if isRecording {
        audioStatus := Recording;
      }
    }

    /** `handleStopRecording` up to the upload: a returned blob replaces the
      old one, drops its URL and starts the upload. */
    method RecorderStopped(blob: Option<BlobId>)
      modifies this`audioBlob, this`audioUrl, this`audioStatus
      ensures blob.Some? ==> audioBlob == blob && audioUrl.None? && audioStatus == Uploading
      ensures blob.None? ==> audioBlob == old(audioBlob) && audioUrl == old(audioUrl) && audioStatus == old(audioStatus)
    {
      if blob.Some? {
        audioBlob := blob;
        audioUrl := None;
        audioStatus := Recorded;
        audioStatus := Uploading;
      }
    }

    /** The upload started on stop settles: its URL, or the error status. */
    method UploadFinished(url: Option<string>)
      modifies this`audioUrl, this`audioStatus
      ensures url.Some? ==> audioUrl == url && audioStatus == Uploaded
      ensures url.None? ==> audioUrl == old(audioUrl) && audioStatus == UploadError
    {
      if url.Some? {
        audioUrl := url;
        audioStatus := Uploaded;
      } else {
        audioStatus := UploadError;
      }
    }

    /** `handleClearAudio`. */
    method ClearAudio()
      modifies this`audioBlob, this`audioUrl, this`audioStatus
      ensures audioBlob.None? && audioUrl.None? && audioStatus == Idle
    {
      audioBlob := None;
      audioUrl := None;
      audioStatus := Idle;
    }

    /** `handleInterpret` once the model answered: the suggestion becomes the
      outcome, the block is merged into the comments, which count as edited. */
    method InterpretDone(out: Interpretation)
      modifies this`resultado, this`comentarios, this`hasEditedComments
      ensures resultado == if out.resultadoSugerido.Some? && out.resultadoSugerido.value != "" then out.resultadoSugerido.value else old(resultado)
      ensures comentarios == MergeAiComment(old(comentarios), AiBlock(out))
      ensures StartsWith(comentarios, AI_PREFIX)
      ensures hasEditedComments
    {
      if out.resultadoSugerido.Some? && out.resultadoSugerido.value != "" {
        resultado := out.resultadoSugerido.value;
      }
      var bloco := AiBlock(out);
      comentarios := MergeAiComment(comentarios, bloco);
      if Trim(old(comentarios)) != [] && StartsWith(Trim(old(comentarios)), AI_PREFIX) {
      } else if Trim(old(comentarios)) != [] {
        assert comentarios[..4] == bloco[..4];
      }
      hasEditedComments := true;
    }

    /** `handleSubmit`. Without an outcome nothing happens. Otherwise a blob
      still to be saved is uploaded first (`upload` is that upload's URL, or
      `None` when it throws, which aborts before any write with the status
      left at uploading); then the writes are made and the form is reset.
      `writesOk` is false when one of the writes throws: the error is shown
      and the form keeps its outcome and notes, with the upload settled. */
    method Submit(lead: LeadWithInteracoes, now: int, recorderActive: bool, stoppedBlob: Option<BlobId>, upload: Option<string>, writesOk: bool)
      returns (r: Result<seq<Write>, string>)
      modifies this
      ensures old(resultado) == "" ==> r == Err(NO_RESULT) && unchanged(this)
      ensures var pending := PendingUpload(recorderActive, stoppedBlob, old(audioUrl), old(audioBlob));
        old(resultado) != "" && pending.Some? && upload.None? ==>
          r == Err(SAVE_FAILED) && audioStatus == Uploading && audioBlob == pending &&
          audioUrl == old(audioUrl) && tipo == old(tipo) && resultado == old(resultado) &&
          comentarios == old(comentarios) && hasEditedComments == old(hasEditedComments)
      ensures var pending := PendingUpload(recorderActive, stoppedBlob, old(audioUrl), old(audioBlob));
        old(resultado) != "" && !(pending.Some? && upload.None?) && !writesOk ==>
          r == Err(SAVE_FAILED) &&
          audioBlob == (if pending.Some? then pending else old(audioBlob)) &&
          audioUrl == (if pending.Some? then upload else old(audioUrl)) &&
          audioStatus == (if pending.Some? then Uploaded else old(audioStatus)) &&
          tipo == old(tipo) && resultado == old(resultado) &&
          comentarios == old(comentarios) && hasEditedComments == old(hasEditedComments)
      ensures var pending := PendingUpload(recorderActive, stoppedBlob, old(audioUrl), old(audioBlob));
        old(resultado) != "" && !(pending.Some? && upload.None?) && writesOk ==>
          r == SubmitWrites(lead, old(tipo), old(resultado), old(comentarios), if pending.Some? then upload else old(audioUrl), now) &&
          tipo == old(tipo) && resultado == "" && comentarios == "" && !hasEditedComments &&
          audioBlob.None? && audioUrl.None? && audioStatus == Idle
    {
      if resultado == "" {
        r := Err(NO_RESULT);
        return;
      }
      var pending := PendingUpload(recorderActive, stoppedBlob, audioUrl, audioBlob);
      var finalAudioUrl := audioUrl;
      if pending.Some? {
        audioBlob := pending;
        audioStatus := Uploading;
        if upload.None? {
          r := Err(SAVE_FAILED);
          return;
        }
        finalAudioUrl := upload;
        audioUrl := upload;
        audioStatus := Uploaded;
      }
      if !writesOk {
        r := Err(SAVE_FAILED);
        return;
      }
      r := SubmitWrites(lead, tipo, resultado, comentarios, finalAudioUrl, now);
      comentarios := "";
      resultado := "";
      hasEditedComments := false;
      ClearAudio();
    }
  }
}
