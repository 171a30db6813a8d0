/** The lead list of `src/pages/Leads.tsx`: the next planned contact, the
    overdue flag, the search box and the filter presets, the `staleDays`
    stepper and the short status labels. The page's clock (`new Date()`,
    `Date.now()`) is the parameter `now`. */
module LeadsPage {
  import opened Wrappers
  import opened Text
  import opened Seqs
  import opened LeadTypes
  import opened Selectors

  // ----- next planned contact -----

  /** `getNextPlanned`: the planned date of the earliest pending interaction. */
  function NextPlannedDate(l: LeadWithInteracoes): Option<int>
  {
    match NextPlanned(l.interacoes)
    case Some(i) => i.dataPrevista
    case None => None
  }

  /** No date exactly when nothing is pending; otherwise the smallest planned
      date among the pending interactions, which one of them carries. */
  lemma NextPlannedDateSpec(l: LeadWithInteracoes)
    ensures NextPlannedDate(l).None? <==> forall i :: i in l.interacoes ==> !Pending(i)
    ensures NextPlannedDate(l).Some? ==>
      (exists i :: i in l.interacoes && Pending(i) && i.dataPrevista == NextPlannedDate(l)) &&
      forall i :: i in l.interacoes && Pending(i) ==> NextPlannedDate(l).value <= PlannedAt(i)
  {
    var m := NextPlannedSpec(l.interacoes);
  }

  /** `getIsOverdue`: the next planned contact is in the past. */
  predicate IsOverdue(l: LeadWithInteracoes, now: int)
  {
    NextPlannedDate(l).Some? && NextPlannedDate(l).value < now
  }

  /** Overdue exactly when some pending interaction was planned before now. */
  lemma IsOverdueSpec(l: LeadWithInteracoes, now: int)
    ensures IsOverdue(l, now) <==> exists i :: i in l.interacoes && Pending(i) && PlannedAt(i) < now
  {
    NextPlannedDateSpec(l);
    if IsOverdue(l, now) {
      var i :| i in l.interacoes && Pending(i) && i.dataPrevista == NextPlannedDate(l);
      assert PlannedAt(i) < now;
    }
  }

  // ----- search and presets -----

  /** The quick filters of the filter tray. */
  datatype Preset = All | Today | Tomorrow | Week | Stale | Never

  /** `search.toLowerCase().trim()`. */
  function SearchTerm(search: string): string
  {
    Trim(ToLower(search))
  }

  /** A blank term passes every lead; otherwise the lower-cased name (when
      there is one) or whatsapp must contain it. */
  predicate MatchSearch(term: string, l: LeadWithInteracoes)
  {
    term == [] ||
    (l.lead.nome.Some? && Contains(ToLower(l.lead.nome.value), term)) ||
    Contains(ToLower(l.lead.whatsapp), term)
  }

  /** Some interaction of the lead was realised. */
  predicate HasRealized(l: LeadWithInteracoes)
  {
    exists i :: i in l.interacoes && Realized(i)
  }

  /** `updated_at` is at least `staleDays` whole days before now. */
  predicate IsStale(l: LeadWithInteracoes, now: int, staleDays: int)
  {
    DifferenceInDays(now, l.lead.updatedAt) >= staleDays
  }

  /** What each preset keeps of a lead that matched the search. */
  predicate PresetKeeps(preset: Preset, l: LeadWithInteracoes, now: int, staleDays: int)
  {
    match preset
    case All => true
    case Never => !HasRealized(l)
    case Stale => IsStale(l, now, staleDays)
    case _ =>
      NextPlannedDate(l).Some? &&
      var next := NextPlannedDate(l).value;
      match preset
      case Today => Day(next) == Day(now)
      case Tomorrow => Day(next) == Day(now) + 1
      case _ => now <= next <= now + 7 * DAY_MS
  }

  function Keep(term: string, preset: Preset, now: int, staleDays: int): LeadWithInteracoes -> bool
  {
    (l: LeadWithInteracoes) => MatchSearch(term, l) && PresetKeeps(preset, l, now, staleDays)
  }

  /** `filteredLeads`: the leads that match the search and the preset, in
      loaded order. */
  function FilteredLeads(leads: seq<LeadWithInteracoes>, search: string, preset: Preset, staleDays: int, now: int): (r: seq<LeadWithInteracoes>)
    ensures IsSubseq(r, leads)
    ensures forall l :: l in r <==> l in leads && MatchSearch(SearchTerm(search), l) && PresetKeeps(preset, l, now, staleDays)
  {
    Filter(Keep(SearchTerm(search), preset, now, staleDays), leads)
  }

  /** A blank search with the 'all' preset lists every lead, in order. */
  lemma BlankSearchKeepsAll(leads: seq<LeadWithInteracoes>, search: string, staleDays: int, now: int)
    requires forall k :: 0 <= k < |search| ==> IsSpace(search[k])
    ensures FilteredLeads(leads, search, All, staleDays, now) == leads
  {
    TrimShape(ToLower(search));
    FilterAll(Keep(SearchTerm(search), All, now, staleDays), leads);
  }

  /** 'never' keeps exactly the leads without a realised interaction. */
  lemma NeverSpec(leads: seq<LeadWithInteracoes>, staleDays: int, now: int, l: LeadWithInteracoes)
    ensures l in FilteredLeads(leads, "", Never, staleDays, now) <==>
      l in leads && forall i :: i in l.interacoes ==> i.dataRealizada.None?
  {
    assert SearchTerm("") == [];
    assert MatchSearch([], l);
    assert PresetKeeps(Never, l, now, staleDays) == !HasRealized(l);
  }

  /** 'stale' keeps exactly the leads untouched for `staleDays` days or more. */
  lemma StaleSpec(leads: seq<LeadWithInteracoes>, staleDays: int, now: int, l: LeadWithInteracoes)
    requires staleDays >= 1
    ensures l in FilteredLeads(leads, "", Stale, staleDays, now) <==>
      l in leads && now - l.lead.updatedAt >= staleDays * DAY_MS
  {
    assert SearchTerm("") == [];
    DifferenceInDaysAtLeast(now, l.lead.updatedAt, staleDays);
  }

  /** The date presets drop every lead with nothing pending. */
  lemma DatePresetsNeedPending(leads: seq<LeadWithInteracoes>, search: string, preset: Preset, staleDays: int, now: int, l: LeadWithInteracoes)
    requires preset == Today || preset == Tomorrow || preset == Week
    requires l in FilteredLeads(leads, search, preset, staleDays, now)
    ensures exists i :: i in l.interacoes && Pending(i)
  {
    NextPlannedDateSpec(l);
  }

  /** 'today' and 'tomorrow' never keep the same lead. */
  lemma TodayTomorrowDisjoint(l: LeadWithInteracoes, staleDays: int, now: int)
    ensures !(PresetKeeps(Today, l, now, staleDays) && PresetKeeps(Tomorrow, l, now, staleDays))
  {
  }

  /** A contact planned for tomorrow lies in the coming week. */
  lemma TomorrowWithinWeek(l: LeadWithInteracoes, staleDays: int, now: int)
    requires PresetKeeps(Tomorrow, l, now, staleDays)
    ensures PresetKeeps(Week, l, now, staleDays)
  {
    var next := NextPlannedDate(l).value;
    assert Day(now) * DAY_MS <= now < (Day(now) + 1) * DAY_MS;
    assert Day(next) * DAY_MS <= next < (Day(next) + 1) * DAY_MS;
  }

  // ----- the staleDays stepper -----

  /** The filter tray's state. */
  datatype FilterState = FilterState(preset: Preset, staleDays: int)

  /** The controls of the tray. */
  datatype FilterEvent = ChoosePreset(p: Preset) | StaleMinus | StalePlus | Clear

  const INITIAL_FILTERS: FilterState := FilterState(All, 7)

  function Max(a: int, b: int): int { if a >= b then a else b }
  function Min(a: int, b: int): int { if a <= b then a else b }

  /** One control: a preset button, the "-" and "+" steppers
      (`Math.max(1, d - 1)`, `Math.min(365, d + 1)`) and "Limpar". */
  function StepFilters(s: FilterState, e: FilterEvent): (r: FilterState)
    ensures e.StaleMinus? ==> r.staleDays >= 1 && r.preset == s.preset
    ensures e.StalePlus? ==> r.staleDays <= 365 && r.preset == s.preset
    ensures e.Clear? ==> r == INITIAL_FILTERS
    ensures e.ChoosePreset? ==> r.staleDays == s.staleDays && r.preset == e.p
  {
    match e
    case ChoosePreset(p) => s.(preset := p)
    case StaleMinus => s.(staleDays := Max(1, s.staleDays - 1))
    case StalePlus => s.(staleDays := Min(365, s.staleDays + 1))
    case Clear => INITIAL_FILTERS
  }

  function RunFilters(s: FilterState, es: seq<FilterEvent>): FilterState
    decreases |es|
  {
    if es == [] then s else RunFilters(StepFilters(s, es[0]), es[1..])
  }

  /** Whatever the controls do, the day count stays within [1, 365]. */
  lemma {:induction false} StaleDaysInRange(s: FilterState, es: seq<FilterEvent>)
    requires 1 <= s.staleDays <= 365
    ensures 1 <= RunFilters(s, es).staleDays <= 365
    decreases |es|
  {
    if es != [] {
      var t := StepFilters(s, es[0]);
      assert 1 <= t.staleDays <= 365;
      StaleDaysInRange(t, es[1..]);
    }
  }

  /** From the initial tray every sequence of presses keeps the day count
      in range. */
  lemma StaleDaysFromStart(es: seq<FilterEvent>)
    ensures 1 <= RunFilters(INITIAL_FILTERS, es).staleDays <= 365
  {
    StaleDaysInRange(INITIAL_FILTERS, es);
  }

  /** One step changes the count by at most one day. */
  lemma StaleStepBy1(s: FilterState, e: FilterEvent)
    requires 1 <= s.staleDays <= 365 && (e.StaleMinus? || e.StalePlus?)
    ensures -1 <= StepFilters(s, e).staleDays - s.staleDays <= 1
    ensures e.StaleMinus? && s.staleDays > 1 ==> StepFilters(s, e).staleDays == s.staleDays - 1
    ensures e.StalePlus? && s.staleDays < 365 ==> StepFilters(s, e).staleDays == s.staleDays + 1
  {
  }

  // ----- status labels -----

  /** `getStatusLabel` of the list: short labels for the known statuses, the
      raw value otherwise. */
  function StatusLabel(status: string): string
  {
    if status == "novo" then "Novo"
    else if status == "interessado" then "Interessado"
    else if status == "standy_por_falta_de_resposta" then "Standby"
    else if status == "descartado" then "Descartado"
    else if status == "reuniao_agendada" then "Reuni\U{E3}o"
    else if status == "atendido" then "Atendido"
    else status
  }

  /** Each short label starts the full label of its status. */
  lemma ShortLabelsArePrefixes()
    ensures forall k :: 0 <= k < |STATUS_OPTIONS| ==>
      StartsWith(STATUS_OPTIONS[k].labelText, StatusLabel(STATUS_OPTIONS[k].value))
  {
  }

  /** An unknown status is shown verbatim. */
  lemma UnknownStatusVerbatim(status: string)
    requires !KnownStatus(status)
    ensures StatusLabel(status) == status
  {
    assert STATUS_OPTIONS[0].value != status && STATUS_OPTIONS[1].value != status;
    assert STATUS_OPTIONS[2].value != status && STATUS_OPTIONS[3].value != status;
    assert STATUS_OPTIONS[4].value != status && STATUS_OPTIONS[5].value != status;
  }
}
