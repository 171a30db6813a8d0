/** The interaction selectors the screens repeat: the latest realised
    interaction (`filter(i => i.data_realizada).sort(desc)[0]`) and the
    next planned one (`filter(i => i.data_prevista && !i.data_realizada)
    .sort(asc)[0]`). They appear in `src/pages/Leads.tsx`,
    `src/components/LeadSummary.tsx`, `src/components/InteractionForm.tsx`,
    `src/pages/Atividade.tsx` and `src/pages/Planilha.tsx`; with them, the
    search term and the field test of the activity and sheet pages' search
    boxes, and the per-type test the form and the dashboard count with. */
module Selectors {
  import opened Wrappers
  import opened Text
  import opened Seqs
  import opened LeadTypes

  /** `q.trim().toLowerCase()`. */
  function Term(q: string): string
  {
    ToLower(Trim(q))
  }

  /** `(x || "").toLowerCase().includes(term)`. */
  predicate Mentions(x: Option<string>, term: string)
  {
    Contains(ToLower(x.GetOr("")), term)
  }

  /** `i => i.tipo === t`. */
  function OfTipo(t: Tipo): Interacao -> bool
  {
    (i: Interacao) => i.tipo == t
  }

  /** The interaction took place (`data_realizada` is set). */
  predicate Realized(i: Interacao)
  {
    i.dataRealizada.Some?
  }

  /** Planned and not yet realised. */
  predicate Pending(i: Interacao)
  {
    i.dataPrevista.Some? && i.dataRealizada.None?
  }

  function RealizedAt(i: Interacao): int
  {
    i.dataRealizada.GetOr(0)
  }

  function PlannedAt(i: Interacao): int
  {
    i.dataPrevista.GetOr(0)
  }

  /** The comparator `(a, b) => b.data_realizada - a.data_realizada` as an
      ascending sort key: latest first. */
  function LatestFirst(i: Interacao): int
  {
    -RealizedAt(i)
  }

  /** Realised and of the given type. */
  function RealizedOfTipo(t: Tipo): Interacao -> bool
  {
    (i: Interacao) => i.tipo == t && Realized(i)
  }

  /** The latest realised interaction, if any. */
  function LatestRealized(xs: seq<Interacao>): Option<Interacao>
  {
    SortedHead(Realized, LatestFirst, xs)
  }

  /** The latest realised interaction of one type, if any. */
  function LatestRealizedOfTipo(t: Tipo, xs: seq<Interacao>): Option<Interacao>
  {
    SortedHead(RealizedOfTipo(t), LatestFirst, xs)
  }

  /** The pending interaction with the earliest planned date, if any. */
  function NextPlanned(xs: seq<Interacao>): Option<Interacao>
  {
    SortedHead(Pending, PlannedAt, xs)
  }

  /** None exactly when nothing was realised; otherwise a realised
      interaction of the list whose date no other realised one exceeds. */
  lemma LatestRealizedSpec(xs: seq<Interacao>)
    ensures LatestRealized(xs).None? <==> forall i :: i in xs ==> !Realized(i)
    ensures LatestRealized(xs).Some? ==>
      LatestRealized(xs).value in xs && Realized(LatestRealized(xs).value) &&
      forall i :: i in xs && Realized(i) ==> RealizedAt(i) <= RealizedAt(LatestRealized(xs).value)
  {
    var m := SortedHeadSpec(Realized, LatestFirst, xs);
  }

  /** The same for the interactions of one type. */
  lemma LatestRealizedOfTipoSpec(t: Tipo, xs: seq<Interacao>)
    ensures LatestRealizedOfTipo(t, xs).None? <==> forall i :: i in xs ==> !(i.tipo == t && Realized(i))
    ensures LatestRealizedOfTipo(t, xs).Some? ==>
      var h := LatestRealizedOfTipo(t, xs).value;
      h in xs && h.tipo == t && Realized(h) &&
      forall i :: i in xs && i.tipo == t && Realized(i) ==> RealizedAt(i) <= RealizedAt(h)
  {
    var m := SortedHeadSpec(RealizedOfTipo(t), LatestFirst, xs);
  }

  /** None exactly when nothing is pending; otherwise a pending interaction
      of the list planned no later than any other pending one, and the first
      such one in list order among the pending ones. */
  lemma NextPlannedSpec(xs: seq<Interacao>) returns (m: nat)
    ensures NextPlanned(xs).None? <==> forall i :: i in xs ==> !Pending(i)
    ensures NextPlanned(xs).Some? ==>
      var h := NextPlanned(xs).value;
      var c := Filter(Pending, xs);
      h in xs && Pending(h) &&
      (forall i :: i in xs && Pending(i) ==> PlannedAt(h) <= PlannedAt(i)) &&
      m < |c| && c[m] == h && forall k :: 0 <= k < m ==> PlannedAt(c[k]) > PlannedAt(h)
  {
    m := SortedHeadSpec(Pending, PlannedAt, xs);
  }

  // ----- (lead, interaction) pairs -----

  /** A `{ lead, interacao }` row of the lists built with `flatMap`. */
  datatype Entry = Entry(lead: LeadWithInteracoes, interacao: Interacao)

  /** The interactions of a lead that pass `p`, each paired with the lead. */
  function EntriesOf(p: Interacao -> bool, l: LeadWithInteracoes): seq<Entry>
  {
    Map((i: Interacao) => Entry(l, i), Filter(p, l.interacoes))
  }

  /** `leads.flatMap(l => l.interacoes.filter(p).map(i => ({ lead: l, interacao: i })))`. */
  function Entries(p: Interacao -> bool, leads: seq<LeadWithInteracoes>): seq<Entry>
  {
    FlatMap((l: LeadWithInteracoes) => EntriesOf(p, l), leads)
  }

  /** A pair is listed exactly when the lead is loaded and the interaction
      is one of its own that passes `p`. */
  lemma EntriesMember(p: Interacao -> bool, leads: seq<LeadWithInteracoes>, e: Entry)
    ensures e in Entries(p, leads) <==> e.lead in leads && e.interacao in e.lead.interacoes && p(e.interacao)
  {
    FlatMapMember((l: LeadWithInteracoes) => EntriesOf(p, l), leads, e);
    if e.lead in leads && e.interacao in e.lead.interacoes && p(e.interacao) {
      var c := Filter(p, e.lead.interacoes);
      assert e.interacao in c;
      var k :| 0 <= k < |c| && c[k] == e.interacao;
      assert EntriesOf(p, e.lead)[k] == e;
    }
  }
}
