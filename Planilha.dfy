/** The spreadsheet page of `src/pages/Planilha.tsx`: one row per lead with
    its latest realised and its next pending interaction, and one row per
    interaction of any lead, newest first by the first date it has. */
module Planilha {
  import opened Wrappers
  import opened Text
  import opened Seqs
  import opened LeadTypes
  import opened Selectors

  /** The lead filter: name, whatsapp or status. */
  predicate LeadMatches(term: string, l: LeadWithInteracoes)
  {
    term == [] ||
    Mentions(l.lead.nome, term) ||
    Contains(ToLower(l.lead.whatsapp), term) ||
    Contains(ToLower(l.lead.status), term)
  }

  /** A row of the leads sheet. */
  datatype LeadRow = LeadRow(lead: LeadWithInteracoes, ultimaRealizada: Option<Interacao>, proximaPrevista: Option<Interacao>)

  function RowOf(l: LeadWithInteracoes): LeadRow
  {
    LeadRow(l, LatestRealized(l.interacoes), NextPlanned(l.interacoes))
  }

  /** `rowsLeads`. */
  function RowsLeads(leads: seq<LeadWithInteracoes>, q: string): (r: seq<LeadRow>)
    ensures |r| <= |leads|
  {
    Map(RowOf, Filter((l: LeadWithInteracoes) => LeadMatches(Term(q), l), leads))
  }

  /** One row per matching lead, in loaded order. */
  lemma RowsLeadsOrder(leads: seq<LeadWithInteracoes>, q: string)
    ensures |RowsLeads(leads, q)| == Count((l: LeadWithInteracoes) => LeadMatches(Term(q), l), leads)
    ensures IsSubseq(Map((row: LeadRow) => row.lead, RowsLeads(leads, q)), leads)
  {
    var kept := Filter((l: LeadWithInteracoes) => LeadMatches(Term(q), l), leads);
    var rows := RowsLeads(leads, q);
    assert rows == Map(RowOf, kept);
    var back := Map((row: LeadRow) => row.lead, rows);
    assert back == kept by {
      forall k | 0 <= k < |kept|
        ensures back[k] == kept[k]
      {
        assert rows[k] == RowOf(kept[k]);
      }
    }
  }

  /** A row for exactly the matching leads, each row built from its lead. */
  lemma RowsLeadsMember(leads: seq<LeadWithInteracoes>, q: string, l: LeadWithInteracoes)
    ensures (l in leads && LeadMatches(Term(q), l)) <==> RowOf(l) in RowsLeads(leads, q)
    ensures forall row :: row in RowsLeads(leads, q) ==> row == RowOf(row.lead)
  {
    var kept := Filter((l: LeadWithInteracoes) => LeadMatches(Term(q), l), leads);
    var rows := RowsLeads(leads, q);
    if l in leads && LeadMatches(Term(q), l) {
      assert l in kept;
      var k :| 0 <= k < |kept| && kept[k] == l;
      assert rows[k] == RowOf(l);
    }
    if RowOf(l) in rows {
      var k :| 0 <= k < |rows| && rows[k] == RowOf(l);
      assert kept[k] in kept;
    }
  }

  /** A blank term keeps one row per lead, in loaded order. */
  lemma RowsLeadsBlank(leads: seq<LeadWithInteracoes>, q: string)
    requires forall k :: 0 <= k < |q| ==> IsSpace(q[k])
    ensures |RowsLeads(leads, q)| == |leads|
    ensures forall k :: 0 <= k < |leads| ==> RowsLeads(leads, q)[k] == RowOf(leads[k])
  {
    TrimShape(q);
    FilterAll((l: LeadWithInteracoes) => LeadMatches(Term(q), l), leads);
  }

  /** A row's latest realised and next pending interaction are absent
      exactly when the lead has none, and otherwise are the lead's own. */
  lemma RowOfSpec(l: LeadWithInteracoes)
    ensures RowOf(l).ultimaRealizada.None? <==> forall i :: i in l.interacoes ==> !Realized(i)
    ensures RowOf(l).proximaPrevista.None? <==> forall i :: i in l.interacoes ==> !Pending(i)
    ensures RowOf(l).ultimaRealizada.Some? ==> RowOf(l).ultimaRealizada.value in l.interacoes
    ensures RowOf(l).proximaPrevista.Some? ==> RowOf(l).proximaPrevista.value in l.interacoes
  {
    LatestRealizedSpec(l.interacoes);
    var m := NextPlannedSpec(l.interacoes);
  }

  // ----- the interactions sheet -----

  /** The interaction filter: name, whatsapp, type, result or comment. */
  predicate EntryMatches(term: string, e: Entry)
  {
    term == [] ||
    Mentions(e.lead.lead.nome, term) ||
    Contains(ToLower(e.lead.lead.whatsapp), term) ||
    Contains(ToLower(TipoValue(e.interacao.tipo)), term) ||
    Mentions(e.interacao.resultado, term) ||
    Mentions(e.interacao.comentarios, term)
  }

  /** `data_realizada || data_prevista || created_at`. */
  function SheetDate(i: Interacao): int
  {
    match i.dataRealizada
    case Some(t) => t
    case None => i.dataPrevista.GetOr(i.createdAt)
  }

  /** Newest first, as an ascending key. */
  function Newest(e: Entry): int
  {
    -SheetDate(e.interacao)
  }

  function AnyInteracao(i: Interacao): bool
  {
    true
  }

  /** `rowsInteracoes`. */
  function RowsInteracoes(leads: seq<LeadWithInteracoes>, q: string): seq<Entry>
  {
    SortBy(Filter((e: Entry) => EntryMatches(Term(q), e), Entries(AnyInteracao, leads)), Newest)
  }

  /** Every interaction of every lead, realised or not, appears exactly
      when it matches. */
  lemma RowsInteracoesMember(leads: seq<LeadWithInteracoes>, q: string, e: Entry)
    ensures e in RowsInteracoes(leads, q) <==>
      e.lead in leads && e.interacao in e.lead.interacoes && EntryMatches(Term(q), e)
  {
    var all := Entries(AnyInteracao, leads);
    var c := Filter((e: Entry) => EntryMatches(Term(q), e), all);
    SortByMember(c, Newest, e);
    EntriesMember(AnyInteracao, leads, e);
  }

  /** The sheet is ordered newest first by realised date, else planned date,
      else creation date, and holds each matching row as often as before. */
  lemma RowsInteracoesSorted(leads: seq<LeadWithInteracoes>, q: string)
    ensures forall a, b :: 0 <= a < b < |RowsInteracoes(leads, q)| ==>
      SheetDate(RowsInteracoes(leads, q)[a].interacao) >= SheetDate(RowsInteracoes(leads, q)[b].interacao)
    ensures multiset(RowsInteracoes(leads, q)) ==
      multiset(Filter((e: Entry) => EntryMatches(Term(q), e), Entries(AnyInteracao, leads)))
  {
    SortByProps(Filter((e: Entry) => EntryMatches(Term(q), e), Entries(AnyInteracao, leads)), Newest);
  }

  /** A realised interaction sorts by its realised date, a pending one by its
      planned date; only an interaction with neither uses its creation date. */
  lemma SheetDateFallback(i: Interacao)
    ensures i.dataRealizada.Some? ==> SheetDate(i) == RealizedAt(i)
    ensures Pending(i) ==> SheetDate(i) == PlannedAt(i)
    ensures i.dataRealizada.None? && i.dataPrevista.None? ==> SheetDate(i) == i.createdAt
  {
  }
}
