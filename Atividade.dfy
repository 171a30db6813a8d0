/** The activity page of `src/pages/Atividade.tsx`: the per-lead list (each
    lead with its latest realised interaction) and the list of every
    realised interaction, both filtered by the search box and sorted latest
    first, and the caps on what is drawn. */
module Atividade {
  import opened Wrappers
  import opened Text
  import opened Seqs
  import opened LeadTypes
  import opened Selectors

  /** The row filter of both lists: a blank term passes; otherwise the name,
      the whatsapp, or the interaction's comment or result must contain it. */
  predicate RowMatches(term: string, e: Entry)
  {
    term == [] ||
    Mentions(e.lead.lead.nome, term) ||
    Contains(ToLower(e.lead.lead.whatsapp), term) ||
    Mentions(e.interacao.comentarios, term) ||
    Mentions(e.interacao.resultado, term)
  }

  function Matches(term: string): Entry -> bool
  {
    (e: Entry) => RowMatches(term, e)
  }

  /** `(a, b) => b.data_realizada - a.data_realizada` as an ascending key. */
  function Latest(e: Entry): int
  {
    LatestFirst(e.interacao)
  }

  /** Each lead paired with its latest realised interaction; leads with none
      are dropped. */
  function LastRows(leads: seq<LeadWithInteracoes>): seq<Entry>
  {
    if leads == [] then []
    else
      var head := match LatestRealized(leads[0].interacoes)
        case Some(i) => [Entry(leads[0], i)]
        case None => [];
      head + LastRows(leads[1..])
  }

  /** A row per lead with a realised interaction, holding the latest one. */
  lemma {:induction false} LastRowsMember(leads: seq<LeadWithInteracoes>, e: Entry)
    ensures e in LastRows(leads) <==> e.lead in leads && LatestRealized(e.lead.interacoes) == Some(e.interacao)
    decreases |leads|
  {
    if leads != [] {
      LastRowsMember(leads[1..], e);
      assert forall l :: l in leads <==> l == leads[0] || l in leads[1..];
    }
  }

  /** `byLead`. */
  function ByLead(leads: seq<LeadWithInteracoes>, q: string): seq<Entry>
  {
    SortBy(Filter(Matches(Term(q)), LastRows(leads)), Latest)
  }

  /** The per-lead list holds exactly the matching leads that have a
      realised interaction, each with its latest one. */
  lemma ByLeadMember(leads: seq<LeadWithInteracoes>, q: string, e: Entry)
    ensures e in ByLead(leads, q) <==>
      e.lead in leads && LatestRealized(e.lead.interacoes) == Some(e.interacao) && RowMatches(Term(q), e)
  {
    var rows := LastRows(leads);
    var c := Filter(Matches(Term(q)), rows);
    SortByMember(c, Latest, e);
    assert e in c <==> e in rows && Matches(Term(q))(e);
    LastRowsMember(leads, e);
  }

  /** The per-lead list is latest first and holds each filtered row as
      often as before sorting. */
  lemma ByLeadSorted(leads: seq<LeadWithInteracoes>, q: string)
    ensures SortedBy(ByLead(leads, q), Latest)
    ensures multiset(ByLead(leads, q)) == multiset(Filter(Matches(Term(q)), LastRows(leads)))
  {
    SortByProps(Filter(Matches(Term(q)), LastRows(leads)), Latest);
  }

  /** Every lead with a realised interaction has a row when the term is blank. */
  lemma ByLeadBlankTerm(leads: seq<LeadWithInteracoes>, q: string, l: LeadWithInteracoes)
    requires forall k :: 0 <= k < |q| ==> IsSpace(q[k])
    requires l in leads && exists i :: i in l.interacoes && Realized(i)
    ensures exists e :: e in ByLead(leads, q) && e.lead == l
  {
    TrimShape(q);
    LatestRealizedSpec(l.interacoes);
    var e := Entry(l, LatestRealized(l.interacoes).value);
    ByLeadMember(leads, q, e);
  }

  /** `allInteractions`: every realised interaction with its lead. */
  function AllInteractions(leads: seq<LeadWithInteracoes>, q: string): seq<Entry>
  {
    SortBy(Filter(Matches(Term(q)), Entries(Realized, leads)), Latest)
  }

  /** The list holds exactly the matching realised interactions of the
      loaded leads. */
  lemma AllInteractionsMember(leads: seq<LeadWithInteracoes>, q: string, e: Entry)
    ensures e in AllInteractions(leads, q) <==>
      e.lead in leads && e.interacao in e.lead.interacoes && Realized(e.interacao) && RowMatches(Term(q), e)
  {
    var all := Entries(Realized, leads);
    var c := Filter(Matches(Term(q)), all);
    SortByMember(c, Latest, e);
    assert e in c <==> e in all && Matches(Term(q))(e);
    EntriesMember(Realized, leads, e);
  }

  /** The list is latest first and holds each filtered row as often as
      before sorting. */
  lemma AllInteractionsSorted(leads: seq<LeadWithInteracoes>, q: string)
    ensures SortedBy(AllInteractions(leads, q), Latest)
    ensures multiset(AllInteractions(leads, q)) == multiset(Filter(Matches(Term(q)), Entries(Realized, leads)))
  {
    SortByProps(Filter(Matches(Term(q)), Entries(Realized, leads)), Latest);
  }

  /** Each per-lead row also appears in the full list. */
  lemma ByLeadInAll(leads: seq<LeadWithInteracoes>, q: string, e: Entry)
    requires e in ByLead(leads, q)
    ensures e in AllInteractions(leads, q)
  {
    ByLeadMember(leads, q, e);
    LatestRealizedSpec(e.lead.interacoes);
    AllInteractionsMember(leads, q, e);
  }

  const LEAD_CARDS: nat := 50
  const INTERACTION_CARDS: nat := 100

  function Min(a: nat, b: nat): nat { if a < b then a else b }

  /** What the two tabs draw: the first 50 and the first 100 rows. */
  function Cards(leads: seq<LeadWithInteracoes>, q: string, perLead: bool): (r: seq<Entry>)
    ensures perLead ==> |r| == Min(LEAD_CARDS, |ByLead(leads, q)|) && r == ByLead(leads, q)[..|r|]
    ensures !perLead ==> |r| == Min(INTERACTION_CARDS, |AllInteractions(leads, q)|) && r == AllInteractions(leads, q)[..|r|]
  {
    if perLead then Take(ByLead(leads, q), LEAD_CARDS) else Take(AllInteractions(leads, q), INTERACTION_CARDS)
  }
}
