/** The data hooks of `src/hooks/useLeads.ts` that do more than call the
    database: the join of the two fetched tables and the search filter. The
    queries themselves are not modelled; their results come in as sequences,
    already in the order the queries ask for. */
module UseLeads {
  import opened Wrappers
  import opened Text
  import opened Seqs
  import opened LeadTypes

  // ----- the join -----

  /** The interaction belongs to the lead with this id. */
  function BelongsTo(id: string): Interacao -> bool
  {
    (i: Interacao) => i.leadId == id
  }

  /** `useLeads`: every lead, in fetched order, with the interactions whose
      `lead_id` is its id, in fetched order. */
  function JoinLeads(leads: seq<Lead>, interacoes: seq<Interacao>): (r: seq<LeadWithInteracoes>)
    ensures |r| == |leads|
    ensures forall k :: 0 <= k < |leads| ==> r[k].lead == leads[k]
    ensures forall k, i :: 0 <= k < |leads| ==> (i in r[k].interacoes <==> i in interacoes && i.leadId == leads[k].id)
    ensures forall k :: 0 <= k < |leads| ==> IsSubseq(r[k].interacoes, interacoes)
  {
    Map((l: Lead) => LeadWithInteracoes(l, Filter(BelongsTo(l.id), interacoes)), leads)
  }

  /** The interactions arrive ordered by `numero_sequencia`; each lead's list
      keeps that order. */
  lemma JoinKeepsSequenceOrder(leads: seq<Lead>, interacoes: seq<Interacao>)
    requires SortedBy(interacoes, (i: Interacao) => i.numeroSequencia)
    ensures forall k :: 0 <= k < |leads| ==>
      SortedBy(JoinLeads(leads, interacoes)[k].interacoes, (i: Interacao) => i.numeroSequencia)
  {
    var r := JoinLeads(leads, interacoes);
    forall k | 0 <= k < |leads|
      ensures SortedBy(r[k].interacoes, (i: Interacao) => i.numeroSequencia)
    {
      FilterSorted(BelongsTo(leads[k].id), interacoes, (i: Interacao) => i.numeroSequencia);
    }
  }

  /** With distinct lead ids, an interaction is listed under one lead at most,
      and under none when its `lead_id` names no loaded lead. */
  lemma JoinPartition(leads: seq<Lead>, interacoes: seq<Interacao>, i: Interacao)
    requires forall a, b :: 0 <= a < b < |leads| ==> leads[a].id != leads[b].id
    ensures forall a, b :: 0 <= a < b < |leads| ==>
      !(i in JoinLeads(leads, interacoes)[a].interacoes && i in JoinLeads(leads, interacoes)[b].interacoes)
    ensures (forall k :: 0 <= k < |leads| ==> leads[k].id != i.leadId) ==>
      forall k :: 0 <= k < |leads| ==> i !in JoinLeads(leads, interacoes)[k].interacoes
  {
  }

  // ----- the search -----

  /** Name or phone match for a term of two characters or more. */
  function SearchMatch(searchTerm: string): LeadWithInteracoes -> bool
  {
    (l: LeadWithInteracoes) =>
      var term := DigitsOnly(ToLower(searchTerm));
      var termText := ToLower(searchTerm);
      Contains(DigitsOnly(l.lead.whatsapp), term) ||
      (l.lead.nome.Some? && Contains(ToLower(l.lead.nome.value), termText))
  }

  /** `useSearchLeads`: nothing for a term shorter than two characters,
      otherwise the matching leads in loaded order. */
  function SearchLeads(leads: seq<LeadWithInteracoes>, searchTerm: string): (r: seq<LeadWithInteracoes>)
    ensures |searchTerm| < 2 ==> r == []
    ensures IsSubseq(r, leads)
    ensures forall l :: l in r <==> |searchTerm| >= 2 && l in leads && SearchMatch(searchTerm)(l)
  {
    if |searchTerm| < 2 then [] else Filter(SearchMatch(searchTerm), leads)
  }

  /** Lower-casing keeps the digits and nothing else among them. */
  lemma {:induction false} DigitsOnlyToLower(s: string)
    ensures DigitsOnly(ToLower(s)) == DigitsOnly(s)
    decreases |s|
  {
    if s != [] {
      DigitsOnlyToLower(s[1..]);
      assert ToLower(s)[1..] == ToLower(s[1..]);
    }
  }

  /** A term without digits reduces to "" for the phone test, which every
      lead passes: such a term returns every lead. */
  lemma SearchWithoutDigits(leads: seq<LeadWithInteracoes>, searchTerm: string)
    requires |searchTerm| >= 2
    requires forall k :: 0 <= k < |searchTerm| ==> !IsDigit(searchTerm[k])
    ensures SearchLeads(leads, searchTerm) == leads
  {
    DigitsOnlyToLower(searchTerm);
    DigitsOnlyEmpty(searchTerm);
    forall l | l in leads
      ensures SearchMatch(searchTerm)(l)
    {
      ContainsEmpty(DigitsOnly(l.lead.whatsapp));
    }
    FilterAll(SearchMatch(searchTerm), leads);
  }

  /** A lead without a name is found only through its phone digits. */
  lemma SearchNamelessByPhone(leads: seq<LeadWithInteracoes>, searchTerm: string, l: LeadWithInteracoes)
    requires l.lead.nome.None? && l in leads && |searchTerm| >= 2
    ensures l in SearchLeads(leads, searchTerm) <==> Contains(DigitsOnly(l.lead.whatsapp), DigitsOnly(searchTerm))
  {
    DigitsOnlyToLower(searchTerm);
  }
}
