/** The lead picker of `src/components/LeadSearch.tsx`: the search box's
    state (term, open list, browse order), its handlers, and the panel it
    shows below the box. The A–Z order (`localeCompare` in 'pt-BR') is an
    abstract rank `collate` on display keys. */
module LeadSearch {
  import opened Wrappers
  import opened Text
  import opened Seqs
  import opened LeadTypes
  import opened UseLeads
  import opened Phone

  /** `/^\d+$/.test(term.replace(/\D/g, ''))`. */
  predicate IsPhoneNumber(term: string)
  {
    var digits := DigitsOnly(term);
    |digits| >= 1 && forall k :: 0 <= k < |digits| ==> IsDigit(digits[k])
  }

  /** The test runs on the digits alone, so it holds exactly when the term
      has a digit somewhere. */
  lemma IsPhoneNumberSpec(term: string)
    ensures IsPhoneNumber(term) <==> exists k :: 0 <= k < |term| && IsDigit(term[k])
  {
    DigitsOnlyEmpty(term);
  }

  datatype BrowseMode = Recent | Az

  /** `searchTerm`, `isOpen` and `browseMode`. */
  datatype SearchBox = SearchBox(term: string, isOpen: bool, browseMode: BrowseMode)

  const INITIAL_BOX: SearchBox := SearchBox("", false, Recent)

  /** Typing opens the list. */
  function Type(s: SearchBox, text: string): (r: SearchBox)
    ensures r.term == text && r.isOpen && r.browseMode == s.browseMode
  {
    s.(term := text, isOpen := true)
  }

  /** Focusing the box opens the list and keeps the term. */
  function Focus(s: SearchBox): (r: SearchBox)
    ensures r.isOpen && r.term == s.term && r.browseMode == s.browseMode
  {
    s.(isOpen := true)
  }

  /** A tap outside the picker or Escape closes the list. */
  function Dismiss(s: SearchBox): (r: SearchBox)
    ensures !r.isOpen && r.term == s.term && r.browseMode == s.browseMode
  {
    s.(isOpen := false)
  }

  /** `handleSelect` (and the effect on a new `selectedLead`): clear the
      term and close the list. */
  function HandleSelect(s: SearchBox): (r: SearchBox)
    ensures r.term == [] && !r.isOpen && r.browseMode == s.browseMode
  {
    s.(term := [], isOpen := false)
  }

  /** `handleCreateNew`: with ten digits or more, hand the digits on and
      reset the box; otherwise do nothing. */
  function HandleCreateNew(s: SearchBox): (r: (SearchBox, Option<string>))
    ensures r.1.Some? <==> |DigitsOnly(s.term)| >= 10
    ensures r.1.Some? ==> r.1.value == DigitsOnly(s.term) && r.0 == HandleSelect(s)
    ensures r.1.None? ==> r.0 == s
  {
    var phone := DigitsOnly(s.term);
    if |phone| >= 10 then (HandleSelect(s), Some(phone)) else (s, None)
  }

  /** The name, or the whatsapp when there is no name (`a.nome || a.whatsapp`). */
  function DisplayKey(l: LeadWithInteracoes): string
  {
    if l.lead.nome.Some? && l.lead.nome.value != [] then l.lead.nome.value else l.lead.whatsapp
  }

  const BROWSE_CAP: nat := 12
  const RESULTS_CAP: nat := 5

  /** `browseLeads`: the loaded order (most recently updated first) or A–Z,
      then the first twelve. */
  function BrowseLeads(all: seq<LeadWithInteracoes>, mode: BrowseMode, collate: string -> int): seq<LeadWithInteracoes>
  {
    var base := if mode == Az then SortBy(all, (l: LeadWithInteracoes) => collate(DisplayKey(l))) else all;
    Take(base, BROWSE_CAP)
  }

  /** At most twelve; in recent mode the first loaded leads; in A–Z mode
      leads of the list in key order, as many as the list holds up to twelve. */
  lemma BrowseLeadsSpec(all: seq<LeadWithInteracoes>, mode: BrowseMode, collate: string -> int)
    ensures |BrowseLeads(all, mode, collate)| == if |all| < BROWSE_CAP then |all| else BROWSE_CAP
    ensures mode == Recent ==> BrowseLeads(all, mode, collate) == all[..|BrowseLeads(all, mode, collate)|]
    ensures mode == Az ==> SortedBy(BrowseLeads(all, mode, collate), (l: LeadWithInteracoes) => collate(DisplayKey(l)))
    ensures mode == Az ==> multiset(BrowseLeads(all, mode, collate)) <= multiset(all)
  {
    var key := (l: LeadWithInteracoes) => collate(DisplayKey(l));
    SortByProps(all, key);
    if mode == Az {
      var sorted := SortBy(all, key);
      var r := BrowseLeads(all, mode, collate);
      assert r == sorted[..|r|];
      assert sorted == r + sorted[|r|..];
      assert multiset(sorted) == multiset(r) + multiset(sorted[|r|..]);
    }
  }

  // ----- the panel -----

  const HINT_MORE_DIGITS: string := "Digite pelo menos 10 d\U{ED}gitos"
  const HINT_NO_RESULT: string := "Nenhum resultado encontrado"

  /** What shows below the box. */
  datatype Panel =
    | Hidden
    | Browse(leads: seq<LeadWithInteracoes>)
    | Results(leads: seq<LeadWithInteracoes>)
    | CreateOption(display: string)
    | Hint(message: string)

  /** `showBrowse`. */
  predicate ShowBrowse(s: SearchBox)
  {
    s.isOpen && |Trim(s.term)| < 2
  }

  /** The panel for the box's state and the loaded leads. */
  function PanelOf(s: SearchBox, all: seq<LeadWithInteracoes>, collate: string -> int): Panel
  {
    if !(ShowBrowse(s) || (s.isOpen && |s.term| >= 2)) then Hidden
    else if ShowBrowse(s) then Browse(BrowseLeads(all, s.browseMode, collate))
    else
      var results := SearchLeads(all, s.term);
      if |results| > 0 then Results(Take(results, RESULTS_CAP))
      else if IsPhoneNumber(s.term) && |DigitsOnly(s.term)| >= 10 then CreateOption(FormatPhone(s.term))
      else Hint(if IsPhoneNumber(s.term) then HINT_MORE_DIGITS else HINT_NO_RESULT)
  }

  /** A panel shows exactly while the list is open: a blank or one-letter
      term browses, anything longer searches. */
  lemma PanelShownIffOpen(s: SearchBox, all: seq<LeadWithInteracoes>, collate: string -> int)
    ensures PanelOf(s, all, collate) != Hidden <==> s.isOpen
    ensures PanelOf(s, all, collate).Browse? <==> s.isOpen && |Trim(s.term)| < 2
  {
  }

  /** Search results are the first (at most five) matches in loaded order. */
  lemma ResultsSpec(s: SearchBox, all: seq<LeadWithInteracoes>, collate: string -> int)
    requires PanelOf(s, all, collate).Results?
    ensures var results := SearchLeads(all, s.term);
      var shown := PanelOf(s, all, collate).leads;
      |shown| == (if |results| < RESULTS_CAP then |results| else RESULTS_CAP) && shown == results[..|shown|]
    ensures 1 <= |PanelOf(s, all, collate).leads| <= RESULTS_CAP
    ensures forall l :: l in PanelOf(s, all, collate).leads ==> l in all && SearchMatch(s.term)(l)
    ensures IsSubseq(PanelOf(s, all, collate).leads, all)
  {
    var results := SearchLeads(all, s.term);
    var shown := Take(results, RESULTS_CAP);
    assert forall l :: l in shown ==> l in results;
    PrefixSubseq(shown, results);
    SubseqTrans(shown, results, all);
  }

  /** The create option is offered exactly when the list is searching, no
      lead matches and the term holds ten digits or more. */
  lemma CreateOptionSpec(s: SearchBox, all: seq<LeadWithInteracoes>, collate: string -> int)
    ensures PanelOf(s, all, collate).CreateOption? <==>
      s.isOpen && |Trim(s.term)| >= 2 && SearchLeads(all, s.term) == [] && |DigitsOnly(s.term)| >= 10
  {
  }

  /** Choosing the offered option always hands the digits on and closes
      the panel. */
  lemma CreateOptionSubmits(s: SearchBox, all: seq<LeadWithInteracoes>, collate: string -> int)
    requires PanelOf(s, all, collate).CreateOption?
    ensures HandleCreateNew(s).1 == Some(DigitsOnly(s.term))
    ensures PanelOf(HandleCreateNew(s).0, all, collate) == Hidden
  {
  }

  /** Without results or enough digits, the hint asks for more digits
      exactly when the term has a digit. */
  lemma HintSpec(s: SearchBox, all: seq<LeadWithInteracoes>, collate: string -> int)
    requires PanelOf(s, all, collate).Hint?
    ensures |DigitsOnly(s.term)| < 10
    ensures PanelOf(s, all, collate).message == HINT_MORE_DIGITS <==> exists k :: 0 <= k < |s.term| && IsDigit(s.term[k])
  {
    IsPhoneNumberSpec(s.term);
    assert HINT_MORE_DIGITS[0] != HINT_NO_RESULT[0];
  }

  /** Selecting a lead hides the panel. */
  lemma SelectHidesPanel(s: SearchBox, all: seq<LeadWithInteracoes>, collate: string -> int)
    ensures PanelOf(HandleSelect(s), all, collate) == Hidden
  {
  }
}
