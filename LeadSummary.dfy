/** The lead card of `src/components/LeadSummary.tsx`: the relative date
    label of the next contact, the status label and the engagement badge.
    The last call, last message and next contact are the selectors of
    module `Selectors`. */
module LeadSummary {
  import opened Wrappers
  import opened Text
  import opened LeadTypes

  /** What `formatDate` renders; `DayMonth` stands for the `dd/MM` text. */
  datatype DateLabel = Hoje | Amanha | EmDias(n: nat) | DayMonth(date: int)

  /** `formatDate`: today, tomorrow, "in N days" for one to seven whole days
      ahead, the day and month otherwise. */
  function FormatDate(date: int, now: int): DateLabel
  {
    if Day(date) == Day(now) then Hoje
    else if Day(date) == Day(now) + 1 then Amanha
    else
      var days := DifferenceInDays(date, now);
      if 0 < days <= 7 then EmDias(days) else DayMonth(date)
  }

  /** The text of the relative labels. */
  function LabelText(l: DateLabel): (r: Option<string>)
    ensures r.None? <==> l.DayMonth?
  {
    match l
    case Hoje => Some("hoje")
    case Amanha => Some("amanh\U{E3}")
    case EmDias(n) => Some("em " + NatToString(n) + " dias")
    case DayMonth(_) => None
  }

  /** The precedence of the labels and what "in N days" means: the date is
      N to N + 1 days ahead, on a calendar day after tomorrow. */
  lemma FormatDateSpec(date: int, now: int)
    ensures FormatDate(date, now) == Hoje <==> Day(date) == Day(now)
    ensures FormatDate(date, now) == Amanha <==> Day(date) == Day(now) + 1
    ensures FormatDate(date, now).EmDias? ==>
      var n := FormatDate(date, now).n;
      1 <= n <= 7 && Day(date) >= Day(now) + 2 &&
      n * DAY_MS <= date - now < (n + 1) * DAY_MS
  {
    if FormatDate(date, now).EmDias? {
      var d := date - now;
      assert d >= 0;
      assert (d / DAY_MS) * DAY_MS <= d < (d / DAY_MS + 1) * DAY_MS;
    }
  }

  /** Any date after tomorrow and less than eight days ahead gets an
      "in N days" label. */
  lemma FormatDateInDays(date: int, now: int)
    requires Day(date) >= Day(now) + 2 && date - now < 8 * DAY_MS
    ensures FormatDate(date, now).EmDias?
  {
    assert Day(now) * DAY_MS <= now < (Day(now) + 1) * DAY_MS;
    assert Day(date) * DAY_MS <= date;
    var d := date - now;
    assert d > DAY_MS;
    assert (d / DAY_MS) * DAY_MS <= d < (d / DAY_MS + 1) * DAY_MS;
  }

  /** A date before today is shown as day and month. */
  lemma FormatDatePast(date: int, now: int)
    requires Day(date) < Day(now)
    ensures FormatDate(date, now).DayMonth?
  {
    assert date < now;
  }

  /** The number in an "in N days" text reads back as N. */
  lemma EmDiasRoundTrip(n: nat)
    ensures var t := LabelText(EmDias(n)).value;
      |t| >= 9 && t[..3] == "em " && t[|t| - 5..] == " dias" &&
      (forall k :: 3 <= k < |t| - 5 ==> IsDigit(t[k])) &&
      ParseNat(t[3..|t| - 5]) == n
  {
    var s := NatToString(n);
    var t := "em " + s + " dias";
    assert t[3..|t| - 5] == s;
    ParseNatToString(n);
  }

  // ----- status -----

  /** `getStatusLabel` of the card. */
  function StatusLabel(status: string): string
  {
    if status == "novo" then "Novo"
    else if status == "interessado" then "Interessado"
    else if status == "standy_por_falta_de_resposta" then "Standby - Sem resposta"
    else if status == "descartado" then "Descartado"
    else if status == "reuniao_agendada" then "Reuni\U{E3}o agendada"
    else if status == "atendido" then "Atendido"
    else status
  }

  /** The card labels the six known statuses as `STATUS_OPTIONS` does. */
  lemma StatusLabelsAgree()
    ensures forall k :: 0 <= k < |STATUS_OPTIONS| ==>
      StatusLabel(STATUS_OPTIONS[k].value) == STATUS_OPTIONS[k].labelText
  {
  }

  /** An unknown status is shown verbatim. */
  lemma UnknownStatusVerbatim(status: string)
    requires !KnownStatus(status)
    ensures StatusLabel(status) == status
  {
    assert STATUS_OPTIONS[0].value != status && STATUS_OPTIONS[1].value != status;
    assert STATUS_OPTIONS[2].value != status && STATUS_OPTIONS[3].value != status;
    assert STATUS_OPTIONS[4].value != status && STATUS_OPTIONS[5].value != status;
  }

  // ----- engagement -----

  /** `interacoes.find(i => i.engajou)`: the first engaged interaction. */
  function FirstEngaged(xs: seq<Interacao>): (r: Option<Interacao>)
    ensures r.Some? <==> exists i :: i in xs && i.engajou
    ensures r.Some? ==> r.value in xs && r.value.engajou
  {
    if xs == [] then None
    else if xs[0].engajou then Some(xs[0])
    else FirstEngaged(xs[1..])
  }

  /** The engaged interaction found is the first one in list order. */
  lemma {:induction false} FirstEngagedIsFirst(xs: seq<Interacao>) returns (k: nat)
    requires exists i :: i in xs && i.engajou
    ensures k < |xs| && xs[k] == FirstEngaged(xs).value
    ensures forall j :: 0 <= j < k ==> !xs[j].engajou
    decreases |xs|
  {
    if xs[0].engajou {
      k := 0;
    } else {
      var i :| i in xs && i.engajou;
      assert i in xs[1..];
      var k' := FirstEngagedIsFirst(xs[1..]);
      k := k' + 1;
    }
  }
}
