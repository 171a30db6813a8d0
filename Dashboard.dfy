/** The dashboard of `src/pages/Dashboard.tsx`: today's calls and messages,
    the engagement rate, the next five contacts and the weekly activity
    bars. The clock (`new Date()`) is the parameter `now`. */
module Dashboard {
  import opened Wrappers
  import opened Seqs
  import opened LeadTypes
  import opened Selectors

  /** `leads.flatMap(l => l.interacoes)`. */
  function AllInteracoes(leads: seq<LeadWithInteracoes>): seq<Interacao>
  {
    FlatMap((l: LeadWithInteracoes) => l.interacoes, leads)
  }

  /** Realised on the same calendar day as `now`. */
  predicate RealizedOn(day: int, i: Interacao)
  {
    i.dataRealizada.Some? && Day(i.dataRealizada.value) == day
  }

  function RealizedOnDay(day: int): Interacao -> bool
  {
    (i: Interacao) => RealizedOn(day, i)
  }

  /** `interacoesHoje`. */
  function InteracoesHoje(leads: seq<LeadWithInteracoes>, now: int): seq<Interacao>
  {
    Filter(RealizedOnDay(Day(now)), AllInteracoes(leads))
  }

  /** `ligacoesHoje` / `mensagensHoje`. */
  function HojeCount(leads: seq<LeadWithInteracoes>, now: int, t: Tipo): nat
  {
    Count(OfTipo(t), InteracoesHoje(leads, now))
  }

  /** Every interaction realised today is a call or a message: the two
      counts add up to today's total. */
  lemma HojeCountsAddUp(leads: seq<LeadWithInteracoes>, now: int)
    ensures HojeCount(leads, now, Ligacao) + HojeCount(leads, now, Mensagem) == |InteracoesHoje(leads, now)|
  {
    CountComplement(OfTipo(Ligacao), OfTipo(Mensagem), InteracoesHoje(leads, now));
  }

  /** A counted interaction belongs to a loaded lead and was realised today. */
  lemma HojeMember(leads: seq<LeadWithInteracoes>, now: int, i: Interacao)
    ensures i in InteracoesHoje(leads, now) <==>
      (exists l :: l in leads && i in l.interacoes) && RealizedOn(Day(now), i)
  {
    FlatMapMember((l: LeadWithInteracoes) => l.interacoes, leads, i);
  }

  // ----- engagement rate -----

  /** `Math.round(engaged / total * 100)`, 0 without interactions, in exact
      arithmetic: the nearest whole percentage, halves rounded up. */
  function EngagementRate(xs: seq<Interacao>): nat
  {
    if |xs| > 0 then Percent(Count((i: Interacao) => i.engajou, xs), |xs|) else 0
  }

  /** `Math.round(e / n * 100)` in exact arithmetic. */
  function Percent(e: nat, n: nat): nat
    requires n > 0
  {
    (200 * e + n) / (2 * n)
  }

  /** Floor division brackets its dividend. */
  lemma DivBounds(a: int, b: int)
    requires b > 0
    ensures (a / b) * b <= a < (a / b) * b + b
  {
  }

  lemma MulMono(a: int, b: int, c: int)
    requires a >= b && c >= 0
    ensures a * c >= b * c
  {
  }

  /** The rounded percentage of `e` out of `n`: at most 100, the nearest
      whole number to 100e/n (halves up), 0 for none and 100 for all. */
  lemma RoundedPercent(e: int, n: int)
    requires 0 <= e <= n && 0 < n
    ensures Percent(e, n) <= 100
    ensures -n <= 2 * (100 * e - Percent(e, n) * n) < n
    ensures e == 0 ==> Percent(e, n) == 0
    ensures e == n ==> Percent(e, n) == 100
  {
    var r := (200 * e + n) / (2 * n);
    DivBounds(200 * e + n, 2 * n);
    assert r * (2 * n) == 2 * (r * n);
    if r > 100 {
      MulMono(r, 101, 2 * n);
    }
    if e == n {
      if r < 100 {
        MulMono(99, r, 2 * n);
      }
    }
    if e == 0 && r > 0 {
      MulMono(r, 1, 2 * n);
    }
  }

  /** The rate lies in [0, 100], is the nearest whole percentage of engaged
      interactions, is 0 when none engaged and 100 when all did. */
  lemma EngagementRateSpec(xs: seq<Interacao>)
    ensures EngagementRate(xs) <= 100
    ensures |xs| > 0 ==>
      var e := Count((i: Interacao) => i.engajou, xs);
      -|xs| <= 2 * (100 * e - EngagementRate(xs) * |xs|) < |xs|
    ensures Count((i: Interacao) => i.engajou, xs) == 0 ==> EngagementRate(xs) == 0
    ensures |xs| > 0 && Count((i: Interacao) => i.engajou, xs) == |xs| ==> EngagementRate(xs) == 100
  {
    if |xs| > 0 {
      RoundedPercent(Count((i: Interacao) => i.engajou, xs), |xs|);
    }
  }

  // ----- next contacts -----

  const NEXT_CAP: nat := 5

  /** `(a, b) => a.data_prevista - b.data_prevista` as an ascending key. */
  function Planned(e: Entry): int
  {
    PlannedAt(e.interacao)
  }

  /** `proximosContatos`: pending interactions with their lead, earliest
      first, at most five. */
  function Proximos(leads: seq<LeadWithInteracoes>): seq<Entry>
  {
    Take(SortBy(Entries(Pending, leads), Planned), NEXT_CAP)
  }

  /** At most five pending entries of loaded leads, earliest first, as
      many as there are up to five. */
  lemma ProximosSpec(leads: seq<LeadWithInteracoes>)
    ensures |Proximos(leads)| == if |Entries(Pending, leads)| < NEXT_CAP then |Entries(Pending, leads)| else NEXT_CAP
    ensures SortedBy(Proximos(leads), Planned)
    ensures forall e :: e in Proximos(leads) ==> e.lead in leads && e.interacao in e.lead.interacoes && Pending(e.interacao)
  {
    var all := Entries(Pending, leads);
    SortByProps(all, Planned);
    var r := Proximos(leads);
    forall e | e in r
      ensures e.lead in leads && e.interacao in e.lead.interacoes && Pending(e.interacao)
    {
      SortByMember(all, Planned, e);
      EntriesMember(Pending, leads, e);
    }
  }

  /** No pending entry left out is planned earlier than one shown. */
  lemma ProximosAreEarliest(leads: seq<LeadWithInteracoes>, e: Entry, x: Entry)
    requires e in Entries(Pending, leads) && e !in Proximos(leads) && x in Proximos(leads)
    ensures Planned(x) <= Planned(e)
  {
    var all := Entries(Pending, leads);
    var sorted := SortBy(all, Planned);
    SortByProps(all, Planned);
    SortByMember(all, Planned, e);
    var r := Proximos(leads);
    var j :| 0 <= j < |sorted| && sorted[j] == e;
    var k :| 0 <= k < |r| && r[k] == x;
    assert r == sorted[..|r|];
    assert j >= |r|;
  }

  // ----- weekly activity -----

  /** The day number of the Monday starting the week of `now`
      (`startOfWeek(now, { weekStartsOn: 1 })`); day 0 was a Thursday. */
  function WeekStart(now: int): int
  {
    Day(now) - (Day(now) + 3) % 7
  }

  /** `atividadeSemanal`: for each day of the week, the number of
      interactions realised on it. */
  function Weekly(leads: seq<LeadWithInteracoes>, now: int): (r: seq<int>)
    ensures |r| == 7
    ensures forall k :: 0 <= k < 7 ==> r[k] == DayCount(leads, WeekStart(now) + k)
  {
    seq(7, k requires 0 <= k < 7 => DayCount(leads, WeekStart(now) + k))
  }

  /** The interactions realised on one day. */
  function DayCount(leads: seq<LeadWithInteracoes>, day: int): nat
  {
    Count(RealizedOnDay(day), AllInteracoes(leads))
  }

  /** The week starts on a Monday no later than today and ends on the Sunday
      after it; today's bar counts exactly today's interactions. */
  lemma WeeklySpec(leads: seq<LeadWithInteracoes>, now: int)
    ensures (WeekStart(now) + 3) % 7 == 0
    ensures WeekStart(now) <= Day(now) < WeekStart(now) + 7
    ensures Weekly(leads, now)[Day(now) - WeekStart(now)] == |InteracoesHoje(leads, now)|
  {
    WeekStartMonday(now);
    var k := Day(now) - WeekStart(now);
    var w := Weekly(leads, now);
    assert w[k] == DayCount(leads, WeekStart(now) + k);
    assert WeekStart(now) + k == Day(now);
  }

  /** The week of `now` starts on a Monday, at most six days back. */
  lemma WeekStartMonday(now: int)
    ensures (WeekStart(now) + 3) % 7 == 0
    ensures WeekStart(now) <= Day(now) < WeekStart(now) + 7
  {
    var d := Day(now);
    var q := (d + 3) / 7;
    assert d + 3 == 7 * q + (d + 3) % 7;
    assert d - (d + 3) % 7 + 3 == 7 * q;
  }

  /** `maxAtividade`: the highest bar, and at least 1. */
  function MaxAtividade(counts: seq<int>): (m: int)
    ensures m >= 1
    ensures forall k :: 0 <= k < |counts| ==> counts[k] <= m
    ensures m == 1 || m in counts
  {
    if counts == [] then 1
    else
      var rest := MaxAtividade(counts[1..]);
      if counts[0] >= rest then counts[0] else rest
  }

  /** The bar height, in percent (`Math.max(count / max * 100, 10)`). */
  function BarHeight(count: int, max: int): real
    requires count >= 0 && max >= 1
  {
    var h := (count as real) / (max as real) * 100.0;
    if h >= 10.0 then h else 10.0
  }

  /** A share of at most the whole is at most 100%. */
  lemma ShareAtMostWhole(c: real, m: real)
    requires 0.0 <= c <= m && m > 0.0
    ensures 0.0 <= c / m * 100.0 <= 100.0
    ensures c == m ==> c / m * 100.0 == 100.0
  {
    assert (c / m) * m == c;
  }

  /** Every bar is between 10% and 100% high, and the highest is 100%. */
  lemma BarHeightSpec(counts: seq<int>, k: nat)
    requires k < |counts| && counts[k] >= 0
    ensures 10.0 <= BarHeight(counts[k], MaxAtividade(counts)) <= 100.0
    ensures counts[k] == MaxAtividade(counts) ==> BarHeight(counts[k], MaxAtividade(counts)) == 100.0
  {
    var m := MaxAtividade(counts);
    ShareAtMostWhole(counts[k] as real, m as real);
  }
}
