/** The `DualHeatScore` badge: the total shown for a lead (engagement plus
    fit) and the colour band it is drawn in. The two SVG rings are geometry
    in floating point and are not modelled. */
module HeatScore {

  import opened Wrappers
  import opened Schema
  import opened Auth
  import Leads

  /** The three colour bands, coolest first. */
  datatype Band = Cold | Warm | Hot

  /** The Tailwind class of a band. */
  function BandClass(b: Band): string {
    match b
    case Cold => "text-red-500"
    case Warm => "text-amber-500"
    case Hot => "text-emerald-500"
  }

  /** Position of a band from coolest to hottest. */
  function Rank(b: Band): nat {
    match b
    case Cold => 0
    case Warm => 1
    case Hot => 2
  }

  /** The number in the middle of the badge. */
  function TotalScore(engagement: int, fit: int): int {
    engagement + fit
  }

  /** `getColor(score)`: hot from 80, warm from 50, cold below. */
  function ScoreBand(score: int): Band {
    if score >= 80 then Hot else if score >= 50 then Warm else Cold
  }

  /** The class applied to the total. */
  function ScoreClass(engagement: int, fit: int): string {
    BandClass(ScoreBand(TotalScore(engagement, fit)))
  }

  /** Each band is told apart by its class, so the class alone says which
      band a score fell in. */
  lemma BandClassesDistinct(a: Band, b: Band)
    ensures BandClass(a) == BandClass(b) <==> a == b
  {
    if a != b {
      assert BandClass(a)[5] != BandClass(b)[5];
    }
  }

  /** A higher score is never drawn in a cooler band; 50 and 80 are exactly
      where the band changes. */
  lemma BandIsMonotone(a: int, b: int)
    requires a <= b
    ensures Rank(ScoreBand(a)) <= Rank(ScoreBand(b))
    ensures ScoreBand(49) == Cold && ScoreBand(50) == Warm
    ensures ScoreBand(79) == Warm && ScoreBand(80) == Hot
  {
  }

  /** The badge total of a lead is its heat, the key `sort=heat` lists by. */
  lemma BadgeShowsHeat(l: Lead)
    ensures TotalScore(l.engagementScore, l.fitScore) == Leads.Heat(l)
  {
  }

  /** On a page listed hottest first, the badges run from hot to cold: no
      badge is drawn in a hotter band than the one before it. */
  lemma HeatPageBandsDescending(db: Db, user: UserPayload, q: Leads.ListQuery)
    requires Leads.ListLeads(db, user, q).Listed? && q.sort == Some("heat")
    ensures var d := Leads.ListLeads(db, user, q).data;
      forall i, j :: 0 <= i < j < |d| ==>
        Rank(ScoreBand(TotalScore(d[i].engagementScore, d[i].fitScore))) >=
        Rank(ScoreBand(TotalScore(d[j].engagementScore, d[j].fitScore)))
  {
    var d := Leads.ListLeads(db, user, q).data;
    Leads.HeatPageDescending(db, user, q);
    forall i, j | 0 <= i < j < |d|
      ensures Rank(ScoreBand(TotalScore(d[i].engagementScore, d[i].fitScore))) >=
              Rank(ScoreBand(TotalScore(d[j].engagementScore, d[j].fitScore)))
    {
      BadgeShowsHeat(d[i]);
      BadgeShowsHeat(d[j]);
      BandIsMonotone(Leads.Heat(d[j]), Leads.Heat(d[i]));
    }
  }

  /** The component's own examples: 30 + 20 shows 50; 45 + 45 is emerald,
      25 + 30 amber and 10 + 10 red. */
  lemma BadgeExamples()
    ensures TotalScore(30, 20) == 50
    ensures TotalScore(45, 45) == 90 && ScoreClass(45, 45) == "text-emerald-500"
    ensures TotalScore(25, 30) == 55 && ScoreClass(25, 30) == "text-amber-500"
    ensures TotalScore(10, 10) == 20 && ScoreClass(10, 10) == "text-red-500"
  {
  }
}
