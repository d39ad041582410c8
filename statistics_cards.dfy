/** The five summary cards of src/components/StatisticsCards.jsx, derived
    from the per-status counts the statistics endpoint reports. */
module StatisticsCards {
  import opened Js

  /** One card as the component lays it out. */
  datatype Card = Card(title: string, value: int, color: string, bgColor: string)

  /** `stats.key || 0`: a count the server did not report (or reported as
      `null` or 0) shows as 0. */
  function Count(stats: map<string, int>, key: string): (n: int)
    ensures key !in stats ==> n == 0
    ensures key in stats ==> n == stats[key]
  {
    match Lookup(stats, key)
    case None => 0
    case Some(v) => v
  }

  const Titles: seq<string> := ["Total Applications", "Applied", "Interviews", "Offers", "Rejected"]

  /** The `cards` array. */
  function Cards(stats: map<string, int>): seq<Card> {
    [
      Card("Total Applications", Count(stats, "total"), "#1976d2", "#e3f2fd"),
      Card("Applied", Count(stats, "applied"), "#ed6c02", "#fff4e6"),
      Card("Interviews",
           Count(stats, "interview_scheduled") + Count(stats, "technical_round") + Count(stats, "hr_round"),
           "#9c27b0", "#f3e5f5"),
      Card("Offers", Count(stats, "offer_received"), "#2e7d32", "#e8f5e9"),
      Card("Rejected", Count(stats, "rejected"), "#d32f2f", "#ffebee")
    ]
  }

  /** Whatever the counts, there are five cards with the same titles in
      the same order. */
  lemma CardsLayoutFixed(stats: map<string, int>)
    ensures |Cards(stats)| == |Titles|
    ensures forall i :: 0 <= i < |Titles| ==> Cards(stats)[i].title == Titles[i]
  {
  }

  /** Each card shows its own status's count, 0 when missing; the
      Interviews card adds the three interview stages. */
  lemma CardValues(stats: map<string, int>)
    ensures Cards(stats)[1].value == (if "applied" in stats then stats["applied"] else 0)
    ensures Cards(stats)[2].value ==
      Count(stats, "interview_scheduled") + Count(stats, "technical_round") + Count(stats, "hr_round")
    ensures Cards(stats)[3].value == (if "offer_received" in stats then stats["offer_received"] else 0)
    ensures Cards(stats)[4].value == (if "rejected" in stats then stats["rejected"] else 0)
  {
  }

  /** With no counts at all every card shows 0. */
  lemma EmptyStatsShowZero()
    ensures forall i :: 0 <= i < |Cards(map[])| ==> Cards(map[])[i].value == 0
  {
  }

  /** The total is shown as reported: changing any other count leaves it
      alone, so it is never recomputed from the per-status cards. */
  lemma TotalAsReported(stats: map<string, int>, key: string, n: int)
    requires key != "total"
    ensures Cards(stats[key := n])[0].value == Cards(stats)[0].value
    ensures Cards(stats)[0].value == (if "total" in stats then stats["total"] else 0)
  {
  }

  /** Non-negative counts give non-negative cards. */
  lemma CardsNonNegative(stats: map<string, int>)
    requires forall k :: k in stats ==> stats[k] >= 0
    ensures forall i :: 0 <= i < |Cards(stats)| ==> Cards(stats)[i].value >= 0
  {
  }
}
