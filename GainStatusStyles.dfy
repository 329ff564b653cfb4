/** The colour table of the three gain statuses and its lookup. */
module GainStatusStyles {
  import opened PortfolioTypes
  import Formatters

  /** `GAIN_STATUS_COLORS`: one Tailwind class string per status. */
  const GAIN_STATUS_COLORS: map<GainStatus, string> := map[
    Positive := "text-green-600 dark:text-green-300",
    Negative := "text-red-600 dark:text-red-400",
    Zero     := "text-gray-500 dark:text-gray-400"
  ]

  /** `getGainStatusColor`: the table entry of the status; every status has one. */
  function GetGainStatusColor(status: GainStatus): (c: string)
    ensures status in GAIN_STATUS_COLORS && c == GAIN_STATUS_COLORS[status]
  {
    assert status == Positive || status == Negative || status == Zero;
    GAIN_STATUS_COLORS[status]
  }

  /** The table entries the style tests pin down. */
  lemma GainStatusColorValues()
    ensures GetGainStatusColor(Positive) == "text-green-600 dark:text-green-300"
    ensures GetGainStatusColor(Negative) == "text-red-600 dark:text-red-400"
    ensures GetGainStatusColor(Zero) == "text-gray-500 dark:text-gray-400"
  {
  }

  /** Different statuses get different colours, so the colour identifies the status. */
  lemma GainStatusColorInjective(s: GainStatus, t: GainStatus)
    ensures GetGainStatusColor(s) == GetGainStatusColor(t) <==> s == t
  {
    if s != t {
      var cs, ct := GetGainStatusColor(s), GetGainStatusColor(t);
      assert cs[5] != ct[5] || cs[9] != ct[9];
    }
  }

  /**
   * The colour that getGainStatus returns inline is the table's colour for the
   * status it returns: the two tables agree for every amount.
   */
  lemma GainStatusTablesAgree(amount: Formatters.Num)
    ensures GetGainStatusColor(Formatters.GetGainStatus(amount).status)
            == Formatters.GetGainStatus(amount).colorClass
  {
  }
}
