/**
 * The contribution-year dropdown (`initializeYearSelector`) and its change
 * handler (`updateContributionChart`): the option list, the chart image
 * address and the count text for the selected year.
 */
module ContributionChart {
  import opened Wrappers
  import opened Decimal
  import opened GitHubStats

  const Username: string := "Shahriar-Ferdoush"
  const ChartHost: string := "https://ghchart.rshah.org/"
  const ContributionsApi: string := "https://github-contributions-api.jogruber.de/v4/"
  /** The oldest year offered. */
  const StartYear: nat := 2015

  // ---------------------------------------------------------------------
  // Year options
  // ---------------------------------------------------------------------

  /** One `<option>` of the dropdown. */
  datatype YearOption = LastYear | Year(year: nat)

  /** The option's `value` attribute, which becomes the selection string. */
  function OptionValue(o: YearOption): (v: string)
    ensures o.LastYear? <==> v == "last"
  {
    match o
    case LastYear => "last"
    case Year(y) => Digits(y)
  }

  /** The option list: "last" first, then every year from `currentYear` down to 2015. */
  method YearOptions(currentYear: int) returns (options: seq<YearOption>)
    ensures |options| == 1 + (if currentYear < StartYear then 0 else currentYear - StartYear + 1)
    ensures options[0] == LastYear
    ensures forall k :: 1 <= k < |options| ==> options[k] == Year(currentYear - (k - 1))
    ensures forall y: nat :: StartYear <= y <= currentYear <==> Year(y) in options
  {
    options := [LastYear];
    var year := currentYear;
    while year >= StartYear
      invariant year <= currentYear
      invariant year >= StartYear - 1 || year == currentYear
      invariant |options| == 1 + (currentYear - year)
      invariant options[0] == LastYear
      invariant forall k :: 1 <= k < |options| ==> options[k] == Year(currentYear - (k - 1))
      decreases year
    {
      options := options + [Year(year)];
      year := year - 1;
    }
    forall y: nat | Year(y) in options ensures StartYear <= y <= currentYear {
      var k :| 0 <= k < |options| && options[k] == Year(y);
    }
    forall y: nat | StartYear <= y <= currentYear ensures Year(y) in options {
      assert options[currentYear - y + 1] == Year(y);
    }
  }

  // ---------------------------------------------------------------------
  // Chart address
  // ---------------------------------------------------------------------

  predicate IsHexDigit(c: char) {
    '0' <= c <= '9' || 'a' <= c <= 'f'
  }

  /** The chart colour for the page's theme: a six-digit hex colour, "0077ed" exactly for "dark". */
  function ChartColor(theme: string): (c: string)
    ensures |c| == 6 && c[0] == '0' && forall k :: 0 <= k < |c| ==> IsHexDigit(c[k])
    ensures theme == "dark" <==> c == "0077ed"
    ensures theme != "dark" ==> c == "0071e3"
  {
    if theme == "dark" then "0077ed" else "0071e3"
  }

  /** `t` is the end of `s`. */
  predicate EndsWith(s: string, t: string) {
    |t| <= |s| && s[|s| - |t|..] == t
  }

  /**
   * The image address: the year segment only for an explicit year, then the
   * theme colour, the user and a cache-busting timestamp.
   */
  function ChartSource(selectedYear: string, theme: string, timestamp: nat): (src: string)
    ensures |src| > |ChartHost| && src[..|ChartHost|] == ChartHost
    ensures EndsWith(src, ChartColor(theme) + "/" + Username + "?t=" + Digits(timestamp))
    ensures |src| == |ChartHost| + (if selectedYear == "last" then 0 else |selectedYear| + 1)
                     + |ChartColor(theme) + "/" + Username + "?t=" + Digits(timestamp)|
  {
    var head := if selectedYear == "last" then ChartHost else ChartHost + selectedYear + "/";
    var tail := ChartColor(theme) + "/" + Username + "?t=" + Digits(timestamp);
    assert (head + tail)[..|ChartHost|] == head[..|ChartHost|];
    assert (head + tail)[|head + tail| - |tail|..] == tail;
    head + tail
  }

  /** The address path starts with the segment `year/`. */
  predicate HasYearSegment(src: string, year: string) {
    |ChartHost| + |year| + 1 <= |src| && src[|ChartHost|..|ChartHost| + |year| + 1] == year + "/"
  }

  /** The selected year appears as the first path segment exactly when it is not "last". */
  lemma YearSegmentUnlessLast(selectedYear: string, theme: string, timestamp: nat)
    ensures HasYearSegment(ChartSource(selectedYear, theme, timestamp), selectedYear)
        <==> selectedYear != "last"
  {
    var src := ChartSource(selectedYear, theme, timestamp);
    var h := |ChartHost|;
    if selectedYear == "last" {
      assert src[h] == ChartColor(theme)[0] == '0';
      assert (selectedYear + "/")[0] == 'l';
      assert |selectedYear + "/"| == 5;
      if h + 5 <= |src| {
        assert src[h..h + 5][0] == src[h];
      }
    } else {
      var head := ChartHost + selectedYear + "/";
      assert src[..|head|] == head;
      assert src[h..h + |selectedYear| + 1] == head[h..];
    }
  }

  /** The contribution request's `y` parameter: the selection itself, "last" included. */
  function YearParam(selectedYear: string): (y: string)
    ensures y == selectedYear
  {
    if selectedYear == "last" then "last" else selectedYear
  }

  /** The address of the contribution request: the selection, "last" included, is the `y` parameter. */
  function ContributionsUrl(selectedYear: string): (u: string)
    ensures |ContributionsApi + Username| <= |u| && u[..|ContributionsApi + Username|] == ContributionsApi + Username
    ensures EndsWith(u, "?y=" + selectedYear)
    ensures |u| == |ContributionsApi + Username| + |"?y="| + |selectedYear|
  {
    var u := ContributionsApi + Username + "?y=" + YearParam(selectedYear);
    assert u == (ContributionsApi + Username) + ("?y=" + selectedYear);
    u
  }

  // ---------------------------------------------------------------------
  // Count text
  // ---------------------------------------------------------------------

  /** How the selected year is named in the text: verbatim, except "last". */
  function YearLabel(selectedYear: string): (l: string)
    ensures l == selectedYear <==> selectedYear != "last"
    ensures selectedYear == "last" ==> l == "the last year"
  {
    if selectedYear == "last" then "the last year" else selectedYear
  }

  /**
   * The count text for the selected year, given the summed contributions or
   * the failure of the request: a count appears exactly when the sum is
   * positive; otherwise the zero-count text or, after a failure, the
   * fallback text, each naming the selected year.
   */
  function YearText(selectedYear: string, count: Fetch<int>): (r: Shown)
    ensures r.Localized? <==> count.Got? && count.value > 0
    ensures r.Localized? ==> r.n == count.value
    ensures r.Localized? ==> r.suffix == " contributions in " + YearLabel(selectedYear)
    ensures count.Got? && count.value <= 0 ==> r == Lit("No contributions in " + YearLabel(selectedYear))
    ensures count.Threw? ==> r == Lit("Active contributor in " + YearLabel(selectedYear))
  {
    var yearText := YearLabel(selectedYear);
    match count
    case Threw => Lit("Active contributor in " + yearText)
    case Got(n) =>
      if n > 0 then Localized(n, " contributions in " + yearText)
      else Lit("No contributions in " + yearText)
  }

  /** What the contribution request yields: the sum of the numeric `total` values, or the failure. */
  function YearCount(response: Fetch<Option<seq<Entry>>>): Fetch<int> {
    match response
    case Threw => Threw
    case Got(total) => Got(if total.Some? then NumericSum(total.value) else 0)
  }

  /**
   * `updateContributionChart` once the dropdown and chart exist: the image
   * address, the contribution request and the count text.
   */
  method UpdateContributionChart(selectedYear: string, theme: string, timestamp: nat,
                                 response: Fetch<Option<seq<Entry>>>)
    returns (src: string, request: string, text: Shown)
    ensures src == ChartSource(selectedYear, theme, timestamp)
    ensures request == ContributionsUrl(selectedYear)
    ensures text == YearText(selectedYear, YearCount(response))
  {
    src := ChartSource(selectedYear, theme, timestamp);
    request := ContributionsUrl(selectedYear);
    match response
    case Threw =>
      text := YearText(selectedYear, Threw);
    case Got(total) =>
      var totalContributions := ContributionTotal(total);
      text := YearText(selectedYear, Got(totalContributions));
  }

  /** Every offered option is labelled by its own year, and only "last" by "the last year". */
  lemma OptionLabels(o: YearOption, theme: string, timestamp: nat)
    ensures o.LastYear? ==> YearLabel(OptionValue(o)) == "the last year"
    ensures o.Year? ==> YearLabel(OptionValue(o)) == Digits(o.year)
    ensures HasYearSegment(ChartSource(OptionValue(o), theme, timestamp), OptionValue(o)) <==> o.Year?
  {
    YearSegmentUnlessLast(OptionValue(o), theme, timestamp);
  }
}
