/**
 * `fetchGitHubStats`: the statistics card. Every awaited request is an
 * input (`Responses`); the five DOM writes are the returned `Summary`.
 */
module GitHubStats {
  import opened Wrappers
  import opened Decimal
  import opened LinkHeader

  /** The listing requests at most this many pages (100 repositories each). */
  const MaxPages: nat := 10
  /** Only the first this-many repositories are probed for commits. */
  const MaxProbes: nat := 20

  /** One element of a repository listing page: the fields the script reads. */
  datatype Repo = Repo(name: string, stars: nat)

  /** A value of the contribution service's `total` object. */
  datatype JsonValue = Num(n: int) | Other

  /** One property of the `total` object, in property order. */
  datatype Entry = Entry(key: string, value: JsonValue)

  /** The user profile: `public_repos` when present (absent or null is `None`). */
  datatype Profile = Profile(publicRepos: Option<int>)

  /** A search result: `total_count` when present. */
  datatype Search = Search(totalCount: Option<int>)

  /** The response to one `HEAD` commit probe. */
  datatype Probe = Fail | NoHeader | Header(link: string)

  /** Everything the network answers during one run. */
  datatype Responses = Responses(
    user: Fetch<Profile>,
    pages: seq<Fetch<seq<Repo>>>,          // pages[p - 1] answers page p
    contributions: Fetch<Option<seq<Entry>>>,  // the `total` field, if any
    probes: seq<Probe>,                    // probes[i] answers the i-th repository
    pullRequests: Fetch<Search>,
    issues: Fetch<Search>)

  /**
   * What one text field shows: a literal, a number passed through
   * `toLocaleString()` followed by a fixed suffix, or a number converted
   * to text as it is.
   */
  datatype Shown = Lit(text: string) | Localized(n: int, suffix: string) | Raw(n: int)

  datatype Summary = Summary(
    commits: Shown, stars: Shown, pullRequests: Shown, issues: Shown, contributionText: Shown)

  /** The record shown whenever anything in the run throws. */
  const Fallback: Summary := Summary(
    Lit("500+"), Lit("50+"), Lit("25+"), Lit("20+"),
    Lit("1000+ contributions in the last year"))

  // ---------------------------------------------------------------------
  // Repository pagination
  // ---------------------------------------------------------------------

  /** The answer to the request for page `p` (1-based); a page past the input is empty. */
  function PageAt(pages: seq<Fetch<seq<Repo>>>, p: nat): Fetch<seq<Repo>>
    requires 1 <= p
  {
    if p <= |pages| then pages[p - 1] else Got([])
  }

  /** A page answer after which no further page is requested. */
  predicate EndsListing(f: Fetch<seq<Repo>>) {
    f.Threw? || f.value == []
  }

  /**
   * The first page, from `p` on, that ends the listing, or `MaxPages + 1`
   * when every page up to the ceiling has repositories.
   */
  function FirstStop(pages: seq<Fetch<seq<Repo>>>, p: nat): (k: nat)
    requires 1 <= p <= MaxPages + 1
    ensures p <= k <= MaxPages + 1
    ensures forall q :: p <= q < k ==> !EndsListing(PageAt(pages, q))
    ensures k <= MaxPages ==> EndsListing(PageAt(pages, k))
    decreases MaxPages + 1 - p
  {
    if p > MaxPages || EndsListing(PageAt(pages, p)) then p else FirstStop(pages, p + 1)
  }

  /** The repositories of pages 1..n, in order. */
  function ConcatPages(pages: seq<Fetch<seq<Repo>>>, n: nat): seq<Repo> {
    if n == 0 then []
    else ConcatPages(pages, n - 1) + (match PageAt(pages, n) case Got(rs) => rs case Threw => [])
  }

  /**
   * How many page requests the listing loop makes: every page before the
   * last one requested has repositories, and the last one ends the listing
   * unless it is page 10.
   */
  function RequestCount(pages: seq<Fetch<seq<Repo>>>): (n: nat)
    ensures 1 <= n <= MaxPages
    ensures forall q :: 1 <= q < n ==> !EndsListing(PageAt(pages, q))
    ensures n < MaxPages ==> EndsListing(PageAt(pages, n))
  {
    var k := FirstStop(pages, 1);
    if k <= MaxPages then k else MaxPages
  }

  /**
   * The outcome of the listing loop: the in-order concatenation of the
   * non-empty pages before the first empty one (or of the first ten
   * pages), unless a page request before that point throws.
   */
  function ListRepos(pages: seq<Fetch<seq<Repo>>>): (r: Fetch<seq<Repo>>)
    ensures r.Threw? <==> exists p :: 1 <= p <= MaxPages && PageAt(pages, p).Threw?
                                 && forall q :: 1 <= q < p ==> !EndsListing(PageAt(pages, q))
    ensures r.Got? ==> r.value == ConcatPages(pages, RequestCount(pages))
  {
    var k := FirstStop(pages, 1);
    if k <= MaxPages && PageAt(pages, k).Threw? then
      Threw
    else
      assert forall p :: 1 <= p <= MaxPages && PageAt(pages, p).Threw? ==> exists q :: 1 <= q < p && EndsListing(PageAt(pages, q)) by {
        forall p | 1 <= p <= MaxPages && PageAt(pages, p).Threw?
          ensures exists q :: 1 <= q < p && EndsListing(PageAt(pages, q))
        {
          assert EndsListing(PageAt(pages, p));
          assert k < p && EndsListing(PageAt(pages, k));
        }
      }
      assert k <= MaxPages ==> ConcatPages(pages, k) == ConcatPages(pages, k - 1) + [];
      Got(ConcatPages(pages, k - 1))
  }

  /** The `while (hasMore && page <= 10)` loop: returns the outcome and the number of requests. */
  method FetchAllRepos(pages: seq<Fetch<seq<Repo>>>) returns (r: Fetch<seq<Repo>>, requests: nat)
    ensures r == ListRepos(pages)
    ensures requests == RequestCount(pages)
  {
    var allRepos: seq<Repo> := [];
    var page: nat := 1;
    var hasMore := true;
    requests := 0;
    while hasMore && page <= MaxPages
      invariant 1 <= page <= MaxPages + 1
      invariant forall q :: 1 <= q < page ==> !EndsListing(PageAt(pages, q))
      invariant allRepos == ConcatPages(pages, page - 1)
      invariant hasMore ==> requests == page - 1
      invariant !hasMore ==> requests == page && page <= MaxPages && PageAt(pages, page) == Got([])
      decreases MaxPages + 1 - page, hasMore
    {
      requests := requests + 1;
      match PageAt(pages, page)
      case Threw =>
        assert FirstStop(pages, 1) == page;
        return Threw, requests;
      case Got(reposData) =>
        if |reposData| == 0 {
          hasMore := false;
        } else {
          allRepos := allRepos + reposData;
          page := page + 1;
        }
    }
    assert FirstStop(pages, 1) == (if hasMore then MaxPages + 1 else page);
    r := Got(allRepos);
  }

  /** Ten full pages end the loop without a request for page 11. */
  lemma FullTenthPage(pages: seq<Fetch<seq<Repo>>>)
    requires forall p :: 1 <= p <= MaxPages ==> !EndsListing(PageAt(pages, p))
    ensures RequestCount(pages) == MaxPages
    ensures ListRepos(pages) == Got(ConcatPages(pages, MaxPages))
  {
  }

  /**
   * A non-empty first page, however short, does not stop the loop: the
   * second page is requested, and an empty second page then ends it.
   */
  lemma SecondPageEndsListing(first: seq<Repo>, rest: seq<Fetch<seq<Repo>>>)
    requires first != []
    ensures RequestCount([Got(first), Got([])] + rest) == 2
    ensures ListRepos([Got(first), Got([])] + rest) == Got(first)
  {
    var pages := [Got(first), Got([])] + rest;
    assert PageAt(pages, 1) == Got(first) && PageAt(pages, 2) == Got([]);
    assert FirstStop(pages, 1) == FirstStop(pages, 2) == 2;
    assert ConcatPages(pages, 1) == ConcatPages(pages, 0) + first;
    assert [] + first == first;
  }

  lemma {:induction false} ConcatPagesLength(pages: seq<Fetch<seq<Repo>>>, n: nat, size: nat)
    requires forall p :: 1 <= p <= n && PageAt(pages, p).Got? ==> |PageAt(pages, p).value| <= size
    ensures |ConcatPages(pages, n)| <= n * size
  {
    if n > 0 {
      ConcatPagesLength(pages, n - 1, size);
      var page := match PageAt(pages, n) case Got(rs) => rs case Threw => [];
      assert |ConcatPages(pages, n)| == |ConcatPages(pages, n - 1)| + |page|;
      assert |page| <= size;
      assert (n - 1) * size + size == n * size;
    }
  }

  /** With pages of at most 100 repositories, at most 1000 repositories are listed. */
  lemma RepoCeiling(pages: seq<Fetch<seq<Repo>>>)
    requires forall p :: 1 <= p && PageAt(pages, p).Got? ==> |PageAt(pages, p).value| <= 100
    ensures ListRepos(pages).Got? ==> |ListRepos(pages).value| <= MaxPages * 100
  {
    var k := FirstStop(pages, 1);
    ConcatPagesLength(pages, k - 1, 100);
  }

  // ---------------------------------------------------------------------
  // Star total
  // ---------------------------------------------------------------------

  /** `allRepos.reduce((acc, repo) => acc + repo.stargazers_count, 0)`: every repository's stars count. */
  function SumStars(rs: seq<Repo>): (total: nat)
    ensures forall i :: 0 <= i < |rs| ==> rs[i].stars <= total
    ensures |rs| == 1 ==> total == rs[0].stars
  {
    if rs == [] then 0 else SumStars(rs[..|rs| - 1]) + rs[|rs| - 1].stars
  }

  lemma {:induction false} SumStarsAppend(a: seq<Repo>, b: seq<Repo>)
    ensures SumStars(a + b) == SumStars(a) + SumStars(b)
    decreases |b|
  {
    if b != [] {
      assert (a + b)[..|a + b| - 1] == a + b[..|b| - 1];
      assert (a + b)[|a + b| - 1] == b[|b| - 1];
      assert SumStars(a + b) == SumStars(a + b[..|b| - 1]) + b[|b| - 1].stars;
      SumStarsAppend(a, b[..|b| - 1]);
    } else {
      assert a + b == a;
    }
  }

  /** The stars of pages 1..n, page by page. */
  function PageStars(pages: seq<Fetch<seq<Repo>>>, n: nat): nat {
    if n == 0 then 0
    else PageStars(pages, n - 1) + (match PageAt(pages, n) case Got(rs) => SumStars(rs) case Threw => 0)
  }

  /** Summing over the accumulated list equals summing page by page. */
  lemma {:induction false} StarsOverPages(pages: seq<Fetch<seq<Repo>>>, n: nat)
    ensures SumStars(ConcatPages(pages, n)) == PageStars(pages, n)
  {
    if n > 0 {
      StarsOverPages(pages, n - 1);
      SumStarsAppend(ConcatPages(pages, n - 1),
        match PageAt(pages, n) case Got(rs) => rs case Threw => []);
    }
  }

  // ---------------------------------------------------------------------
  // Contribution total
  // ---------------------------------------------------------------------

  /** The sum of the numeric values among `entries`, others ignored. */
  function NumericSum(entries: seq<Entry>): int {
    if entries == [] then 0
    else
      var last := match entries[|entries| - 1].value case Num(n) => n case Other => 0;
      NumericSum(entries[..|entries| - 1]) + last
  }

  /** The `if (data.total) { Object.values(...).forEach(...) }` accumulation. */
  method ContributionTotal(total: Option<seq<Entry>>) returns (sum: int)
    ensures total.None? ==> sum == 0
    ensures total.Some? ==> sum == NumericSum(total.value)
  {
    sum := 0;
    if total.Some? {
      var entries := total.value;
      for i := 0 to |entries|
        invariant sum == NumericSum(entries[..i])
      {
        assert entries[..i + 1][..i] == entries[..i];
        match entries[i].value
        case Num(n) => sum := sum + n;
        case Other =>
      }
      assert entries[..|entries|] == entries;
    }
  }

  lemma {:induction false} NumericSumAppend(a: seq<Entry>, b: seq<Entry>)
    ensures NumericSum(a + b) == NumericSum(a) + NumericSum(b)
    decreases |b|
  {
    if b != [] {
      assert (a + b)[..|a + b| - 1] == a + b[..|b| - 1];
      assert (a + b)[|a + b| - 1] == b[|b| - 1];
      assert NumericSum(a + b) == NumericSum(a + b[..|b| - 1]) + NumericSum([b[|b| - 1]]);
      NumericSumAppend(a, b[..|b| - 1]);
    } else {
      assert a + b == a;
    }
  }

  /** A non-numeric entry, wherever it sits, changes nothing. */
  lemma OtherEntryIgnored(a: seq<Entry>, key: string, b: seq<Entry>)
    ensures NumericSum(a + [Entry(key, Other)] + b) == NumericSum(a + b)
  {
    NumericSumAppend(a + [Entry(key, Other)], b);
    NumericSumAppend(a, b);
    assert (a + [Entry(key, Other)])[..|a|] == a;
  }

  /** The numbers among `entries`, in order. */
  function Numbers(entries: seq<Entry>): seq<int> {
    if entries == [] then []
    else
      var last := match entries[|entries| - 1].value case Num(n) => [n] case Other => [];
      Numbers(entries[..|entries| - 1]) + last
  }

  function Total(xs: seq<int>): int {
    if xs == [] then 0 else xs[0] + Total(xs[1..])
  }

  lemma {:induction false} TotalAppend(a: seq<int>, b: seq<int>)
    ensures Total(a + b) == Total(a) + Total(b)
    decreases |a|
  {
    if a != [] {
      assert (a + b)[1..] == a[1..] + b;
      assert (a + b)[0] == a[0];
      assert Total(a + b) == a[0] + Total(a[1..] + b);
      TotalAppend(a[1..], b);
    } else {
      assert a + b == b;
    }
  }

  /** The accumulation is the plain sum of the numeric values and nothing else. */
  lemma {:induction false} NumericSumIsTotalOfNumbers(entries: seq<Entry>)
    ensures NumericSum(entries) == Total(Numbers(entries))
    decreases |entries|
  {
    if entries != [] {
      var init := entries[..|entries| - 1];
      NumericSumIsTotalOfNumbers(init);
      var last := match entries[|entries| - 1].value case Num(n) => [n] case Other => [];
      TotalAppend(Numbers(init), last);
    }
  }

  // ---------------------------------------------------------------------
  // Commit probes
  // ---------------------------------------------------------------------

  /** The probe answer for the i-th repository; a missing answer is a failure. */
  function ProbeAt(probes: seq<Probe>, i: nat): Probe {
    if i < |probes| then probes[i] else Fail
  }

  /**
   * What one probe adds: the page number of the `rel="last"` link when the
   * probe succeeded, its `Link` header is a non-empty string and the
   * pattern matches; 0 otherwise.
   */
  function ProbeValue(p: Probe): (v: nat)
    ensures v > 0 ==> p.Header? && p.link != "" && LastPage(p.link) == Some(v)
    ensures p.Header? && p.link != "" && LastPage(p.link).Some? ==> v == LastPage(p.link).value
  {
    match p
    case Header(link) =>
      if link == "" then 0
      else (match LastPage(link) case Some(n) => n case None => 0)
    case _ => 0
  }

  /** The sum of the first n probe values. */
  function ProbeSum(probes: seq<Probe>, n: nat): nat {
    if n == 0 then 0 else ProbeSum(probes, n - 1) + ProbeValue(ProbeAt(probes, n - 1))
  }

  /** The `for (const repo of allRepos.slice(0, 20))` loop with its per-probe `catch`. */
  method ProbeCommits(repos: seq<Repo>, probes: seq<Probe>) returns (totalCommits: nat)
    ensures totalCommits == ProbeSum(probes, ProbeLimit(repos))
  {
    totalCommits := 0;
    for i := 0 to ProbeLimit(repos)
      invariant totalCommits == ProbeSum(probes, i)
    {
      match ProbeAt(probes, i)
      case Header(linkHeader) =>
        if linkHeader != "" {
          match LastPage(linkHeader)
          case Some(n) => totalCommits := totalCommits + n;
          case None =>
        }
      case _ =>
    }
  }

  /**
   * A probe that fails (or finds nothing) loses only its own contribution:
   * every other probe is still counted.
   */
  lemma {:induction false} ProbeFailureIsLocal(probes: seq<Probe>, n: nat, i: nat)
    requires i < |probes|
    ensures ProbeSum(probes[i := Fail], n)
         == ProbeSum(probes, n) - (if i < n then ProbeValue(probes[i]) else 0)
  {
    if n > 0 {
      ProbeFailureIsLocal(probes, n - 1, i);
    }
  }

  /** Answers to probes past the n-th are never consulted. */
  lemma {:induction false} LaterProbesIgnored(probes: seq<Probe>, extra: seq<Probe>, n: nat)
    requires n <= |probes|
    ensures ProbeSum(probes + extra, n) == ProbeSum(probes, n)
  {
    if n > 0 {
      LaterProbesIgnored(probes, extra, n - 1);
    }
  }

  // ---------------------------------------------------------------------
  // Summary
  // ---------------------------------------------------------------------

  /** JavaScript truthiness of an optional number (absent, null and 0 are falsy). */
  predicate Truthy(x: Option<int>) {
    x.Some? && x.value != 0
  }

  /** A count shown by `toLocaleString()`, or "0" when falsy. */
  function CountText(x: Option<int>): (r: Shown)
    ensures Truthy(x) <==> r.Localized?
    ensures r.Localized? ==> r == Localized(x.value, "")
    ensures !r.Localized? ==> r == Lit("0")
  {
    if Truthy(x) then Localized(x.value, "") else Lit("0")
  }

  /** The five field choices of the success path. */
  function Summarize(publicRepos: Option<int>, stars: nat, contributions: int, commits: nat,
                     prs: Option<int>, issues: Option<int>): (r: Summary)
    ensures r.commits.Localized? <==> commits > 0
    ensures commits > 0 ==> r.commits == Localized(commits, "")
    ensures r.commits.Raw? <==> commits == 0 && Truthy(publicRepos)
    ensures r.commits.Raw? ==> r.commits.n == publicRepos.value
    ensures commits == 0 && !Truthy(publicRepos) ==> r.commits == Lit("0")
    ensures r.stars == Localized(stars, "")
    ensures r.pullRequests == CountText(prs) && r.issues == CountText(issues)
    ensures contributions > 0 <==> r.contributionText.Localized?
    ensures r.contributionText.Localized?
        ==> r.contributionText == Localized(contributions, " contributions in the last year")
    ensures !r.contributionText.Localized? ==> r.contributionText == Lit("Active contributor on GitHub")
  {
    Summary(
      if commits > 0 then Localized(commits, "")
      else if Truthy(publicRepos) then Raw(publicRepos.value) else Lit("0"),
      Localized(stars, ""),
      CountText(prs),
      CountText(issues),
      if contributions > 0 then Localized(contributions, " contributions in the last year")
      else Lit("Active contributor on GitHub"))
  }

  /** Some awaited request outside the per-probe `try` throws. */
  predicate Throws(net: Responses) {
    net.user.Threw? || ListRepos(net.pages).Threw? || net.contributions.Threw?
    || net.pullRequests.Threw? || net.issues.Threw?
  }

  /** The number of repositories probed. */
  function ProbeLimit(repos: seq<Repo>): (n: nat)
    ensures n <= MaxProbes && n <= |repos|
    ensures n == MaxProbes || n == |repos|
  {
    if |repos| < MaxProbes then |repos| else MaxProbes
  }

  /** The record a run that does not throw shows. */
  function Computed(net: Responses): Summary
    requires !Throws(net)
  {
    var repos := ListRepos(net.pages).value;
    var total := net.contributions.value;
    Summarize(net.user.value.publicRepos, SumStars(repos),
      if total.Some? then NumericSum(total.value) else 0,
      ProbeSum(net.probes, ProbeLimit(repos)),
      net.pullRequests.value.totalCount, net.issues.value.totalCount)
  }

  /** A computed record is never mistaken for the fallback record. */
  lemma ComputedIsNotFallback(net: Responses)
    requires !Throws(net)
    ensures Computed(net) != Fallback
  {
  }

  /** `fetchGitHubStats`: all-or-nothing, the fallback record exactly when something throws. */
  method FetchGitHubStats(net: Responses) returns (s: Summary)
    ensures s == Fallback <==> Throws(net)
    ensures !Throws(net) ==> s == Computed(net)
  {
    if net.user.Threw? {
      return Fallback;
    }
    var userData := net.user.value;
    var repos, _ := FetchAllRepos(net.pages);
    if repos.Threw? {
      return Fallback;
    }
    var allRepos := repos.value;
    var totalStars := SumStars(allRepos);
    if net.contributions.Threw? {
      return Fallback;
    }
    var totalContributions := ContributionTotal(net.contributions.value);
    var totalCommits := ProbeCommits(allRepos, net.probes);
    if net.pullRequests.Threw? || net.issues.Threw? {
      return Fallback;
    }
    s := Summarize(userData.publicRepos, totalStars, totalContributions, totalCommits,
      net.pullRequests.value.totalCount, net.issues.value.totalCount);
    ComputedIsNotFallback(net);
  }

  /**
   * A failing commit probe never turns the run into the fallback and never
   * changes any field but the commit count.
   */
  lemma ProbeFailureOnlyAffectsCommits(net: Responses, i: nat)
    requires i < |net.probes|
    ensures Throws(net.(probes := net.probes[i := Fail])) == Throws(net)
    ensures !Throws(net) ==>
      var before := Computed(net);
      var after := Computed(net.(probes := net.probes[i := Fail]));
      after.(commits := before.commits) == before
  {
  }
}
