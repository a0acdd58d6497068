/**
 * `highlightNavigation`: on scroll, the navigation link of the section
 * under the scroll position becomes the only active link.
 */
module Navigation {
  import opened Wrappers

  /** A `section[id]`: its id, `offsetTop` and `offsetHeight` in whole pixels. */
  datatype Section = Section(id: string, top: int, height: nat)

  /** The scroll position lies in the section's band `(top - 100, top - 100 + height]`. */
  predicate InBand(scrollY: int, s: Section) {
    s.top - 100 < scrollY <= s.top - 100 + s.height
  }

  /** A section that is in band and has a link: the handler activates its link. */
  predicate Matches(scrollY: int, links: set<string>, s: Section) {
    InBand(scrollY, s) && s.id in links
  }

  /** Section `k` matches and no section after it does. */
  predicate IsLastMatch(scrollY: int, links: set<string>, sections: seq<Section>, k: nat) {
    k < |sections| && Matches(scrollY, links, sections[k])
    && forall m :: k < m < |sections| ==> !Matches(scrollY, links, sections[m])
  }

  /**
   * The last section, in document order, that is in band and has a link:
   * a later match overwrites an earlier one.
   */
  function LastMatch(scrollY: int, sections: seq<Section>, links: set<string>): (r: Option<string>)
    ensures r.Some? ==> r.value in links
    ensures r.Some? ==> exists k: nat :: IsLastMatch(scrollY, links, sections, k) && sections[k].id == r.value
    ensures r.None? <==> forall k :: 0 <= k < |sections| ==> !Matches(scrollY, links, sections[k])
  {
    if sections == [] then None
    else
      var n := |sections|;
      var s := sections[n - 1];
      if Matches(scrollY, links, s) then
        assert IsLastMatch(scrollY, links, sections, n - 1);
        Some(s.id)
      else
        var init := sections[..n - 1];
        var r := LastMatch(scrollY, init, links);
        assert r.Some? ==> exists k: nat :: IsLastMatch(scrollY, links, sections, k) && sections[k].id == r.value by {
          if r.Some? {
            var k: nat :| IsLastMatch(scrollY, links, init, k) && init[k].id == r.value;
            assert forall m :: k < m < n - 1 ==> sections[m] == init[m];
            assert IsLastMatch(scrollY, links, sections, k);
          }
        }
        r
  }

  /** Sections laid end to end down the page. */
  predicate Contiguous(sections: seq<Section>) {
    forall k :: 0 <= k < |sections| - 1 ==> sections[k + 1].top == sections[k].top + sections[k].height
  }

  lemma {:induction false} TopsIncrease(sections: seq<Section>, j: nat, k: nat)
    requires Contiguous(sections) && j < k < |sections|
    ensures sections[j].top + sections[j].height <= sections[k].top
    decreases k - j
  {
    if j + 1 < k {
      TopsIncrease(sections, j + 1, k);
    }
  }

  /** With sections laid end to end, at most one section is in band. */
  lemma AtMostOneInBand(scrollY: int, sections: seq<Section>, j: nat, k: nat)
    requires Contiguous(sections) && j < k < |sections|
    ensures !(InBand(scrollY, sections[j]) && InBand(scrollY, sections[k]))
  {
    TopsIncrease(sections, j, k);
  }

  /**
   * With sections laid end to end, the active link is that of the one
   * section in band: document order no longer matters.
   */
  lemma {:induction false} ContiguousMatch(scrollY: int, sections: seq<Section>, links: set<string>, k: nat)
    requires Contiguous(sections) && k < |sections|
    requires InBand(scrollY, sections[k]) && sections[k].id in links
    ensures LastMatch(scrollY, sections, links) == Some(sections[k].id)
    decreases |sections|
  {
    var n := |sections|;
    if k < n - 1 {
      AtMostOneInBand(scrollY, sections, k, n - 1);
      var init := sections[..n - 1];
      assert Contiguous(init) by {
        assert forall j :: 0 <= j < n - 1 ==> init[j] == sections[j];
      }
      ContiguousMatch(scrollY, init, links, k);
      SkipLast(scrollY, sections, links);
    } else {
      assert Matches(scrollY, links, sections[n - 1]);
    }
  }

  /** A last section that does not match leaves the choice to the sections before it. */
  lemma SkipLast(scrollY: int, sections: seq<Section>, links: set<string>)
    requires |sections| > 0 && !Matches(scrollY, links, sections[|sections| - 1])
    ensures LastMatch(scrollY, sections, links) == LastMatch(scrollY, sections[..|sections| - 1], links)
  {
  }

  /** The navigation links and which of them carry the `active` class. */
  class NavMenu {
    /** Ids of the sections that have a `.nav-link[href="#id"]`. */
    const links: set<string>
    var active: set<string>

    ghost predicate Valid()
      reads this
    {
      active <= links
    }

    constructor (links: set<string>, active: set<string>)
      requires active <= links
      ensures Valid() && this.links == links && this.active == active
    {
      this.links := links;
      this.active := active;
    }

    /** The scroll handler: the last matching section's link alone is active; no match changes nothing. */
    method Highlight(scrollY: int, sections: seq<Section>)
      requires Valid()
      modifies this
      ensures Valid()
      ensures match LastMatch(scrollY, sections, links)
        case Some(id) => active == {id}
        case None => active == old(active)
    {
      for k := 0 to |sections|
        invariant Valid()
        invariant match LastMatch(scrollY, sections[..k], links)
          case Some(id) => active == {id}
          case None => active == old(active)
      {
        assert sections[..k + 1][..k] == sections[..k];
        var section := sections[k];
        if Matches(scrollY, links, section) {
          active := {};
          active := active + {section.id};
        }
      }
      assert sections[..|sections|] == sections;
    }
  }
}
