/**
  The page-scroll handler of script.js: the scroll-spy that highlights the
  navigation link of the section being read, the sticky header, and the
  closing of the mobile menu.

  Pixel quantities are integers: `offsetTop` and `offsetHeight` are
  whole pixels in the DOM; `scrollY` is taken at whole pixels too.
*/
module Navigation {
  import opened Wrappers
  import opened Sequences

  /** A section starts counting as "in view" this many pixels before its top. */
  const SpyOffset: int := 150
  /** The header turns sticky once the page is scrolled further than this. */
  const StickyThreshold: int := 100

  /** What the handler reads of one `<section>`: its layout and its `id` attribute. */
  datatype Section = Section(offsetTop: int, height: int, id: Option<string>)

  // ---------------------------------------------------------------------------
  // Specification
  // ---------------------------------------------------------------------------

  /** The scroll-spy interval test for one section. */
  predicate InView(top: int, sec: Section)
  {
    var offset := sec.offsetTop - SpyOffset;
    offset <= top < offset + sec.height
  }

  /** The header is sticky exactly when the page is scrolled past the threshold. */
  predicate Sticky(top: int)
  {
    top > StickyThreshold
  }

  /**
    The `href` the handler looks for: `#` followed by the section's id.
    A section without an id attribute yields `null`, which the template
    string spells out.
  */
  function Href(id: Option<string>): (h: string)
    ensures |h| > 0 && h[0] == '#'
    ensures id.Some? ==> h[1..] == id.value
    ensures id.None? ==> h == "#null"
  {
    "#" + (if id.Some? then id.value else "null")
  }

  /**
    A character that can sit inside the selector's double-quoted `href`
    value without ending it (`"`), starting an escape (`\`) or breaking
    the string (a line break).
  */
  predicate PlainChar(c: char)
  {
    c != '"' && c != '\\' && c != '\n' && c != '\r' && c != '\U{000C}'
  }

  /** The selector built from this id is a plain attribute match on `Href(id)`. */
  predicate SelectorSafe(id: Option<string>)
  {
    id.None? || forall k :: 0 <= k < |id.value| ==> PlainChar(id.value[k])
  }

  /** What `querySelector` gives back: the matched link, or a thrown `SyntaxError`. */
  datatype Lookup = Match(index: Option<nat>) | SyntaxError

  /**
    `querySelector` for the navigation link of a section. A plain id
    selects the first link with that `href`; any other id is taken to
    make the selector invalid, so the call throws.
  */
  function QuerySelector(links: seq<string>, id: Option<string>): (r: Lookup)
    ensures r.SyntaxError? <==> !SelectorSafe(id)
    ensures r.Match? ==> r.index == IndexOf(links, Href(id))
  {
    if SelectorSafe(id) then Match(IndexOf(links, Href(id))) else SyntaxError
  }

  /** Every link cleared, then the one at `index` (if any) marked active. */
  function Mark(n: nat, index: Option<nat>): (flags: seq<bool>)
    ensures |flags| == n
    ensures forall k :: 0 <= k < n ==> (flags[k] <==> index == Some(k))
  {
    seq(n, k => index == Some(k))
  }

  /**
    Where the section loop stands: the link flags, and whether a thrown
    selector error has aborted the handler.
  */
  datatype Scan = Scan(flags: seq<bool>, thrown: bool)

  /**
    One turn of the section loop. A section in view clears every link,
    then marks its own link, or throws and ends the handler.
  */
  function Visit(links: seq<string>, scan: Scan, top: int, sec: Section): Scan
  {
    if scan.thrown || !InView(top, sec) then scan
    else match QuerySelector(links, sec.id)
      case Match(index) => Scan(Mark(|links|, index), false)
      case SyntaxError => Scan(Mark(|links|, None), true)
  }

  /** The loop's state after it has looked at `secs`, in document order. */
  function Spied(links: seq<string>, active: seq<bool>, top: int, secs: seq<Section>): Scan
  {
    if secs == [] then Scan(active, false)
    else Visit(links, Spied(links, active, top, secs[..|secs| - 1]), top, secs[|secs| - 1])
  }

  /** The last section, in document order, that is in view. */
  function LastInView(top: int, secs: seq<Section>): (r: Option<nat>)
    ensures r.None? <==> forall k :: 0 <= k < |secs| ==> !InView(top, secs[k])
    ensures r.Some? ==> r.value < |secs| && InView(top, secs[r.value])
    ensures r.Some? ==> forall k :: r.value < k < |secs| ==> !InView(top, secs[k])
  {
    if secs == [] then None
    else if InView(top, secs[|secs| - 1]) then Some(|secs| - 1)
    else LastInView(top, secs[..|secs| - 1])
  }

  /** Every section in view has an id that makes a valid selector. */
  predicate SafeInView(top: int, secs: seq<Section>)
  {
    forall k :: 0 <= k < |secs| && InView(top, secs[k]) ==> SelectorSafe(secs[k].id)
  }

  /** Sections laid out one after the other, each with a positive height. */
  predicate Tiled(secs: seq<Section>)
  {
    forall k :: 0 <= k < |secs| - 1 ==>
      0 < secs[k].height && secs[k + 1].offsetTop == secs[k].offsetTop + secs[k].height
  }

  // ---------------------------------------------------------------------------
  // The handler
  // ---------------------------------------------------------------------------

  /**
    The header's state that the scroll handler touches: one `active` flag
    per navigation link, the header's `sticky` class and whether the
    mobile menu is open (`navbar.active` together with the `fa-xmark`
    icon, which the page always toggles and clears together).
  */
  class Header {
    /** The `href` of each `header nav a`, in document order. */
    const links: seq<string>
    var active: seq<bool>
    var sticky: bool
    var menuOpen: bool

    ghost predicate Valid()
      reads this
    {
      |active| == |links|
    }

    /**
      The elements looked up at load time. Their classes are whatever the
      page's markup gives them; the script sets none.
    */
    constructor (hrefs: seq<string>, initialActive: seq<bool>, initialSticky: bool, initialMenuOpen: bool)
      requires |initialActive| == |hrefs|
      ensures Valid() && links == hrefs
      ensures active == initialActive && sticky == initialSticky && menuOpen == initialMenuOpen
    {
      links := hrefs;
      active := initialActive;
      sticky := initialSticky;
      menuOpen := initialMenuOpen;
    }

    /** The inner loop over the links: every navigation link loses its `active` class. */
    method ClearLinks()
      requires Valid()
      modifies this`active
      ensures Valid() && active == Mark(|links|, None)
    {
      for m := 0 to |links|
        invariant |active| == |links|
        invariant forall k :: 0 <= k < m ==> !active[k]
      {
        active := active[m := false];
      }
    }

    /**
      The `scroll` listener. Each section in view clears every link and
      marks its own; then `sticky` follows the scroll position and the
      menu closes. A selector error thrown for a section in view ends the
      listener at once: the links stay cleared and the header is untouched.
    */
    method OnScroll(top: int, sections: seq<Section>)
      requires Valid()
      modifies this
      ensures Valid()
      ensures active == Spied(links, old(active), top, sections).flags
      ensures Spied(links, old(active), top, sections).thrown ==>
        sticky == old(sticky) && menuOpen == old(menuOpen)
      ensures !Spied(links, old(active), top, sections).thrown ==>
        sticky == Sticky(top) && !menuOpen
    {
      for i := 0 to |sections|
        invariant Valid()
        invariant Spied(links, old(active), top, sections[..i]) == Scan(active, false)
        invariant sticky == old(sticky) && menuOpen == old(menuOpen)
      {
        var sec := sections[i];
        assert sections[..i + 1][..i] == sections[..i];
        if InView(top, sec) {
          ClearLinks();
          var found := QuerySelector(links, sec.id);
          if found.SyntaxError? {
            ThrownPersists(links, old(active), top, sections, i + 1);
            return;
          }
          if found.index.Some? {
            active := active[found.index.value := true];
          }
          assert active == Mark(|links|, found.index);
        }
      }
      assert sections[..|sections|] == sections;
      sticky := top > StickyThreshold;
      menuOpen := false;
    }
  }

  // ---------------------------------------------------------------------------
  // Properties
  // ---------------------------------------------------------------------------

  /** Once the handler has thrown, the remaining sections change nothing. */
  lemma {:induction false} ThrownPersists(links: seq<string>, active: seq<bool>, top: int, secs: seq<Section>, i: nat)
    requires i <= |secs|
    requires Spied(links, active, top, secs[..i]).thrown
    ensures Spied(links, active, top, secs) == Spied(links, active, top, secs[..i])
    decreases |secs|
  {
    if i == |secs| {
      assert secs[..i] == secs;
    } else {
      var init := secs[..|secs| - 1];
      assert init[..i] == secs[..i];
      ThrownPersists(links, active, top, init, i);
    }
  }

  /**
    The handler throws exactly when some section in view has an id that
    breaks the selector; it then leaves every link cleared.
  */
  lemma {:induction false} SpiedThrows(links: seq<string>, active: seq<bool>, top: int, secs: seq<Section>)
    ensures Spied(links, active, top, secs).thrown <==> !SafeInView(top, secs)
    ensures Spied(links, active, top, secs).thrown ==> Spied(links, active, top, secs).flags == Mark(|links|, None)
  {
    if secs != [] {
      var init := secs[..|secs| - 1];
      SpiedThrows(links, active, top, init);
      assert forall k :: 0 <= k < |init| ==> init[k] == secs[k];
      if !SafeInView(top, init) {
        var k :| 0 <= k < |init| && InView(top, init[k]) && !SelectorSafe(init[k].id);
        assert InView(top, secs[k]) && !SelectorSafe(secs[k].id);
      }
    }
  }

  /**
    With every id in view safe, only the last section in view matters: if
    there is none the flags are untouched, otherwise exactly the first
    link pointing at it is active.
  */
  lemma {:induction false} SpiedIsLast(links: seq<string>, active: seq<bool>, top: int, secs: seq<Section>)
    requires SafeInView(top, secs)
    ensures !Spied(links, active, top, secs).thrown
    ensures LastInView(top, secs).None? ==> Spied(links, active, top, secs).flags == active
    ensures LastInView(top, secs).Some? ==>
      Spied(links, active, top, secs).flags
        == Mark(|links|, IndexOf(links, Href(secs[LastInView(top, secs).value].id)))
  {
    if secs != [] {
      var init := secs[..|secs| - 1];
      assert forall k :: 0 <= k < |init| ==> init[k] == secs[k];
      SpiedIsLast(links, active, top, init);
      if !InView(top, secs[|secs| - 1]) {
        var r := LastInView(top, init);
        if r.Some? {
          assert secs[r.value] == init[r.value];
        }
      }
    }
  }

  /**
    After a scroll with some section in view and every id in view safe,
    link `k` is active exactly when it is the first link whose `href`
    names the last section in view; all other links are cleared.
  */
  lemma {:induction false} ActiveLinkExact(links: seq<string>, active: seq<bool>, top: int, secs: seq<Section>, s: nat, k: nat)
    requires SafeInView(top, secs)
    requires LastInView(top, secs) == Some(s)
    requires k < |links|
    ensures |Spied(links, active, top, secs).flags| == |links|
    ensures Spied(links, active, top, secs).flags[k] <==>
      links[k] == Href(secs[s].id) && forall j :: 0 <= j < k ==> links[j] != Href(secs[s].id)
  {
    SpiedIsLast(links, active, top, secs);
  }

  /** When no section is in view the highlighted link stays as it was. */
  lemma {:induction false} NothingInViewKeepsActive(links: seq<string>, active: seq<bool>, top: int, secs: seq<Section>)
    requires forall k :: 0 <= k < |secs| ==> !InView(top, secs[k])
    ensures Spied(links, active, top, secs) == Scan(active, false)
  {
    SpiedIsLast(links, active, top, secs);
  }

  /** After a scroll at most one link is active, given that at most one was before. */
  lemma {:induction false} AtMostOneActive(links: seq<string>, active: seq<bool>, top: int, secs: seq<Section>)
    requires |active| == |links|
    requires forall j, k :: 0 <= j < k < |active| ==> !(active[j] && active[k])
    ensures |Spied(links, active, top, secs).flags| == |links|
    ensures forall j, k :: 0 <= j < k < |links| ==>
      !(Spied(links, active, top, secs).flags[j] && Spied(links, active, top, secs).flags[k])
  {
    SpiedThrows(links, active, top, secs);
    if SafeInView(top, secs) {
      SpiedIsLast(links, active, top, secs);
    }
  }

  /** In a tiled layout each section starts at or after the end of every earlier one. */
  lemma {:induction false} TiledOrdered(secs: seq<Section>, i: nat, j: nat)
    requires Tiled(secs)
    requires i < j < |secs|
    ensures secs[i].offsetTop + secs[i].height <= secs[j].offsetTop
    decreases j - i
  {
    if i + 1 < j {
      TiledOrdered(secs, i + 1, j);
    }
  }

  /** In a tiled layout at most one section is in view at any scroll position. */
  lemma TiledAtMostOneInView(secs: seq<Section>, top: int, i: nat, j: nat)
    requires Tiled(secs)
    requires i < |secs| && j < |secs|
    requires InView(top, secs[i]) && InView(top, secs[j])
    ensures i == j
  {
    if i < j {
      TiledOrdered(secs, i, j);
    } else if j < i {
      TiledOrdered(secs, j, i);
    }
  }

  /**
    In a tiled layout, the section under the spy line is the one whose
    link the handler highlights, provided its id makes a valid selector.
  */
  lemma TiledHighlightsSectionInView(links: seq<string>, active: seq<bool>, top: int, secs: seq<Section>, s: nat)
    requires Tiled(secs)
    requires s < |secs| && InView(top, secs[s]) && SelectorSafe(secs[s].id)
    ensures LastInView(top, secs) == Some(s)
    ensures Spied(links, active, top, secs) == Scan(Mark(|links|, IndexOf(links, Href(secs[s].id))), false)
  {
    var r := LastInView(top, secs);
    TiledAtMostOneInView(secs, top, r.value, s);
    forall k | 0 <= k < |secs| && InView(top, secs[k])
      ensures SelectorSafe(secs[k].id)
    {
      TiledAtMostOneInView(secs, top, k, s);
    }
    SpiedIsLast(links, active, top, secs);
  }

  /** Concrete layout: at scroll 500 the section spanning 400..1000 is highlighted. */
  lemma ScrollExample()
    ensures Spied(["#home", "#about"], [true, false], 500,
                  [Section(0, 400, Some("home")), Section(400, 600, Some("about"))]) == Scan([false, true], false)
    ensures !Sticky(100) && Sticky(101)
  {
    var secs := [Section(0, 400, Some("home")), Section(400, 600, Some("about"))];
    assert !InView(500, secs[0]) && InView(500, secs[1]);
    assert SelectorSafe(secs[1].id);
    assert LastInView(500, secs) == Some(1);
    SpiedIsLast(["#home", "#about"], [true, false], 500, secs);
    assert Href(Some("about")) == "#about";
    assert IndexOf(["#home", "#about"], "#about") == Some(1);
  }

  /** A quote in the id in view aborts the handler with every link cleared. */
  lemma QuoteInIdExample()
    ensures Spied(["#home", "#about"], [true, false], 0, [Section(0, 400, Some("a\"b"))]) == Scan([false, false], true)
  {
    var secs := [Section(0, 400, Some("a\"b"))];
    assert InView(0, secs[0]) && !PlainChar(secs[0].id.value[1]);
    SpiedThrows(["#home", "#about"], [true, false], 0, secs);
  }
}
