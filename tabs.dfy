/** The results page tabs of js/scripts.js: one tab button per results
    section, mouse activation and arrow/Home/End keyboard navigation. */
module ResultsTabs {

  import opened Wrappers
  import ButtonGroup

  /** The keys the tab buttons react to. */
  const NavigationKeys: set<string> := {"ArrowLeft", "ArrowRight", "Home", "End"}

  /** The index of the tab a key press on tab `current` of `n` moves to, or
      `None` for a key the handler ignores. Left and right wrap around. */
  function KeyTarget(n: nat, current: nat, key: string): (r: Option<nat>)
    requires current < n
    ensures r.Some? <==> key in NavigationKeys
    ensures r.Some? ==> r.value < n
    ensures key == "ArrowLeft" ==> r == Some((current + n - 1) % n)
    ensures key == "ArrowRight" ==> r == Some((current + 1) % n)
    ensures key == "Home" ==> r == Some(0)
    ensures key == "End" ==> r == Some(n - 1)
  {
    WrapStep(n, current);
    if key == "ArrowLeft" then Some(if current > 0 then current - 1 else n - 1)
    else if key == "ArrowRight" then Some(if current < n - 1 then current + 1 else 0)
    else if key == "Home" then Some(0)
    else if key == "End" then Some(n - 1)
    else None
  }

  /** The wrap-around steps agree with arithmetic modulo `n`. */
  lemma WrapStep(n: nat, i: nat)
    requires i < n
    ensures (i + n - 1) % n == (if i > 0 then i - 1 else n - 1)
    ensures (i + 1) % n == (if i < n - 1 then i + 1 else 0)
  {
    SmallMod(if i > 0 then i - 1 else n - 1, n);
    SmallMod(if i < n - 1 then i + 1 else 0, n);
    if i > 0 {
      ShiftMod(i - 1, n);
    }
    if i == n - 1 {
      ShiftMod(0, n);
    }
  }

  lemma SmallMod(a: nat, n: nat)
    requires a < n
    ensures a % n == a
  {
  }

  lemma ShiftMod(a: nat, n: nat)
    requires a < n
    ensures (a + n) % n == a
  {
    assert (a + n) / n == 1;
  }

  /** ArrowLeft undoes ArrowRight and vice versa. */
  lemma ArrowsAreInverse(n: nat, i: nat)
    requires i < n
    ensures KeyTarget(n, KeyTarget(n, i, "ArrowRight").value, "ArrowLeft") == Some(i)
    ensures KeyTarget(n, KeyTarget(n, i, "ArrowLeft").value, "ArrowRight") == Some(i)
  {
  }

  class Tabs {
    /** The `data-tab` value of each tab button, and which carry `active`. */
    const tabs: seq<string>
    const tabActive: array<bool>
    /** The id of each results section, which carry `active`, and which have
        `style.display` `block` (true) rather than `none`. */
    const sectionIds: seq<string>
    const sectionActive: array<bool>
    const sectionShown: array<bool>
    /** The tab button keyboard navigation last moved the focus to. */
    var focused: Option<nat>

    ghost predicate Valid()
      reads this
    {
      tabActive.Length == |tabs| &&
      sectionActive.Length == |sectionIds| && sectionShown.Length == |sectionIds| &&
      sectionActive != sectionShown && tabActive != sectionActive && tabActive != sectionShown
    }

    constructor (tabs: seq<string>, sectionIds: seq<string>)
      ensures Valid() && fresh(tabActive) && fresh(sectionActive) && fresh(sectionShown)
      ensures this.tabs == tabs && this.sectionIds == sectionIds && focused == None
    {
      this.tabs, this.sectionIds := tabs, sectionIds;
      tabActive := new bool[|tabs|](_ => false);
      sectionActive := new bool[|sectionIds|](_ => false);
      sectionShown := new bool[|sectionIds|](_ => true);
      focused := None;
    }

    /** Whether the click on tab `k` has its handler: the page must have
        results sections for any handler to be installed. */
    predicate Wired()
      reads this
    {
      sectionIds != []
    }

    /** A click on tab `k`: it alone becomes active, and a section is active
        and displayed exactly when its id is the tab's value followed by
        "-tab"; every other section is hidden. */
    method ClickTab(k: nat)
      requires Valid() && k < |tabs|
      modifies tabActive, sectionActive, sectionShown
      ensures Valid()
      ensures !Wired() ==> tabActive[..] == old(tabActive[..])
      ensures Wired() ==> forall i :: 0 <= i < |tabs| ==> (tabActive[i] <==> i == k)
      ensures Wired() ==> ButtonGroup.ExactlyOneActive(tabActive[..])
      ensures forall j :: 0 <= j < |sectionIds| ==>
                (sectionActive[j] <==> sectionIds[j] == tabs[k] + "-tab") &&
                (sectionShown[j] <==> sectionIds[j] == tabs[k] + "-tab")
    {
      if !Wired() {
        return;
      }
      ButtonGroup.ActivateOnly(tabActive, k);
      var target := tabs[k] + "-tab";
      var j := 0;
      while j < |sectionIds|
        invariant 0 <= j <= |sectionIds|
        invariant forall m :: 0 <= m < j ==>
                    (sectionActive[m] <==> sectionIds[m] == target) &&
                    (sectionShown[m] <==> sectionIds[m] == target)
        invariant forall i :: 0 <= i < |tabs| ==> (tabActive[i] <==> i == k)
      {
        if sectionIds[j] == target {
          sectionActive[j] := true;
          sectionShown[j] := true;
        } else {
          sectionActive[j] := false;
          sectionShown[j] := false;
        }
        j := j + 1;
      }
      assert tabActive[..][k];
    }

    /** A key press on tab `current`. Without results sections no handler
        is installed and nothing happens. Otherwise a navigation key moves the
        focus to its target tab and activates it as a click would, sections
        included; any other key does nothing. */
    method KeyDown(current: nat, key: string)
      requires Valid() && current < |tabs|
      modifies this, tabActive, sectionActive, sectionShown
      ensures Valid()
      ensures !Wired() || key !in NavigationKeys ==>
                focused == old(focused) && tabActive[..] == old(tabActive[..]) &&
                sectionActive[..] == old(sectionActive[..]) && sectionShown[..] == old(sectionShown[..])
      ensures Wired() && key in NavigationKeys ==>
                var target := KeyTarget(|tabs|, current, key).value;
                focused == Some(target) &&
                (forall i :: 0 <= i < |tabs| ==> (tabActive[i] <==> i == target)) &&
                (forall j :: 0 <= j < |sectionIds| ==>
                   (sectionActive[j] <==> sectionIds[j] == tabs[target] + "-tab") &&
                   (sectionShown[j] <==> sectionIds[j] == tabs[target] + "-tab"))
    {
      if !Wired() {
        return;
      }
      var target := KeyTarget(|tabs|, current, key);
      if target.Some? {
        focused := target;
        ClickTab(target.value);
      }
    }
  }
}
