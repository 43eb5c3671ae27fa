/**
 * Active-section tracking of the portfolio page (the scroll listener in
 * initNavigation, app.js): which section the reading position falls in,
 * and which navigation link is highlighted as a result.
 */
module Navigation {

  /** A page section as the scroll handler reads it: its id, offsetTop and offsetHeight. */
  datatype Section = Section(id: string, top: int, height: int)

  /** The handler looks 100 pixels below the top of the viewport. */
  const ScrollProbe := 100

  /** The half-open vertical band [top, top + height) of a section holds the position. */
  predicate Covers(section: Section, position: int) {
    section.top <= position < section.top + section.height
  }

  /**
   * Reference definition of the current section: the id of the last section,
   * in document order, whose band holds the position; "" when none does.
   * It is defined from the end of the list, while the handler scans forward.
   */
  function LastMatch(sections: seq<Section>, position: int): string {
    if sections == [] then ""
    else if Covers(sections[|sections| - 1], position) then sections[|sections| - 1].id
    else LastMatch(sections[..|sections| - 1], position)
  }

  /** When section k holds the position and no later one does, k is current. */
  lemma {:induction false} LastMatchIsLastCovering(sections: seq<Section>, position: int, k: int)
    requires 0 <= k < |sections| && Covers(sections[k], position)
    requires forall j | k < j < |sections| :: !Covers(sections[j], position)
    ensures LastMatch(sections, position) == sections[k].id
  {
    if k < |sections| - 1 {
      var init := sections[..|sections| - 1];
      assert init[k] == sections[k];
      forall j | k < j < |init| ensures !Covers(init[j], position) {
        assert init[j] == sections[j];
      }
      LastMatchIsLastCovering(init, position, k);
    }
  }

  /** When no section holds the position, the current section is "". */
  lemma {:induction false} LastMatchNone(sections: seq<Section>, position: int)
    requires forall j | 0 <= j < |sections| :: !Covers(sections[j], position)
    ensures LastMatch(sections, position) == ""
  {
    if sections != [] {
      var init := sections[..|sections| - 1];
      forall j | 0 <= j < |init| ensures !Covers(init[j], position) {
        assert init[j] == sections[j];
      }
      LastMatchNone(init, position);
    }
  }

  /** A non-empty current id is the id of a section that holds the position. */
  lemma {:induction false} LastMatchCovers(sections: seq<Section>, position: int)
    requires LastMatch(sections, position) != ""
    ensures exists k | 0 <= k < |sections| ::
      Covers(sections[k], position) && sections[k].id == LastMatch(sections, position)
  {
    var n := |sections| - 1;
    if !Covers(sections[n], position) {
      var init := sections[..n];
      LastMatchCovers(init, position);
      var k :| 0 <= k < |init| && Covers(init[k], position) && init[k].id == LastMatch(init, position);
      assert sections[k] == init[k];
    }
  }

  /**
   * The first loop of the scroll handler: `currentSection` starts as "" and is
   * overwritten by every section whose band holds the position.
   */
  method CurrentSection(sections: seq<Section>, position: int) returns (current: string)
    ensures current == LastMatch(sections, position)
  {
    current := "";
    var i := 0;
    while i < |sections|
      invariant 0 <= i <= |sections|
      invariant current == LastMatch(sections[..i], position)
    {
      assert sections[..i + 1][..i] == sections[..i];
      if Covers(sections[i], position) {
        current := sections[i].id;
      }
      i := i + 1;
    }
    assert sections[..i] == sections;
  }

  /** The highlight rule: link i is active exactly when its href is '#' + the current id. */
  predicate MarksCurrent(hrefs: seq<string>, active: seq<bool>, current: string) {
    |active| == |hrefs| && forall i | 0 <= i < |hrefs| :: active[i] == (hrefs[i] == "#" + current)
  }

  predicate Distinct(hrefs: seq<string>) {
    forall i, j | 0 <= i < j < |hrefs| :: hrefs[i] != hrefs[j]
  }

  /** With distinct hrefs, the highlight rule leaves at most one link active. */
  lemma AtMostOneActive(hrefs: seq<string>, active: seq<bool>, current: string)
    requires MarksCurrent(hrefs, active, current) && Distinct(hrefs)
    ensures forall i, j | 0 <= i < |active| && 0 <= j < |active| && active[i] && active[j] :: i == j
  {
  }

  /** Some link is active exactly when some href names the current section. */
  lemma ActiveIffTargeted(hrefs: seq<string>, active: seq<bool>, current: string)
    requires MarksCurrent(hrefs, active, current)
    ensures (true in active) <==> ("#" + current in hrefs)
  {
    if true in active {
      var i :| 0 <= i < |active| && active[i];
      assert hrefs[i] == "#" + current;
    }
    if "#" + current in hrefs {
      var i :| 0 <= i < |hrefs| && hrefs[i] == "#" + current;
      assert active[i];
    }
  }

  /** Bands [0,100) and [100,300): position 150 selects the second, 50 the first. */
  lemma TwoSectionExample()
    ensures LastMatch([Section("about", 0, 100), Section("skills", 100, 200)], 150) == "skills"
    ensures LastMatch([Section("about", 0, 100), Section("skills", 100, 200)], 50) == "about"
  {
    var s := [Section("about", 0, 100), Section("skills", 100, 200)];
    assert s[..1] == [Section("about", 0, 100)];
    assert s[..1][..0] == [];
  }
}
