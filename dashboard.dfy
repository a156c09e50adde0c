/** The patient dashboard: one open section at a time, toggled by its button. */
module Dashboard {
  import opened Json

  /** The sections with a button and a panel, in page order. */
  const Panels: seq<string> := ["activities", "progress", "history", "booking"]

  /** `activeSection === section ? null : section`. */
  function Toggled(active: Option<string>, section: string): (r: Option<string>)
    ensures r == None <==> active == Some(section)
    ensures r != None ==> r == Some(section)
  {
    if active == Some(section) then None else Some(section)
  }

  /** Toggling one section twice comes back to where it started when that
      section was open or nothing was. */
  lemma ToggleTwice(active: Option<string>, section: string)
    requires active == None || active == Some(section)
    ensures Toggled(Toggled(active, section), section) == active
  {
  }

  /** The panels `{activeSection === p && <Panel />}` renders, in page order. */
  function Shown(panels: seq<string>, active: Option<string>): (r: seq<string>)
    ensures forall p :: p in r <==> p in panels && active == Some(p)
    ensures forall i :: 0 <= i < |r| ==> active == Some(r[i])
  {
    if panels == [] then []
    else (if active == Some(panels[0]) then [panels[0]] else []) + Shown(panels[1..], active)
  }

  predicate Distinct(s: seq<string>)
  {
    forall i, j :: 0 <= i < j < |s| ==> s[i] != s[j]
  }

  /** With distinct panel names, at most one panel is on the page. */
  lemma {:induction false} AtMostOneShown(panels: seq<string>, active: Option<string>)
    requires Distinct(panels)
    ensures |Shown(panels, active)| <= 1
  {
    if panels != [] {
      var rest := panels[1..];
      assert Distinct(rest) by {
        forall i, j | 0 <= i < j < |rest| ensures rest[i] != rest[j] {
          assert rest[i] == panels[i + 1] && rest[j] == panels[j + 1];
        }
      }
      AtMostOneShown(rest, active);
      if active == Some(panels[0]) {
        assert panels[0] !in rest by {
          forall i | 0 <= i < |rest| ensures rest[i] != panels[0] {
            assert rest[i] == panels[i + 1];
          }
        }
        NothingShownWhenAbsent(rest, active);
      }
    }
  }

  class PatientDashboard {
    var activeSection: Option<string>

    constructor ()
      ensures activeSection == None
      ensures Rendered() == []
    {
      activeSection := None;
      new;
      NothingShownWhenAbsent(Panels, None);
    }

    method Toggle(section: string)
      modifies this
      ensures activeSection == Toggled(old(activeSection), section)
    {
      activeSection := if activeSection == Some(section) then None else Some(section);
    }

    function Rendered(): (r: seq<string>)
      reads this
      ensures |r| <= 1
      ensures forall p :: p in r <==> p in Panels && activeSection == Some(p)
    {
      AtMostOneShown(Panels, activeSection);
      Shown(Panels, activeSection)
    }
  }

  /** No panel is shown when no section is open or the open one has no panel. */
  lemma {:induction false} NothingShownWhenAbsent(panels: seq<string>, active: Option<string>)
    requires active == None || active.value !in panels
    ensures Shown(panels, active) == []
  {
    if panels != [] {
      assert active == None || active.value !in panels[1..];
      NothingShownWhenAbsent(panels[1..], active);
    }
  }
}
