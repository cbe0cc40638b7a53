/**
 * The collapsible sections of the rules page (src/app/pages/rules/rules.component.ts)
 * and of the about page (src/app/pages/about/about.component.ts), which hold
 * the same code: at most one section is open, and choosing the open one
 * closes it.
 */
module Accordion {
  import opened JsText

  /** `activeSection === section ? null : section` */
  function Toggled(active: Option<string>, section: string): (r: Option<string>)
    ensures r == Some(section) <==> active != Some(section)
    ensures r.None? <==> active == Some(section)
  {
    if active == Some(section) then None else Some(section)
  }

  /** isExpanded */
  predicate Expanded(active: Option<string>, section: string)
  {
    active == Some(section)
  }

  /** After a toggle the chosen section is open exactly when it was closed, and every other section is closed. */
  lemma ToggleOpensOnlyIt(active: Option<string>, section: string, other: string)
    ensures Expanded(Toggled(active, section), section) <==> !Expanded(active, section)
    ensures other != section ==> !Expanded(Toggled(active, section), other)
  {
  }

  /** Two sections are never open together. */
  lemma AtMostOneOpen(active: Option<string>, a: string, b: string)
    requires Expanded(active, a) && Expanded(active, b)
    ensures a == b
  {
  }

  /** Toggling the same section twice restores the state when nothing else was open. */
  lemma ToggleTwice(active: Option<string>, section: string)
    ensures active.None? || active == Some(section) ==> Toggled(Toggled(active, section), section) == active
    ensures active.Some? && active != Some(section) ==> Toggled(Toggled(active, section), section).None?
  {
  }

  class AccordionPage {
    var activeSection: Option<string>

    constructor ()
      ensures activeSection.None?
    {
      activeSection := None;
    }

    /** toggleSection */
    method ToggleSection(section: string)
      modifies this`activeSection
      ensures activeSection == Toggled(old(activeSection), section)
    {
      activeSection := if activeSection == Some(section) then None else Some(section);
    }

    /** isExpanded */
    function IsExpanded(section: string): (r: bool)
      reads this`activeSection
      ensures r ==> forall other :: Expanded(activeSection, other) ==> other == section
    {
      Expanded(activeSection, section)
    }
  }
}
