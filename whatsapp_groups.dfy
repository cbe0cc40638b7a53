/**
 * The WhatsApp groups popup
 * (src/app/components/whatsapp-groups-popup/whatsapp-groups-popup.component.ts):
 * only groups that have a link are listed.
 */
module WhatsappGroups {
  import opened JsText
  import opened SelectItems

  /** `group.link && group.link.length > 0` */
  predicate HasLink(g: SelectItem)
  {
    Truthy(g.link)
  }

  /** getGroupsWithLinks */
  function GroupsWithLinks(groups: seq<SelectItem>): (r: seq<SelectItem>)
    ensures forall i :: 0 <= i < |r| ==> HasLink(r[i]) && r[i] in groups
    ensures forall i :: 0 <= i < |groups| && HasLink(groups[i]) ==> groups[i] in r
    ensures IsSubsequence(r, groups)
  {
    FilterIsSubsequence(groups, HasLink);
    Filter(groups, HasLink)
  }

  /** Filtering the listed groups again changes nothing. */
  lemma GroupsWithLinksIdempotent(groups: seq<SelectItem>)
    ensures GroupsWithLinks(GroupsWithLinks(groups)) == GroupsWithLinks(groups)
  {
    FilterIdempotent(groups, HasLink);
  }

  /** When every group has a link, all are listed, in order. */
  lemma AllLinkedListed(groups: seq<SelectItem>)
    requires forall i :: 0 <= i < |groups| ==> HasLink(groups[i])
    ensures GroupsWithLinks(groups) == groups
  {
    FilterAll(groups, HasLink);
  }
}
