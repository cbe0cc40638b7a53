/**
 * The app's dropdown (src/app/components/select/select.component.ts): the
 * items, the selected item (the first one when none is given), and whether
 * the list is open.
 */
module SelectComponent {
  import opened JsText
  import opened SelectItems

  /** `if (!selectedItem && items.length > 0) selectedItem = items[0]` */
  function DefaultSelection(selected: Option<SelectItem>, items: seq<SelectItem>): (r: Option<SelectItem>)
    ensures selected.Some? ==> r == selected
    ensures selected.None? && |items| > 0 ==> r == Some(items[0])
    ensures r.Some? <==> selected.Some? || |items| > 0
  {
    if selected.None? && |items| > 0 then Some(items[0]) else selected
  }

  /** Choosing the default again changes nothing, and the default comes from the items. */
  lemma DefaultSelectionStable(selected: Option<SelectItem>, items: seq<SelectItem>)
    ensures DefaultSelection(DefaultSelection(selected, items), items) == DefaultSelection(selected, items)
    ensures selected.None? && DefaultSelection(selected, items).Some? ==> DefaultSelection(selected, items).value in items
  {
  }

  class SelectComponent {
    var items: seq<SelectItem>
    var selectedItem: Option<SelectItem>
    var isSelectOpen: bool
    var filteredItems: seq<SelectItem>
    /** The `itemSelected` events emitted so far. */
    var emitted: seq<SelectItem>
    /** `isPlatformBrowser(platformId)` */
    const isBrowser: bool

    constructor (isBrowser: bool, items: seq<SelectItem>, selectedItem: Option<SelectItem>)
      ensures this.isBrowser == isBrowser && this.items == items && this.selectedItem == selectedItem
      ensures !isSelectOpen && filteredItems == [] && emitted == []
    {
      this.isBrowser := isBrowser;
      this.items := items;
      this.selectedItem := selectedItem;
      isSelectOpen := false;
      filteredItems := [];
      emitted := [];
    }

    /** updateFilteredItems */
    method UpdateFilteredItems()
      modifies this`filteredItems, this`selectedItem
      ensures filteredItems == items
      ensures selectedItem == DefaultSelection(old(selectedItem), items)
    {
      filteredItems := items;
      if selectedItem.None? && |items| > 0 {
        selectedItem := Some(items[0]);
      }
    }

    /** ngOnInit, without the document listeners. */
    method NgOnInit()
      modifies this`filteredItems, this`selectedItem
      ensures filteredItems == items
      ensures selectedItem == DefaultSelection(old(selectedItem), items)
    {
      UpdateFilteredItems();
    }

    /** ngOnChanges: only a change of `items` refreshes the list. */
    method NgOnChanges(itemsChanged: bool)
      modifies this`filteredItems, this`selectedItem
      ensures itemsChanged ==> filteredItems == items && selectedItem == DefaultSelection(old(selectedItem), items)
      ensures !itemsChanged ==> filteredItems == old(filteredItems) && selectedItem == old(selectedItem)
    {
      if itemsChanged {
        UpdateFilteredItems();
      }
    }

    /**
     * handleClickOutside: in a browser, a click with a target outside the
     * dropdown closes an open list; `clickedInside` is false when the
     * container is not rendered.
     */
    method HandleClickOutside(hasTarget: bool, clickedInside: bool)
      modifies this`isSelectOpen
      ensures isSelectOpen == (old(isSelectOpen) && !(isBrowser && hasTarget && !clickedInside))
    {
      if !isBrowser {
        return;
      }
      if !hasTarget {
        return;
      }
      if !clickedInside && isSelectOpen {
        isSelectOpen := false;
      }
    }

    /** toggleSelect */
    method ToggleSelect()
      modifies this`isSelectOpen
      ensures isSelectOpen == !old(isSelectOpen)
    {
      isSelectOpen := !isSelectOpen;
    }

    /** selectItem: the list closes and the item is emitted; the selection itself is left to the parent. */
    method SelectItem(item: SelectItem)
      modifies this`isSelectOpen, this`emitted
      ensures !isSelectOpen && emitted == old(emitted) + [item]
    {
      isSelectOpen := false;
      emitted := emitted + [item];
    }

    /** onBlur: its body is commented out, so the list stays as it is. */
    method OnBlur()
      ensures isSelectOpen == old(isSelectOpen) && selectedItem == old(selectedItem)
    {
    }
  }
}
