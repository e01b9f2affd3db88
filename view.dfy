/** The view preference store (src/stores/view.store.ts): one display flag. */
module View {

  class ViewStore {
    /** True for the compact display, false for the expanded one. */
    var isCompactView: bool

    /** The flag starts out false: the expanded view. */
    constructor ()
      ensures !isCompactView
    {
      isCompactView := false;
    }

    /** `toggleView`: flip the flag; the store has no other state to change. */
    method ToggleView()
      modifies this
      ensures isCompactView == !old(isCompactView)
    {
      isCompactView := !isCompactView;
    }
  }

  /** Toggling twice brings the flag back to where it was. */
  method ToggleTwice(store: ViewStore)
    modifies store
    ensures store.isCompactView == old(store.isCompactView)
  {
    store.ToggleView();
    store.ToggleView();
  }
}
