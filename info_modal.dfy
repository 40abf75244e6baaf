/** The information modals (js/modal-info.js): which pages can be opened,
    the open/close life cycle with its Escape-key listener and body-scroll
    lock (js/modal.js), and the FAQ panel's search and accordion. */
module InfoModal {
  import opened ProductData
  import opened Text

  // ---------------------------------------------------------------------
  // Which page
  // ---------------------------------------------------------------------

  datatype InfoKind = Story | Shipping | Returns | Faq

  /** The `type` argument each page is opened with. */
  function TypeName(k: InfoKind): string {
    match k
    case Story => "story"
    case Shipping => "shipping"
    case Returns => "returns"
    case Faq => "faq"
  }

  /** The switch on `type`: exactly four names are known. */
  function KindOf(t: string): (r: Option<InfoKind>)
    ensures r.Some? <==> t == "story" || t == "shipping" || t == "returns" || t == "faq"
    ensures r.Some? ==> TypeName(r.value) == t
  {
    if t == "story" then Some(Story)
    else if t == "shipping" then Some(Shipping)
    else if t == "returns" then Some(Returns)
    else if t == "faq" then Some(Faq)
    else None
  }

  function Title(k: InfoKind): string {
    match k
    case Story => "Our Story"
    case Shipping => "Shipping Information"
    case Returns => "Returns & Exchanges"
    case Faq => "Frequently Asked Questions"
  }

  /** Every page is reachable by its name, and different pages have
      different titles. */
  lemma KindNames(k: InfoKind, k': InfoKind)
    ensures KindOf(TypeName(k)) == Some(k)
    ensures k != k' ==> Title(k) != Title(k')
  {
  }

  // ---------------------------------------------------------------------
  // Open and close
  // ---------------------------------------------------------------------

  /** The modal container and the page state it touches: whether it is
      shown and with which title; the handler reference kept in
      `window.infoModalKeyHandler` and the number of keydown listeners
      actually attached; the body-scroll lock, the saved scroll position
      and the window's scroll position. */
  class InfoWindow {
    var open: bool
    var title: string
    var keyHandler: bool
    var listeners: nat
    var bodyLocked: bool
    var savedScroll: int
    var scrollY: int

    /** A kept handler is an attached one. */
    ghost predicate Valid()
      reads this
    {
      keyHandler ==> listeners >= 1
    }

    constructor(scrollY: int)
      ensures Valid()
      ensures !open && title == "" && !keyHandler && listeners == 0 && !bodyLocked
      ensures savedScroll == 0 && this.scrollY == scrollY
    {
      open := false;
      title := "";
      keyHandler := false;
      listeners := 0;
      bodyLocked := false;
      savedScroll := 0;
      this.scrollY := scrollY;
    }

    /** openInfoModal(type). Without the container, or for an unknown
        type, nothing happens. Otherwise the page is shown, the body is
        locked with the current scroll position saved, and a new Escape
        listener is attached and kept. */
    method Open(t: string, hasContainer: bool)
      requires Valid()
      modifies this
      ensures Valid()
      ensures !hasContainer || KindOf(t).None? ==>
        open == old(open) && title == old(title) && keyHandler == old(keyHandler)
        && listeners == old(listeners) && bodyLocked == old(bodyLocked) && savedScroll == old(savedScroll)
      ensures hasContainer && KindOf(t).Some? ==>
        open && title == Title(KindOf(t).value) && keyHandler && listeners == old(listeners) + 1
        && bodyLocked && savedScroll == old(scrollY)
      ensures scrollY == old(scrollY)
    {
      if !hasContainer {
        return;
      }
      var kind := KindOf(t);
      if kind.None? {
        return;
      }
      open := true;
      title := Title(kind.value);
      bodyLocked := true;
      savedScroll := scrollY;
      keyHandler := true;
      listeners := listeners + 1;
    }

    /** closeInfoModal(event). A click that did not land on the backdrop
        itself changes nothing. Otherwise the container is hidden and
        emptied when present, the body is unlocked, the window scrolls
        back to the saved position and the saved position is cleared to
        0, and the kept listener is detached. */
    method Close(hasEvent: bool, targetIsCurrent: bool, hasContainer: bool)
      requires Valid()
      modifies this
      ensures Valid()
      ensures hasEvent && !targetIsCurrent ==>
        open == old(open) && title == old(title) && keyHandler == old(keyHandler)
        && listeners == old(listeners) && bodyLocked == old(bodyLocked)
        && savedScroll == old(savedScroll) && scrollY == old(scrollY)
      ensures !(hasEvent && !targetIsCurrent) ==>
        (hasContainer ==> !open && title == "") && (!hasContainer ==> open == old(open) && title == old(title))
        && !bodyLocked && scrollY == old(savedScroll) && savedScroll == 0 && !keyHandler
        && listeners == (if old(keyHandler) then old(listeners) - 1 else old(listeners))
    {
      if hasEvent && !targetIsCurrent {
        return;
      }
      if hasContainer {
        open := false;
        title := "";
      }
      bodyLocked := false;
      scrollY := savedScroll;
      savedScroll := 0;
      if keyHandler {
        listeners := listeners - 1;
        keyHandler := false;
      }
    }

    /** A keydown on the document runs every attached listener in the
        order they were attached, and each one calls closeInfoModal() on
        Escape. A listener detached while the event is being dispatched
        is not run (the "removed" flag of the DOM Standard's inner invoke
        algorithm): the kept listener is the last one attached, and the
        first close detaches it, so it runs only when it is the only
        listener. Every close after the first scrolls to the cleared
        position 0. */
    method KeyDown(key: string, hasContainer: bool)
      requires Valid()
      modifies this
      ensures Valid()
      ensures key == "Escape" && old(listeners) > 0 ==>
        !keyHandler && !bodyLocked && savedScroll == 0
        && (hasContainer ==> !open && title == "") && (!hasContainer ==> open == old(open) && title == old(title))
        && listeners == (if old(keyHandler) then old(listeners) - 1 else old(listeners))
        && scrollY == (if Closes(old(listeners), old(keyHandler)) == 1 then old(savedScroll) else 0)
      ensures !(key == "Escape" && old(listeners) > 0) ==>
        open == old(open) && title == old(title) && keyHandler == old(keyHandler) && listeners == old(listeners)
        && bodyLocked == old(bodyLocked) && savedScroll == old(savedScroll) && scrollY == old(scrollY)
    {
      if key != "Escape" {
        return;
      }
      var n := listeners;
      var kept := keyHandler;
      var i := 0;
      while i < n
        invariant 0 <= i <= n && n == old(listeners) && kept == old(keyHandler)
        invariant Valid()
        invariant i == 0 ==>
          open == old(open) && title == old(title) && keyHandler == old(keyHandler) && listeners == old(listeners)
          && bodyLocked == old(bodyLocked) && savedScroll == old(savedScroll) && scrollY == old(scrollY)
        invariant i > 0 ==>
          !keyHandler && !bodyLocked && savedScroll == 0
          && (hasContainer ==> !open && title == "") && (!hasContainer ==> open == old(open) && title == old(title))
          && listeners == (if kept then n - 1 else n)
          && scrollY == (if Fired(i, n, kept) == 1 then old(savedScroll) else 0)
      {
        // the kept listener is attached last; it is skipped once removed
        if !(kept && i == n - 1 && !keyHandler) {
          Close(false, false, hasContainer);
        }
        i := i + 1;
      }
    }
  }

  /** How many of the first `i` of `n` listeners have run on one Escape,
      when the last of them is the kept one (`kept`) and is skipped if an
      earlier close detached it. */
  function Fired(i: nat, n: nat, kept: bool): (r: nat)
    requires i <= n
    ensures r <= i
    ensures 0 < i < n ==> r == i
    ensures kept && 2 <= n == i ==> r == n - 1
  {
    if kept && 2 <= n && i == n then i - 1 else i
  }

  /** How many times one Escape closes the modal with `n` listeners
      attached, `kept` saying whether the last of them is the kept one. */
  function Closes(n: nat, kept: bool): (r: nat)
    ensures n > 0 ==> r >= 1
    ensures !kept ==> r == n
    ensures kept && n >= 2 ==> r == n - 1
  {
    Fired(n, n, kept)
  }

  /** Opening a page and closing it again puts the window back where it
      was and leaves no listener behind. */
  method OpenThenClose(t: string, scrollY: int) returns (w: InfoWindow)
    requires KindOf(t).Some?
    ensures w.Valid() && !w.open && !w.bodyLocked && w.listeners == 0 && w.scrollY == scrollY
  {
    w := new InfoWindow(scrollY);
    w.Open(t, true);
    w.Close(false, false, true);
  }

  /** Three opens leave two stale Escape listeners besides the kept one.
      One Escape runs both stale ones, so the modal closes twice and the
      second close scrolls the window to the top instead of back to where
      it was; the two stale listeners stay attached. */
  method EscapeAfterThreeOpens(t: string, scrollY: int) returns (w: InfoWindow)
    requires KindOf(t).Some?
    ensures w.Valid() && !w.open && !w.bodyLocked && w.listeners == 2 && w.scrollY == 0
  {
    w := new InfoWindow(scrollY);
    w.Open(t, true);
    w.Open(t, true);
    w.Open(t, true);
    w.KeyDown("Escape", true);
  }

  /** Opening a second page over the first replaces the kept handler, so
      closing detaches only the second: one Escape listener stays
      attached. */
  method ReopenLeavesListener(t: string, t': string, scrollY: int) returns (w: InfoWindow)
    requires KindOf(t).Some? && KindOf(t').Some?
    ensures w.Valid() && !w.open && !w.keyHandler && w.listeners == 1
  {
    w := new InfoWindow(scrollY);
    w.Open(t, true);
    w.Open(t', true);
    w.Close(false, false, true);
  }

  // ---------------------------------------------------------------------
  // FAQ panel
  // ---------------------------------------------------------------------

  datatype FaqItem = FaqItem(question: string, answer: string)

  datatype FaqCategory = FaqCategory(heading: string, items: seq<FaqItem>)

  /** An item matches a search when its lower-cased question or answer
      includes the lower-cased term. */
  predicate Matches(item: FaqItem, term: string) {
    Contains(Lower(item.question), Lower(term)) || Contains(Lower(item.answer), Lower(term))
  }

  /** A needle's prefix occurs wherever the needle does. */
  lemma {:induction false} ContainsPrefix(hay: string, needle: string, c: char)
    requires Contains(hay, needle + [c])
    ensures Contains(hay, needle)
    decreases |hay|
  {
    if StartsWith(hay, needle + [c]) {
      assert hay[..|needle|] == (needle + [c])[..|needle|] == needle;
    } else {
      ContainsPrefix(hay[1..], needle, c);
    }
  }

  /** Typing one more character never brings back an item that was
      hidden. */
  lemma NarrowingSearch(item: FaqItem, term: string, c: char)
    requires Matches(item, term + [c])
    ensures Matches(item, term)
  {
    assert Lower(term + [c]) == Lower(term) + [LowerChar(c)];
    if Contains(Lower(item.question), Lower(term + [c])) {
      ContainsPrefix(Lower(item.question), Lower(term), LowerChar(c));
    } else {
      ContainsPrefix(Lower(item.answer), Lower(term), LowerChar(c));
    }
  }

  /** The search ignores the case of the term, and the empty term matches
      every item. */
  lemma SearchCase(item: FaqItem, term: string)
    ensures Matches(item, Lower(term)) == Matches(item, term)
    ensures Matches(item, "")
  {
    assert Lower(Lower(term)) == Lower(term);
    ContainsEmpty(Lower(item.question));
  }

  /** Exactly one answer open, or none. */
  predicate AtMostOneOpen(answerOpen: seq<seq<bool>>) {
    forall c, i, c', i' ::
      (0 <= c < |answerOpen| && 0 <= i < |answerOpen[c]| && 0 <= c' < |answerOpen| && 0 <= i' < |answerOpen[c']|
       && answerOpen[c][i] && answerOpen[c'][i']) ==> c == c' && i == i'
  }

  /** The FAQ list as rendered: its categories and items, whether each
      item and category is displayed, and whether each answer is
      expanded. */
  class FaqPanel {
    const categories: seq<FaqCategory>
    var itemShown: seq<seq<bool>>
    var categoryShown: seq<bool>
    var answerOpen: seq<seq<bool>>

    /** One flag per category and per item. */
    ghost predicate Valid()
      reads this
    {
      |itemShown| == |categories| && |categoryShown| == |categories| && |answerOpen| == |categories|
      && (forall c :: 0 <= c < |categories| ==> |itemShown[c]| == |categories[c].items|)
      && (forall c :: 0 <= c < |categories| ==> |answerOpen[c]| == |categories[c].items|)
    }

    /** Freshly rendered: everything displayed, every answer collapsed. */
    constructor(categories: seq<FaqCategory>)
      ensures Valid() && this.categories == categories
      ensures forall c :: 0 <= c < |categories| ==> categoryShown[c]
      ensures forall c, i :: 0 <= c < |categories| && 0 <= i < |categories[c].items| ==> itemShown[c][i]
      ensures forall c, i :: 0 <= c < |categories| && 0 <= i < |categories[c].items| ==> !answerOpen[c][i]
    {
      this.categories := categories;
      itemShown := seq(|categories|, c requires 0 <= c < |categories| => seq(|categories[c].items|, _ => true));
      categoryShown := seq(|categories|, _ => true);
      answerOpen := seq(|categories|, c requires 0 <= c < |categories| => seq(|categories[c].items|, _ => false));
    }

    /** filterFAQ(searchTerm): an item is displayed exactly when it
        matches, a category exactly when one of its items does. */
    method Filter(searchTerm: string)
      requires Valid()
      modifies this`itemShown, this`categoryShown
      ensures Valid()
      ensures forall c, i :: 0 <= c < |categories| && 0 <= i < |categories[c].items| ==>
        (itemShown[c][i] <==> Matches(categories[c].items[i], searchTerm))
      ensures forall c :: 0 <= c < |categories| ==>
        (categoryShown[c] <==> exists i :: 0 <= i < |categories[c].items| && Matches(categories[c].items[i], searchTerm))
    {
      var term := Lower(searchTerm);
      var c := 0;
      while c < |categories|
        invariant 0 <= c <= |categories|
        invariant Valid()
        invariant forall c', i :: 0 <= c' < c && 0 <= i < |categories[c'].items| ==>
          (itemShown[c'][i] <==> Matches(categories[c'].items[i], searchTerm))
        invariant forall c' :: 0 <= c' < c ==>
          (categoryShown[c'] <==> exists i :: 0 <= i < |categories[c'].items| && Matches(categories[c'].items[i], searchTerm))
      {
        var items := categories[c].items;
        var row := itemShown[c];
        var hasVisibleItems := false;
        var i := 0;
        while i < |items|
          invariant 0 <= i <= |items| && |row| == |items|
          invariant forall j :: 0 <= j < i ==> (row[j] <==> Matches(items[j], searchTerm))
          invariant hasVisibleItems <==> exists j :: 0 <= j < i && Matches(items[j], searchTerm)
        {
          if Contains(Lower(items[i].question), term) || Contains(Lower(items[i].answer), term) {
            row := row[i := true];
            hasVisibleItems := true;
          } else {
            row := row[i := false];
          }
          i := i + 1;
        }
        itemShown := itemShown[c := row];
        categoryShown := categoryShown[c := hasVisibleItems];
        c := c + 1;
      }
    }

    /** toggleFAQ on item i of category c: every answer is collapsed,
        then the clicked one is expanded if it was collapsed before. */
    method Toggle(c: nat, i: nat)
      requires Valid()
      requires c < |categories| && i < |categories[c].items|
      modifies this`answerOpen
      ensures Valid()
      ensures answerOpen == Toggled(old(answerOpen), c, i)
    {
      var isHidden := !answerOpen[c][i];
      var k := 0;
      while k < |answerOpen|
        invariant 0 <= k <= |answerOpen|
        invariant Valid()
        invariant forall k', j :: 0 <= k' < k && 0 <= j < |answerOpen[k']| ==> !answerOpen[k'][j]
        invariant forall k' :: k <= k' < |answerOpen| ==> answerOpen[k'] == old(answerOpen)[k']
      {
        var row := answerOpen[k];
        var j := 0;
        while j < |row|
          invariant 0 <= j <= |row| && |row| == |answerOpen[k]|
          invariant forall j' :: 0 <= j' < j ==> !row[j']
        {
          row := row[j := false];
          j := j + 1;
        }
        answerOpen := answerOpen[k := row];
        k := k + 1;
      }
      if isHidden {
        answerOpen := answerOpen[c := answerOpen[c][i := true]];
      }
      ghost var expected := Toggled(old(answerOpen), c, i);
      forall k | 0 <= k < |expected|
        ensures answerOpen[k] == expected[k]
      {
        assert |answerOpen[k]| == |expected[k]|;
      }
    }
  }

  /** The accordion after a click on (c, i): only that answer may be
      open, and it is open exactly when it was closed. */
  function Toggled(answerOpen: seq<seq<bool>>, c: nat, i: nat): (r: seq<seq<bool>>)
    requires c < |answerOpen| && i < |answerOpen[c]|
    ensures |r| == |answerOpen| && forall k :: 0 <= k < |r| ==> |r[k]| == |answerOpen[k]|
  {
    var wasClosed := !answerOpen[c][i];
    seq(|answerOpen|, k requires 0 <= k < |answerOpen| =>
      seq(|answerOpen[k]|, j => k == c && j == i && wasClosed))
  }

  /** After any click at most one answer is open: the clicked one, exactly
      when it was closed before. */
  lemma ToggledOpensOne(answerOpen: seq<seq<bool>>, c: nat, i: nat)
    requires c < |answerOpen| && i < |answerOpen[c]|
    ensures AtMostOneOpen(Toggled(answerOpen, c, i))
    ensures Toggled(answerOpen, c, i)[c][i] <==> !answerOpen[c][i]
  {
  }

  /** No answer is open. */
  predicate AllClosed(answerOpen: seq<seq<bool>>) {
    forall k, j :: 0 <= k < |answerOpen| && 0 <= j < |answerOpen[k]| ==> !answerOpen[k][j]
  }

  /** Clicking the same question twice: from a closed answer the second
      click collapses everything again; from an open one the first click
      collapses everything and the second reopens that answer alone. */
  lemma ToggleTwice(answerOpen: seq<seq<bool>>, c: nat, i: nat)
    requires c < |answerOpen| && i < |answerOpen[c]|
    ensures var once := Toggled(answerOpen, c, i);
      var twice := Toggled(once, c, i);
      (!answerOpen[c][i] ==> AllClosed(twice))
      && (answerOpen[c][i] ==> AllClosed(once) && twice[c][i] && AtMostOneOpen(twice))
  {
  }
}
