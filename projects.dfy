/** Project filtering: the cards of the projects section, each tagged with
    a category, and the row of filter buttons above them, each naming the
    category it shows (or `all`). */
module Projects {
  import opened Options

  const All: string := "all"

  /** A project card: its `data-category` (absent is `None`), whether its
      display is `block` rather than `none`, and whether it has the
      `fade-in` class. */
  datatype Card = Card(category: Option<string>, displayed: bool, fadeIn: bool)

  /** A filter button: its `data-filter` and whether it has the `active`
      class. */
  datatype FilterButton = FilterButton(filter: Option<string>, active: bool)

  /** The visibility rule of `filterProjects`: a card is shown when the
      filter is `all` or is the card's own category. Two absent values are
      equal, as `undefined === undefined` is in the page. */
  function Shown(filter: Option<string>, category: Option<string>): (r: bool)
    ensures filter == Some(All) ==> r
    ensures filter != Some(All) ==> (r <==> category == filter)
  {
    filter == Some(All) || category == filter
  }

  /** A card once `filterProjects` has settled: shown and faded in, or
      hidden with its fade removed. Its category is kept. */
  function Filtered(c: Card, filter: Option<string>): (r: Card)
    ensures r.category == c.category
    ensures r.displayed == r.fadeIn
    ensures r.displayed <==> Shown(filter, c.category)
  {
    var show := Shown(filter, c.category);
    Card(c.category, show, show)
  }

  /** Number of buttons that have the `active` class. */
  function ActiveCount(bs: seq<FilterButton>): (n: nat)
    ensures n <= |bs|
  {
    if bs == [] then 0 else (if bs[0].active then 1 else 0) + ActiveCount(bs[1..])
  }

  lemma {:induction false} NoneActive(bs: seq<FilterButton>)
    requires forall i :: 0 <= i < |bs| ==> !bs[i].active
    ensures ActiveCount(bs) == 0
  {
    if bs != [] {
      assert forall i :: 0 <= i < |bs| - 1 ==> bs[1..][i] == bs[i + 1];
      NoneActive(bs[1..]);
    }
  }

  /** When only button `k` is active, exactly one button is. */
  lemma {:induction false} OnlyOneActive(bs: seq<FilterButton>, k: nat)
    requires k < |bs|
    requires forall i :: 0 <= i < |bs| ==> (bs[i].active <==> i == k)
    ensures ActiveCount(bs) == 1
  {
    assert forall i :: 0 <= i < |bs| - 1 ==> bs[1..][i] == bs[i + 1];
    if k == 0 {
      NoneActive(bs[1..]);
    } else {
      OnlyOneActive(bs[1..], k - 1);
    }
  }

  class Gallery {
    const cards: array<Card>
    const buttons: array<FilterButton>

    constructor (initialCards: seq<Card>, initialButtons: seq<FilterButton>)
      ensures cards[..] == initialCards && buttons[..] == initialButtons
      ensures fresh(cards) && fresh(buttons)
    {
      cards := new Card[|initialCards|](i requires 0 <= i < |initialCards| => initialCards[i]);
      buttons := new FilterButton[|initialButtons|](i requires 0 <= i < |initialButtons| => initialButtons[i]);
    }

    /** `filterProjects(category)`: every card is shown or hidden by the
        rule, in one pass over the cards. */
    method FilterProjects(category: Option<string>)
      modifies cards
      ensures forall i :: 0 <= i < cards.Length ==> cards[i] == Filtered(old(cards[i]), category)
    {
      for i := 0 to cards.Length
        invariant forall j :: 0 <= j < i ==> cards[j] == Filtered(old(cards[j]), category)
        invariant forall j :: i <= j < cards.Length ==> cards[j] == old(cards[j])
      {
        cards[i] := Filtered(cards[i], category);
      }
    }

    /** The click handler `setupFilters` installs on button `k`: every
        button loses `active`, the clicked one gains it, and the cards are
        filtered by its `data-filter`. */
    method Click(k: nat)
      requires k < buttons.Length
      modifies buttons, cards
      ensures forall i :: 0 <= i < buttons.Length ==> buttons[i] == old(buttons[i]).(active := i == k)
      ensures forall i :: 0 <= i < cards.Length ==> cards[i] == Filtered(old(cards[i]), old(buttons[k].filter))
      ensures ActiveCount(buttons[..]) == 1
    {
      for i := 0 to buttons.Length
        invariant forall j :: 0 <= j < i ==> buttons[j] == old(buttons[j]).(active := false)
        invariant forall j :: i <= j < buttons.Length ==> buttons[j] == old(buttons[j])
        invariant cards[..] == old(cards[..])
      {
        buttons[i] := buttons[i].(active := false);
      }
      buttons[k] := buttons[k].(active := true);
      var filter := buttons[k].filter;
      FilterProjects(filter);
      OnlyOneActive(buttons[..], k);
    }
  }
}
