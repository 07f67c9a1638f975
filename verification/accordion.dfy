/** The page's accordion: one optional id says which item is open, a click
    on an item's header toggles it, and the open item decides which
    simulator is mounted. */
module Accordion {
  import opened Wrappers
  import opened Scenario

  // The ids the page's headers toggle.
  const SimCreate := "sim-create"
  const SimReply := "sim-reply"
  const GuideNotif := "guide-notif"
  const GuideChat := "guide-chat"

  /** Every item starts closed. */
  const InitialOpen: Option<string> := None

  predicate IsOpen(openItem: Option<string>, id: string) {
    openItem == Some(id)
  }

  /** A click on the header of `id`: an open item closes, any other click
      opens `id` alone, which closes whatever was open before. */
  function Toggle(openItem: Option<string>, id: string): (r: Option<string>)
    ensures forall x :: IsOpen(r, x) <==> x == id && !IsOpen(openItem, id)
    ensures r.None? <==> IsOpen(openItem, id)
  {
    if openItem == Some(id) then None else Some(id)
  }

  /** Toggling the same item twice restores the state, whether or not it
      was open, as long as no other item was. */
  lemma ToggleTwice(openItem: Option<string>, id: string)
    requires openItem.None? || openItem == Some(id)
    ensures Toggle(Toggle(openItem, id), id) == openItem
  {
  }

  /** Toggling a closed item twice while another is open closes both. */
  lemma ToggleTwiceClosesOther(openItem: Option<string>, id: string)
    requires openItem.Some? && openItem != Some(id)
    ensures Toggle(Toggle(openItem, id), id) == None
  {
  }

  /** The simulator that is mounted: the create simulator exactly when
      "sim-create" is open, the reply simulator exactly when "sim-reply" is,
      and the follow simulator never. */
  function MountedSimulator(openItem: Option<string>): (r: Option<Mode>)
    ensures r == Some(Create) <==> IsOpen(openItem, SimCreate)
    ensures r == Some(Reply) <==> IsOpen(openItem, SimReply)
    ensures r != Some(Follow)
  {
    if openItem == Some(SimCreate) then Some(Create)
    else if openItem == Some(SimReply) then Some(Reply)
    else None
  }

  /** The state after a series of header clicks, in order. */
  function ToggleAll(openItem: Option<string>, ids: seq<string>): Option<string>
    decreases |ids|
  {
    if ids == [] then openItem else Toggle(ToggleAll(openItem, ids[..|ids| - 1]), ids[|ids| - 1])
  }

  /** How many of the last clicks went to `x`. */
  function TrailingRun(ids: seq<string>, x: string): (k: nat)
    ensures k <= |ids|
    ensures forall i :: |ids| - k <= i < |ids| ==> ids[i] == x
    ensures k < |ids| ==> ids[|ids| - k - 1] != x
    decreases |ids|
  {
    if ids == [] || ids[|ids| - 1] != x then 0 else 1 + TrailingRun(ids[..|ids| - 1], x)
  }

  /** An independent account of a series of clicks: after at least one
      click, only the last clicked item can be open, and it is open exactly
      when the clicks it received at the end, counting its being open
      before any click, are odd in number. */
  function OpenAfter(openItem: Option<string>, ids: seq<string>): Option<string> {
    if ids == [] then openItem
    else
      var x := ids[|ids| - 1];
      var k := TrailingRun(ids, x);
      var wasOpen := k == |ids| && openItem == Some(x);
      if (k % 2 == 1) != wasOpen then Some(x) else None
  }

  /** Clicking through the headers one by one agrees with the account. */
  lemma {:induction false} ToggleAllOpenAfter(openItem: Option<string>, ids: seq<string>)
    ensures ToggleAll(openItem, ids) == OpenAfter(openItem, ids)
    decreases |ids|
  {
    if ids != [] {
      var p := ids[..|ids| - 1];
      var x := ids[|ids| - 1];
      ToggleAllOpenAfter(openItem, p);
      if p != [] {
        var y := p[|p| - 1];
        assert y == ids[|ids| - 2];
        if y == x {
          assert p[..|p| - 1] == ids[..|ids| - 1][..|p| - 1];
          assert TrailingRun(ids, x) == 1 + TrailingRun(p, x);
        } else {
          assert TrailingRun(ids, x) == 1;
          assert OpenAfter(openItem, p) != Some(x);
        }
      }
    }
  }

  /** So at most one item is ever open, and it is the last one clicked. */
  lemma OnlyLastClickedOpen(ids: seq<string>, x: string)
    requires IsOpen(ToggleAll(InitialOpen, ids), x)
    ensures ids != [] && x == ids[|ids| - 1]
  {
    ToggleAllOpenAfter(InitialOpen, ids);
  }
}
