/** The inventory page's client-side pending list (inventory.php:223-359). Each card holds
    one item's count input and notes button. Changing an input edits the list, which
    holds at most one entry per (type, item id), and the save button reflects the
    list's size. Parsing is abstracted: a card carries parseFloat of its original count
    and of its current input, None standing for NaN. */
module Pending {
  import opened Base

  /** One entry of `pendingUpdates`: type, item id, name, counted quantity and notes. */
  datatype Entry = Entry(typeName: string, itemId: string, name: string, quantity: real, notes: string)

  /** One card: the input's data-type, data-id and data-name, the parsed data-original,
      the parsed current value, and the notes button's data-notes. */
  datatype Card = Card(typeName: string, itemId: string, name: string,
                       original: Option<real>, value: Option<real>, notes: string)

  datatype Page = Page(cards: seq<Card>, pending: seq<Entry>)

  predicate IsFor(e: Entry, c: Card) {
    e.typeName == c.typeName && e.itemId == c.itemId
  }

  predicate HasEntry(p: seq<Entry>, c: Card) {
    exists j :: 0 <= j < |p| && IsFor(p[j], c)
  }

  /** `parseFloat(input.value) || 0`: NaN and zero both become 0. */
  function NewValue(c: Card): real {
    c.value.GetOr(0.0)
  }

  /** `newValue !== originalValue`; NaN equals nothing, not even itself. */
  predicate Edited(c: Card) {
    c.original != Some(NewValue(c))
  }

  function EntryOf(c: Card): Entry {
    Entry(c.typeName, c.itemId, c.name, NewValue(c), c.notes)
  }

  /** No two entries share a (type, item id). */
  predicate KeysUnique(p: seq<Entry>) {
    forall i, j :: 0 <= i < j < |p| ==> p[i].typeName != p[j].typeName || p[i].itemId != p[j].itemId
  }

  /** `pendingUpdates.filter(u => !(u.type === type && u.item_id === id))` */
  function Without(p: seq<Entry>, c: Card): (r: seq<Entry>)
    ensures |r| <= |p|
    ensures !HasEntry(r, c)
    ensures forall e :: e in r <==> e in p && !IsFor(e, c)
    ensures KeysUnique(p) ==> KeysUnique(r)
  {
    if |p| == 0 then []
    else
      var rest := Without(p[1..], c);
      assert forall e :: e in p <==> e == p[0] || e in p[1..];
      if IsFor(p[0], c) then rest
      else
        assert KeysUnique(p) ==> forall j :: 0 <= j < |rest| ==> rest[j] in p[1..];
        [p[0]] + rest
  }

  /** markAsUpdated: an edited card's entry replaces any older one for the same item
      and goes last; an unedited card's entry is dropped. Other items' entries are
      untouched. */
  function MarkAsUpdated(p: seq<Entry>, c: Card): (r: seq<Entry>)
    ensures HasEntry(r, c) <==> Edited(c)
    ensures Edited(c) ==> |r| > 0 && r[|r| - 1] == EntryOf(c)
    ensures forall e :: !IsFor(e, c) ==> (e in r <==> e in p)
    ensures forall e :: e in r && IsFor(e, c) ==> e == EntryOf(c)
    ensures KeysUnique(p) ==> KeysUnique(r)
  {
    var rest := Without(p, c);
    if Edited(c) then
      assert forall e :: e in rest + [EntryOf(c)] <==> e in rest || e == EntryOf(c);
      assert IsFor((rest + [EntryOf(c)])[|rest|], c);
      rest + [EntryOf(c)]
    else rest
  }

  /** The save button: the badge shows the list's length, and the button is disabled
      and green exactly when the list is empty, amber otherwise. */
  datatype SaveButton = SaveButton(count: nat, disabled: bool, style: string)

  function UpdateSaveButton(p: seq<Entry>): (b: SaveButton)
    ensures b.count == |p|
    ensures b.disabled <==> b.style == "btn-success"
    ensures b.style in {"btn-success", "btn-warning"}
  {
    SaveButton(|p|, |p| == 0, if |p| > 0 then "btn-warning" else "btn-success")
  }

  // ---------------------------------------------------------------------------
  // The page as a whole

  /** The cards are for distinct items (each row of a table appears once). */
  predicate CardKeysUnique(cs: seq<Card>) {
    forall i, j :: 0 <= i < j < |cs| ==> cs[i].typeName != cs[j].typeName || cs[i].itemId != cs[j].itemId
  }

  /** What the list is meant to hold: one entry per edited card, carrying that card's
      current value and notes, and nothing else. */
  predicate Consistent(page: Page) {
    && KeysUnique(page.pending)
    && (forall i :: 0 <= i < |page.cards| ==> (HasEntry(page.pending, page.cards[i]) <==> Edited(page.cards[i])))
    && (forall i, e :: 0 <= i < |page.cards| && e in page.pending && IsFor(e, page.cards[i]) ==> e == EntryOf(page.cards[i]))
    && (forall e :: e in page.pending ==> exists i :: 0 <= i < |page.cards| && IsFor(e, page.cards[i]))
  }

  /** The input's change event: a new value, then markAsUpdated and updateSaveButton. */
  function Change(page: Page, i: int, value: Option<real>): (r: Page)
    requires 0 <= i < |page.cards|
    ensures |r.cards| == |page.cards|
    ensures r.cards[i].value == value
    ensures HasEntry(r.pending, r.cards[i]) <==> Edited(r.cards[i])
  {
    var c := page.cards[i].(value := value);
    Page(page.cards[i := c], MarkAsUpdated(page.pending, c))
  }

  /** saveNotes: the notes are stored on the button, then the card is re-marked. */
  function SaveNotes(page: Page, i: int, notes: string): (r: Page)
    requires 0 <= i < |page.cards|
    ensures |r.cards| == |page.cards|
    ensures r.cards[i].notes == notes
    ensures HasEntry(r.pending, r.cards[i]) <==> Edited(r.cards[i])
  {
    var c := page.cards[i].(notes := notes);
    Page(page.cards[i := c], MarkAsUpdated(page.pending, c))
  }

  /** Re-marking one card after changing only that card keeps the list consistent. */
  lemma RemarkConsistent(page: Page, i: int, c: Card)
    requires Consistent(page) && CardKeysUnique(page.cards)
    requires 0 <= i < |page.cards| && c.typeName == page.cards[i].typeName && c.itemId == page.cards[i].itemId
    ensures Consistent(Page(page.cards[i := c], MarkAsUpdated(page.pending, c)))
    ensures CardKeysUnique(page.cards[i := c])
  {
    RemarkEntries(page, i, c, page.cards[i := c]);
    RemarkOwners(page, i, c, page.cards[i := c]);
  }

  /** After re-marking, each card has an entry exactly when edited, and that entry is its own. */
  lemma RemarkEntries(page: Page, i: int, c: Card, cs: seq<Card>)
    requires Consistent(page) && CardKeysUnique(page.cards)
    requires 0 <= i < |page.cards| && c.typeName == page.cards[i].typeName && c.itemId == page.cards[i].itemId
    requires cs == page.cards[i := c]
    ensures forall k :: 0 <= k < |cs| ==> (HasEntry(MarkAsUpdated(page.pending, c), cs[k]) <==> Edited(cs[k]))
    ensures forall k, e :: 0 <= k < |cs| && e in MarkAsUpdated(page.pending, c) && IsFor(e, cs[k]) ==> e == EntryOf(cs[k])
  {
    var r := MarkAsUpdated(page.pending, c);
    forall k | 0 <= k < |cs|
      ensures HasEntry(r, cs[k]) <==> Edited(cs[k])
    {
      if k != i {
        assert cs[k] == page.cards[k];
        if HasEntry(r, cs[k]) {
          var j :| 0 <= j < |r| && IsFor(r[j], cs[k]);
          assert r[j] in page.pending;
        }
        if HasEntry(page.pending, cs[k]) {
          var j :| 0 <= j < |page.pending| && IsFor(page.pending[j], cs[k]);
          assert page.pending[j] in r;
        }
      }
    }
    forall k, e | 0 <= k < |cs| && e in r && IsFor(e, cs[k])
      ensures e == EntryOf(cs[k])
    {
      if k != i {
        assert e in page.pending;
      }
    }
  }

  /** After re-marking, every entry still belongs to some card. */
  lemma RemarkOwners(page: Page, i: int, c: Card, cs: seq<Card>)
    requires Consistent(page)
    requires 0 <= i < |page.cards| && c.typeName == page.cards[i].typeName && c.itemId == page.cards[i].itemId
    requires cs == page.cards[i := c]
    ensures forall e :: e in MarkAsUpdated(page.pending, c) ==> exists k :: 0 <= k < |cs| && IsFor(e, cs[k])
  {
    forall e | e in MarkAsUpdated(page.pending, c)
      ensures exists k :: 0 <= k < |cs| && IsFor(e, cs[k])
    {
      if !IsFor(e, c) {
        var k :| 0 <= k < |page.cards| && IsFor(e, page.cards[k]);
        assert IsFor(e, cs[k]);
      } else {
        assert IsFor(e, cs[i]);
      }
    }
  }

  /** Changes and notes keep the list consistent with the cards. */
  lemma ChangeConsistent(page: Page, i: int, value: Option<real>, notes: string)
    requires Consistent(page) && CardKeysUnique(page.cards) && 0 <= i < |page.cards|
    ensures Consistent(Change(page, i, value))
    ensures Consistent(SaveNotes(page, i, notes))
  {
    var c := page.cards[i];
    RemarkConsistent(page, i, c.(value := value));
    RemarkConsistent(page, i, c.(notes := notes));
  }

  /** On a consistent page the button is disabled exactly when no card is edited. */
  lemma SaveDisabledIffNothingEdited(page: Page)
    requires Consistent(page)
    ensures UpdateSaveButton(page.pending).disabled <==> forall i :: 0 <= i < |page.cards| ==> !Edited(page.cards[i])
  {
    if |page.pending| > 0 {
      var e := page.pending[0];
      assert e in page.pending;
      var k :| 0 <= k < |page.cards| && IsFor(e, page.cards[k]);
      assert HasEntry(page.pending, page.cards[k]);
    } else {
      forall i | 0 <= i < |page.cards|
        ensures !Edited(page.cards[i])
      {
        assert !HasEntry(page.pending, page.cards[i]);
      }
    }
  }

  /** Notes typed on an unchanged count are not queued: the entry is only built for an
      edited value, so such notes are never sent. */
  lemma NotesAloneNotQueued(page: Page, i: int, notes: string)
    requires 0 <= i < |page.cards| && !Edited(page.cards[i])
    ensures !HasEntry(SaveNotes(page, i, notes).pending, page.cards[i])
  {
    var r := SaveNotes(page, i, notes);
    assert !Edited(r.cards[i]);
  }

  // ---------------------------------------------------------------------------
  // clearAllUpdates

  function ResetCard(c: Card): Card {
    c.(value := c.original, notes := "")
  }

  function ResetCards(cs: seq<Card>): (r: seq<Card>)
    ensures |r| == |cs|
    ensures forall i :: 0 <= i < |cs| ==> r[i] == ResetCard(cs[i])
  {
    if |cs| == 0 then [] else [ResetCard(cs[0])] + ResetCards(cs[1..])
  }

  /** clearAllUpdates: the list is emptied, every input is reset to its original count,
      every notes button is cleared, and the save button is disabled. */
  function ClearAllUpdates(page: Page): (r: Page)
    ensures r.pending == []
    ensures |r.cards| == |page.cards|
    ensures forall i :: 0 <= i < |r.cards| ==>
      r.cards[i].value == page.cards[i].original && r.cards[i].notes == ""
      && r.cards[i].original == page.cards[i].original
    ensures UpdateSaveButton(r.pending).disabled
  {
    Page(ResetCards(page.cards), [])
  }

  /** The server always renders a number as the original count, and then a cleared page
      is consistent: nothing is edited and nothing is pending, so re-marking any card
      leaves the list empty. */
  lemma ClearConsistent(page: Page, i: int)
    requires forall k :: 0 <= k < |page.cards| ==> page.cards[k].original.Some?
    requires 0 <= i < |page.cards|
    ensures Consistent(ClearAllUpdates(page))
    ensures MarkAsUpdated([], ClearAllUpdates(page).cards[i]) == []
  {
    var r := ClearAllUpdates(page);
    forall k | 0 <= k < |r.cards|
      ensures !Edited(r.cards[k])
    {
      assert r.cards[k].value == r.cards[k].original;
    }
  }

  /** A page whose original count did not parse (NaN) is not consistent after clearing:
      the card reads as edited while the list is empty. */
  lemma UnparsedOriginalReadsEdited(c: Card)
    requires c.original.None?
    ensures Edited(ResetCard(c))
    ensures !Consistent(ClearAllUpdates(Page([c], [])))
  {
    var r := ClearAllUpdates(Page([c], []));
    assert r.cards[0] == ResetCard(c);
    assert !HasEntry(r.pending, r.cards[0]);
  }
}
