/** The photo selection ("cart") that the search results page and the event page
    keep: a toggle by photo id, the membership test behind the "selected" check
    mark, and the checkout link built from the selected ids. */
module Selection {
  import opened Types
  import opened Strings
  import opened Seqs

  /** `selected.some(p => p.id === id)`. */
  predicate IsSelected(selected: seq<Photo>, id: string) {
    exists k | 0 <= k < |selected| :: selected[k].id == id
  }

  /** `selected.filter(p => p.id !== id)`. */
  function Without(selected: seq<Photo>, id: string): (r: seq<Photo>)
    ensures !IsSelected(r, id)
    ensures forall other | other != id :: IsSelected(r, other) <==> IsSelected(selected, other)
  {
    var r := Filter(selected, (p: Photo) => p.id != id);
    assert forall other | other != id && IsSelected(selected, other) :: IsSelected(r, other) by {
      forall other | other != id && IsSelected(selected, other) ensures IsSelected(r, other) {
        var k :| 0 <= k < |selected| && selected[k].id == other;
        assert selected[k] in r;
      }
    }
    r
  }

  /** The selection update of `handleSelectPhoto`: a photo whose id is already
      selected is removed, any other photo is appended at the end. */
  function Toggle(selected: seq<Photo>, photo: Photo): (r: seq<Photo>)
    ensures IsSelected(r, photo.id) <==> !IsSelected(selected, photo.id)
    ensures forall other | other != photo.id :: IsSelected(r, other) <==> IsSelected(selected, other)
    ensures !IsSelected(selected, photo.id) ==> r == selected + [photo]
    ensures IsSelected(selected, photo.id) ==> |r| < |selected|
  {
    if IsSelected(selected, photo.id) then
      var k :| 0 <= k < |selected| && selected[k].id == photo.id;
      FilterRejectShrinks(selected, (p: Photo) => p.id != photo.id, k);
      Without(selected, photo.id)
    else
      var r := selected + [photo];
      assert r[|selected|] == photo;
      assert forall other :: IsSelected(selected, other) ==> IsSelected(r, other) by {
        forall other | IsSelected(selected, other) ensures IsSelected(r, other) {
          var k :| 0 <= k < |selected| && selected[k].id == other;
          assert r[k] == selected[k];
        }
      }
      r
  }

  /** Removing an id no member has changes nothing. */
  lemma WithoutAbsent(selected: seq<Photo>, id: string)
    requires !IsSelected(selected, id)
    ensures Without(selected, id) == selected
  {
    FilterKeepsAll(selected, (p: Photo) => p.id != id);
  }

  /** Toggling the same photo twice: when it was not selected the selection is
      restored exactly; when it was, the other members keep their order and the
      photo comes back at the end. */
  lemma ToggleTwice(selected: seq<Photo>, photo: Photo)
    ensures !IsSelected(selected, photo.id) ==> Toggle(Toggle(selected, photo), photo) == selected
    ensures IsSelected(selected, photo.id) ==>
      Toggle(Toggle(selected, photo), photo) == Without(selected, photo.id) + [photo]
  {
    var keep := (p: Photo) => p.id != photo.id;
    if !IsSelected(selected, photo.id) {
      FilterAppend(selected, [photo], keep);
      assert Filter([photo], keep) == [];
      WithoutAbsent(selected, photo.id);
    }
  }

  /** Ids of a selection, in order. */
  function Ids(selected: seq<Photo>): (ids: seq<string>)
    ensures |ids| == |selected| && forall k | 0 <= k < |selected| :: ids[k] == selected[k].id
  {
    seq(|selected|, k requires 0 <= k < |selected| => selected[k].id)
  }

  /** No two members of the selection have the same id. */
  ghost predicate IdsDistinct(selected: seq<Photo>) {
    KeysDistinct(selected, (p: Photo) => p.id)
  }

  /** Toggling never creates a second entry for an id, so a selection built by
      toggles from the empty list never holds the same id twice. */
  lemma ToggleKeepsIdsDistinct(selected: seq<Photo>, photo: Photo)
    requires IdsDistinct(selected)
    ensures IdsDistinct(Toggle(selected, photo))
  {
    var r := Toggle(selected, photo);
    if IsSelected(selected, photo.id) {
      FilterKeepsKeysDistinct(selected, (p: Photo) => p.id != photo.id, (p: Photo) => p.id);
    } else {
      forall i, j | 0 <= i < j < |r| ensures r[i].id != r[j].id {
        if j == |selected| {
          assert r[i] == selected[i];
        } else {
          assert r[i] == selected[i] && r[j] == selected[j];
        }
      }
    }
  }

  /** With distinct ids, removing a member's id deletes exactly that member and
      keeps the others in order. */
  lemma WithoutRemovesOne(selected: seq<Photo>, k: nat)
    requires IdsDistinct(selected) && k < |selected|
    ensures Without(selected, selected[k].id) == selected[..k] + selected[k + 1..]
  {
    var id := selected[k].id;
    var a, b := selected[..k], selected[k + 1..];
    forall m | 0 <= m < |a| ensures a[m].id != id {
      assert a[m] == selected[m];
    }
    forall m | 0 <= m < |b| ensures b[m].id != id {
      assert b[m] == selected[k + 1 + m];
    }
    assert selected == a + [selected[k]] + b;
    FilterDropsOne(a, selected[k], b, (p: Photo) => p.id != id);
  }

  const CheckoutPrefix := "/checkout?photos="

  /** The checkout link: the selected ids joined with "," in selection order. */
  function CheckoutTarget(selected: seq<Photo>): (url: string)
    ensures |url| >= |CheckoutPrefix| && url[..|CheckoutPrefix|] == CheckoutPrefix
  {
    CheckoutPrefix + Join(Ids(selected), ',')
  }

  /** The checkout page can recover the selected ids, in order, by splitting the
      query value on ",", provided something is selected and no id contains ",". */
  lemma CheckoutIdsRecoverable(selected: seq<Photo>)
    requires |selected| >= 1
    requires forall k | 0 <= k < |selected| :: ',' !in selected[k].id
    ensures Split(CheckoutTarget(selected)[|CheckoutPrefix|..], ',') == Ids(selected)
  {
    var url := CheckoutTarget(selected);
    assert url[|CheckoutPrefix|..] == Join(Ids(selected), ',');
    SplitJoin(Ids(selected), ',');
  }

  /** The bottom summary bar with the checkout button is shown only for a non-empty selection. */
  predicate SummaryBarVisible(selected: seq<Photo>) {
    |selected| > 0
  }

  /** Selecting a photo always shows the summary bar; deselecting one hides it
      exactly when that photo was the only one selected. */
  lemma {:induction false} SummaryBarAfterToggle(selected: seq<Photo>, photo: Photo)
    requires IdsDistinct(selected)
    ensures !IsSelected(selected, photo.id) ==> SummaryBarVisible(Toggle(selected, photo))
    ensures IsSelected(selected, photo.id) ==>
      (SummaryBarVisible(Toggle(selected, photo)) <==> |selected| > 1)
  {
    if IsSelected(selected, photo.id) {
      var k :| 0 <= k < |selected| && selected[k].id == photo.id;
      WithoutRemovesOne(selected, k);
      assert |Toggle(selected, photo)| == |selected| - 1;
    }
  }
}
