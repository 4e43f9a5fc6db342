/** The photo detail modal: its four quality options, the remembered quality
    choice, the fallback used to show the selected price, and "Adicionar ao carrinho". */
module PhotoDetailModal {
  import opened Wrappers
  import opened Types

  /** A print quality on offer; the price is kept in centavos so that it is exact. */
  datatype QualityOption = QualityOption(id: string, name: string, resolution: string, priceCents: nat, description: string)

  /** The option list, cheapest first. */
  function QualityOptions(): (os: seq<QualityOption>)
    ensures |os| == 4
    ensures os[0].id == "web" && os[1].id == "standard" && os[2].id == "premium" && os[3].id == "original"
    ensures forall i, j | 0 <= i < j < 4 :: os[i].id != os[j].id && os[i].priceCents < os[j].priceCents
  {
    [ QualityOption("web", "Web", "1024 x 768px", 999, "Ideal para uso em redes sociais e websites"),
      QualityOption("standard", "Padrão", "2048 x 1536px", 1499, "Perfeito para impressões pequenas e médias"),
      QualityOption("premium", "Premium", "4096 x 3072px", 2499, "Alta resolução para impressões grandes"),
      QualityOption("original", "Original", "Resolução máxima", 3499, "Arquivo original sem compressão") ]
  }

  /** Some option has id `quality`. */
  predicate IsQualityId(quality: string) {
    exists k | 0 <= k < 4 :: QualityOptions()[k].id == quality
  }

  /** `qualityOptions.find(o => o.id === selectedQuality) || qualityOptions[1]`: the
      option whose price is shown. */
  function SelectedOption(selectedQuality: string): (o: QualityOption)
    ensures o in QualityOptions()
    ensures IsQualityId(selectedQuality) ==> o.id == selectedQuality
    ensures !IsQualityId(selectedQuality) ==> o == QualityOptions()[1]
  {
    var os := QualityOptions();
    if os[0].id == selectedQuality then os[0]
    else if os[1].id == selectedQuality then os[1]
    else if os[2].id == selectedQuality then os[2]
    else if os[3].id == selectedQuality then os[3]
    else os[1]
  }

  /** The modal renders only when open and given a photo. */
  predicate Renders(isOpen: bool, photo: Option<Photo>) {
    isOpen && photo.Some?
  }

  /** The modal's own state, which lives as long as the grid that mounts it (so the
      quality choice carries over from one photo to the next). */
  class PhotoDetailModal {
    var selectedQuality: string

    /** The remembered quality is always one of the options. */
    ghost predicate Valid()
      reads this
    {
      IsQualityId(selectedQuality)
    }

    /** The choice starts at "standard". */
    constructor ()
      ensures Valid() && selectedQuality == "standard"
    {
      selectedQuality := "standard";
      assert QualityOptions()[1].id == "standard";
    }

    /** Clicking option `k` of the list. */
    method ClickOption(k: nat)
      requires k < 4
      modifies this
      ensures Valid()
      ensures selectedQuality == QualityOptions()[k].id
    {
      selectedQuality := QualityOptions()[k].id;
    }

    /** Option `k` is drawn highlighted. */
    predicate Highlighted(k: nat)
      requires k < 4
      reads this
    {
      selectedQuality == QualityOptions()[k].id
    }

    /** "Adicionar ao carrinho": the arguments passed to `onAddToCart`. */
    method AddToCart(photo: Photo) returns (added: Photo, quality: string)
      requires Valid()
      ensures added == photo && quality == selectedQuality
      ensures IsQualityId(quality)
    {
      added, quality := photo, selectedQuality;
    }
  }

  /** Exactly one option is highlighted, and it is the one whose price is shown. */
  lemma HighlightMatchesPrice(m: PhotoDetailModal, k: nat)
    requires m.Valid() && k < 4
    ensures m.Highlighted(k) <==> SelectedOption(m.selectedQuality) == QualityOptions()[k]
  {
    var os := QualityOptions();
    if SelectedOption(m.selectedQuality) == os[k] {
      assert os[k].id == m.selectedQuality;
    }
  }
}
