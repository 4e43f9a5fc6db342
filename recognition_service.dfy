/** The mock facial-recognition service: a fixed catalogue of twelve photos and
    `recognizeFace`, which answers with a prefix of that catalogue whose length
    comes from one random draw. */
module RecognitionService {
  import opened Types
  import opened Strings

  /** `MOCK_PHOTOS`: twelve photos, events "1".."4" in rotation. */
  function Catalogue(): (c: seq<Photo>)
    ensures |c| == 12
    ensures forall i | 0 <= i < 12 :: c[i].id == "photo-" + NatToString(i + 1)
    ensures forall i | 0 <= i < 12 :: c[i].eventId == MockEventId(i)
  {
    MockPhotos(12, "Foto esportiva ")
  }

  /** `Math.floor(Math.random() * 8) + 4` for the draw `r` that `Math.random()` returned.
      The source comment promises up to 12 photos; the expression stops at 11. */
  function ResultCount(r: real): (n: nat)
    requires 0.0 <= r < 1.0
    ensures 4 <= n <= 11
  {
    (r * 8.0).Floor + 4
  }

  /** Every count from 4 to 11 is produced by some draw. */
  lemma ResultCountReachesEach(n: nat)
    requires 4 <= n <= 11
    ensures ResultCount((n - 4) as real / 8.0) == n
  {
    var r := (n - 4) as real / 8.0;
    assert r * 8.0 == (n - 4) as real;
  }

  /** `recognizeFace(imageData)` once its timer fires, for the draw `r`. */
  function RecognizeFace(imageData: string, r: real): (result: seq<Photo>)
    requires 0.0 <= r < 1.0
    ensures |result| == ResultCount(r) && 4 <= |result| <= 11
    ensures result == Catalogue()[..|result|]
    ensures forall i | 0 <= i < |result| :: result[i].id == "photo-" + NatToString(i + 1)
  {
    Catalogue()[..ResultCount(r)]
  }

  /** The result never holds the same photo id twice. */
  lemma RecognizedIdsDistinct(imageData: string, r: real)
    requires 0.0 <= r < 1.0
    ensures var result := RecognizeFace(imageData, r);
      forall i, j | 0 <= i < j < |result| :: result[i].id != result[j].id
  {
    var result := RecognizeFace(imageData, r);
    forall i, j | 0 <= i < j < |result| ensures result[i].id != result[j].id {
      MockPhotoIdsDistinct(i, j, "Foto esportiva ", "Foto esportiva ");
    }
  }

  /** The image is not looked at: any two images get the same answer for the same draw. */
  lemma RecognitionIgnoresImage(a: string, b: string, r: real)
    requires 0.0 <= r < 1.0
    ensures RecognizeFace(a, r) == RecognizeFace(b, r)
  {
  }
}
