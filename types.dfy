/** The storefront's records (photos, photographers, events), the mock photo
    generator every page and the recognition service share, and the two lookups
    that map a photo's event id to a photographer and to an event name. */
module Types {
  import opened Wrappers
  import opened Strings

  /** A photo on sale. Price and date are not modelled (floating point and clock). */
  datatype Photo = Photo(id: string, url: string, caption: string, eventId: string)

  datatype Photographer = Photographer(id: string, name: string, avatar: string)

  /** An event; `category` and `photographers` are optional in the source's type. */
  datatype EventInfo = EventInfo(
    id: string,
    name: string,
    date: string,
    location: string,
    totalPhotos: int,
    category: Option<string>,
    photographers: Option<seq<Photographer>>)

  /** A call a component makes to a callback prop of its parent. */
  datatype Callback = OnCapture(image: string) | OnClose

  /** Event id of mock photo `i`: events "1".."4" in rotation. */
  function MockEventId(i: nat): (e: string)
    ensures e == ["1234"[i % 4]]
  {
    if i % 4 == 0 then "1" else if i % 4 == 1 then "2" else if i % 4 == 2 then "3" else "4"
  }

  /** Mock photo `i` (0-based) with the caption `captionPrefix` followed by `i + 1`. */
  function MockPhoto(i: nat, captionPrefix: string): (p: Photo)
    ensures p.id == "photo-" + NatToString(i + 1)
    ensures p.eventId == MockEventId(i)
  {
    var n := NatToString(2000000 + i * 11);
    Photo("photo-" + NatToString(i + 1),
          "https://images.pexels.com/photos/" + n + "/pexels-photo-" + n + ".jpeg",
          captionPrefix + NatToString(i + 1),
          MockEventId(i))
  }

  /** `Array.from({ length: count }, (_, i) => ...)` building mock photos. */
  function MockPhotos(count: nat, captionPrefix: string): (ps: seq<Photo>)
    ensures |ps| == count
    ensures forall i | 0 <= i < count :: ps[i] == MockPhoto(i, captionPrefix)
  {
    seq(count, i requires 0 <= i < count => MockPhoto(i, captionPrefix))
  }

  /** Distinct positions give distinct ids. */
  lemma MockPhotoIdsDistinct(i: nat, j: nat, c: string, d: string)
    requires i != j
    ensures MockPhoto(i, c).id != MockPhoto(j, d).id
  {
    var a, b := NatToString(i + 1), NatToString(j + 1);
    if "photo-" + a == "photo-" + b {
      assert a == ("photo-" + a)[6..] == ("photo-" + b)[6..] == b;
      NatToStringInjective(i + 1, j + 1);
    }
  }

  /** The photographer credited on a photo of event `eventId`. */
  function PhotographerFor(eventId: string): (p: Photographer)
    ensures p.id == "photographer-" + eventId
    ensures p.name in {"Carlos Silva", "Ana Oliveira", "Pedro Santos", "Mariana Costa"}
    ensures p.name == "Mariana Costa" <==> eventId !in {"1", "2", "3"}
  {
    var name :=
      if eventId == "1" then "Carlos Silva"
      else if eventId == "2" then "Ana Oliveira"
      else if eventId == "3" then "Pedro Santos"
      else "Mariana Costa";
    var avatar :=
      if eventId == "1" then "https://randomuser.me/api/portraits/men/32.jpg"
      else if eventId == "2" then "https://randomuser.me/api/portraits/women/44.jpg"
      else if eventId == "3" then "https://randomuser.me/api/portraits/men/46.jpg"
      else "https://randomuser.me/api/portraits/women/65.jpg";
    Photographer("photographer-" + eventId, name, avatar)
  }

  /** The event name shown for a photo of event `eventId`. */
  function EventNameFor(eventId: string): (name: string)
    ensures name == "Torneio de Futebol de Seattle" <==> eventId !in {"1", "2", "3"}
  {
    if eventId == "1" then "Maratona de Boston 2025"
    else if eventId == "2" then "Triatlo de Nova York"
    else if eventId == "3" then "Meia Maratona de Chicago"
    else "Torneio de Futebol de Seattle"
  }

  /** An event card's avatar stack: the avatars drawn and the "+n" overflow badge. */
  datatype AvatarStack = AvatarStack(shown: seq<Photographer>, badge: Option<nat>)

  /** The avatar rule of the event cards: nothing unless the event lists at least one
      photographer; then the first `limit` avatars, and a badge counting the rest when
      there are more than `limit`. */
  function Avatars(photographers: Option<seq<Photographer>>, limit: nat): (r: Option<AvatarStack>)
    ensures r.None? <==> photographers.None? || photographers.value == []
    ensures r.Some? ==> var ps := photographers.value;
      && |r.value.shown| == (if |ps| < limit then |ps| else limit)
      && r.value.shown <= ps
      && (r.value.badge.Some? <==> |ps| > limit)
  {
    match photographers
    case None => None
    case Some(ps) =>
      if ps == [] then None
      else if |ps| > limit then Some(AvatarStack(ps[..limit], Some(|ps| - limit)))
      else Some(AvatarStack(ps, None))
  }

  /** The drawn avatars and the badge's number together count every photographer. */
  lemma AvatarsCountEveryone(photographers: Option<seq<Photographer>>, limit: nat)
    requires Avatars(photographers, limit).Some?
    ensures var a := Avatars(photographers, limit).value;
      |a.shown| + a.badge.GetOr(0) == |photographers.value|
  {
  }
}
