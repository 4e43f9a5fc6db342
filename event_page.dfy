/** The page of one event: the four-event table it looks the route id up in, the
    thirty mock photos it filters by event, the loading / not-found / page views,
    and its own photo selection. */
module EventPage {
  import opened Wrappers
  import opened Strings
  import opened Seqs
  import opened Types
  import opened Selection

  /** `EVENTS`: the four events the page knows. */
  function Events(): (es: seq<EventInfo>)
    ensures |es| == 4
    ensures forall k | 0 <= k < 4 :: es[k].id == ["1234"[k]]
  {
    [ EventInfo("1", "Maratona de Boston 2025", "21 de Abril, 2025", "Boston, MA", 2457, None, None),
      EventInfo("2", "Triatlo de Nova York", "15 de Julho, 2025", "Nova York, NY", 1890, None, None),
      EventInfo("3", "Meia Maratona de Chicago", "7 de Setembro, 2025", "Chicago, IL", 1245, None, None),
      EventInfo("4", "Torneio de Futebol de Seattle", "12-14 de Agosto, 2025", "Seattle, WA", 3210, None, None) ]
  }

  /** `events.find(e => e.id === id)`: the first event with that id, if any. */
  function FindEvent(events: seq<EventInfo>, id: string): (r: Option<EventInfo>)
    ensures r.Some? ==> r.value.id == id
  {
    if events == [] then None
    else if events[0].id == id then Some(events[0])
    else FindEvent(events[1..], id)
  }

  /** `find` gives nothing exactly when no event has the id, and otherwise the first
      event that has it. */
  lemma {:induction false} FindEventSpec(events: seq<EventInfo>, id: string)
    ensures FindEvent(events, id).None? <==> forall k | 0 <= k < |events| :: events[k].id != id
    ensures FindEvent(events, id).Some? ==>
      exists k | 0 <= k < |events| :: events[k] == FindEvent(events, id).value
        && forall j | 0 <= j < k :: events[j].id != id
  {
    if events != [] && events[0].id != id {
      var r := FindEvent(events[1..], id);
      FindEventSpec(events[1..], id);
      if r.Some? {
        var k :| 0 <= k < |events| - 1 && events[1..][k] == r.value
                 && forall j | 0 <= j < k :: events[1..][j].id != id;
        assert events[k + 1] == r.value;
        forall j | 0 <= j < k + 1 ensures events[j].id != id {
          if j > 0 { assert events[j] == events[1..][j - 1]; }
        }
      } else {
        forall k | 0 <= k < |events| ensures events[k].id != id {
          if k > 0 { assert events[k] == events[1..][k - 1]; }
        }
      }
    } else if events != [] {
      assert events[0] == FindEvent(events, id).value;
    }
  }

  /** How many mock photos the page generates. */
  function CatalogueSize(): nat {
    30
  }

  /** The page's thirty mock photos. */
  function EventCatalogue(): (c: seq<Photo>)
    ensures |c| == 30
  {
    MockPhotos(CatalogueSize(), "Foto esportiva ")
  }

  /** `photo => photo.eventId === id`. */
  function OfEvent(id: string): Photo -> bool {
    (p: Photo) => p.eventId == id
  }

  /** `MOCK_PHOTOS.filter(photo => photo.eventId === id)`. */
  function PhotosOfEvent(id: string): (ps: seq<Photo>)
    ensures |ps| <= 30
  {
    Filter(EventCatalogue(), OfEvent(id))
  }

  /** The photos of an event all belong to it and come from the catalogue. */
  lemma PhotosOfEventBelong(id: string)
    ensures forall k | 0 <= k < |PhotosOfEvent(id)| ::
      PhotosOfEvent(id)[k].eventId == id && PhotosOfEvent(id)[k] in EventCatalogue()
  {
    var ps := PhotosOfEvent(id);
    forall k | 0 <= k < |ps| ensures ps[k].eventId == id && ps[k] in EventCatalogue() {
      assert OfEvent(id)(ps[k]);
    }
  }

  /** Stepping `n` by one adds one photo to exactly the event whose turn it is. */
  lemma CountStep(n: nat, c: nat)
    requires n > 0 && c < 4
    ensures (n + 3 - c) / 4 == (n + 2 - c) / 4 + (if (n - 1) % 4 == c then 1 else 0)
  {
    var q := (n - 1) / 4;
    var m := (n - 1) % 4;
    assert n - 1 == 4 * q + m;
    assert n + 3 - c == 4 * q + (m + 4 - c);
    assert n + 2 - c == 4 * q + (m + 3 - c);
  }

  /** Mock photo `i` belongs to event index `c` exactly when `i % 4 == c`. */
  lemma MockPhotoOfEvent(i: nat, c: nat, prefix: string)
    requires c < 4
    ensures OfEvent(["1234"[c]])(MockPhoto(i, prefix)) <==> i % 4 == c
  {
    var e := MockPhoto(i, prefix).eventId;
    assert e == ["1234"[i % 4]];
    if e == ["1234"[c]] {
      assert e[0] == "1234"[c];
    }
  }

  /** Among the first `n` mock photos, event index `c` (id `"1234"[c]`) has
      `(n + 3 - c) / 4` photos, whatever the caption. */
  lemma {:induction false} MockPhotosPerEvent(n: nat, c: nat, prefix: string)
    requires c < 4
    ensures |Filter(MockPhotos(n, prefix), OfEvent(["1234"[c]]))| == (n + 3 - c) / 4
  {
    if n > 0 {
      var keep := OfEvent(["1234"[c]]);
      var last := MockPhoto(n - 1, prefix);
      var init := MockPhotos(n - 1, prefix);
      assert MockPhotos(n, prefix) == init + [last];
      FilterAppend(init, [last], keep);
      MockPhotosPerEvent(n - 1, c, prefix);
      MockPhotoOfEvent(n - 1, c, prefix);
      assert |Filter([last], keep)| == if keep(last) then 1 else 0 by {
        assert [last][1..] == [];
      }
      CountStep(n, c);
    }
  }

  /** The event with index `c` owns `(33 - c) / 4` of the thirty photos. */
  lemma PhotosOfEventIndex(c: nat)
    requires c < 4
    ensures |PhotosOfEvent(["1234"[c]])| == (33 - c) / 4
  {
    assert EventCatalogue() == MockPhotos(30, "Foto esportiva ");
    MockPhotosPerEvent(30, c, "Foto esportiva ");
  }

  /** Events "1" and "2" get eight of the thirty photos, "3" and "4" seven, and
      any other id none. */
  lemma PhotosOfEventCount(id: string)
    ensures |PhotosOfEvent(id)| ==
      if id == "1" || id == "2" then 8 else if id == "3" || id == "4" then 7 else 0
  {
    if id == "1" {
      assert id == ["1234"[0]];
      PhotosOfEventIndex(0);
    } else if id == "2" {
      assert id == ["1234"[1]];
      PhotosOfEventIndex(1);
    } else if id == "3" {
      assert id == ["1234"[2]];
      PhotosOfEventIndex(2);
    } else if id == "4" {
      assert id == ["1234"[3]];
      PhotosOfEventIndex(3);
    } else {
      NoPhotosOfOtherEvent(id);
    }
  }

  /** An id outside "1".."4" selects no photo. */
  lemma NoPhotosOfOtherEvent(id: string)
    requires id !in {"1", "2", "3", "4"}
    ensures PhotosOfEvent(id) == []
  {
    var xs := EventCatalogue();
    forall k | 0 <= k < |xs| ensures !OfEvent(id)(xs[k]) {
      assert xs[k].eventId == MockEventId(k);
    }
    FilterRejectsAll(xs, OfEvent(id));
  }

  /** What the page renders. */
  datatype View = Spinner | NotFound | Page(event: EventInfo, photos: seq<Photo>)

  class EventPage {
    const id: string
    var event: Option<EventInfo>
    var photos: seq<Photo>
    var loading: bool
    var selected: seq<Photo>

    /** The selection never holds two photos with the same id. */
    ghost predicate Valid()
      reads this
    {
      IdsDistinct(selected)
    }

    /** First render for the route id: loading, nothing found or selected yet. */
    constructor (routeId: string)
      ensures Valid()
      ensures id == routeId && event == None && photos == [] && loading && selected == []
    {
      id := routeId;
      event, photos, loading, selected := None, [], true, [];
    }

    /** The load effect: look the event up and, when it exists, take its photos. */
    method Load()
      requires Valid()
      modifies this
      ensures Valid()
      ensures FindEvent(Events(), id).Some? ==> event == FindEvent(Events(), id) && photos == PhotosOfEvent(id)
      ensures FindEvent(Events(), id).None? ==> event == old(event) && photos == old(photos)
      ensures !loading && selected == old(selected)
    {
      var found := FindEvent(Events(), id);
      if found.Some? {
        event := found;
        photos := PhotosOfEvent(id);
      }
      loading := false;
    }

    /** `handleSelectPhoto`. */
    method SelectPhoto(photo: Photo)
      requires Valid()
      modifies this
      ensures Valid()
      ensures selected == Toggle(old(selected), photo)
      ensures event == old(event) && photos == old(photos) && loading == old(loading)
    {
      ToggleKeepsIdsDistinct(selected, photo);
      selected := Toggle(selected, photo);
    }

    /** Spinner while loading, "Evento Não Encontrado" without an event, else the page. */
    function CurrentView(): (v: View)
      reads this
      ensures v.Spinner? <==> loading
      ensures v.NotFound? <==> !loading && event.None?
      ensures v.Page? ==> Some(v.event) == event && v.photos == photos
    {
      if loading then Spinner
      else if event.None? then NotFound
      else Page(event.value, photos)
    }
  }

  /** The ids the page knows are exactly "1" to "4". */
  lemma KnownIds(id: string)
    ensures (exists k | 0 <= k < 4 :: Events()[k].id == id) <==> id in {"1", "2", "3", "4"}
  {
    var es := Events();
    if id in {"1", "2", "3", "4"} {
      var k := if id == "1" then 0 else if id == "2" then 1 else if id == "3" then 2 else 3;
      assert es[k].id == id;
    }
  }

  /** After loading, the page shows the event iff its id is one of "1".."4", and
      then exactly that event's photos. */
  lemma LoadedView(id: string, event: Option<EventInfo>, photos: seq<Photo>)
    requires event == FindEvent(Events(), id)
    requires event.Some? ==> photos == PhotosOfEvent(id)
    ensures event.Some? <==> id in {"1", "2", "3", "4"}
    ensures event.Some? ==> event.value.id == id && forall k | 0 <= k < |photos| :: photos[k].eventId == id
  {
    FindEventSpec(Events(), id);
    PhotosOfEventBelong(id);
    KnownIds(id);
  }
}
