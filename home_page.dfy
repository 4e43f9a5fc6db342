/** The home page: the recent and featured event tables the other pages reuse, and
    the list of distinct photographers it builds by scanning every event's
    photographers into a `Map` keyed by id. */
module HomePage {
  import opened Wrappers
  import opened Seqs
  import opened Types

  function Avatar(folder: string, file: string): string {
    "https://randomuser.me/api/portraits/" + folder + "/" + file + ".jpg"
  }

  /** `RECENT_EVENTS`. */
  function RecentEvents(): (es: seq<EventInfo>)
    ensures |es| == 4
  {
    [ EventInfo("1", "Maratona de Boston 2025", "April 21, 2025 - 08:00", "Boston, MA", 2457,
        Some("Corrida"),
        Some([ Photographer("1", "Carlos Silva", Avatar("men", "32")),
               Photographer("2", "Ana Oliveira", Avatar("women", "44")),
               Photographer("3", "Pedro Santos", Avatar("men", "46")) ])),
      EventInfo("2", "Triatlo de Nova York", "July 15, 2025 - 07:30", "Nova York, NY", 1890,
        Some("Triatlo"),
        Some([ Photographer("4", "Mariana Costa", Avatar("women", "65")),
               Photographer("5", "Rafael Mendes", Avatar("men", "22")),
               Photographer("6", "Juliana Alves", Avatar("women", "33")),
               Photographer("7", "Bruno Martins", Avatar("men", "55")) ])),
      EventInfo("3", "Meia Maratona de Chicago", "September 7, 2025 - 06:45", "Chicago, IL", 1245,
        Some("Corrida"),
        Some([ Photographer("8", "Fernanda Lima", Avatar("women", "12")),
               Photographer("9", "Ricardo Souza", Avatar("men", "36")),
               Photographer("10", "Camila Torres", Avatar("women", "28")),
               Photographer("11", "Diego Almeida", Avatar("men", "41")),
               Photographer("12", "Luiza Ferreira", Avatar("women", "57")),
               Photographer("13", "Marcos Ribeiro", Avatar("men", "62")) ])),
      EventInfo("4", "Torneio de Futebol de Seattle", "August 12, 2025 - 09:00", "Seattle, WA", 3210,
        Some("Futebol"),
        Some([ Photographer("14", "Gabriel Costa", Avatar("men", "18")),
               Photographer("15", "Isabela Santos", Avatar("women", "23")) ])) ]
  }

  /** `FEATURED_EVENTS`. */
  function FeaturedEvents(): (es: seq<EventInfo>)
    ensures |es| == 4
  {
    [ EventInfo("5", "Travessia da Baía de São Francisco", "June 8, 2025 - 07:15", "São Francisco, CA", 875,
        Some("Natação"),
        Some([ Photographer("16", "Luciana Vieira", Avatar("women", "42")),
               Photographer("17", "Thiago Pereira", Avatar("men", "29")),
               Photographer("18", "Carla Duarte", Avatar("women", "68")) ])),
      EventInfo("6", "Vôlei de Praia de Miami", "May 22, 2025 - 10:30", "Miami, FL", 1560,
        Some("Vôlei"),
        Some([ Photographer("19", "Amanda Rocha", Avatar("women", "15")),
               Photographer("20", "Felipe Gomes", Avatar("men", "77")),
               Photographer("21", "Bianca Lopes", Avatar("women", "37")),
               Photographer("22", "Henrique Dias", Avatar("men", "83")) ])),
      EventInfo("7", "Desafio de Mountain Bike de Denver", "July 29, 2025 - 08:45", "Denver, CO", 2145,
        Some("Ciclismo"),
        Some([ Photographer("23", "Renata Campos", Avatar("women", "52")),
               Photographer("24", "Lucas Moreira", Avatar("men", "67")),
               Photographer("25", "Patrícia Nunes", Avatar("women", "89")) ])),
      EventInfo("8", "Expo Fitness de Portland", "October 5, 2025 - 09:30", "Portland, OR", 3500,
        Some("Fitness"),
        Some([ Photographer("26", "Eduardo Freitas", Avatar("men", "91")),
               Photographer("27", "Daniela Cardoso", Avatar("women", "75")),
               Photographer("28", "Roberto Teixeira", Avatar("men", "39")),
               Photographer("29", "Aline Barros", Avatar("women", "63")),
               Photographer("30", "Gustavo Pinto", Avatar("men", "25")) ])) ]
  }

  /** `[...RECENT_EVENTS, ...FEATURED_EVENTS]`. */
  function HomeEvents(): (es: seq<EventInfo>)
    ensures |es| == 8
    ensures es[..4] == RecentEvents() && es[4..] == FeaturedEvents()
  {
    RecentEvents() + FeaturedEvents()
  }

  /** What `event.photographers?.forEach` visits: nothing when the field is missing. */
  function Entries(e: EventInfo): (ps: seq<Photographer>)
    ensures e.photographers.None? ==> ps == []
    ensures e.photographers.Some? ==> ps == e.photographers.value
  {
    e.photographers.GetOr([])
  }

  /** Every photographer entry the nested scan visits, in visiting order. */
  function AllEntries(events: seq<EventInfo>): (ps: seq<Photographer>)
  {
    if events == [] then [] else AllEntries(events[..|events| - 1]) + Entries(events[|events| - 1])
  }

  function PhotographerId(p: Photographer): string {
    p.id
  }

  /** The photographers the home page lists: the first record seen for each id, in the
      order the ids are first seen. */
  function Unique(events: seq<EventInfo>): (ps: seq<Photographer>)
    ensures |ps| <= |AllEntries(events)|
  {
    DedupBy(AllEntries(events), PhotographerId)
  }

  /** `seen` is the map the scan fills and `unique` its values in insertion order:
      the map's keys are exactly the ids in `unique`, each mapped to its record. */
  ghost predicate Indexes(seen: map<string, Photographer>, unique: seq<Photographer>) {
    && (forall id :: id in seen <==> HasKey(unique, PhotographerId, id))
    && (forall k | 0 <= k < |unique| :: unique[k].id in seen && seen[unique[k].id] == unique[k])
  }

  /** Inserting a photographer with a new id keeps the map and the list in step. */
  lemma IndexesInsert(seen: map<string, Photographer>, unique: seq<Photographer>, p: Photographer)
    requires Indexes(seen, unique) && p.id !in seen
    ensures Indexes(seen[p.id := p], unique + [p])
  {
    var seen1, unique1 := seen[p.id := p], unique + [p];
    forall id ensures id in seen1 <==> HasKey(unique1, PhotographerId, id) {
      HasKeySnoc(unique, p, PhotographerId, id);
    }
    forall k | 0 <= k < |unique1| ensures unique1[k].id in seen1 && seen1[unique1[k].id] == unique1[k] {
      if k < |unique| {
        assert unique1[k] == unique[k];
        assert HasKey(unique, PhotographerId, unique[k].id);
      }
    }
  }

  /** One step of the scan: an entry whose id is already in the map changes nothing;
      any other entry is inserted and appended. */
  lemma ScanStep(scanned: seq<Photographer>, p: Photographer, seen: map<string, Photographer>, unique: seq<Photographer>)
    requires unique == DedupBy(scanned, PhotographerId) && Indexes(seen, unique)
    ensures p.id in seen ==> DedupBy(scanned + [p], PhotographerId) == unique
    ensures p.id !in seen ==> DedupBy(scanned + [p], PhotographerId) == unique + [p]
                              && Indexes(seen[p.id := p], unique + [p])
  {
    DedupSnoc(scanned, p, PhotographerId);
    if p.id !in seen {
      IndexesInsert(seen, unique, p);
    }
  }

  /** The entries of one more event follow those already scanned. */
  lemma AllEntriesStep(events: seq<EventInfo>, i: nat)
    requires i < |events|
    ensures AllEntries(events[..i + 1]) == AllEntries(events[..i]) + Entries(events[i])
  {
    assert events[..i + 1][..i] == events[..i];
  }

  /** The inner `event.photographers?.forEach`: each entry whose id is not in the map
      yet is inserted. `done` stands for the entries scanned before this event. */
  method ScanPhotographers(ghost done: seq<Photographer>, ps: seq<Photographer>,
                           seen0: map<string, Photographer>, unique0: seq<Photographer>)
    returns (seen: map<string, Photographer>, unique: seq<Photographer>)
    requires unique0 == DedupBy(done, PhotographerId) && Indexes(seen0, unique0)
    ensures unique == DedupBy(done + ps, PhotographerId) && Indexes(seen, unique)
  {
    seen, unique := seen0, unique0;
    var j := 0;
    assert done + ps[..0] == done;
    while j < |ps|
      invariant 0 <= j <= |ps|
      invariant unique == DedupBy(done + ps[..j], PhotographerId)
      invariant Indexes(seen, unique)
    {
      var p := ps[j];
      PrefixSnoc(done, ps, j);
      ScanStep(done + ps[..j], p, seen, unique);
      if p.id !in seen {
        seen := seen[p.id := p];
        unique := unique + [p];
      }
      j := j + 1;
    }
    assert ps[..|ps|] == ps;
  }

  /** The scanned entries grow by one at a time. */
  lemma PrefixSnoc<T>(done: seq<T>, ps: seq<T>, j: nat)
    requires j < |ps|
    ensures done + ps[..j + 1] == (done + ps[..j]) + [ps[j]]
  {
    assert ps[..j + 1] == ps[..j] + [ps[j]];
  }

  /** The `useMemo` body: nested `forEach` loops that insert a photographer into the
      map only when its id is not there yet, then read the map out in insertion order.
      `seen` is the map; `unique` holds its values in insertion order. */
  method UniquePhotographers(events: seq<EventInfo>) returns (unique: seq<Photographer>)
    ensures unique == Unique(events)
  {
    var seen: map<string, Photographer> := map[];
    unique := [];
    var i := 0;
    while i < |events|
      invariant 0 <= i <= |events|
      invariant unique == DedupBy(AllEntries(events[..i]), PhotographerId)
      invariant Indexes(seen, unique)
    {
      AllEntriesStep(events, i);
      seen, unique := ScanPhotographers(AllEntries(events[..i]), Entries(events[i]), seen, unique);
      i := i + 1;
    }
    assert events[..|events|] == events;
  }

  /** No two listed photographers share an id. */
  lemma UniqueIdsDistinct(events: seq<EventInfo>)
    ensures var u := Unique(events);
      forall i, j | 0 <= i < j < |u| :: u[i].id != u[j].id
  {
    DedupKeysDistinct(AllEntries(events), PhotographerId);
  }

  /** Each entry of an event's photographer list is among the scanned entries. */
  lemma {:induction false} EntriesInAll(events: seq<EventInfo>, i: nat, p: Photographer)
    requires i < |events| && p in Entries(events[i])
    ensures p in AllEntries(events)
  {
    var init := events[..|events| - 1];
    if i < |events| - 1 {
      assert init[i] == events[i];
      EntriesInAll(init, i, p);
    }
  }

  /** Every photographer id that any event lists appears in the result. */
  lemma UniqueCoversEveryEvent(events: seq<EventInfo>, i: nat, p: Photographer)
    requires i < |events| && p in Entries(events[i])
    ensures exists k | 0 <= k < |Unique(events)| :: Unique(events)[k].id == p.id
  {
    var all := AllEntries(events);
    EntriesInAll(events, i, p);
    var m :| 0 <= m < |all| && all[m] == p;
    DedupCoversKeys(all, PhotographerId);
    assert HasKey(Unique(events), PhotographerId, PhotographerId(all[m]));
  }

  /** Each listed photographer is the first entry with its id, and the list follows
      the order of those first entries; `idx` gives their positions among all entries. */
  lemma UniqueKeepsFirstRecord(events: seq<EventInfo>) returns (idx: seq<nat>)
    ensures var u := Unique(events); var all := AllEntries(events);
      && |idx| == |u|
      && (forall m | 0 <= m < |u| :: idx[m] < |all| && u[m] == all[idx[m]])
      && (forall m | 0 <= m < |u| :: forall j | 0 <= j < idx[m] :: all[j].id != u[m].id)
      && (forall m, n | 0 <= m < n < |u| :: idx[m] < idx[n])
  {
    idx := DedupFirstOccurrences(AllEntries(events), PhotographerId);
  }

  /** An event without photographers (missing or empty list) contributes nothing. */
  lemma EmptyEventContributesNothing(events: seq<EventInfo>, e: EventInfo)
    requires e.photographers.None? || e.photographers.value == []
    ensures AllEntries(events + [e]) == AllEntries(events)
    ensures Unique(events + [e]) == Unique(events)
  {
    assert (events + [e])[..|events|] == events;
  }
}
