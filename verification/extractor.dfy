/**
 * The change scanner of postgres_to_es/extractor.py: the query builder
 * `bake_query`, the producer that reads the watermark, collects changed
 * persons and fans them out to films, and the enricher that turns the films
 * into documents for `Transform`.
 *
 * The database is a `Source`: for each query, the rows it returns. A
 * cursor hands those rows out `fetchSize` at a time, as `fetchmany` does.
 */
module Extractor {

  import opened Wrappers
  import opened StateManager
  import opened Models

  /** The state key of the watermark (`Extractor.MODIFIED`). */
  const ModifiedKey: string := "_modified"

  /** The watermark a new extractor starts from:
    * `datetime(1895, 12, 28, 0, 0).strftime('%Y-%m-%d %H:%M:%S')`. */
  const DefaultModified: string := "1895-12-28 00:00:00"

  /** The file the extractor keeps its state in. */
  const StateFile: string := "conditions.txt"

  /** The six keys `bake_query` knows. */
  const PersonsChanged: string := "qry_persons_changed"
  const GenresChanged: string := "qry_genres_changed"
  const FilmsChanged: string := "qry_fw_basic_changed"
  const FilmsWhereGenresChanged: string := "qry_fw_where_genres_changed"
  const FilmsWherePersonsChanged: string := "qry_fw_where_persons_changed"
  const AllChangesForEs: string := "qry_all_changes_for_es"

  const QueryKeys: set<string> :=
    {PersonsChanged, GenresChanged, FilmsChanged, FilmsWhereGenresChanged, FilmsWherePersonsChanged, AllChangesForEs}

  /** A positive `fetch_size`. */
  type PageSize = n: int | n >= 1 witness 1

  /** The tables scanned for changes. */
  datatype Table = Person | Genre | FilmWork

  /** The link tables joining films to persons and to genres. */
  datatype Link = PersonLink | GenreLink

  /** What each query of `bake_query` asks for, before it is rendered as text. */
  datatype Query =
    | ChangedSince(table: Table, since: string, limit: string)
    | FilmsLinkedTo(link: Link, ids: seq<string>, since: string, limit: string)
    | FilmDocuments(ids: seq<string>)

  function TableName(t: Table): string
  {
    match t
    case Person => "person"
    case Genre => "genre"
    case FilmWork => "film_work"
  }

  /** One id as an SQL string literal: `f"'{el}'"`. */
  function Quote(id: string): string
  {
    "'" + id + "'"
  }

  /** `', '.join(f"'{el}'" for el in ids)`: the body of an `IN (...)` list. */
  function InList(ids: seq<string>): string
  {
    if |ids| == 0 then ""
    else if |ids| == 1 then Quote(ids[0])
    else Quote(ids[0]) + ", " + InList(ids[1..])
  }

  /** No id holds a single quote, as the UUIDs the tables use never do. */
  predicate Unquoted(ids: seq<string>)
  {
    forall k, c :: 0 <= k < |ids| && 0 <= c < |ids[k]| ==> ids[k][c] != '\''
  }

  /** Position of the first single quote in `s`. */
  function QuoteIndex(s: string): (r: Option<nat>)
    ensures r.Some? ==> r.value < |s| && s[r.value] == '\''
    ensures r.Some? ==> forall c :: 0 <= c < r.value ==> s[c] != '\''
    ensures r.None? ==> forall c :: 0 <= c < |s| ==> s[c] != '\''
  {
    if s == [] then None
    else if s[0] == '\'' then Some(0)
    else match QuoteIndex(s[1..])
      case None => None
      case Some(k) => Some(k + 1)
  }

  /** Reads an `IN (...)` list body back into ids: the inverse of `InList`. */
  function ParseInList(s: string): Option<seq<string>>
  {
    if s == [] then Some([]) else ParseItems(s)
  }

  /** A non-empty list: a quoted id, then either the end or `", "` and more. */
  function ParseItems(s: string): Option<seq<string>>
    decreases |s|
  {
    if s == [] || s[0] != '\'' then None
    else match QuoteIndex(s[1..])
      case None => None
      case Some(k) =>
        var rest := s[k + 2..];
        if rest == [] then Some([s[1..k + 1]])
        else if |rest| >= 2 && rest[0] == ',' && rest[1] == ' ' then
          match ParseItems(rest[2..])
          case None => None
          case Some(items) => Some([s[1..k + 1]] + items)
        else None
  }

  /** The query texts, with the source's line breaks and indentation each
    * collapsed to one space. */
  function Sql(q: Query): string
  {
    match q
    case ChangedSince(t, since, limit) =>
      "SELECT id FROM content." + TableName(t) +
      " WHERE updated_at > '" + since + "' ORDER BY updated_at LIMIT " + limit + ";"
    case FilmsLinkedTo(link, ids, since, limit) =>
      var (table, alias, column) :=
        match link
        case PersonLink => ("person_film_work", "pfw", "person_id")
        case GenreLink => ("genre_film_work", "gfw", "genre_id");
      "SELECT DISTINCT fw.id FROM content.film_work fw LEFT JOIN content." + table + " " + alias +
      " ON " + alias + ".film_work_id = fw.id WHERE " + alias + "." + column + " in (" + InList(ids) +
      ") AND fw.updated_at > '" + since + "' LIMIT " + limit + ";"
    case FilmDocuments(ids) =>
      "SELECT row_to_json(film) as films FROM ( SELECT fw.id, fw.title, " +
      "( SELECT json_object_agg(role, persons) FROM ( SELECT pfw.role AS ROLE, json_agg(p.full_name) persons " +
      "FROM content.person_film_work pfw, content.person p WHERE pfw.film_work_id = fw.id " +
      "AND pfw.person_id = p.id GROUP BY 1 ) person ) as persons, " +
      "( SELECT json_agg(g.\"name\") FROM content.genre_film_work gfw, content.genre g " +
      "WHERE gfw.film_work_id = fw.id AND gfw.genre_id = g.id ) as genres " +
      "FROM content.film_work as fw WHERE fw.id IN (" + InList(ids) + ") ) film;"
  }

  /** The rows the database returns for the text `Sql(q)` of a query `q`:
    * single ids for the change and fan-out queries, one `films` JSON value
    * per film for the enrichment query. */
  datatype Source = Source(ids: Query -> seq<string>, films: Query -> seq<FilmJson>)

  /** What reaches `Transform.prepare_and_push` in one enricher run. */
  datatype EnrichOutcome =
    | Skipped                               // no changed films: returned before any query
    | Failed                                // a row failed validation; the producer catches it
    | Pushed(films: seq<FilmworkModel>)     // `prepare_and_push` was called with these

  /** Where the last `fetchmany(size)` page starts among `n` rows: the pages
    * start at 0, size, 2 * size, ... */
  function LastPageStart(n: nat, size: PageSize): (s: nat)
    ensures s <= n && n - s <= size
    ensures n > 0 ==> s < n
  {
    if n <= size then 0 else size + LastPageStart(n - size, size)
  }

  /** Where page `k` of a `fetchmany(size)` loop starts. */
  function PageOffset(k: nat, size: PageSize): nat
  {
    k * size
  }

  /** The last page starts where some page starts. */
  lemma {:induction false} LastPageStartAligned(n: nat, size: PageSize)
    ensures exists k: nat :: LastPageStart(n, size) == PageOffset(k, size)
    decreases n
  {
    if n <= size {
      assert LastPageStart(n, size) == PageOffset(0, size);
    } else {
      LastPageStartAligned(n - size, size);
      var k: nat :| LastPageStart(n - size, size) == PageOffset(k, size);
      assert LastPageStart(n, size) == PageOffset(k + 1, size);
    }
  }

  /** The last `fetchmany(size)` page of `rows`: the value a list rebuilt from
    * every page holds when the `while records := cur.fetchmany(...)` loop stops. */
  function LastPage<R>(rows: seq<R>, size: PageSize): (p: seq<R>)
    ensures |p| <= size && |p| <= |rows|
    ensures p == rows[|rows| - |p|..]
    ensures rows != [] ==> p != []
    ensures exists k: nat :: |rows| - |p| == PageOffset(k, size)
  {
    LastPageStartAligned(|rows|, size);
    rows[LastPageStart(|rows|, size)..]
  }

  /** The enricher's outcome for the changed film ids and the enrichment
    * query's rows. */
  function EnrichResult(changedFilms: seq<string>, rows: seq<FilmJson>, size: PageSize): EnrichOutcome
  {
    if changedFilms == [] then Skipped
    else match DecodeAll(rows)
      case None => Failed
      case Some(models) => Pushed(LastPage(models, size))
  }

  /** The enricher's outcome had a film without persons or without genres been
    * read with empty lists: it never fails, and it pushes one model per row of
    * the last page, in order; when no aggregate is NULL it is the enricher's
    * outcome as written. */
  function EnrichResultNullAsEmpty(changedFilms: seq<string>, rows: seq<FilmJson>, size: PageSize)
      : (r: EnrichOutcome)
    ensures !r.Failed?
    ensures r.Skipped? <==> changedFilms == []
    ensures r.Pushed? ==>
              && |r.films| == |LastPage(rows, size)|
              && forall i :: 0 <= i < |r.films| ==> r.films[i] == DecodeNullAsEmpty(LastPage(rows, size)[i])
    ensures DecodeAll(rows).Some? ==> r == EnrichResult(changedFilms, rows, size)
  {
    if changedFilms == [] then Skipped
    else
      var models := DecodeAllNullAsEmpty(rows);
      assert LastPage(models, size) == models[LastPageStart(|rows|, size)..];
      Pushed(LastPage(models, size))
  }

  /** The first-run initialisation: nothing when a truthy watermark is stored. */
  function InitWrites(stored: Option<string>, modified: string): seq<(string, string)>
  {
    if Truthy(stored) then []
    else [(ModifiedKey, modified), ("genres", "planned"), ("persons", "planned"), ("films", "planned")]
  }

  /** The watermark the producer scans from. */
  function Watermark(stored: Option<string>, modified: string): string
  {
    if Truthy(stored) then stored.value else modified
  }

  /** The database cursor: the rows of the last executed query and how many
    * `fetchmany` has handed out. */
  class Cursor<R> {
    var rows: seq<R>
    var pos: nat

    ghost predicate Valid()
      reads this
    {
      pos <= |rows|
    }

    constructor ()
      ensures Valid() && rows == [] && pos == 0
    {
      rows := [];
      pos := 0;
    }

    /** `cursor.execute(query)`, with `result` the rows the query returns. */
    method Execute(result: seq<R>)
      modifies this
      ensures Valid() && rows == result && pos == 0
    {
      rows := result;
      pos := 0;
    }

    /** `fetchmany(size)`: the next `size` rows, fewer at the end, none once exhausted. */
    method FetchMany(size: PageSize) returns (page: seq<R>)
      requires Valid()
      modifies this
      ensures Valid() && rows == old(rows)
      ensures page == old(rows[pos..if pos + size <= |rows| then pos + size else |rows|])
      ensures pos == old(pos) + |page|
    {
      var end := if pos + size <= |rows| then pos + size else |rows|;
      page := rows[pos..end];
      pos := end;
    }
  }

  class Extractor {
    const manager: State
    var modified: string
    var changedPersons: seq<string>
    var changedGenres: seq<string>
    var changedFilms: seq<string>
    const chunk: string
    const fetchSize: PageSize

    /** `__init__`: empty lists, state kept in conditions.txt (whose current
      * contents are `persisted`), the default watermark, and the chunk and fetch
      * sizes read from settings.ini. */
    constructor (persisted: File, chunkSize: string, fetchSize: PageSize)
      ensures fresh(manager) && fresh(manager.storage)
      ensures manager.storage.filePath == StateFile && manager.storage.file == persisted
      ensures modified == DefaultModified
      ensures changedPersons == [] && changedGenres == [] && changedFilms == []
      ensures chunk == chunkSize && this.fetchSize == fetchSize
    {
      changedPersons := [];
      changedGenres := [];
      changedFilms := [];
      var storage := new JsonFileStorage(StateFile, persisted);
      manager := new State(storage);
      modified := DefaultModified;
      chunk := chunkSize;
      this.fetchSize := fetchSize;
    }

    /** The `queries` dictionary, built from the current fields. */
    function Queries(): map<string, Query>
      reads this
    {
      map[
        PersonsChanged := ChangedSince(Person, modified, chunk),
        GenresChanged := ChangedSince(Genre, modified, chunk),
        FilmsChanged := ChangedSince(FilmWork, modified, chunk),
        FilmsWhereGenresChanged := FilmsLinkedTo(GenreLink, changedGenres, modified, chunk),
        FilmsWherePersonsChanged := FilmsLinkedTo(PersonLink, changedPersons, modified, chunk),
        AllChangesForEs := FilmDocuments(changedFilms)
      ]
    }

    /** `bake_query`: the query (whose text is `Sql` of it) for one of the six
      * keys, `None` for any other. */
    function BakeQuery(key: string): (r: Option<Query>)
      reads this
      ensures r.None? <==> key !in QueryKeys
      ensures key == PersonsChanged ==> r == Some(ChangedSince(Person, modified, chunk))
      ensures key == GenresChanged ==> r == Some(ChangedSince(Genre, modified, chunk))
      ensures key == FilmsChanged ==> r == Some(ChangedSince(FilmWork, modified, chunk))
      ensures key == FilmsWhereGenresChanged ==> r == Some(FilmsLinkedTo(GenreLink, changedGenres, modified, chunk))
      ensures key == FilmsWherePersonsChanged ==> r == Some(FilmsLinkedTo(PersonLink, changedPersons, modified, chunk))
      ensures key == AllChangesForEs ==> r == Some(FilmDocuments(changedFilms))
    {
      var queries := Queries();
      if key !in queries then None else Some(queries[key])
    }

    /** `postgres_enricher`: nothing when no films changed; otherwise run the
      * enrichment query and rebuild the list from every page, so only the last
      * page's models reach `Transform`. A row that fails validation ends the
      * run with `Failed`. */
    method PostgresEnricher(db: Source) returns (outcome: EnrichOutcome)
      ensures outcome == EnrichResult(changedFilms, db.films(FilmDocuments(changedFilms)), fetchSize)
    {
      if changedFilms == [] {
        return Skipped;
      }
      var cur := new Cursor<FilmJson>();
      cur.Execute(db.films(BakeQuery(AllChangesForEs).value));
      var toElastic := DecodePages(cur, fetchSize);
      outcome := if toElastic.None? then Failed else Pushed(toElastic.value);
    }

    /** The `while records := cur.fetchmany(self.fetch_size)` loop that
      * appends every fetched id to a freshly emptied list: the list ends up
      * holding all the query's rows, page after page, in order. */
    method Drain(cur: Cursor<string>) returns (ids: seq<string>)
      requires cur.Valid() && cur.pos == 0
      modifies cur
      ensures cur.Valid() && cur.rows == old(cur.rows)
      ensures ids == cur.rows
    {
      ids := [];
      while true
        invariant cur.Valid() && cur.rows == old(cur.rows)
        invariant ids == cur.rows[..cur.pos]
        decreases |cur.rows| - cur.pos
      {
        var records := cur.FetchMany(fetchSize);
        if records == [] {
          break;
        }
        ids := ids + records;
      }
    }

    /** The watermark step of `postgres_producer`: take a truthy stored
      * '_modified', or else write the first-run state. */
    method LoadWatermark(saves: seq<SaveOutcome>)
      requires |saves| >= 4
      modifies this`modified, manager.storage
      ensures manager.storage.file ==
                AfterSets(old(manager.storage.file), InitWrites(old(manager.GetState(ModifiedKey)), old(modified)), saves)
      ensures modified == Watermark(old(manager.GetState(ModifiedKey)), old(modified))
    {
      var stored := manager.GetState(ModifiedKey);
      if Truthy(stored) {
        modified := stored.value;
      } else {
        ghost var file0 := manager.storage.file;
        ghost var writes := InitWrites(stored, modified);
        var _ := manager.SetState(ModifiedKey, modified, saves[0]);
        Initialised(file0, writes, saves, 1);
        var _ := manager.SetState("genres", "planned", saves[1]);
        Initialised(file0, writes, saves, 2);
        var _ := manager.SetState("persons", "planned", saves[2]);
        Initialised(file0, writes, saves, 3);
        var _ := manager.SetState("films", "planned", saves[3]);
        Initialised(file0, writes, saves, 4);
        assert writes[..4] == writes;
      }
    }

    /** `postgres_producer`: read or initialise the watermark, mark 'persons'
      * as 'loaded', collect the changed persons from every page, fan them out
      * to films when there are any, and run the enricher, whose failure is
      * caught. `initSaves[i]` is how the save of the i-th first-run
      * `set_state` ends, `loadedSave` how the save of 'persons' := 'loaded' ends. */
    method PostgresProducer(db: Source, initSaves: seq<SaveOutcome>, loadedSave: SaveOutcome)
      returns (enriched: EnrichOutcome)
      requires |initSaves| >= 4
      modifies this`modified, this`changedPersons, this`changedFilms, manager.storage
      ensures manager.storage.file ==
                AfterSet(AfterSets(old(manager.storage.file), InitWrites(old(manager.GetState(ModifiedKey)), old(modified)), initSaves),
                         "persons", "loaded", loadedSave)
      ensures modified == Watermark(old(manager.GetState(ModifiedKey)), old(modified))
      ensures changedPersons == db.ids(ChangedSince(Person, modified, chunk))
      ensures changedFilms ==
                if changedPersons == [] then old(changedFilms)
                else db.ids(FilmsLinkedTo(PersonLink, changedPersons, modified, chunk))
      ensures changedGenres == old(changedGenres)
      ensures enriched == EnrichResult(changedFilms, db.films(FilmDocuments(changedFilms)), fetchSize)
    {
      LoadWatermark(initSaves);
      var cur := new Cursor<string>();
      ScanPersons(db, cur, loadedSave);
      FanOutToFilms(db, cur);
      enriched := PostgresEnricher(db);
    }

    /** The person scan of `postgres_producer`: run the change query, mark
      * 'persons' as 'loaded', and collect every changed person id. */
    method ScanPersons(db: Source, cur: Cursor<string>, loadedSave: SaveOutcome)
      modifies this`changedPersons, manager.storage, cur
      ensures cur.Valid()
      ensures manager.storage.file == AfterSet(old(manager.storage.file), "persons", "loaded", loadedSave)
      ensures changedPersons == db.ids(ChangedSince(Person, modified, chunk))
    {
      cur.Execute(db.ids(BakeQuery(PersonsChanged).value));
      var _ := manager.SetState("persons", "loaded", loadedSave);
      changedPersons := [];
      changedPersons := Drain(cur);
    }

    /** The fan-out of `postgres_producer`: only when some person changed,
      * replace the changed films by every film linked to those persons. */
    method FanOutToFilms(db: Source, cur: Cursor<string>)
      requires cur.Valid()
      modifies this`changedFilms, cur
      ensures changedFilms ==
                if changedPersons == [] then old(changedFilms)
                else db.ids(FilmsLinkedTo(PersonLink, changedPersons, modified, chunk))
    {
      if changedPersons != [] {
        cur.Execute(db.ids(BakeQuery(FilmsWherePersonsChanged).value));
        changedFilms := [];
        changedFilms := Drain(cur);
      }
    }
  }

  /** One more page of the enricher's loop: the rows decoded so far grow by
    * that page's models, and the last page still lies ahead unless the rows
    * are exhausted. */
  lemma PageStep(rows: seq<FilmJson>, start: nat, end: nat, size: PageSize)
    requires start < end <= |rows| && end == (if start + size <= |rows| then start + size else |rows|)
    requires DecodeAll(rows[..start]).Some? && DecodeAll(rows[start..end]).Some?
    ensures DecodeAll(rows[..end]).Some?
    ensures DecodeAll(rows[..end]).value[start..] == DecodeAll(rows[start..end]).value
    ensures end < |rows| ==> LastPageStart(|rows| - start, size) == size + LastPageStart(|rows| - end, size)
  {
    assert rows[..end] == rows[..start] + rows[start..end];
    DecodeNextPage(rows[..start], rows[start..end]);
  }

  /** The page loop of `postgres_enricher`: rebuild the list of models from
    * every page, so it ends holding the last page's models; `None` when a row
    * fails validation. */
  method DecodePages(cur: Cursor<FilmJson>, size: PageSize) returns (toElastic: Option<seq<FilmworkModel>>)
    requires cur.Valid() && cur.pos == 0
    modifies cur
    ensures toElastic == match DecodeAll(old(cur.rows))
                         case None => None
                         case Some(models) => Some(LastPage(models, size))
  {
    ghost var rows := cur.rows;
    var models: seq<FilmworkModel> := [];
    ghost var lastStart: nat := 0;
    while true
      invariant cur.Valid() && cur.rows == rows
      invariant DecodeAll(rows[..cur.pos]).Some?
      invariant lastStart <= cur.pos
      invariant models == DecodeAll(rows[..cur.pos]).value[lastStart..]
      invariant LastPageStart(|rows|, size) ==
                  if cur.pos == |rows| then lastStart else cur.pos + LastPageStart(|rows| - cur.pos, size)
      decreases |rows| - cur.pos
    {
      ghost var start := cur.pos;
      var records := cur.FetchMany(size);
      assert records == rows[start..cur.pos];
      if records == [] {
        break;
      }
      var page := DecodeAll(records);
      if page.None? {
        DecodeFailsWithSlice(rows, start, cur.pos);
        return None;
      }
      PageStep(rows, start, cur.pos, size);
      models := page.value;
      lastStart := start;
    }
    assert rows[..cur.pos] == rows;
    toElastic := Some(models);
  }

  /** The file after the first `k` writes of a sequence, one write at a time. */
  lemma Initialised(file: File, writes: seq<(string, string)>, saves: seq<SaveOutcome>, k: nat)
    requires 0 < k <= |writes| <= |saves|
    ensures AfterSets(file, writes[..k], saves) ==
              AfterSet(AfterSets(file, writes[..k - 1], saves), writes[k - 1].0, writes[k - 1].1, saves[k - 1])
  {
    assert writes[..k] == writes[..k - 1] + [writes[k - 1]];
    AfterSetsSnoc(file, writes[..k - 1], writes[k - 1], saves);
  }

  /** One more `set_state` after a sequence of them. */
  lemma {:induction false} AfterSetsSnoc(file: File, writes: seq<(string, string)>, w: (string, string), saves: seq<SaveOutcome>)
    requires |writes| < |saves|
    ensures AfterSets(file, writes + [w], saves) == AfterSet(AfterSets(file, writes, saves), w.0, w.1, saves[|writes|])
    decreases |writes|
  {
    if writes != [] {
      assert (writes + [w])[1..] == writes[1..] + [w];
      AfterSetsSnoc(AfterSet(file, writes[0].0, writes[0].1, saves[0]), writes[1..], w, saves[1..]);
    }
  }

  /** The first quote after an unquoted id is the one that closes it. */
  lemma {:induction false} QuoteIndexAfter(id: string, tail: string)
    requires forall c :: 0 <= c < |id| ==> id[c] != '\''
    ensures QuoteIndex(id + "'" + tail) == Some(|id|)
  {
    if id != [] {
      assert (id + "'" + tail)[1..] == id[1..] + "'" + tail;
      QuoteIndexAfter(id[1..], tail);
    }
  }

  /** For ids without quotes, the `IN (...)` body lists them back in the same
    * order: nothing is lost, added or reordered. */
  lemma {:induction false} InListRoundTrip(ids: seq<string>)
    requires Unquoted(ids)
    ensures ParseInList(InList(ids)) == Some(ids)
  {
    if ids != [] {
      ItemsRoundTrip(ids);
    }
  }

  lemma {:induction false} ItemsRoundTrip(ids: seq<string>)
    requires ids != [] && Unquoted(ids)
    ensures InList(ids) != [] && ParseItems(InList(ids)) == Some(ids)
    decreases |ids|
  {
    var id := ids[0];
    var tail := if |ids| == 1 then "" else ", " + InList(ids[1..]);
    assert InList(ids) == "'" + id + "'" + tail;
    assert forall c :: 0 <= c < |id| ==> id[c] != '\'';
    QuotedItem(id, tail);
    if |ids| == 1 {
      assert ids == [id];
    } else {
      assert Unquoted(ids[1..]) by {
        forall k, c | 0 <= k < |ids[1..]| && 0 <= c < |ids[1..][k]|
          ensures ids[1..][k][c] != '\''
        {
          assert ids[1..][k] == ids[k + 1];
        }
      }
      ItemsRoundTrip(ids[1..]);
      assert tail[..2] == ", " && tail[2..] == InList(ids[1..]);
      assert [id] + ids[1..] == ids;
    }
  }

  /** Reading one quoted id off the front of a list body. */
  lemma QuotedItem(id: string, tail: string)
    requires forall c :: 0 <= c < |id| ==> id[c] != '\''
    ensures tail == [] ==> ParseItems("'" + id + "'" + tail) == Some([id])
    ensures |tail| >= 2 && tail[..2] == ", " && ParseItems(tail[2..]).Some? ==>
              ParseItems("'" + id + "'" + tail) == Some([id] + ParseItems(tail[2..]).value)
  {
    QuotedSplit(id, tail);
    if |tail| >= 2 && tail[..2] == ", " {
      assert tail[0] == ',' && tail[1] == ' ';
    }
  }

  /** A quoted id followed by `tail`: where the closing quote is, and what
    * lies on either side of it. */
  lemma QuotedSplit(id: string, tail: string)
    requires forall c :: 0 <= c < |id| ==> id[c] != '\''
    ensures var s := "'" + id + "'" + tail;
            && s[0] == '\''
            && QuoteIndex(s[1..]) == Some(|id|)
            && s[1..|id| + 1] == id
            && s[|id| + 2..] == tail
  {
    var s := "'" + id + "'" + tail;
    assert s[1..] == id + "'" + tail;
    QuoteIndexAfter(id, tail);
  }

  /** With a quote inside an id the list is ambiguous: one id and two ids
    * give the same `IN (...)` text. */
  lemma InListAmbiguousWithQuotes()
    ensures InList(["a', 'b"]) == InList(["a", "b"])
  {
  }

  /** A stored truthy watermark is kept and nothing is initialised; otherwise
    * '_modified' gets the extractor's current watermark first, and nothing
    * else the producer writes touches '_modified'. */
  lemma WatermarkWrittenOnlyOnFirstRun(stored: Option<string>, modified: string)
    ensures Truthy(stored) ==> InitWrites(stored, modified) == [] && Watermark(stored, modified) == stored.value
    ensures !Truthy(stored) ==> InitWrites(stored, modified)[0] == (ModifiedKey, modified)
                                && Watermark(stored, modified) == modified
    ensures forall i :: 0 < i < |InitWrites(stored, modified)| ==> InitWrites(stored, modified)[i].0 != ModifiedKey
  {
  }

  /** The durable state after a producer run whose saves all succeed: 'persons'
    * is 'loaded', '_modified' holds the watermark scanned from, a first run
    * also marks 'genres' and 'films' 'planned', and other keys are untouched. */
  lemma ProducerStateWhenSaved(file: File, modified: string, initSaves: seq<SaveOutcome>)
    requires |initSaves| >= 4 && forall i :: 0 <= i < |initSaves| ==> initSaves[i].Saved?
    ensures var stored := Lookup(Retrieved(file), ModifiedKey);
            var after := Retrieved(AfterSet(AfterSets(file, InitWrites(stored, modified), initSaves), "persons", "loaded", Saved));
            && Lookup(after, "persons") == Some("loaded")
            && Lookup(after, ModifiedKey) == Some(Watermark(stored, modified))
            && (!Truthy(stored) ==> Lookup(after, "genres") == Some("planned") && Lookup(after, "films") == Some("planned"))
            && (forall k :: k != ModifiedKey && k != "genres" && k != "persons" && k != "films" ==>
                  Lookup(after, k) == Lookup(Retrieved(file), k))
  {
    var m := Retrieved(file);
    ProducerMapWhenSaved(file, modified, initSaves);
    ProducerMapKeys(m, Lookup(m, ModifiedKey), modified);
  }

  /** Reading back the map a fully saved producer run leaves, key by key. */
  lemma ProducerMapKeys(m: map<string, string>, stored: Option<string>, modified: string)
    requires stored == Lookup(m, ModifiedKey)
    ensures var after :=
              (if Truthy(stored) then m
               else m[ModifiedKey := modified]["genres" := "planned"]["persons" := "planned"]["films" := "planned"])
              ["persons" := "loaded"];
            && Lookup(after, "persons") == Some("loaded")
            && Lookup(after, ModifiedKey) == Some(Watermark(stored, modified))
            && (!Truthy(stored) ==> Lookup(after, "genres") == Some("planned") && Lookup(after, "films") == Some("planned"))
            && (forall k :: k != ModifiedKey && k != "genres" && k != "persons" && k != "films" ==>
                  Lookup(after, k) == Lookup(m, k))
  {
    assert |ModifiedKey| == 9 && |"genres"| == 6 && |"persons"| == 7 && |"films"| == 5;
  }

  /** The durable map after a producer run whose saves all succeed, written out. */
  lemma ProducerMapWhenSaved(file: File, modified: string, initSaves: seq<SaveOutcome>)
    requires |initSaves| >= 4 && forall i :: 0 <= i < |initSaves| ==> initSaves[i].Saved?
    ensures var m := Retrieved(file);
            var stored := Lookup(m, ModifiedKey);
            Retrieved(AfterSet(AfterSets(file, InitWrites(stored, modified), initSaves), "persons", "loaded", Saved)) ==
              (if Truthy(stored) then m
               else m[ModifiedKey := modified]["genres" := "planned"]["persons" := "planned"]["films" := "planned"])
              ["persons" := "loaded"]
  {
    var m := Retrieved(file);
    var stored := Lookup(m, ModifiedKey);
    AllSavedOverlay(file, InitWrites(stored, modified), initSaves);
    InitOverlay(m, stored, modified);
  }

  /** The map after the first-run initialisation, written out. */
  lemma InitOverlay(m: map<string, string>, stored: Option<string>, modified: string)
    ensures Overlay(m, InitWrites(stored, modified)) ==
      if Truthy(stored) then m
      else m[ModifiedKey := modified]["genres" := "planned"]["persons" := "planned"]["films" := "planned"]
  {
    var writes := InitWrites(stored, modified);
    if !Truthy(stored) {
      calc {
        Overlay(m, writes);
        Overlay(m[ModifiedKey := modified], writes[1..]);
        Overlay(m[ModifiedKey := modified]["genres" := "planned"], writes[2..]);
        Overlay(m[ModifiedKey := modified]["genres" := "planned"]["persons" := "planned"], writes[3..]);
        Overlay(m[ModifiedKey := modified]["genres" := "planned"]["persons" := "planned"]["films" := "planned"], writes[4..]);
      }
    }
  }

  /** With a truthy stored watermark the producer leaves '_modified' as it was
    * unless the one save it does truncates the file: it never advances it. */
  lemma WatermarkNeverAdvanced(file: File, modified: string, initSaves: seq<SaveOutcome>, loadedSave: SaveOutcome)
    requires |initSaves| >= 4 && !loadedSave.WriteFailed?
    requires Truthy(Lookup(Retrieved(file), ModifiedKey))
    ensures var stored := Lookup(Retrieved(file), ModifiedKey);
            Lookup(Retrieved(AfterSet(AfterSets(file, InitWrites(stored, modified), initSaves), "persons", "loaded", loadedSave)),
                   ModifiedKey) == stored
  {
  }

  /** The enricher's outcome: skipped without changed films; otherwise, when
    * every row decodes, only the models of the last page, at most `size` of
    * them and in row order, reach `Transform`, so with more rows than one
    * page the earlier pages are dropped. */
  lemma EnricherPushesLastPage(changedFilms: seq<string>, rows: seq<FilmJson>, size: PageSize)
    ensures changedFilms == [] ==> EnrichResult(changedFilms, rows, size) == Skipped
    ensures changedFilms != [] && DecodeAll(rows).None? ==> EnrichResult(changedFilms, rows, size) == Failed
    ensures changedFilms != [] && DecodeAll(rows).Some? ==>
              var pushed := EnrichResult(changedFilms, rows, size);
              && pushed.Pushed?
              && |pushed.films| <= size
              && pushed.films == DecodeAll(rows).value[|rows| - |pushed.films|..]
              && (rows != [] ==> pushed.films != [])
              && (exists k: nat :: |rows| - |pushed.films| == PageOffset(k, size))
              && (|rows| > size ==> |pushed.films| < |rows|)
  {
  }

  /** With 150 changed films fetched 100 at a time, only the last 50 are pushed. */
  lemma EnricherDropsFirstPage()
    ensures LastPageStart(150, 100) == 100
  {
  }

  /** One film without persons or without genres (`json_object_agg` or
    * `json_agg` over no rows gives NULL) fails the whole enricher run, so no
    * film reaches `Transform`; read as empty lists, every film of the last
    * page would be pushed. */
  lemma NullAggregateFailsRun(changedFilms: seq<string>, rows: seq<FilmJson>, size: PageSize, i: nat)
    requires changedFilms != [] && i < |rows|
    requires rows[i].persons.None? || rows[i].genres.None?
    ensures EnrichResult(changedFilms, rows, size) == Failed
    ensures EnrichResultNullAsEmpty(changedFilms, rows, size).Pushed?
  {
    assert Decode(rows[i]).None?;
  }
}
