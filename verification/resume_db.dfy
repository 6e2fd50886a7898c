/** The score cache: one row per file path in the `photo_scores` table,
    holding the file's hash, its final score, and the analysis and quality
    dicts as JSON text. A lookup hits only when the stored hash matches. */
module ResumeDb {
  import opened Wrappers
  import opened PyValues

  /** A JSON object as `json.dumps` writes it. */
  type Doc = map<string, Value>

  /** The text `json.dumps(value)` stores for a dict. The encoding itself is
      not modelled: the text carries the dict it encodes. */
  datatype JsonText = JsonText(doc: Doc)

  /** A row of `photo_scores`, keyed by `file_path`. */
  datatype Row = Row(fileHash: string, score: real, analysisJson: Option<JsonText>,
                     qualityJson: Option<JsonText>, lastProcessedAt: string)

  /** `CachedScore`. */
  datatype CachedScore = CachedScore(score: real, analysis: Option<Doc>, quality: Option<Doc>)

  /** `_dump_json(value)`: `None` becomes SQL NULL. */
  function DumpJson(value: Option<Doc>): (r: Option<JsonText>)
    ensures r.None? <==> value.None?
  {
    match value
    case None => None
    case Some(d) => Some(JsonText(d))
  }

  /** `_load_json(value)`: NULL becomes `None`. The text of a dict is never
      empty, so the `not value` test only ever sees NULL. */
  function LoadJson(value: Option<JsonText>): (r: Option<Doc>)
    ensures r.None? <==> value.None?
  {
    match value
    case None => None
    case Some(t) => Some(t.doc)
  }

  /** Reading back what `_dump_json` wrote gives the original value, `None`
      included. */
  lemma JsonRoundTrip(value: Option<Doc>)
    ensures LoadJson(DumpJson(value)) == value
  {
  }

  /** What `get(file_path, file_hash)` returns against the table `rows`. */
  function Lookup(rows: map<string, Row>, filePath: string, fileHash: string): (r: Option<CachedScore>)
    ensures r.None? <==> filePath !in rows || rows[filePath].fileHash != fileHash
    ensures r.Some? ==>
              && r.value.score == rows[filePath].score
              && r.value.analysis == LoadJson(rows[filePath].analysisJson)
              && r.value.quality == LoadJson(rows[filePath].qualityJson)
  {
    if filePath !in rows then None
    else
      var row := rows[filePath];
      if row.fileHash != fileHash then None
      else Some(CachedScore(row.score, LoadJson(row.analysisJson), LoadJson(row.qualityJson)))
  }

  /** The table after `upsert(...)` at time `now`: the row of `file_path`
      is inserted, or every one of its columns replaced. */
  function Upserted(rows: map<string, Row>, filePath: string, fileHash: string, score: real,
                    analysis: Option<Doc>, quality: Option<Doc>, now: string): map<string, Row>
  {
    rows[filePath := Row(fileHash, score, DumpJson(analysis), DumpJson(quality), now)]
  }

  /** The store over one database file; `rows` is its `photo_scores` table. */
  class ScoreStore {
    var rows: map<string, Row>

    /** `ScoreStore(db_path)`: opens the table, creating it empty when the
        file has none; `existing` is what the file already holds. */
    constructor(existing: map<string, Row>)
      ensures rows == existing
    {
      rows := existing;
    }

    /** `get(file_path, file_hash)`: the cached score, analysis and quality,
        or `None` when the path has no row or its hash differs. */
    method Get(filePath: string, fileHash: string) returns (r: Option<CachedScore>)
      ensures r == Lookup(rows, filePath, fileHash)
    {
      if filePath !in rows {
        return None;
      }
      var row := rows[filePath];
      if row.fileHash != fileHash {
        return None;
      }
      var analysis := LoadJson(row.analysisJson);
      var quality := LoadJson(row.qualityJson);
      r := Some(CachedScore(row.score, analysis, quality));
    }

    /** `upsert(file_path, file_hash, score, analysis, quality)`, stamped
        with the clock reading `now`. */
    method Upsert(filePath: string, fileHash: string, score: real, analysis: Option<Doc>,
                  quality: Option<Doc>, now: string)
      modifies this
      ensures rows == Upserted(old(rows), filePath, fileHash, score, analysis, quality, now)
    {
      var payload := Row(fileHash, score, DumpJson(analysis), DumpJson(quality), now);
      rows := rows[filePath := payload];
    }
  }

  /** After an upsert, a lookup with the same hash returns what was
      upserted, `None` analysis and quality included; a lookup with another
      hash misses. */
  lemma LookupAfterUpsert(rows: map<string, Row>, filePath: string, fileHash: string, score: real,
                          analysis: Option<Doc>, quality: Option<Doc>, now: string, otherHash: string)
    ensures Lookup(Upserted(rows, filePath, fileHash, score, analysis, quality, now), filePath, fileHash)
      == Some(CachedScore(score, analysis, quality))
    ensures otherHash != fileHash ==>
      Lookup(Upserted(rows, filePath, fileHash, score, analysis, quality, now), filePath, otherHash) == None
  {
    JsonRoundTrip(analysis);
    JsonRoundTrip(quality);
  }

  /** An upsert leaves the rows of other paths, and so their lookups, as
      they were. */
  lemma UpsertLeavesOthers(rows: map<string, Row>, filePath: string, fileHash: string, score: real,
                           analysis: Option<Doc>, quality: Option<Doc>, now: string,
                           otherPath: string, anyHash: string)
    requires otherPath != filePath
    ensures var r := Upserted(rows, filePath, fileHash, score, analysis, quality, now);
      && (otherPath in r <==> otherPath in rows)
      && (otherPath in rows ==> r[otherPath] == rows[otherPath])
      && Lookup(r, otherPath, anyHash) == Lookup(rows, otherPath, anyHash)
  {
  }

  /** Repeating an upsert, at any later time, changes only the timestamp:
      the table equals a single upsert at the later time, and every lookup
      answers as after the first. */
  lemma UpsertIdempotent(rows: map<string, Row>, filePath: string, fileHash: string, score: real,
                         analysis: Option<Doc>, quality: Option<Doc>, now1: string, now2: string,
                         anyPath: string, anyHash: string)
    ensures var once := Upserted(rows, filePath, fileHash, score, analysis, quality, now1);
      var twice := Upserted(once, filePath, fileHash, score, analysis, quality, now2);
      && twice == Upserted(rows, filePath, fileHash, score, analysis, quality, now2)
      && Lookup(twice, anyPath, anyHash) == Lookup(once, anyPath, anyHash)
  {
  }
}
