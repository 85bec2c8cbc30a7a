// The metadata managers: the multi-context one, which stores into the
// database of the entity path's context, and the original single-database
// one.  A worker's extraction is a value built from what ffprobe answers;
// storing turns it into a metadata row (typed standard columns plus a JSON
// custom-fields column) and reading turns the row back into a dictionary.

module Metadata {
  import opened Wrappers
  import opened Json
  import Text
  import Entities
  import Records
  import Thumbnails
  import PathContext
  import MultiDatabase
  import ThumbnailManagers

  type MediaEntity = Entities.MediaEntity
  type ContextType = PathContext.ContextType

  // ---------------------------------------------------------------- worker

  /** What the ffprobe wrapper answers for a file: the metadata dictionary, or the error it raised. */
  datatype Extractor = Extractor(videoInfo: string -> Result<map<string, Json>>,
                                 imageInfo: string -> Result<map<string, Json>>)

  /** What a worker hands to the completion callback: the metadata, or the error text. */
  datatype Extraction = Extracted(metadata: map<string, Json>) | ExtractionFailed(error: string)

  /** Whether the worker records the path it was started for: the multi-context worker does, even when it is `None`. */
  datatype PathField = NoPathField | PathField(entityPath: Option<string>)

  /** A video is probed as a video; anything else through its first file, or its own path when it has none. */
  function Probe(e: MediaEntity, x: Extractor): Result<map<string, Json>>
  {
    if e.entityType == Entities.Video then x.videoInfo(e.path)
    else x.imageInfo(if e.files != [] then e.files[0] else e.path)
  }

  /** `f"{start}-{end}"`. */
  function FrameRangeText(range: (int, int)): string
  {
    Text.IntToString(range.0) + "-" + Text.IntToString(range.1)
  }

  /** The keys a worker adds to a multi-file image entity's probe result. */
  function SequenceFields(e: MediaEntity, m: map<string, Json>): map<string, Json>
  {
    if e.entityType != Entities.Video && |e.files| > 1 then
      var s := m["frame_count" := JInt(|e.files|)]["is_sequence" := JBool(true)];
      if e.frameRange.Some? then s["frame_range" := JStr(FrameRangeText(e.frameRange.value))] else s
    else m
  }

  /** The keys every successful worker adds. */
  function EntityFields(e: MediaEntity, m: map<string, Json>, path: PathField): map<string, Json>
  {
    var named := m["entity_name" := JStr(e.name)]["entity_type" := JStr(e.entityType.Value())]
                  ["file_count" := JInt(|e.files|)];
    var placed := if path.PathField? then
                    named["entity_path" := if path.entityPath.Some? then JStr(path.entityPath.value) else JNull]
                  else named;
    if e.fileSize.Some? && e.fileSize.value != 0 then placed["total_size" := JInt(e.fileSize.value)] else placed
  }

  /** The keys a worker may add on top of the probe's answer. */
  const AddedKeys: set<string> := {"frame_count", "is_sequence", "frame_range", "entity_name", "entity_type",
                                    "file_count", "entity_path", "total_size"}

  /**
   * A worker's `run`: probe the entity, add the sequence keys for a
   * multi-file image entity and the entity keys for all, or report the
   * probe's error.
   */
  function WorkerOutput(e: MediaEntity, x: Extractor, path: PathField): (r: Extraction)
    ensures r.ExtractionFailed? <==> Probe(e, x).Err?
    ensures r.ExtractionFailed? ==> r.error == Probe(e, x).error
    ensures r.Extracted? ==>
              && "entity_name" in r.metadata && r.metadata["entity_name"] == JStr(e.name)
              && "entity_type" in r.metadata && r.metadata["entity_type"] == JStr(e.entityType.Value())
              && "file_count" in r.metadata && r.metadata["file_count"] == JInt(|e.files|)
    ensures r.Extracted? && e.entityType != Entities.Video && |e.files| > 1 ==>
              && "frame_count" in r.metadata && r.metadata["frame_count"] == JInt(|e.files|)
              && "is_sequence" in r.metadata && r.metadata["is_sequence"] == JBool(true)
    ensures r.Extracted? && e.fileSize.Some? && e.fileSize.value != 0 ==>
              "total_size" in r.metadata && r.metadata["total_size"] == JInt(e.fileSize.value)
    ensures r.Extracted? ==> ("entity_path" in r.metadata <==> path.PathField? || "entity_path" in Probe(e, x).value)
  {
    match Probe(e, x)
    case Err(msg) => ExtractionFailed(msg)
    case Ok(m) => Extracted(EntityFields(e, SequenceFields(e, m), path))
  }

  /** Every other key of the probe's answer is passed on as it was, and no other key appears. */
  lemma WorkerKeepsProbeKey(e: MediaEntity, x: Extractor, path: PathField, k: string)
    requires Probe(e, x).Ok? && k !in AddedKeys
    ensures k in WorkerOutput(e, x, path).metadata <==> k in Probe(e, x).value
    ensures k in Probe(e, x).value ==> WorkerOutput(e, x, path).metadata[k] == Probe(e, x).value[k]
  {
  }

  // ------------------------------------------------------------- records

  /**
   * The Python built-ins conversion relies on that are not written out
   * here: `float(s)` for a string (`None` where it raises `ValueError`) and
   * `str(v)` for a float, list or dict.
   */
  datatype Builtins = Builtins(parseFloat: string -> Option<real>, render: Json -> string)

  /** The column types of the standard metadata fields. */
  datatype Target = ToFloat | ToInt | ToBool | ToStr

  /** The type of each standard column. */
  function TargetOf(field: string): Target
  {
    if field in {"duration", "fps", "aspect_ratio"} then ToFloat
    else if field in {"format", "codec", "audio_codec", "colorspace"} then ToStr
    else if field == "has_audio" then ToBool
    else ToInt
  }

  /** `str(v)`. */
  function ToText(v: Json, b: Builtins): string
  {
    match v
    case JStr(s) => s
    case JInt(i) => Text.IntToString(i)
    case JBool(t) => if t then "True" else "False"
    case JNull => "None"
    case _ => b.render(v)
  }

  /**
   * `safe_convert`: `None` stays `None`; otherwise the Python conversion to
   * the column's type, and `None` where it raises `ValueError` or
   * `TypeError`.
   */
  function SafeConvert(v: Json, t: Target, b: Builtins): (r: Option<Json>)
    ensures v.JNull? ==> r.None?
    ensures r.Some? ==> !r.value.JNull?
    ensures r.Some? && t == ToFloat ==> r.value.JFloat?
    ensures r.Some? && t == ToInt ==> r.value.JInt?
    ensures t == ToBool && !v.JNull? ==> r == Some(JBool(Truthy(v)))
    ensures t == ToStr && !v.JNull? ==> r.Some? && r.value.JStr?
    ensures t == ToStr && v.JStr? ==> r == Some(v)
    ensures t == ToInt && v.JInt? ==> r == Some(v)
    ensures t == ToFloat && IsNumber(v) ==> r == Some(JFloat(NumValue(v)))
    ensures (t == ToFloat || t == ToInt) && (v.JArr? || v.JObj?) ==> r.None?
  {
    if v.JNull? then None
    else match t
      case ToBool => Some(JBool(Truthy(v)))
      case ToStr => Some(JStr(ToText(v, b)))
      case ToFloat => (match FloatOf(v, b.parseFloat) case Some(f) => Some(JFloat(f)) case None => None)
      case ToInt => (match IntOf(v) case Some(i) => Some(JInt(i)) case None => None)
  }

  /**
   * The converted value of one standard field; `has_audio` is read with
   * `False` as the default, the others with `None`.
   */
  function StandardValue(m: map<string, Json>, field: string, b: Builtins): (r: Option<Json>)
  {
    var raw := if field in m then m[field] else if field == "has_audio" then JBool(false) else JNull;
    SafeConvert(raw, TargetOf(field), b)
  }

  /**
   * The standard columns of a new row: every standard field whose value
   * converts, and `has_audio` always, since the column defaults to `False`
   * when the conversion dropped it.
   */
  function NewStandard(m: map<string, Json>, b: Builtins): (r: map<string, Json>)
    ensures "has_audio" in r && r["has_audio"].JBool?
    ensures forall f :: f in r ==> f in Records.StandardFields && !r[f].JNull?
    ensures forall f :: f in Records.StandardFields && f != "has_audio" ==>
              (f in r <==> StandardValue(m, f, b).Some?)
    ensures forall f :: f in r && f != "has_audio" ==> r[f] == StandardValue(m, f, b).value
    ensures r["has_audio"] == if StandardValue(m, "has_audio", b).Some? then StandardValue(m, "has_audio", b).value
                              else JBool(false)
  {
    var converted := map f | f in Records.StandardFields && StandardValue(m, f, b).Some? :: StandardValue(m, f, b).value;
    if "has_audio" in converted then converted else converted["has_audio" := JBool(false)]
  }

  /** The multi-context manager also keeps the entity path out of the custom fields. */
  const MultiExcluded: set<string> := set f | f in Records.StandardFields + ["entity_path"]

  /** The single-database manager excludes only the standard fields. */
  const SingleExcluded: set<string> := set f | f in Records.StandardFields

  /** The custom fields: every key outside the excluded ones whose value is not `None`. */
  function CustomFields(m: map<string, Json>, excluded: set<string>): (c: map<string, Json>)
    ensures forall k :: k in c <==> k in m && k !in excluded && !m[k].JNull?
    ensures forall k :: k in c ==> c[k] == m[k]
  {
    map k | k in m && k !in excluded && !m[k].JNull? :: m[k]
  }

  /** The custom-fields column of a new row: the fields as JSON, or NULL when there are none. */
  function CustomColumn(custom: map<string, Json>): (c: Records.TextColumn)
    ensures Records.DecodeColumn(c) == JObj(custom)
    ensures c.NullText? <==> custom == map[]
  {
    if custom == map[] then Records.NullText else Records.EncodeObject(custom)
  }

  /** `_create_metadata_record`. */
  function NewRecord(entityId: nat, m: map<string, Json>, b: Builtins, excluded: set<string>): (row: Records.MetadataRow)
    ensures row.entityId == entityId
    ensures Records.DecodeColumn(row.customFields) == JObj(CustomFields(m, excluded))
  {
    Records.MetadataRow(entityId, NewStandard(m, b), CustomColumn(CustomFields(m, excluded)))
  }

  /** Whether an update writes `field`: it is present with a value other than `None`. */
  predicate Overwrites(m: map<string, Json>, field: string)
  {
    field in m && !m[field].JNull?
  }

  /**
   * The standard columns after an update over the fields `fields`: a field
   * present with a value other than `None` is written as it is, the rest
   * keep their value.
   */
  function Overwritten(standard: map<string, Json>, m: map<string, Json>, fields: seq<string>): (r: map<string, Json>)
    ensures forall f :: f in r <==> f in standard || (f in fields && Overwrites(m, f))
    ensures forall f :: f in r ==> r[f] == if f in fields && Overwrites(m, f) then m[f] else standard[f]
  {
    if fields == [] then standard
    else
      var init := Overwritten(standard, m, fields[..|fields| - 1]);
      var f := fields[|fields| - 1];
      if Overwrites(m, f) then init[f := m[f]] else init
  }

  /**
   * The loop of `_update_metadata_record` over the standard fields, with
   * `setattr` for every field present with a value other than `None`.
   */
  method OverwriteFields(standard: map<string, Json>, m: map<string, Json>, fields: seq<string>)
    returns (r: map<string, Json>)
    ensures r == Overwritten(standard, m, fields)
  {
    r := standard;
    var i := 0;
    while i < |fields|
      invariant 0 <= i <= |fields|
      invariant r == Overwritten(standard, m, fields[..i])
    {
      assert fields[..i + 1][..i] == fields[..i];
      if Overwrites(m, fields[i]) {
        r := r[fields[i] := m[fields[i]]];
      }
      i := i + 1;
    }
    assert fields[..i] == fields;
  }

  /**
   * `_update_metadata_record`: the standard columns are overwritten as
   * above, and the new custom fields are merged into the stored ones, new
   * values winning; a stored document that is not a dictionary makes the
   * merge raise.
   */
  function UpdatedRecord(row: Records.MetadataRow, m: map<string, Json>, excluded: set<string>)
    : (r: Result<Records.MetadataRow>)
    ensures r.Ok? <==> Records.DecodeColumn(row.customFields).JObj?
    ensures r.Ok? ==> r.value.entityId == row.entityId
    ensures r.Ok? ==> r.value.standard == Overwritten(row.standard, m, Records.StandardFields)
    ensures r.Ok? ==> Records.DecodeColumn(r.value.customFields)
                        == JObj(Records.DecodeColumn(row.customFields).m + CustomFields(m, excluded))
  {
    var existing := Records.DecodeColumn(row.customFields);
    if !existing.JObj? then Err("AttributeError: 'update'")
    else Ok(Records.MetadataRow(row.entityId, Overwritten(row.standard, m, Records.StandardFields),
                                Records.EncodeObject(existing.m + CustomFields(m, excluded))))
  }

  /** The method form of `_update_metadata_record`, running the field loop. */
  method UpdateMetadataRecord(row: Records.MetadataRow, m: map<string, Json>, excluded: set<string>)
    returns (r: Result<Records.MetadataRow>)
    ensures r == UpdatedRecord(row, m, excluded)
  {
    var existing := Records.DecodeColumn(row.customFields);
    if !existing.JObj? {
      return Err("AttributeError: 'update'");
    }
    var standard := OverwriteFields(row.standard, m, Records.StandardFields);
    r := Ok(Records.MetadataRow(row.entityId, standard, Records.EncodeObject(existing.m + CustomFields(m, excluded))));
  }

  /**
   * An update never clears a column and never loses a custom key: every
   * stored standard value is kept unless the new data carries a value for
   * it, and every stored custom key is still there.
   */
  lemma UpdateKeeps(row: Records.MetadataRow, m: map<string, Json>, excluded: set<string>)
    requires UpdatedRecord(row, m, excluded).Ok?
    ensures var u := UpdatedRecord(row, m, excluded).value;
            && (forall f :: f in row.standard ==> f in u.standard)
            && (forall f :: f in row.standard && !Overwrites(m, f) ==> u.standard[f] == row.standard[f])
            && (forall f :: f in u.standard && f !in row.standard ==> !u.standard[f].JNull?)
            && (forall k :: k in Records.DecodeColumn(row.customFields).m ==> k in Records.DecodeColumn(u.customFields).m)
  {
  }

  // -------------------------------------------------------------- storing

  /** The entity row a store creates when none matches: marked as having metadata, not a thumbnail. */
  function EntityFor(t: Records.Tables, e: MediaEntity): (r: Result<(Records.Tables, nat)>)
    requires Records.WellFormed(t)
    ensures r.Ok? ==> Records.WellFormed(r.value.0) && r.value.1 < |r.value.0.entities|
    ensures r.Ok? ==> Records.FindEntity(r.value.0.entities, e.path, e.entityType.Value()) == Some(r.value.1)
    ensures r.Ok? ==> r.value.0.metadata == t.metadata && r.value.0.thumbnails == t.thumbnails
    ensures r.Ok? ==> |t.entities| <= |r.value.0.entities| <= |t.entities| + 1
                      && r.value.0.entities[..|t.entities|] == t.entities
  {
    Records.FindOrAddEntity(t, e.path, e.entityType.Value(), e.name, Thumbnails.PositiveOpt(e.fileSize),
                            if e.files != [] then |e.files| else 1, true, false)
  }

  /** Writes `row` as entity `i`'s metadata and marks the entity as having metadata. */
  function PutMetadata(t: Records.Tables, i: nat, row: Records.MetadataRow): (r: Records.Tables)
    requires Records.WellFormed(t) && i < |t.entities| && row.entityId == i + 1
    ensures Records.WellFormed(r) && r.thumbnails == t.thumbnails && r.metadata == t.metadata[i + 1 := row]
    ensures r.entities == t.entities[i := t.entities[i].(metadataExtracted := true)]
  {
    var t2 := Records.Tables(t.entities, t.metadata[i + 1 := row], t.thumbnails);
    Records.SetEntity(t2, i, t.entities[i].(metadataExtracted := true))
  }

  /** The row a store writes for entity `i`: the stored one updated, or a new one. */
  function RowFor(t: Records.Tables, i: nat, m: map<string, Json>, b: Builtins, excluded: set<string>)
    : (r: Result<Records.MetadataRow>)
    requires Records.WellFormed(t)
    ensures r.Ok? ==> r.value.entityId == i + 1
    ensures i + 1 !in t.metadata ==> r == Ok(NewRecord(i + 1, m, b, excluded))
  {
    if i + 1 in t.metadata then UpdatedRecord(t.metadata[i + 1], m, excluded)
    else Ok(NewRecord(i + 1, m, b, excluded))
  }

  /**
   * `_store_in_session` (and the body of the single manager's
   * `_store_metadata`): find or create the entity, update its metadata row
   * or create one, and mark the entity.  An error leaves the transaction
   * uncommitted.  The entity stored is found afterwards and marked as
   * having metadata, it has exactly one metadata row, and no other entity
   * or row changes.
   */
  function StoreMetadataRow(t: Records.Tables, e: MediaEntity, m: map<string, Json>, b: Builtins, excluded: set<string>)
    : (r: Result<Records.Tables>)
    requires Records.WellFormed(t)
    ensures r.Ok? ==> Records.WellFormed(r.value) && r.value.thumbnails == t.thumbnails
    ensures r.Ok? ==> Placed(t, r.value, e.path, e.entityType.Value())
  {
    match EntityFor(t, e)
    case Err(msg) => Err(msg)
    case Ok(found) => Place(t, found.0, found.1, RowFor(found.0, found.1, m, b, excluded), e.path, e.entityType.Value())
  }

  /**
   * `t'` holds the entity of `path` and `entityType`, marked extracted, with
   * exactly one metadata row more or updated: its own; no other entity of
   * `t` and no other metadata row changes.
   */
  predicate Placed(t: Records.Tables, t': Records.Tables, path: string, entityType: string)
  {
    var f := Records.FindEntity(t'.entities, path, entityType);
    && f.Some? && t'.entities[f.value].metadataExtracted
    && |t.entities| <= |t'.entities|
    && (forall j :: 0 <= j < |t.entities| && j != f.value ==> t'.entities[j] == t.entities[j])
    && t'.metadata.Keys == t.metadata.Keys + {f.value + 1}
    && (forall k :: k in t.metadata && k != f.value + 1 ==> t'.metadata[k] == t.metadata[k])
  }

  /**
   * Writes entity `i`'s row, when there is one, into tables `t1` that extend
   * `t`: `i` stays the entity found for its path and type and is marked,
   * and no other entity or row of `t` changes.
   */
  function Place(t: Records.Tables, t1: Records.Tables, i: nat, row: Result<Records.MetadataRow>, path: string,
                 entityType: string): (r: Result<Records.Tables>)
    requires Records.WellFormed(t) && Records.WellFormed(t1) && i < |t1.entities|
    requires row.Ok? ==> row.value.entityId == i + 1
    requires Records.FindEntity(t1.entities, path, entityType) == Some(i)
    requires |t.entities| <= |t1.entities| && t1.entities[..|t.entities|] == t.entities
    requires t1.metadata == t.metadata && t1.thumbnails == t.thumbnails
    ensures r.Ok? <==> row.Ok?
    ensures r.Ok? ==> Records.WellFormed(r.value) && r.value.thumbnails == t.thumbnails
    ensures r.Ok? ==> Placed(t, r.value, path, entityType)
  {
    if row.Err? then Err(row.error)
    else
      var marked := t1.entities[i].(metadataExtracted := true);
      Records.FindEntityAfterSet(t1.entities, i, marked, path, entityType);
      assert forall j :: 0 <= j < |t.entities| ==> t1.entities[j] == t1.entities[..|t.entities|][j];
      Ok(PutMetadata(t1, i, row.value))
  }

  // -------------------------------------------------------------- reading

  /** The value a read sees for a key: the custom field when there is one, else the column. */
  function Overlay(standard: map<string, Json>, custom: map<string, Json>, k: string): Json
  {
    if k in custom then custom[k] else if k in standard then standard[k] else JNull
  }

  /**
   * The dictionary a read builds: the thirteen columns, overlaid with the
   * custom fields, without the `None` values.
   */
  function ReadDict(standard: map<string, Json>, custom: map<string, Json>): (r: map<string, Json>)
    ensures forall k :: k in r <==> (k in Records.StandardFields || k in custom) && !Overlay(standard, custom, k).JNull?
    ensures forall k :: k in r ==> r[k] == Overlay(standard, custom, k)
  {
    map k | k in (set f | f in Records.StandardFields) + custom.Keys && !Overlay(standard, custom, k).JNull?
      :: Overlay(standard, custom, k)
  }

  /**
   * One element of a sequence handed to `dict.update`: a two-element list
   * whose first item is the (string) key, or a two-character string whose
   * characters are key and value; an element of any other length, or one
   * that is not iterable, raises.
   */
  function PairOf(x: Json): Result<(string, Json)>
  {
    if x.JArr? && |x.a| == 2 && x.a[0].JStr? then Ok((x.a[0].s, x.a[1]))
    else if x.JStr? && |x.s| == 2 then Ok(([x.s[0]], JStr([x.s[1]])))
    else Err("ValueError: dictionary update sequence element has the wrong length")
  }

  /** No later element of `items` than `i` has the key of element `i`. */
  predicate LastWithKey(items: seq<Json>, i: int)
    requires 0 <= i < |items| && forall j :: 0 <= j < |items| ==> PairOf(items[j]).Ok?
  {
    forall j :: i < j < |items| ==> PairOf(items[j]).value.0 != PairOf(items[i]).value.0
  }

  /**
   * `dict.update` with a sequence of pairs: it raises exactly when some
   * element is not a pair; otherwise the keys are those of the pairs and
   * each key holds the value of its last pair.
   */
  function PairsOf(items: seq<Json>): (r: Result<map<string, Json>>)
    ensures r.Ok? <==> forall i :: 0 <= i < |items| ==> PairOf(items[i]).Ok?
    ensures r.Ok? ==> forall k :: k in r.value <==> exists i :: 0 <= i < |items| && PairOf(items[i]).value.0 == k
    ensures r.Ok? ==> forall i :: 0 <= i < |items| && LastWithKey(items, i) ==>
                        r.value[PairOf(items[i]).value.0] == PairOf(items[i]).value.1
  {
    if items == [] then Ok(map[])
    else
      match PairOf(items[0])
      case Err(msg) => Err(msg)
      case Ok(p) =>
        match PairsOf(items[1..])
        case Err(msg) => Err(msg)
        case Ok(rest) => PairsCons(items, p, rest); Ok(map[p.0 := p.1] + rest)
  }

  /** The step of `PairsOf`: the first pair under the rest's pairs. */
  lemma PairsCons(items: seq<Json>, p: (string, Json), rest: map<string, Json>)
    requires items != [] && PairOf(items[0]) == Ok(p) && PairsOf(items[1..]) == Ok(rest)
    ensures forall i :: 0 <= i < |items| ==> PairOf(items[i]).Ok?
    ensures forall k :: k in map[p.0 := p.1] + rest <==>
                          exists i :: 0 <= i < |items| && PairOf(items[i]).value.0 == k
    ensures forall i :: 0 <= i < |items| && LastWithKey(items, i) ==>
                          (map[p.0 := p.1] + rest)[PairOf(items[i]).value.0] == PairOf(items[i]).value.1
  {
    var tail := items[1..];
    assert forall i :: 1 <= i < |items| ==> items[i] == tail[i - 1];
    PairsConsKeys(items, p, rest);
    PairsConsLast(items, p, rest);
  }

  lemma PairsConsKeys(items: seq<Json>, p: (string, Json), rest: map<string, Json>)
    requires items != [] && PairOf(items[0]) == Ok(p)
    requires forall i :: 0 <= i < |items| ==> PairOf(items[i]).Ok?
    requires forall k :: k in rest <==> exists i :: 0 <= i < |items[1..]| && PairOf(items[1..][i]).value.0 == k
    ensures forall k :: k in map[p.0 := p.1] + rest <==>
                          exists i :: 0 <= i < |items| && PairOf(items[i]).value.0 == k
  {
    var tail := items[1..];
    forall k
      ensures k in map[p.0 := p.1] + rest <==> exists i :: 0 <= i < |items| && PairOf(items[i]).value.0 == k
    {
      if k in rest {
        var j :| 0 <= j < |tail| && PairOf(tail[j]).value.0 == k;
        assert items[j + 1] == tail[j];
      }
      if exists i :: 0 <= i < |items| && PairOf(items[i]).value.0 == k {
        var i :| 0 <= i < |items| && PairOf(items[i]).value.0 == k;
        if i > 0 {
          assert tail[i - 1] == items[i];
        }
      }
    }
  }

  lemma PairsConsLast(items: seq<Json>, p: (string, Json), rest: map<string, Json>)
    requires items != [] && PairOf(items[0]) == Ok(p)
    requires forall i :: 0 <= i < |items| ==> PairOf(items[i]).Ok?
    requires forall k :: k in rest <==> exists i :: 0 <= i < |items[1..]| && PairOf(items[1..][i]).value.0 == k
    requires forall i :: 0 <= i < |items[1..]| && LastWithKey(items[1..], i) ==>
                          rest[PairOf(items[1..][i]).value.0] == PairOf(items[1..][i]).value.1
    ensures forall i :: 0 <= i < |items| && LastWithKey(items, i) ==>
                          (map[p.0 := p.1] + rest)[PairOf(items[i]).value.0] == PairOf(items[i]).value.1
  {
    var tail := items[1..];
    forall i | 0 <= i < |items| && LastWithKey(items, i)
      ensures (map[p.0 := p.1] + rest)[PairOf(items[i]).value.0] == PairOf(items[i]).value.1
    {
      if i > 0 {
        assert tail[i - 1] == items[i];
        forall j | i - 1 < j < |tail|
          ensures PairOf(tail[j]).value.0 != PairOf(tail[i - 1]).value.0
        {
          assert tail[j] == items[j + 1];
        }
        assert LastWithKey(tail, i - 1);
      } else {
        forall j | 0 <= j < |tail| ensures PairOf(tail[j]).value.0 != p.0 {
          assert items[j + 1] == tail[j];
        }
      }
    }
  }

  /**
   * What `metadata_dict.update(custom_fields)` lays over the columns, for
   * the document `get_custom_fields` decoded: a dictionary as it is; a list
   * as a sequence of pairs; a string as a sequence of one-character
   * elements, so only the empty string passes; anything else is not
   * iterable and raises.
   */
  function UpdateSource(custom: Json): (r: Result<map<string, Json>>)
    ensures custom.JObj? ==> r == Ok(custom.m)
    ensures custom.JArr? ==> r == PairsOf(custom.a)
    ensures custom.JStr? ==> (r.Ok? <==> custom.s == "") && (r.Ok? ==> r.value == map[])
    ensures custom.JNull? || custom.JBool? || custom.JInt? || custom.JFloat? ==> r.Err?
  {
    match custom
    case JObj(m) => Ok(m)
    case JArr(items) => PairsOf(items)
    case JStr(text) =>
      if text == "" then Ok(map[]) else Err("ValueError: dictionary update sequence element #0 has length 1")
    case _ => Err("TypeError: object is not iterable")
  }

  /**
   * `_get_metadata_from_session` (and the single manager's
   * `get_entity_metadata` body): `None` without an entity with this path or
   * without its metadata row; otherwise the columns overlaid by what
   * `dict.update` takes from the custom document, which raises for a
   * document it cannot take.
   */
  function ReadMetadata(t: Records.Tables, entityPath: string): (r: Result<Option<map<string, Json>>>)
    requires Records.WellFormed(t)
    ensures Records.FindEntityByPath(t.entities, entityPath).None? ==> r == Ok(None)
    ensures r.Ok? && r.value.Some? ==> forall k :: k in r.value.value ==> !r.value.value[k].JNull?
    ensures forall i :: Records.FindEntityByPath(t.entities, entityPath) == Some(i) && i + 1 in t.metadata ==>
              var row := t.metadata[i + 1];
              var custom := UpdateSource(Records.DecodeColumn(row.customFields));
              && (r.Ok? <==> custom.Ok?)
              && (r.Ok? ==> r.value == Some(ReadDict(row.standard, custom.value)))
  {
    match Records.FindEntityByPath(t.entities, entityPath)
    case None => Ok(None)
    case Some(i) =>
      if i + 1 !in t.metadata then Ok(None)
      else
        var row := t.metadata[i + 1];
        match UpdateSource(Records.DecodeColumn(row.customFields))
        case Err(msg) => Err(msg)
        case Ok(custom) => Ok(Some(ReadDict(row.standard, custom)))
  }

  /**
   * A custom column holding a list of pairs, as an outside writer may have
   * stored it: `[]` reads as the columns alone, `[["k", 1]]` adds `k`.
   */
  lemma ListColumnsRead(t: Records.Tables, entityPath: string, i: nat)
    requires Records.WellFormed(t)
    requires Records.FindEntityByPath(t.entities, entityPath) == Some(i) && i + 1 in t.metadata
    ensures t.metadata[i + 1].customFields == Records.Document(JArr([])) ==>
              ReadMetadata(t, entityPath) == Ok(Some(ReadDict(t.metadata[i + 1].standard, map[])))
    ensures t.metadata[i + 1].customFields == Records.Document(JArr([JArr([JStr("k"), JInt(1)])])) ==>
              ReadMetadata(t, entityPath) == Ok(Some(ReadDict(t.metadata[i + 1].standard, map["k" := JInt(1)])))
  {
    var one := [JArr([JStr("k"), JInt(1)])];
    assert PairOf(one[0]) == Ok(("k", JInt(1)));
    assert one[1..] == [];
    assert PairsOf(one) == Ok(map["k" := JInt(1)] + map[]);
    assert map["k" := JInt(1)] + map[] == map["k" := JInt(1)];
  }

  /** A store for an entity whose path no earlier entity has appends the entity and gives it a new row. */
  lemma FreshStore(t: Records.Tables, e: MediaEntity, m: map<string, Json>, b: Builtins, excluded: set<string>,
                   r: Records.Tables)
    requires Records.WellFormed(t)
    requires Records.FindEntityByPath(t.entities, e.path).None?
    requires StoreMetadataRow(t, e, m, b, excluded) == Ok(r)
    ensures |r.entities| == |t.entities| + 1 && r.entities[..|t.entities|] == t.entities
    ensures r.entities[|t.entities|].path == e.path
    ensures |t.entities| + 1 in r.metadata && r.metadata[|t.entities| + 1] == NewRecord(|t.entities| + 1, m, b, excluded)
  {
    FreshEntityIsNew(t, e);
    var t1 := EntityFor(t, e).value.0;
    assert |t.entities| + 1 !in t1.metadata;
  }

  /** An entity whose path is new is appended, not found. */
  lemma FreshEntityIsNew(t: Records.Tables, e: MediaEntity)
    requires Records.WellFormed(t)
    requires Records.FindEntityByPath(t.entities, e.path).None?
    ensures EntityFor(t, e).Ok? ==>
              EntityFor(t, e).value.1 == |t.entities| && |EntityFor(t, e).value.0.entities| == |t.entities| + 1
  {
    assert Records.FindEntity(t.entities, e.path, e.entityType.Value()).None?;
  }

  /** A row appended after rows with other paths is the one a lookup by path finds. */
  lemma FoundByPathAtEnd(rows: seq<Records.EntityRow>, path: string)
    requires |rows| >= 1 && Records.FindEntityByPath(rows[..|rows| - 1], path).None? && rows[|rows| - 1].path == path
    ensures Records.FindEntityByPath(rows, path) == Some(|rows| - 1)
  {
    assert forall j :: 0 <= j < |rows| - 1 ==> rows[..|rows| - 1][j] == rows[j];
  }

  /**
   * Store then read: metadata stored for an entity whose path no earlier
   * entity has is read back as its converted standard fields overlaid with
   * its custom fields.
   */
  lemma StoreThenRead(t: Records.Tables, e: MediaEntity, m: map<string, Json>, b: Builtins, excluded: set<string>,
                      r: Records.Tables)
    requires Records.WellFormed(t)
    requires Records.FindEntityByPath(t.entities, e.path).None?
    requires StoreMetadataRow(t, e, m, b, excluded) == Ok(r)
    ensures ReadMetadata(r, e.path) == Ok(Some(ReadDict(NewStandard(m, b), CustomFields(m, excluded))))
  {
    FreshStore(t, e, m, b, excluded, r);
    FoundByPathAtEnd(r.entities, e.path);
  }

  /**
   * What such a read answers always has `has_audio`, and with the
   * multi-context exclusions never the entity path.
   */
  lemma ReadBackFields(m: map<string, Json>, b: Builtins, excluded: set<string>)
    ensures "has_audio" in ReadDict(NewStandard(m, b), CustomFields(m, excluded))
    ensures "entity_path" in excluded ==> "entity_path" !in ReadDict(NewStandard(m, b), CustomFields(m, excluded))
  {
    var custom := CustomFields(m, excluded);
    assert "has_audio" in Records.StandardFields;
    if "has_audio" in custom {
      assert !custom["has_audio"].JNull?;
    }
    assert "entity_path" !in Records.StandardFields;
  }

  // -------------------------------------------------------------- managers

  /** The signals a manager emits. */
  datatype Signal =
    | MetadataExtracted(entity: MediaEntity, metadata: map<string, Json>)
    | MetadataExtractionFailed(entity: MediaEntity, error: string)
    | ExtractionProgress(current: int, total: int)

  /** The entity-filtering loop: every entity is kept while `metadata.auto_extract` holds, none otherwise. */
  method EntitiesToProcess(entities: seq<MediaEntity>, autoExtract: bool) returns (r: seq<MediaEntity>)
    ensures autoExtract ==> r == entities
    ensures !autoExtract ==> r == []
  {
    r := [];
    var i := 0;
    while i < |entities|
      invariant 0 <= i <= |entities|
      invariant r == if autoExtract then entities[..i] else []
    {
      if autoExtract {
        r := r + [entities[i]];
      }
      i := i + 1;
    }
  }

  /** The worker-starting loop: one worker per entity, each started for the same path. */
  method StartWorkers(entities: seq<MediaEntity>, x: Extractor, path: PathField) returns (started: seq<Extraction>)
    ensures |started| == |entities|
    ensures forall i :: 0 <= i < |entities| ==> started[i] == WorkerOutput(entities[i], x, path)
  {
    started := [];
    var i := 0;
    while i < |entities|
      invariant 0 <= i <= |entities| && |started| == i
      invariant forall j :: 0 <= j < i ==> started[j] == WorkerOutput(entities[j], x, path)
    {
      started := started + [WorkerOutput(entities[i], x, path)];
      i := i + 1;
    }
  }

  /**
   * The path a completion's metadata names for storing: its `entity_path`
   * when that is a non-empty string, else none, and the current context's
   * database is used.
   */
  function StorePath(m: map<string, Json>): Option<string>
  {
    if "entity_path" in m && m["entity_path"].JStr? && m["entity_path"].s != "" then Some(m["entity_path"].s)
    else None
  }

  /** A multi-context worker started for a non-empty path has its metadata stored through that path. */
  lemma WorkerPathPicksSession(e: MediaEntity, x: Extractor, target: string)
    requires target != "" && Probe(e, x).Ok?
    ensures StorePath(WorkerOutput(e, x, PathField(Some(target))).metadata) == Some(target)
  {
    var named := SequenceFields(e, Probe(e, x).value);
    assert EntityFields(e, named, PathField(Some(target)))["entity_path"] == JStr(target);
  }

  /**
   * The database files after storing a completion's metadata: the
   * session's file gets the store's tables when it succeeds; a failed
   * session or store changes nothing, since every error is logged and
   * dropped.
   */
  function AfterMetadataStore(files: map<string, Records.Tables>, session: Result<string>, e: MediaEntity,
                              m: map<string, Json>, b: Builtins, excluded: set<string>)
    : (r: map<string, Records.Tables>)
    requires forall f :: f in files ==> Records.WellFormed(files[f])
    ensures forall f :: f in r ==> Records.WellFormed(r[f])
    ensures session.Err? ==> r == files
    ensures session.Ok? ==> forall f :: f in files && f != session.value ==> f in r && r[f] == files[f]
    ensures session.Ok? && StoreMetadataRow(ThumbnailManagers.TablesIn(files, session.value), e, m, b, excluded).Err?
            ==> r == files
  {
    if session.Err? then files
    else ThumbnailManagers.Committed(files, session.value,
                                     StoreMetadataRow(ThumbnailManagers.TablesIn(files, session.value), e, m, b,
                                                      excluded))
  }

  /** One store in the database the session opened, committed only when it succeeded. */
  method StoreInSession(store: Records.Store, session: Result<string>, e: MediaEntity, m: map<string, Json>,
                        b: Builtins, excluded: set<string>)
    requires store.Valid()
    modifies store
    ensures store.Valid()
    ensures store.files == AfterMetadataStore(old(store.files), session, e, m, b, excluded)
  {
    if session.Err? {
      return;
    }
    var stored := StoreMetadataRow(store.TablesOf(session.value), e, m, b, excluded);
    if stored.Ok? {
      store.Commit(session.value, stored.value);
    }
  }

  /**
   * What a read through a session answers: `None` when the session or the
   * read raises, since the error is logged and dropped.
   */
  function MetadataIn(files: map<string, Records.Tables>, session: Result<string>, entityPath: string)
    : (r: Option<map<string, Json>>)
    requires forall f :: f in files ==> Records.WellFormed(files[f])
    ensures session.Err? ==> r.None?
    ensures session.Ok? && session.value !in files ==> r.None?
    ensures r.Some? ==> forall k :: k in r.value ==> !r.value[k].JNull?
  {
    if session.Err? then None
    else match ReadMetadata(ThumbnailManagers.TablesIn(files, session.value), entityPath)
      case Err(_) => None
      case Ok(found) => found
  }

  /**
   * Store then read through the same database: metadata stored for an
   * entity whose path that database has not seen is read back as its
   * converted standard fields overlaid with its custom fields.
   */
  lemma StoredIsReadBack(files: map<string, Records.Tables>, file: string, e: MediaEntity, m: map<string, Json>,
                         b: Builtins, excluded: set<string>)
    requires forall f :: f in files ==> Records.WellFormed(files[f])
    requires Records.FindEntityByPath(ThumbnailManagers.TablesIn(files, file).entities, e.path).None?
    requires StoreMetadataRow(ThumbnailManagers.TablesIn(files, file), e, m, b, excluded).Ok?
    ensures MetadataIn(AfterMetadataStore(files, Ok(file), e, m, b, excluded), Ok(file), e.path)
            == Some(ReadDict(NewStandard(m, b), CustomFields(m, excluded)))
  {
    var t := ThumbnailManagers.TablesIn(files, file);
    var r := StoreMetadataRow(t, e, m, b, excluded).value;
    StoreThenRead(t, e, m, b, excluded, r);
    assert ThumbnailManagers.TablesIn(AfterMetadataStore(files, Ok(file), e, m, b, excluded), file) == r;
  }

  /** A completion with an error text reports the failure; one with metadata is stored and reported. */
  predicate ReportsFailure(x: Extraction) { x.ExtractionFailed? && x.error != "" }

  predicate Stores(x: Extraction) { x.Extracted? && x.metadata != map[] }

  /** The signals `_on_metadata_extracted` emits, the progress last. */
  function Reported(e: MediaEntity, x: Extraction, completed: int, total: int): (r: seq<Signal>)
    ensures |r| >= 1 && r[|r| - 1] == ExtractionProgress(completed, total)
    ensures ReportsFailure(x) ==> r[0] == MetadataExtractionFailed(e, x.error) && |r| == 2
    ensures Stores(x) ==> r[0] == MetadataExtracted(e, x.metadata) && |r| == 2
    ensures !ReportsFailure(x) && !Stores(x) ==> |r| == 1
  {
    var progress := [ExtractionProgress(completed, total)];
    if ReportsFailure(x) then [MetadataExtractionFailed(e, x.error)] + progress
    else if Stores(x) then [MetadataExtracted(e, x.metadata)] + progress
    else progress
  }

  class MultiMetadataManager {
    const contexts: PathContext.PathContextManager
    const databases: MultiDatabase.MultiDatabaseManager
    /** The tables of every database file. */
    const store: Records.Store
    const extractor: Extractor
    const builtins: Builtins
    const ffmpegAvailable: bool
    /** `metadata.auto_extract`, true by default. */
    const autoExtract: bool
    var processing: seq<MediaEntity>
    var completedCount: int
    var currentContext: ContextType
    var currentPath: Option<string>

    predicate Valid()
      reads this, contexts, databases, store
    {
      databases.contexts == contexts && store.Valid()
    }

    constructor (contexts: PathContext.PathContextManager, databases: MultiDatabase.MultiDatabaseManager,
                 store: Records.Store, extractor: Extractor, builtins: Builtins, ffmpegAvailable: bool,
                 autoExtract: bool)
      ensures this.contexts == contexts && this.databases == databases && this.store == store
      ensures this.extractor == extractor && this.builtins == builtins
      ensures this.ffmpegAvailable == ffmpegAvailable && this.autoExtract == autoExtract
      ensures processing == [] && completedCount == 0
      ensures currentContext == PathContext.General && currentPath == None
    {
      this.contexts := contexts;
      this.databases := databases;
      this.store := store;
      this.extractor := extractor;
      this.builtins := builtins;
      this.ffmpegAvailable := ffmpegAvailable;
      this.autoExtract := autoExtract;
      processing := [];
      completedCount := 0;
      currentContext := PathContext.General;
      currentPath := None;
    }

    /** What the path-context manager answers for a path now. */
    function ContextOf(path: string): ContextType
      reads contexts`contextCache, contexts`userPaths, contexts`projectPaths
    {
      contexts.Answer(path)
    }

    /** `set_current_path`: the context is recomputed only for a different path. */
    method SetCurrentPath(path: string)
      requires Valid()
      modifies this`currentPath, this`currentContext, contexts`contextCache
      ensures Valid()
      ensures currentPath == Some(path)
      ensures old(currentPath) == Some(path) ==> currentContext == old(currentContext)
      ensures old(currentPath) != Some(path) ==> currentContext == ContextOf(path)
    {
      if Some(path) != currentPath {
        currentPath := Some(path);
        currentContext := contexts.GetContextForPath(path);
      }
    }

    /**
     * `process_new_entities`: nothing for an empty list or without ffmpeg;
     * otherwise the target path is looked up, and when `auto_extract` keeps
     * the entities they become the processing list, the count restarts, and
     * one worker per entity is started for the target path.
     */
    method ProcessNewEntities(entities: seq<MediaEntity>, entityPath: Option<string>)
      returns (started: seq<Extraction>)
      requires Valid()
      modifies this`processing, this`completedCount, contexts`contextCache
      ensures Valid()
      ensures entities == [] || !ffmpegAvailable || !autoExtract ==>
                started == [] && processing == old(processing) && completedCount == old(completedCount)
      ensures entities != [] && ffmpegAvailable && autoExtract ==>
                && processing == entities && completedCount == 0 && |started| == |entities|
                && var path := PathField(Some(ThumbnailManagers.TargetPath(entityPath, old(currentPath), entities[0].path)));
                   forall i :: 0 <= i < |entities| ==> started[i] == WorkerOutput(entities[i], extractor, path)
    {
      started := [];
      if entities == [] || !ffmpegAvailable {
        return;
      }
      var target := ThumbnailManagers.TargetPath(entityPath, currentPath, entities[0].path);
      var _ := contexts.GetContextForPath(target);
      var toProcess := EntitiesToProcess(entities, autoExtract);
      if toProcess == [] {
        return;
      }
      processing := toProcess;
      completedCount := 0;
      started := StartWorkers(toProcess, extractor, PathField(Some(target)));
    }

    /** The database a store or read goes to: the path's context when a path is given, else the current one. */
    function SessionFor(path: Option<string>): Result<string>
      reads this, databases, contexts`contextCache, contexts`userPaths, contexts`projectPaths
    {
      if path.Some? && path.value != "" then databases.GetDatabaseManager(Some(ContextOf(path.value)))
      else databases.GetDatabaseManager(None)
    }

    /** Opens the session for a path, or the current context's session. */
    method OpenSession(path: Option<string>) returns (session: Result<string>)
      requires Valid()
      modifies contexts`contextCache
      ensures Valid() && session == old(SessionFor(path))
    {
      if path.Some? && path.value != "" {
        session := databases.GetSessionForPath(path.value);
      } else {
        session := databases.GetSession(None, None);
      }
    }

    /**
     * `_store_metadata` with `_store_in_session`; every error is logged and
     * dropped.  `raised` is the error the connection layer raises inside the
     * session, if any: nothing is written then.
     */
    method StoreMetadata(e: MediaEntity, m: map<string, Json>, entityPath: Option<string>, raised: Option<string>)
      requires Valid()
      modifies store, contexts`contextCache
      ensures Valid()
      ensures store.files == AfterMetadataStore(old(store.files), MultiDatabase.SessionOutcome(old(SessionFor(entityPath)), raised),
                                                e, m, builtins, MultiExcluded)
      ensures raised.Some? ==> store.files == old(store.files)
    {
      var session := OpenSession(entityPath);
      StoreInSession(store, MultiDatabase.SessionOutcome(session, raised), e, m, builtins, MultiExcluded);
    }

    /**
     * `_on_metadata_extracted`: every completion counts once; an error is
     * reported, metadata is stored in the database its `entity_path` names
     * and reported, and the progress follows.
     */
    method OnMetadataExtracted(e: MediaEntity, x: Extraction, raised: Option<string>) returns (signals: seq<Signal>)
      requires Valid()
      modifies this`completedCount, store, contexts`contextCache
      ensures Valid()
      ensures completedCount == old(completedCount) + 1
      ensures signals == Reported(e, x, completedCount, |processing|)
      ensures !Stores(x) || raised.Some? ==> store.files == old(store.files)
      ensures Stores(x) ==>
                store.files == AfterMetadataStore(old(store.files),
                                                  MultiDatabase.SessionOutcome(old(SessionFor(StorePath(x.metadata))), raised),
                                                  e, x.metadata, builtins, MultiExcluded)
    {
      completedCount := completedCount + 1;
      if Stores(x) {
        StoreMetadata(e, x.metadata, StorePath(x.metadata), raised);
      }
      signals := Reported(e, x, completedCount, |processing|);
    }

    /**
     * `get_entity_metadata`: a read through the context path's database, or
     * the current one; a session that raises (`raised`) is logged and reads None.
     */
    method GetEntityMetadata(entityPath: string, contextPath: Option<string>, raised: Option<string>)
      returns (r: Option<map<string, Json>>)
      requires Valid()
      modifies contexts`contextCache
      ensures Valid()
      ensures r == MetadataIn(store.files, MultiDatabase.SessionOutcome(old(SessionFor(contextPath)), raised), entityPath)
      ensures raised.Some? ==> r.None?
    {
      var session := OpenSession(contextPath);
      r := MetadataIn(store.files, MultiDatabase.SessionOutcome(session, raised), entityPath);
    }
  }

  class MetadataManager {
    const store: Records.Store
    /** The database file of its database manager. */
    const dbFile: string
    const extractor: Extractor
    const builtins: Builtins
    const ffmpegAvailable: bool
    const autoExtract: bool
    var processing: seq<MediaEntity>
    var completedCount: int

    predicate Valid()
      reads this, store
    {
      store.Valid()
    }

    constructor (store: Records.Store, dbFile: string, extractor: Extractor, builtins: Builtins,
                 ffmpegAvailable: bool, autoExtract: bool)
      ensures this.store == store && this.dbFile == dbFile
      ensures this.extractor == extractor && this.builtins == builtins
      ensures this.ffmpegAvailable == ffmpegAvailable && this.autoExtract == autoExtract
      ensures processing == [] && completedCount == 0
    {
      this.store := store;
      this.dbFile := dbFile;
      this.extractor := extractor;
      this.builtins := builtins;
      this.ffmpegAvailable := ffmpegAvailable;
      this.autoExtract := autoExtract;
      processing := [];
      completedCount := 0;
    }

    /** `process_new_entities`: as in the multi-context manager, with workers that record no path. */
    method ProcessNewEntities(entities: seq<MediaEntity>) returns (started: seq<Extraction>)
      modifies this`processing, this`completedCount
      ensures entities == [] || !ffmpegAvailable || !autoExtract ==>
                started == [] && processing == old(processing) && completedCount == old(completedCount)
      ensures entities != [] && ffmpegAvailable && autoExtract ==>
                && processing == entities && completedCount == 0 && |started| == |entities|
                && forall i :: 0 <= i < |entities| ==> started[i] == WorkerOutput(entities[i], extractor, NoPathField)
    {
      started := [];
      if entities == [] || !ffmpegAvailable {
        return;
      }
      var toProcess := EntitiesToProcess(entities, autoExtract);
      if toProcess == [] {
        return;
      }
      processing := toProcess;
      completedCount := 0;
      started := StartWorkers(toProcess, extractor, NoPathField);
    }

    /**
     * `_on_metadata_extracted` with `_store_metadata`: as in the
     * multi-context manager, storing into its one database with only the
     * standard fields excluded from the custom ones.
     */
    method OnMetadataExtracted(e: MediaEntity, x: Extraction, raised: Option<string>) returns (signals: seq<Signal>)
      requires Valid()
      modifies this`completedCount, store
      ensures Valid()
      ensures completedCount == old(completedCount) + 1
      ensures signals == Reported(e, x, completedCount, |processing|)
      ensures !Stores(x) || raised.Some? ==> store.files == old(store.files)
      ensures Stores(x) ==>
                store.files == AfterMetadataStore(old(store.files), MultiDatabase.SessionOutcome(Ok(dbFile), raised),
                                                  e, x.metadata, builtins, SingleExcluded)
    {
      completedCount := completedCount + 1;
      if Stores(x) {
        StoreInSession(store, MultiDatabase.SessionOutcome(Ok(dbFile), raised), e, x.metadata, builtins,
                       SingleExcluded);
      }
      signals := Reported(e, x, completedCount, |processing|);
    }

    /**
     * `get_entity_metadata`: a read of its one database; any error, including
     * a session that raises (`raised`), gives `None`.
     */
    function GetEntityMetadata(entityPath: string, raised: Option<string>): (r: Option<map<string, Json>>)
      reads this, store
      requires Valid()
      ensures raised.Some? ==> r.None?
      ensures Records.FindEntityByPath(store.TablesOf(dbFile).entities, entityPath).None? ==> r.None?
      ensures r.Some? ==> forall k :: k in r.value ==> !r.value[k].JNull?
    {
      MetadataIn(store.files, MultiDatabase.SessionOutcome(Ok(dbFile), raised), entityPath)
    }
  }
}
