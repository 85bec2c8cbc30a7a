/**
 * The database records: the attribute validators the ORM runs when a field
 * is assigned, the JSON-valued columns and their helpers, and the tables
 * the managers read and write.
 *
 * A table is a value.  `entities` is kept in insertion order, so that a
 * query's `.first()` is the earliest matching row and a new row's id is the
 * next position; `metadata` is keyed by its unique `entity_id` and
 * `thumbnails` by the unique pair `(entity_id, resolution)`.
 */
module Records {
  import opened Wrappers
  import opened Text
  import opened Json

  // ------------------------------------------------------------ validators

  /**
   * `Project.validate_name` and `Entity.validate_name`: a blank name is
   * refused; any other name is stored without surrounding whitespace.
   */
  function ValidateName(name: string): (r: Result<string>)
    ensures r.Ok? <==> !IsBlank(name)
    ensures r.Ok? ==> r.value != [] && !IsWhitespace(r.value[0]) && !IsWhitespace(r.value[|r.value| - 1])
    ensures r.Ok? ==> exists i, j :: 0 <= i <= j <= |name| && r.value == name[i..j]
                                     && IsBlank(name[..i]) && IsBlank(name[j..])
  {
    StripEmptyIffBlank(name);
    StripIsTrim(name);
    if IsBlank(name) then Err("ValueError: name cannot be empty") else Ok(Strip(name))
  }

  /** A stored name validates to itself. */
  lemma ValidateNameIdempotent(name: string)
    requires ValidateName(name).Ok?
    ensures ValidateName(ValidateName(name).value) == ValidateName(name)
  {
    var v := Strip(name);
    StripEmptyIffBlank(name);
    StripIdempotent(name);
    StripEmptyIffBlank(v);
  }

  /** `Tag.validate_name`: like a name, and also lower-cased. */
  function ValidateTagName(name: string): (r: Result<string>)
    ensures r.Ok? <==> !IsBlank(name)
    ensures r.Ok? ==> r.value != [] && r.value == Lower(ValidateName(name).value)
  {
    StripEmptyIffBlank(name);
    if IsBlank(name) then Err("ValueError: Tag name cannot be empty") else Ok(Lower(Strip(name)))
  }

  lemma LowerCharKeepsSpace(c: char)
    ensures IsWhitespace(LowerChar(c)) <==> IsWhitespace(c)
    ensures LowerChar(LowerChar(c)) == LowerChar(c)
  {
  }

  /** Two strings are equal once lower-cased. */
  lemma LowerIdempotent(s: string)
    ensures Lower(Lower(s)) == Lower(s)
  {
    forall i | 0 <= i < |s| ensures Lower(Lower(s))[i] == Lower(s)[i] {
      LowerCharKeepsSpace(s[i]);
    }
  }

  /** A stored tag name validates to itself. */
  lemma ValidateTagNameIdempotent(name: string)
    requires ValidateTagName(name).Ok?
    ensures ValidateTagName(ValidateTagName(name).value) == ValidateTagName(name)
  {
    var t := Strip(name);
    var v := Lower(t);
    StripEmptyIffBlank(name);
    LowerAt(t);
    LowerCharKeepsSpace(t[0]);
    LowerCharKeepsSpace(t[|t| - 1]);
    StripByNoop(v, IsWhitespace);
    StripEmptyIffBlank(v);
    LowerIdempotent(t);
  }

  /** `Entity.validate_entity_type`. */
  function ValidateEntityType(entityType: string): (r: Result<string>)
    ensures r.Ok? <==> entityType == "video" || entityType == "sequence"
    ensures r.Ok? ==> r.value == entityType
  {
    if entityType in ["video", "sequence"] then Ok(entityType)
    else Err("ValueError: Entity type must be one of: ['video', 'sequence']")
  }

  const MinResolution: int := 32
  const MaxResolution: int := 1024

  /** `Thumbnail.validate_resolution`. */
  function ValidateResolution(resolution: int): (r: Result<int>)
    ensures r.Ok? <==> MinResolution <= resolution <= MaxResolution
    ensures r.Ok? ==> r.value == resolution
  {
    if resolution < MinResolution || resolution > MaxResolution then
      Err("ValueError: Thumbnail resolution must be between 32 and 1024 pixels")
    else Ok(resolution)
  }

  /**
   * `Metadata.validate_category`: a non-empty category is stripped and
   * lower-cased (categories outside the known list are kept); `None` and ""
   * pass through.
   */
  function ValidateCategory(category: Option<string>): (r: Option<string>)
    ensures category.None? || category.value == [] ==> r == category
    ensures category.Some? && category.value != [] ==> r == Some(Lower(Strip(category.value)))
  {
    if category.Some? && category.value != [] then Some(Lower(Strip(category.value))) else category
  }

  /** Validating a stored category changes nothing. */
  lemma ValidateCategoryIdempotent(category: Option<string>)
    ensures ValidateCategory(ValidateCategory(category)) == ValidateCategory(category)
  {
    if category.Some? && category.value != [] && Strip(category.value) != [] {
      var t := Strip(category.value);
      LowerAt(t);
      LowerCharKeepsSpace(t[0]);
      LowerCharKeepsSpace(t[|t| - 1]);
      StripByNoop(Lower(t), IsWhitespace);
      LowerIdempotent(t);
    }
  }

  /** `Metadata.get_category_display`: "General" without a category, otherwise its title case. */
  function CategoryDisplay(category: Option<string>): (r: string)
    ensures category.None? || category.value == [] ==> r == "General"
    ensures category.Some? && category.value != [] ==> |r| == |category.value| && Lower(r) == Lower(category.value)
  {
    if category.None? || category.value == [] then "General"
    else
      TitleLower(category.value, false);
      Title(category.value)
  }

  lemma {:induction false} TitleLower(s: string, inWord: bool)
    ensures Lower(TitleFrom(s, inWord)) == Lower(s)
  {
    if s != [] {
      TitleLower(s[1..], IsAsciiLetter(s[0]));
      LowerCharKeepsSpace(s[0]);
      assert TitleFrom(s, inWord) == [TitleFrom(s, inWord)[0]] + TitleFrom(s[1..], IsAsciiLetter(s[0]));
      assert s == [s[0]] + s[1..];
    }
  }

  // ----------------------------------------------------------------- color

  predicate IsHexDigit(c: char) { '0' <= c <= '9' || 'a' <= c <= 'f' || 'A' <= c <= 'F' }

  /** Hex digits with single underscores between them, as Python's `int` accepts them. */
  predicate HexDigitRun(s: string)
  {
    && |s| >= 1 && IsHexDigit(s[0]) && IsHexDigit(s[|s| - 1])
    && (forall i :: 0 <= i < |s| ==> IsHexDigit(s[i]) || s[i] == '_')
    && NoDoubleUnderscore(s)
  }

  predicate NoDoubleUnderscore(s: string)
  {
    |s| < 2 || (!(s[0] == '_' && s[1] == '_') && NoDoubleUnderscore(s[1..]))
  }

  lemma {:induction false} HexDigitsHaveNoUnderscore(s: string)
    requires forall i :: 0 <= i < |s| ==> IsHexDigit(s[i])
    ensures NoDoubleUnderscore(s)
  {
    if |s| >= 2 {
      assert forall i :: 0 <= i < |s[1..]| ==> s[1..][i] == s[i + 1];
      HexDigitsHaveNoUnderscore(s[1..]);
    }
  }

  /**
   * `int(s, 16)` returns rather than raising: surrounding whitespace, one
   * sign and a `0x` prefix are allowed around the digits.
   */
  predicate ParsesAsHex(s: string)
  {
    SignedHexLiteral(Strip(s))
  }

  predicate SignedHexLiteral(t: string)
  {
    if t != [] && (t[0] == '+' || t[0] == '-') then HexLiteral(t[1..]) else HexLiteral(t)
  }

  predicate HexLiteral(u: string)
  {
    if |u| >= 2 && u[0] == '0' && (u[1] == 'x' || u[1] == 'X') then
      var w := u[2..];
      HexDigitRun(w) || (|w| >= 2 && w[0] == '_' && HexDigitRun(w[1..]))
    else HexDigitRun(u)
  }

  /**
   * `Tag.validate_color` as written: `None` and "" pass; anything else must
   * be seven characters starting with '#' whose remainder `int(_, 16)` accepts.
   */
  function ValidateColor(color: Option<string>): (r: Result<Option<string>>)
    ensures r.Ok? ==> r.value == color
    ensures color.Some? && color.value != [] && r.Ok? ==> |color.value| == 7 && color.value[0] == '#'
  {
    if color.None? || color.value == [] then Ok(color)
    else if |color.value| != 7 || color.value[0] != '#' then Err("ValueError: Color must be in hex format (#RRGGBB)")
    else if !ParsesAsHex(color.value[1..]) then Err("ValueError: Invalid hex color code")
    else Ok(color)
  }

  /** `#` followed by six hex digits. */
  predicate IsHexColor(s: string)
  {
    |s| == 7 && s[0] == '#' && forall i :: 1 <= i < 7 ==> IsHexDigit(s[i])
  }

  /** The validator as written lets a signed value through: "#-fffff" is accepted. */
  lemma ValidateColorAcceptsSign()
    ensures ValidateColor(Some("#-fffff")).Ok?
    ensures !IsHexColor("#-fffff")
  {
    var c := "#-fffff";
    assert |c| == 7 && c[0] == '#';
    assert c[1..] == "-fffff";
    assert "-fffff"[1..] == "fffff";
    SignedHexParses("-fffff");
  }

  /** `int(s, 16)` reads hex digits, whatever their number. */
  lemma HexDigitsParse(s: string)
    requires |s| >= 1 && forall i :: 0 <= i < |s| ==> IsHexDigit(s[i])
    ensures ParsesAsHex(s)
  {
    assert HexLiteral(s) by {
      HexDigitsHaveNoUnderscore(s);
    }
    assert SignedHexLiteral(s);
    assert Strip(s) == s by {
      assert !IsWhitespace(s[0]) && !IsWhitespace(s[|s| - 1]);
      StripByNoop(s, IsWhitespace);
    }
  }

  /** ... and hex digits after a minus sign. */
  lemma SignedHexParses(s: string)
    requires |s| >= 2 && s[0] == '-' && forall i :: 1 <= i < |s| ==> IsHexDigit(s[i])
    ensures ParsesAsHex(s)
  {
    var u := s[1..];
    assert HexLiteral(u) by {
      assert forall i :: 0 <= i < |u| ==> IsHexDigit(u[i]) by {
        forall i | 0 <= i < |u| ensures IsHexDigit(u[i]) {
          assert u[i] == s[i + 1];
        }
      }
      HexDigitsHaveNoUnderscore(u);
    }
    assert SignedHexLiteral(s);
    assert Strip(s) == s by {
      assert !IsWhitespace(s[0]) && !IsWhitespace(s[|s| - 1]);
      StripByNoop(s, IsWhitespace);
    }
  }

  /** The validator as intended: the empty color, or exactly `#RRGGBB`. */
  function ValidateColorStrict(color: Option<string>): (r: Result<Option<string>>)
    ensures r.Ok? <==> color.None? || color.value == [] || IsHexColor(color.value)
    ensures r.Ok? ==> r.value == color
  {
    if color.None? || color.value == [] || IsHexColor(color.value) then Ok(color)
    else Err("ValueError: Color must be in hex format (#RRGGBB)")
  }

  /** Every color the intended validator accepts, the written one accepts too. */
  lemma StrictColorIsAccepted(color: Option<string>)
    requires ValidateColorStrict(color).Ok?
    ensures ValidateColor(color).Ok?
  {
    if color.Some? && color.value != [] {
      var c := color.value;
      var s := c[1..];
      assert forall i :: 0 <= i < |s| ==> IsHexDigit(s[i]) by {
        forall i | 0 <= i < |s| ensures IsHexDigit(s[i]) {
          assert s[i] == c[i + 1];
        }
      }
      HexDigitsParse(s);
    }
  }

  // ------------------------------------------------------------- favorites

  datatype FavoriteRow = FavoriteRow(entityId: nat, projectId: Option<int>, userId: Option<string>)
  {
    /** `is_project_favorite`. */
    predicate IsProjectFavorite() { projectId.Some? }

    /** `is_user_favorite`. */
    predicate IsUserFavorite() { projectId.None? }
  }

  /** Every favorite is a project favorite or a user favorite, never both. */
  lemma FavoriteKindsPartition(f: FavoriteRow)
    ensures f.IsProjectFavorite() != f.IsUserFavorite()
    ensures f.IsProjectFavorite() <==> f.projectId.Some?
  {
  }

  // ------------------------------------------------------------ JSON columns

  /**
   * A `Text` column holding JSON: NULL, a document `json.loads` reads as
   * `value`, or text it refuses (the empty string among them).
   */
  datatype TextColumn = NullText | Document(value: Json) | Malformed(raw: string)

  /** `get_custom_fields` (and `Project.get_config`): the decoded document, else `{}`. */
  function DecodeColumn(c: TextColumn): (r: Json)
    ensures c.Document? ==> r == c.value
    ensures !c.Document? ==> r == JObj(map[])
  {
    match c
    case Document(v) => v
    case _ => JObj(map[])
  }

  /** `set_custom_fields`: the dictionary serialised. */
  function EncodeObject(fields: map<string, Json>): (c: TextColumn)
    ensures DecodeColumn(c) == JObj(fields)
  {
    Document(JObj(fields))
  }

  /**
   * `add_custom_field`: read the fields, set one key, write them back.  A
   * stored document that is not a dict makes the item assignment raise.
   */
  function AddCustomField(c: TextColumn, key: string, value: Json): (r: Result<TextColumn>)
    ensures r.Ok? <==> DecodeColumn(c).JObj?
    ensures r.Ok? ==> DecodeColumn(r.value) == JObj(DecodeColumn(c).m[key := value])
  {
    var fields := DecodeColumn(c);
    if fields.JObj? then Ok(EncodeObject(fields.m[key := value]))
    else Err("TypeError: item assignment")
  }

  /** Adding a field changes that one key and leaves every other key as it was. */
  lemma AddCustomFieldChangesOneKey(c: TextColumn, key: string, value: Json, other: string)
    requires AddCustomField(c, key, value).Ok?
    ensures var after := DecodeColumn(AddCustomField(c, key, value).value).m;
            && key in after && after[key] == value
            && (other != key ==> (other in after <==> other in DecodeColumn(c).m))
            && (other != key && other in after ==> after[other] == DecodeColumn(c).m[other])
  {
  }

  /** `Thumbnail.get_animated_path`: the `animated_path` entry of a non-empty dict, else None. */
  function GetAnimatedPath(extraData: Json): (r: Json)
    ensures extraData.JObj? && "animated_path" in extraData.m ==> r == extraData.m["animated_path"]
    ensures !(extraData.JObj? && "animated_path" in extraData.m) ==> r == JNull
  {
    if Truthy(extraData) && extraData.JObj? then DictGet(extraData, "animated_path", JNull) else JNull
  }

  /**
   * `Thumbnail.set_animated_path`: an empty value is first replaced by `{}`;
   * a non-empty value that is not a dict makes the item assignment raise.
   */
  function SetAnimatedPath(extraData: Json, path: string): (r: Result<Json>)
    ensures r.Ok? <==> !Truthy(extraData) || extraData.JObj?
  {
    var d := if !Truthy(extraData) then JObj(map[]) else extraData;
    if d.JObj? then Ok(JObj(d.m["animated_path" := JStr(path)])) else Err("TypeError: item assignment")
  }

  /** Setting then getting the animated path returns it, and other keys survive. */
  lemma AnimatedPathRoundTrip(extraData: Json, path: string)
    requires SetAnimatedPath(extraData, path).Ok?
    ensures GetAnimatedPath(SetAnimatedPath(extraData, path).value) == JStr(path)
    ensures extraData.JObj? ==>
              forall k :: k in extraData.m && k != "animated_path" ==>
                k in SetAnimatedPath(extraData, path).value.m
                && SetAnimatedPath(extraData, path).value.m[k] == extraData.m[k]
  {
  }

  /** `get_resolution_string`: `"WxH"` when both are set and non-zero, otherwise "Unknown". */
  function ResolutionString(width: Option<int>, height: Option<int>): (r: string)
  {
    if width.Some? && width.value != 0 && height.Some? && height.value != 0 then
      IntToString(width.value) + "x" + IntToString(height.value)
    else "Unknown"
  }

  lemma IntToStringHasNoX(i: int)
    ensures 'x' !in IntToString(i)
  {
    var d := NatToString(if i < 0 then -i else i);
    assert forall k :: 0 <= k < |d| ==> IsDigit(d[k]);
  }

  /** The resolution string splits at 'x' into the two numbers it was made from. */
  lemma ResolutionStringParses(width: Option<int>, height: Option<int>)
    ensures var r := ResolutionString(width, height);
            if width.Some? && width.value != 0 && height.Some? && height.value != 0 then
              |Split(r, 'x')| == 2
              && ParseInt(Split(r, 'x')[0]) == width && ParseInt(Split(r, 'x')[1]) == height
            else r == "Unknown"
  {
    if width.Some? && width.value != 0 && height.Some? && height.value != 0 {
      var a, b := IntToString(width.value), IntToString(height.value);
      assert ResolutionString(width, height) == a + ['x'] + b;
      assert Split(a + ['x'] + b, 'x') == [a, b] by {
        IntToStringHasNoX(width.value);
        IntToStringHasNoX(height.value);
        assert FindChar(a, 'x') == -1 && FindChar(b, 'x') == -1;
        SplitConcat(a, b, 'x');
      }
      ParseIntOfIntToString(width.value);
      ParseIntOfIntToString(height.value);
    }
  }

  /**
   * `calculate_aspect_ratio` before rounding: width over height when both
   * are set, non-zero and the height positive.
   */
  function AspectRatio(width: Option<int>, height: Option<int>): (r: Option<real>)
    ensures r.Some? <==> width.Some? && width.value != 0 && height.Some? && height.value > 0
    ensures r.Some? ==> r.value * height.value as real == width.value as real
  {
    if width.Some? && width.value != 0 && height.Some? && height.value > 0 then
      Some(width.value as real / height.value as real)
    else None
  }

  // ------------------------------------------------------------------ rows

  datatype EntityRow = EntityRow(
    id: nat, path: string, entityType: string, name: string, fileSize: Option<int>,
    fileCount: int, metadataExtracted: bool, thumbnailGenerated: bool)

  /** The standard metadata columns, in the order the managers list them. */
  const StandardFields: seq<string> := [
    "duration", "fps", "width", "height", "aspect_ratio", "format", "codec",
    "audio_codec", "colorspace", "bit_depth", "bitrate", "frame_count", "has_audio"]

  /**
   * A metadata row: the non-NULL standard columns by name, and the custom
   * fields column.
   */
  datatype MetadataRow = MetadataRow(entityId: nat, standard: map<string, Json>, customFields: TextColumn)

  datatype ThumbnailRow = ThumbnailRow(
    entityId: nat, path: string, resolution: int, generationTime: Option<real>,
    sourceFrame: Option<real>, fileSize: Option<int>, isValid: bool, extraData: Json)

  datatype Tables = Tables(
    entities: seq<EntityRow>, metadata: map<nat, MetadataRow>, thumbnails: map<(nat, int), ThumbnailRow>)

  /**
   * The keys agree with the rows: entity ids are positions plus one, and
   * every metadata or thumbnail row names an existing entity under its key.
   */
  predicate WellFormed(t: Tables)
  {
    && (forall i :: 0 <= i < |t.entities| ==> t.entities[i].id == i + 1)
    && (forall k :: k in t.metadata ==> t.metadata[k].entityId == k && 1 <= k <= |t.entities|)
    && (forall k :: k in t.thumbnails ==>
          t.thumbnails[k].entityId == k.0 && t.thumbnails[k].resolution == k.1 && 1 <= k.0 <= |t.entities|)
  }

  const EmptyTables: Tables := Tables([], map[], map[])

  /** `query(Entity).filter_by(path=…, entity_type=…).first()`: the earliest matching row's position. */
  function FindEntity(rows: seq<EntityRow>, path: string, entityType: string): (r: Option<nat>)
    ensures r.Some? ==> r.value < |rows| && rows[r.value].path == path && rows[r.value].entityType == entityType
    ensures r.Some? ==> forall i :: 0 <= i < r.value ==> !(rows[i].path == path && rows[i].entityType == entityType)
    ensures r.None? ==> forall i :: 0 <= i < |rows| ==> !(rows[i].path == path && rows[i].entityType == entityType)
  {
    if rows == [] then None
    else if rows[0].path == path && rows[0].entityType == entityType then Some(0)
    else match FindEntity(rows[1..], path, entityType)
      case None => None
      case Some(k) => Some(k + 1)
  }

  /** `query(Entity).filter_by(path=…).first()`. */
  function FindEntityByPath(rows: seq<EntityRow>, path: string): (r: Option<nat>)
    ensures r.Some? ==> r.value < |rows| && rows[r.value].path == path
    ensures r.Some? ==> forall i :: 0 <= i < r.value ==> rows[i].path != path
    ensures r.None? ==> forall i :: 0 <= i < |rows| ==> rows[i].path != path
  {
    if rows == [] then None
    else if rows[0].path == path then Some(0)
    else match FindEntityByPath(rows[1..], path)
      case None => None
      case Some(k) => Some(k + 1)
  }

  /**
   * `Entity(...)` followed by `session.add` and `flush`: the validators run
   * on the type and the name, and the row gets the next id.
   */
  function AddEntity(t: Tables, path: string, entityType: string, name: string, fileSize: Option<int>,
                     fileCount: int, metadataExtracted: bool, thumbnailGenerated: bool): (r: Result<Tables>)
    requires WellFormed(t)
    ensures r.Ok? <==> ValidateEntityType(entityType).Ok? && ValidateName(name).Ok?
    ensures r.Ok? ==> WellFormed(r.value)
    ensures r.Ok? ==> r.value.entities == t.entities + [EntityRow(|t.entities| + 1, path, entityType,
                        ValidateName(name).value, fileSize, fileCount, metadataExtracted, thumbnailGenerated)]
    ensures r.Ok? ==> r.value.metadata == t.metadata && r.value.thumbnails == t.thumbnails
  {
    var ty := ValidateEntityType(entityType);
    var nm := ValidateName(name);
    if ty.Err? then Err(ty.error)
    else if nm.Err? then Err(nm.error)
    else
      var row := EntityRow(|t.entities| + 1, path, ty.value, nm.value, fileSize, fileCount,
                           metadataExtracted, thumbnailGenerated);
      AppendEntityWellFormed(t, row);
      Ok(Tables(t.entities + [row], t.metadata, t.thumbnails))
  }

  lemma AppendEntityWellFormed(t: Tables, row: EntityRow)
    requires WellFormed(t) && row.id == |t.entities| + 1
    ensures WellFormed(Tables(t.entities + [row], t.metadata, t.thumbnails))
  {
  }

  /** Replaces the entity at position `i`, keeping its id. */
  function SetEntity(t: Tables, i: nat, row: EntityRow): (r: Tables)
    requires WellFormed(t) && i < |t.entities| && row.id == t.entities[i].id
    ensures WellFormed(r) && |r.entities| == |t.entities|
    ensures r.entities[i] == row
    ensures forall j :: 0 <= j < |t.entities| && j != i ==> r.entities[j] == t.entities[j]
    ensures r.metadata == t.metadata && r.thumbnails == t.thumbnails
  {
    Tables(t.entities[i := row], t.metadata, t.thumbnails)
  }

  /** A row appended after rows that do not match is found at its own position. */
  lemma {:induction false} FindEntityAppended(rows: seq<EntityRow>, row: EntityRow)
    requires FindEntity(rows, row.path, row.entityType).None?
    ensures FindEntity(rows + [row], row.path, row.entityType) == Some(|rows|)
  {
    if rows != [] {
      assert (rows + [row])[1..] == rows[1..] + [row];
      FindEntityAppended(rows[1..], row);
    }
  }

  /** Appending a row keeps every earlier match where it was. */
  lemma {:induction false} FindEntityKept(rows: seq<EntityRow>, row: EntityRow, path: string, entityType: string)
    requires FindEntity(rows, path, entityType).Some?
    ensures FindEntity(rows + [row], path, entityType) == FindEntity(rows, path, entityType)
  {
    if !(rows[0].path == path && rows[0].entityType == entityType) {
      assert (rows + [row])[1..] == rows[1..] + [row];
      FindEntityKept(rows[1..], row, path, entityType);
    }
  }

  /** Replacing a row by one with the same path and type changes no lookup. */
  lemma {:induction false} FindEntityAfterSet(rows: seq<EntityRow>, i: nat, row: EntityRow, path: string, entityType: string)
    requires i < |rows| && row.path == rows[i].path && row.entityType == rows[i].entityType
    ensures FindEntity(rows[i := row], path, entityType) == FindEntity(rows, path, entityType)
  {
    if i > 0 {
      assert rows[i := row][1..] == rows[1..][i - 1 := row];
      FindEntityAfterSet(rows[1..], i - 1, row, path, entityType);
    }
  }

  /**
   * The lookup-or-create step of the store methods: the earliest entity with
   * this path and type, or a new one added with the given columns.  The
   * position returned is the entity's; its id is one more.
   */
  function FindOrAddEntity(t: Tables, path: string, entityType: string, name: string, fileSize: Option<int>,
                           fileCount: int, metadataExtracted: bool, thumbnailGenerated: bool): (r: Result<(Tables, nat)>)
    requires WellFormed(t)
    ensures r.Ok? ==> WellFormed(r.value.0) && r.value.1 < |r.value.0.entities|
    ensures r.Ok? ==> FindEntity(r.value.0.entities, path, entityType) == Some(r.value.1)
    ensures r.Ok? ==> r.value.0.metadata == t.metadata && r.value.0.thumbnails == t.thumbnails
    ensures r.Ok? ==> |t.entities| <= |r.value.0.entities| <= |t.entities| + 1
                      && r.value.0.entities[..|t.entities|] == t.entities
    ensures FindEntity(t.entities, path, entityType).Some? ==> r == Ok((t, FindEntity(t.entities, path, entityType).value))
    ensures FindEntity(t.entities, path, entityType).None? ==>
              (r.Ok? <==> ValidateEntityType(entityType).Ok? && ValidateName(name).Ok?)
  {
    var found := FindEntity(t.entities, path, entityType);
    if found.Some? then Ok((t, found.value))
    else match AddEntity(t, path, entityType, name, fileSize, fileCount, metadataExtracted, thumbnailGenerated)
      case Err(e) => Err(e)
      case Ok(t') =>
        AddedEntityFound(t.entities, t'.entities, path, entityType);
        Ok((t', |t.entities|))
  }

  lemma AddedEntityFound(rows: seq<EntityRow>, rows': seq<EntityRow>, path: string, entityType: string)
    requires FindEntity(rows, path, entityType).None?
    requires |rows'| == |rows| + 1 && rows' == rows + [rows'[|rows|]]
    requires rows'[|rows|].path == path && rows'[|rows|].entityType == entityType
    ensures FindEntity(rows', path, entityType) == Some(|rows|) && rows'[..|rows|] == rows
  {
    FindEntityAppended(rows, rows'[|rows|]);
  }

  /**
   * The database files the managers open, each with its tables; a file
   * nothing has been written to yet reads as empty.  A session that raises
   * is rolled back, so a file's tables change only by a whole successful
   * session.
   */
  class Store {
    var files: map<string, Tables>

    predicate Valid()
      reads this
    {
      forall f :: f in files ==> WellFormed(files[f])
    }

    function TablesOf(file: string): (t: Tables)
      reads this
      requires Valid()
      ensures WellFormed(t)
      ensures file !in files ==> t == EmptyTables
    {
      if file in files then files[file] else EmptyTables
    }

    constructor ()
      ensures files == map[] && Valid()
    {
      files := map[];
    }

    /** A session on `file` that committed `t`. */
    method Commit(file: string, t: Tables)
      requires Valid() && WellFormed(t)
      modifies this
      ensures files == old(files)[file := t] && Valid()
    {
      files := files[file := t];
    }
  }
}
