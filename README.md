# stockshot-browser, modelled in Dafny

Stockshot Browser is a desktop browser for stock footage, rendered image
sequences and single images. It scans directories and turns a listing into
media entities (videos, image sequences, folder sequences and single images).
Each path is routed to a storage context (general, user or project), and each
context has its own SQLite database and thumbnail cache. The browser
generates thumbnails, extracts metadata with ffprobe, and keeps tags and
favorites. It reads a four-layer configuration (defaults, general, project,
user), and its Qt user interface holds selection, search, tab and tag state.

This project models the logic of that pipeline and proves properties of it.
The file system, SQLite, ffmpeg, clocks and Qt are treated as inputs.

- `sequence_detector.dfy`: image-sequence detection. File names are matched
  against an ordered pattern list, grouped, filtered by length and gap, and
  summarised with a frame range, missing frames and a `base.####.ext` name.
- `entities.dfy`: the entity managers. Covers classification of folder
  sequences, the per-directory scan and the recursive scan.
- `path_context.dfy` and `multi_database.dfy`: routing a path to a context,
  that context's database and thumbnail directories, and the registry of
  per-context databases.
- `thumbnails.dfy` and `thumbnail_managers.dfy`: cache file names, the
  staleness rule, recording a generated thumbnail, cache eviction, and the
  single-database and multi-context thumbnail managers.
- `metadata.dfy` and `ffmpeg.dfy`: turning probe output into a metadata
  record, storing and reading it back, and sampling frames for animated
  previews.
- `file_utils.dfy`: media filtering, `safe_filename` and the unit choice of
  `format_bytes`.
- `config_tree.dfy`, `config.dfy`, `schemas.dfy` and `defaults.dfy`: the
  configuration cascade, dotted get and set, favorites, extraction of user
  settings, and the schema validators.
- `connection.dfy`, `records.dfy` and `migrations.dfy`: the retry decorator
  and commit loop, session pools, backup retention, the ORM validators and
  JSON columns, and the version-gated migrations.
- `search_widget.dfy`, `content_view.dfy`, `tabbed_navigation.dfy`,
  `tag_dialog.dfy`, `directory_tree.dfy` and `context_menu.dfy`: the
  render-free state of the user interface.
- `wrappers.dfy`, `text.dfy`, `json.dfy`, `paths.dfy` and `sorting.dfy`:
  the Python and `pathlib` behaviour the code relies on. This includes
  `str` methods, truthiness and `in` on Python values, `PurePosixPath`, and
  the stable `sorted`.

Objects whose fields the source updates in place are classes. Examples are
the managers, `DatabaseManager`, `ConfigurationManager`, the migration
engine, and the widgets' state. Their methods are proved against
specification functions, and the properties are proved about those
functions.

## Model

| member | source | states |
|---|---|---|
| FileUtils.IsHidden | src/stockshot_browser/utils/file_utils.py:95-97 | a name is hidden exactly when its first character is a dot |
| FileUtils.Videos | src/stockshot_browser/utils/file_utils.py:124-134 | a file is kept as a video iff it is a regular file whose lower-cased suffix is a video extension; order kept |
| FileUtils.Images | src/stockshot_browser/utils/file_utils.py:124-136 | a file is kept as an image iff it is a regular file whose suffix is an image extension and not a video extension |
| FileUtils.FilterMediaFiles | src/stockshot_browser/utils/file_utils.py:109-137 | the loop returns exactly the video list and the image list above |
| FileUtils.MediaSplitIsPartition | src/stockshot_browser/utils/file_utils.py:124-137 | no file lands in both lists, and every regular file with a known suffix lands in one of them |
| FileUtils.ReplaceChar | src/stockshot_browser/utils/file_utils.py:155-156 | `str.replace` of one character: the character is gone when the replacement lacks it, every other character survives, nothing foreign appears |
| FileUtils.Finish | src/stockshot_browser/utils/file_utils.py:158-164 | stripping spaces and dots and falling back to `unnamed` gives a non-empty name that neither starts nor ends with a space or a dot |
| FileUtils.ReplaceEach | src/stockshot_browser/utils/file_utils.py:153-156 | the replacement loop equals replacing each invalid character in turn; with a safe replacement no invalid character is left |
| FileUtils.SafeFilename | src/stockshot_browser/utils/file_utils.py:139-166 | the result is non-empty, has no leading or trailing space or dot, and holds no invalid character when the replacement holds none |
| FileUtils.SafeName | src/stockshot_browser/utils/file_utils.py:139-166 | `safe_filename` with the default `_` replacement is never empty |
| FileUtils.SafeNameHasNoInvalidChar | src/stockshot_browser/utils/file_utils.py:150-166 | with the default replacement no character of `<>:"/\|?*` survives |
| FileUtils.SafeNameIdempotent | src/stockshot_browser/utils/file_utils.py:139-166 | making a safe name safe again changes nothing |
| FileUtils.ReplaceAllRemoves | src/stockshot_browser/utils/file_utils.py:153-156 | replacing a set of characters with a string free of them removes them all and introduces only the replacement's characters |
| FileUtils.FormatBytes | src/stockshot_browser/utils/file_utils.py:61-83 | zero is `0 B`; otherwise the value shown times 1024 to the unit's power is the size, below 1024 unless the unit is TB and at least 1 unless it is B |
| SequenceDetector.TryPattern | src/stockshot_browser/utils/sequence_detector.py:97-127 | a pattern yields a frame file only with three groups and an integer frame group, whose padding is the frame text's length |
| SequenceDetector.FirstMatch | src/stockshot_browser/utils/sequence_detector.py:96-130 | no frame file only when every pattern fails; otherwise the file's own path under one of the patterns |
| SequenceDetector.FirstMatchIsFirst | src/stockshot_browser/utils/sequence_detector.py:96-124 | the pattern used is the first that matches: every earlier pattern failed |
| SequenceDetector.IndexOfKey | src/stockshot_browser/utils/sequence_detector.py:111-113 | the group with the key, or -1 exactly when no group has it |
| SequenceDetector.WithKey | src/stockshot_browser/utils/sequence_detector.py:111-113 | the frame files under one key are exactly those whose key it is |
| SequenceDetector.AddToGroupsCorrect | src/stockshot_browser/utils/sequence_detector.py:110-121 | appending a file to its key's group keeps every group equal to the files with that key, in arrival order |
| SequenceDetector.GroupAllCorrect | src/stockshot_browser/utils/sequence_detector.py:88-138 | the grouping holds one non-empty group per key, each the files with that key in order |
| SequenceDetector.FileInOneGroup | src/stockshot_browser/utils/sequence_detector.py:88-138 | every matched file is in exactly one group |
| SequenceDetector.MatchedAreFirstMatches | src/stockshot_browser/utils/sequence_detector.py:93-133 | every grouped file comes from the input, matched by its first matching pattern |
| SequenceDetector.Detector.GroupFilesByPattern | src/stockshot_browser/utils/sequence_detector.py:88-138 | the nested loops build exactly the grouping above |
| SequenceDetector.SeqMin | src/stockshot_browser/utils/sequence_detector.py:158 | `min`: a member no larger than any member |
| SequenceDetector.SeqMax | src/stockshot_browser/utils/sequence_detector.py:158 | `max`: a member no smaller than any member |
| SequenceDetector.MissingFrames | src/stockshot_browser/utils/sequence_detector.py:161-164 | the frames of the range absent from the group, ascending |
| SequenceDetector.MaxGapIsMax | src/stockshot_browser/utils/sequence_detector.py:194-204 | the maximum gap bounds every gap between neighbours and is 0 or one of them |
| SequenceDetector.Detector.MaxGapSize | src/stockshot_browser/utils/sequence_detector.py:194-204 | the loop computes the maximum gap: every gap between neighbouring frames is at most the result, which is MaxGap of the frames |
| SequenceDetector.SortedMembers | src/stockshot_browser/utils/sequence_detector.py:146 | sorting by frame number permutes the group into ascending frame order |
| Sorting.SortByIntStable | src/stockshot_browser/utils/sequence_detector.py:146 | `list.sort` is stable: the elements with one key keep their input order |
| Sorting.SortByStrStable | src/stockshot_browser/ui/directory_tree.py:214 | sorting by a string key is stable: the elements with one key keep their input order |
| SequenceDetector.SequenceOf | src/stockshot_browser/utils/sequence_detector.py:140-192 | no sequence iff the group is shorter than the minimum or has missing frames with a gap over the maximum; otherwise files, range, count, missing frames and the `#`-padded name as the source builds them |
| SequenceDetector.RangeIsEnds | src/stockshot_browser/utils/sequence_detector.py:146-158 | the frame range is the first and last frame of the sorted group |
| SequenceDetector.SequenceMembersShareKey | src/stockshot_browser/utils/sequence_detector.py:149-155 | base name, extension, padding and pattern of a sequence are its group's key |
| SequenceDetector.SupportedOnly | src/stockshot_browser/utils/sequence_detector.py:68-71 | exactly the files whose lower-cased suffix is supported |
| SequenceDetector.SequencesQualify | src/stockshot_browser/utils/sequence_detector.py:80-86 | every sequence kept has as many files as its frame count, and at least the minimum |
| SequenceDetector.Detector.constructor | src/stockshot_browser/utils/sequence_detector.py:30-52 | patterns are the defaults followed by the custom ones; extensions are lower-cased |
| SequenceDetector.Detector.Detect | src/stockshot_browser/utils/sequence_detector.py:54-86 | no files or no supported file gives no sequence; every sequence meets the minimum length |
| SequenceDetector.Detector.DetectedFilesAreInputs | src/stockshot_browser/utils/sequence_detector.py:54-86 | every file of a sequence is an input file, and no file is in two sequences |
| SequenceDetector.Detector.CreateSequenceInfo | src/stockshot_browser/utils/sequence_detector.py:140-192 | the method computes the sequence described by `SequenceOf` |
| SequenceDetector.Detector.DetectSequences | src/stockshot_browser/utils/sequence_detector.py:54-86 | the method computes `Detect` |
| SequenceDetector.Detector.SequencesOfGroups | src/stockshot_browser/utils/sequence_detector.py:80-85 | the loop over the groups keeps the sequences in group order |
| SequenceDetector.Detector.AddCustomPattern | src/stockshot_browser/utils/sequence_detector.py:206-232 | added iff the pattern compiles and is new, then appended to both lists; nothing else in the detector changes |
| SequenceDetector.Detector.RemoveCustomPattern | src/stockshot_browser/utils/sequence_detector.py:234-253 | removed iff it is a custom pattern, then its first occurrence leaves both lists; nothing else in the detector changes |
| SequenceDetector.RemoveFirst | src/stockshot_browser/utils/sequence_detector.py:245-246 | `list.remove`: one occurrence fewer, everything else kept |
| SequenceDetector.RemoveKeepsValid | src/stockshot_browser/utils/sequence_detector.py:244-246 | after a removal the patterns are still the defaults plus the custom ones |
| SequenceDetector.SourceKeyCollides | src/stockshot_browser/utils/sequence_detector.py:111 | two files with different base names and extensions format to the same string key |
| PathContext.UserBeforeProject | src/stockshot_browser/core/path_context_manager.py:78-106 | a path under a user root is USER even when it is also under a project root |
| PathContext.RootIsInItsContext | src/stockshot_browser/core/path_context_manager.py:78-116 | a resolved user root is itself in the USER context |
| PathContext.VisitedRootCounts | src/stockshot_browser/core/path_context_manager.py:83-91 | any string root the loop visits that contains the path makes the path count as under the roots |
| PathContext.NoRootsGeneral | src/stockshot_browser/core/path_context_manager.py:78-106 | with no roots configured every path is GENERAL |
| PathContext.ContextOf | src/stockshot_browser/core/path_context_manager.py:57-106 | "" and unresolvable paths are GENERAL; USER means under a user root; PROJECT means under a project root and no user root |
| PathContext.PathsGet | src/stockshot_browser/core/path_context_manager.py:120-127 | `dict.get` on the `paths` section: the stored value or the default, and an error when the section is not a dict |
| PathContext.DatabasePath | src/stockshot_browser/core/path_context_manager.py:118-127 | USER and PROJECT read their own key and fall back to `gen_db_directory`, which falls back to "" |
| PathContext.ThumbnailPath | src/stockshot_browser/core/path_context_manager.py:129-138 | the same fall-back over the thumbnail keys |
| PathContext.MissingKeyFallsBack | src/stockshot_browser/core/path_context_manager.py:122-127 | without context-specific keys every context uses the general database directory |
| PathContext.DatabaseConfigFor | src/stockshot_browser/core/path_context_manager.py:140-149 | the context's value, its directory, and `<dir>/stockshot.db` whose name is `stockshot.db`; an error when the directory is not a string |
| PathContext.ThumbnailConfigFor | src/stockshot_browser/core/path_context_manager.py:151-159 | the context's value and its thumbnail directory as configured |
| PathContext.PathContextManager.constructor | src/stockshot_browser/core/path_context_manager.py:25-32 | a fresh manager's cache agrees with its roots |
| PathContext.PathContextManager.ReloadConfiguredPaths | src/stockshot_browser/core/path_context_manager.py:34-55 | on success both root lists are replaced and the cache emptied; on failure both lists are emptied and the cache kept |
| PathContext.PathContextManager.GetContextForPath | src/stockshot_browser/core/path_context_manager.py:57-76 | the cached answer when there is one, otherwise the computed context, cached only when the path resolves; a lookup never changes the answer for any path, and a consistent cache stays consistent |
| PathContext.PathContextManager.GetDatabaseConfig | src/stockshot_browser/core/path_context_manager.py:140-149 | the database configuration of the context the manager answers for the path (the roots' context when the cache is consistent) |
| PathContext.PathContextManager.GetThumbnailConfig | src/stockshot_browser/core/path_context_manager.py:151-159 | the thumbnail configuration of the context the manager answers for the path (the roots' context when the cache is consistent) |
| PathContext.PathContextManager.GetContextInfo | src/stockshot_browser/core/path_context_manager.py:161-169 | with no assumption on the cache, even after a failed reload: the context answered for the path with its database and thumbnail configurations, all for that same context; with a consistent cache it is the roots' context |
| Entities.VisibleHas | src/stockshot_browser/core/entity_manager.py:104-106 | an entry survives the hidden filter iff hidden entries are shown or its name is not hidden |
| Entities.DirsOfHas | src/stockshot_browser/core/entity_manager.py:109 | the subdirectory filter keeps exactly the directories |
| Entities.FilesOfHas | src/stockshot_browser/core/entity_manager.py:115 | the file filter keeps exactly the regular files |
| Entities.WithCategoryHas | src/stockshot_browser/core/entity_manager.py:132-153 | a file is in a category's list iff the categorisation (ignored, then image, then video, else other) puts it there |
| Entities.FolderQualifiesIff | src/stockshot_browser/core/entity_manager.py:88-177 | a folder is a sequence folder iff detection is on, it lists, and its visible items hold no subdirectory, some file, only ignored or image files, and at least two images |
| Entities.TotalSizeOf | src/stockshot_browser/core/entity_manager.py:208-214 | the loop sums the sizes that `stat` answers and skips the files it fails on |
| Entities.FirstLargest | src/stockshot_browser/core/entity_manager.py:220-223 | `max` by file count: a sequence with the most files, the first such one |
| Entities.FolderEntityFacts | src/stockshot_browser/core/entity_manager.py:179-250 | a folder entity has the folder's path and name, VIDEO type, its sorted image files, the largest detected sequence's range or `(1, n)`, a positive size or none, and the fall-back `(1, 1)` when no image is left |
| Entities.VideoEntities | src/stockshot_browser/core/entity_manager.py:308-310 | one video entity per video file, in order |
| Entities.ImageEntities | src/stockshot_browser/core/entity_manager.py:320-322 | one single-image entity per image, in order |
| Entities.SequenceEntities | src/stockshot_browser/core/entity_manager.py:331-334 | one entity per detected sequence, in order |
| Entities.AllFiles | src/stockshot_browser/core/entity_manager.py:330-334 | the processed files are exactly the files of the detected sequences |
| Entities.Unmatched | src/stockshot_browser/core/entity_manager.py:337 | the images left are exactly those no sequence took |
| Entities.SequenceFolderIsOneEntity | src/stockshot_browser/core/entity_manager.py:263-272 | a directory that is a sequence folder scans to that one entity, holding all its image files |
| Entities.UnlistedScansToNothing | src/stockshot_browser/core/entity_manager.py:256-258 | a path that is not a directory scans to no entity |
| Entities.ImageInExactlyOneEntity | src/stockshot_browser/core/entity_manager.py:290-342 | every visible image of a scanned directory ends up in exactly one entity |
| Entities.VideosMakeSingleImages | src/stockshot_browser/core/entity_manager.py:315-324 | when the directory has videos every image becomes its own entity |
| Entities.NoVideoEntityHasImage | src/stockshot_browser/core/entity_manager.py:300-310 | no video entity carries an image's path |
| Entities.OneImageEntity | src/stockshot_browser/core/entity_manager.py:336-342 | distinct images give exactly one entity per image path |
| Entities.OneSequenceEntity | src/stockshot_browser/core/entity_manager.py:329-334 | disjoint sequences put each sequence file in exactly one entity |
| Entities.ScanIsConsistent | src/stockshot_browser/core/entity_manager.py:252-349 | every entity of a scan is of VIDEO type and its frame count, when set, is its number of files |
| Entities.GetEntityInfo | src/stockshot_browser/core/entity_manager.py:462-486 | the file count and type name; a size only for a non-zero size; a frame count exactly when there is a frame range |
| Entities.ScanFrameCountsAreFileCounts | src/stockshot_browser/core/entity_manager.py:462-478 | for scanned entities the reported frame count is the number of files |
| Entities.DirsToScan | src/stockshot_browser/core/entity_manager.py:362-375 | the directories to scan start with the root |
| Entities.WalkSplits | src/stockshot_browser/core/entity_manager.py:366-375 | the walk splits visible directories into sequence folders and directories to scan, the root first |
| Entities.ScannedHas | src/stockshot_browser/core/entity_manager.py:381-386 | a directory is scanned iff it is listed and not a sequence folder |
| Entities.RecursiveScanVisits | src/stockshot_browser/core/entity_manager.py:351-407 | below the root, exactly the visible directories that are not sequence folders are scanned |
| Entities.EntityManager.constructor | src/stockshot_browser/core/entity_manager.py:46-79 | the settings as configured, ignored extensions and names lower-cased |
| Entities.EntityManager.IsFolderSequence | src/stockshot_browser/core/entity_manager.py:88-177 | the method decides `FolderQualifies` |
| Entities.EntityManager.Categorize | src/stockshot_browser/core/entity_manager.py:121-153 | the loop builds the four category lists |
| Entities.EntityManager.CreateFolderSequenceEntity | src/stockshot_browser/core/entity_manager.py:179-250 | the method builds the folder entity described above |
| Entities.EntityManager.ImageFilesOf | src/stockshot_browser/core/entity_manager.py:191-200 | the loop keeps the non-ignored image files |
| Entities.EntityManager.SubfolderSequences | src/stockshot_browser/core/entity_manager.py:274-288 | one folder entity per qualifying visible subdirectory, in listing order |
| Entities.EntityManager.ScanSingleDirectory | src/stockshot_browser/core/entity_manager.py:252-349 | the method computes the single-directory scan |
| Entities.EntityManager.MediaEntitiesOf | src/stockshot_browser/core/entity_manager.py:304-342 | videos first, then either single images or sequences followed by the unmatched images |
| Entities.EntityManager.VideoEntitiesOf | src/stockshot_browser/core/entity_manager.py:307-312 | the loop builds one entity per video |
| Entities.EntityManager.SequenceEntitiesOf | src/stockshot_browser/core/entity_manager.py:329-334 | the loop builds the sequence entities and collects their files |
| Entities.EntityManager.SingleImages | src/stockshot_browser/core/entity_manager.py:336-342 | the loop builds one entity per image |
| Entities.EntityManager.CollectDirectories | src/stockshot_browser/core/entity_manager.py:362-375 | the first pass builds the list to scan and the set of sequence folders |
| Entities.EntityManager.ScanDirectoryRecursive | src/stockshot_browser/core/entity_manager.py:351-407 | the method computes the recursive scan |
| Entities.EntityManager.ScanEach | src/stockshot_browser/core/entity_manager.py:380-397 | the second pass concatenates the scans of the directories not skipped |
| Entities.EntityManager.ScanDirectory | src/stockshot_browser/core/entity_manager.py:81-86 | recursive or single scan as asked |
| Entities.MultiEntityManager.constructor | src/stockshot_browser/core/multi_entity_manager.py:49-87 | no current path and the GENERAL context |
| Entities.MultiEntityManager.SetCurrentPath | src/stockshot_browser/core/multi_entity_manager.py:90-95 | the same path changes nothing; a new one is stored with the context the path-context manager answers, which no lookup changes; a current context that matched its path still matches |
| Entities.MultiEntityManager.ScanDirectoryRecursive | src/stockshot_browser/core/multi_entity_manager.py:326-376 | the same entities as the plain recursive scan; the current path ends at the last directory scanned |
| Entities.MultiEntityManager.ScanEach | src/stockshot_browser/core/multi_entity_manager.py:350-368 | each directory scanned sets the current path first |
| Entities.MultiEntityManager.ScanDirectory | src/stockshot_browser/core/multi_entity_manager.py:97-105 | the scan as asked; a single scan leaves the directory as current path with its context |
| Records.ValidateName | src/stockshot_browser/database/models.py:120-124 | rejected iff blank; otherwise the name with surrounding whitespace cut, non-empty and not starting or ending with whitespace |
| Records.ValidateNameIdempotent | src/stockshot_browser/database/models.py:52-56 | validating a validated name returns it unchanged |
| Records.ValidateTagName | src/stockshot_browser/database/models.py:271-275 | rejected iff blank; otherwise the stripped name in lower case |
| Records.ValidateTagNameIdempotent | src/stockshot_browser/database/models.py:271-275 | validating a validated tag name returns it unchanged |
| Records.ValidateEntityType | src/stockshot_browser/database/models.py:113-118 | accepted iff `video` or `sequence`, unchanged |
| Records.ValidateResolution | src/stockshot_browser/database/models.py:359-363 | accepted iff between 32 and 1024, unchanged |
| Records.ValidateCategory | src/stockshot_browser/database/models.py:228-241 | an empty or missing category is kept; any other is stripped and lower-cased, known or not |
| Records.ValidateCategoryIdempotent | src/stockshot_browser/database/models.py:228-241 | normalising twice equals normalising once |
| Records.CategoryDisplay | src/stockshot_browser/database/models.py:247-251 | `General` for no category; otherwise the title-cased category, equal to it ignoring case |
| Records.ValidateColor | src/stockshot_browser/database/models.py:277-286 | an accepted non-empty color has seven characters and starts with `#`; the color is returned unchanged |
| Records.ValidateColorAcceptsSign | src/stockshot_browser/database/models.py:282-285 | `#-fffff` passes validation although it is not `#RRGGBB` |
| Records.ValidateColorStrict | src/stockshot_browser/database/models.py:261 | accepted iff empty or `#` followed by six hex digits |
| Records.StrictColorIsAccepted | src/stockshot_browser/database/models.py:277-286 | every `#RRGGBB` color passes validation as written |
| Records.FavoriteKindsPartition | src/stockshot_browser/database/models.py:316-322 | a favorite is a project favorite exactly when it is not a user favorite |
| Records.DecodeColumn | src/stockshot_browser/database/models.py:197-204 | a stored JSON document decodes to itself; an empty or malformed column decodes to `{}` |
| Records.EncodeObject | src/stockshot_browser/database/models.py:206-208 | what is stored decodes back to the same dictionary |
| Records.AddCustomField | src/stockshot_browser/database/models.py:210-214 | the stored fields gain or replace one key; it fails when the stored document is not a dictionary |
| Records.AddCustomFieldChangesOneKey | src/stockshot_browser/database/models.py:210-214 | the key now holds the value and every other key is as before |
| Records.GetAnimatedPath | src/stockshot_browser/database/models.py:365-369 | the stored `animated_path` of a dictionary, else None |
| Records.SetAnimatedPath | src/stockshot_browser/database/models.py:371-375 | succeeds iff the extra data is empty or a dictionary |
| Records.AnimatedPathRoundTrip | src/stockshot_browser/database/models.py:365-375 | after setting the animated path, getting it returns it, and every other key is kept |
| Records.ResolutionStringParses | src/stockshot_browser/database/models.py:216-220 | `WxH` splits back into the width and height when both are set and non-zero, else `Unknown` |
| Records.AspectRatio | src/stockshot_browser/database/models.py:222-226 | a ratio only for a non-zero width and positive height, and then width divided by height (rounding left out) |
| Records.FindEntity | src/stockshot_browser/core/metadata_manager.py:152-156 | `filter_by(path, entity_type).first()`: the first matching row, or none when no row matches |
| Records.FindEntityByPath | src/stockshot_browser/core/metadata_manager.py:274 | the first row with the path, or none when no row has it |
| Records.AddEntity | src/stockshot_browser/core/metadata_manager.py:158-170 | a new row with the next id and the validated name is appended, and fails exactly when the type or the name is invalid; other tables are kept |
| Records.SetEntity | src/stockshot_browser/core/metadata_manager.py:186 | one row replaced, the others and the other tables kept |
| Records.FindOrAddEntity | src/stockshot_browser/core/metadata_manager.py:152-170 | an existing row is reused unchanged; otherwise a row is appended and then found at its index |
| Records.AddedEntityFound | src/stockshot_browser/core/metadata_manager.py:158-170 | the appended row is the one the lookup finds next time |
| Records.Store.TablesOf | src/stockshot_browser/database/models.py:72-404 | the tables of a database file; an unknown file is empty |
| Records.Store.Commit | src/stockshot_browser/database/connection.py:322 | committing replaces exactly one database file's tables |
| MultiDatabase.DbFileIsChild | src/stockshot_browser/database/multi_database_manager.py:47-50 | the database file is `stockshot.db` directly inside the configured directory |
| MultiDatabase.Layout | src/stockshot_browser/database/multi_database_manager.py:52-65 | an old-style database file is moved to `<dir>/stockshot.db` through `<name>.old`, other entries untouched; otherwise the directory is made; it fails only when the file and its `.old` directory both exist |
| MultiDatabase.InitOne | src/stockshot_browser/database/multi_database_manager.py:43-75 | a context is registered only with `<dir>/stockshot.db` of a string path whose database opens; a failure leaves the disk as it was or as the layout step left it |
| MultiDatabase.InitRegistersDbFiles | src/stockshot_browser/database/multi_database_manager.py:43-75 | every registered context was registered before or has its configured database file, which opened |
| MultiDatabase.FallbackSharesGeneralFile | src/stockshot_browser/database/multi_database_manager.py:36-41 | without a user path the USER context shares the general database file |
| MultiDatabase.UnconfiguredSkipped | src/stockshot_browser/database/multi_database_manager.py:44 | a context with an empty path is not registered |
| MultiDatabase.ReloadOne | src/stockshot_browser/database/multi_database_manager.py:237-249 | a new context is registered only with `<dir>/stockshot.db` of a string path whose database opens |
| MultiDatabase.ReloadKeepsRegistered | src/stockshot_browser/database/multi_database_manager.py:232-249 | reloading keeps every registered manager and only adds contexts with their configured files |
| MultiDatabase.BackupPathsDistinct | src/stockshot_browser/database/multi_database_manager.py:190-193 | the per-context backup names of two contexts differ |
| MultiDatabase.MultiDatabaseManager.constructor | src/stockshot_browser/database/multi_database_manager.py:22-31 | no managers, GENERAL context, no current path |
| MultiDatabase.MultiDatabaseManager.InitializeDatabases | src/stockshot_browser/database/multi_database_manager.py:34-79 | the contexts are set up in order GENERAL, USER, PROJECT; the call fails iff the general database is missing afterwards |
| MultiDatabase.MultiDatabaseManager.SetCurrentPath | src/stockshot_browser/database/multi_database_manager.py:82-86 | the same path changes nothing; a new one is stored with the context the path-context manager answers (the roots' context when its cache is consistent) |
| MultiDatabase.MultiDatabaseManager.GetDatabaseManager | src/stockshot_browser/database/multi_database_manager.py:92-103 | the asked or current context's manager, else the general one, and an error iff neither exists |
| MultiDatabase.MultiDatabaseManager.GeneralAlwaysAnswers | src/stockshot_browser/database/multi_database_manager.py:92-103 | with a general database every lookup succeeds with a registered manager |
| MultiDatabase.MultiDatabaseManager.GetSession | src/stockshot_browser/database/multi_database_manager.py:105-123 | a non-empty path picks the database of the context answered for it; otherwise the given or current context's |
| MultiDatabase.MultiDatabaseManager.GetSessionForPath | src/stockshot_browser/database/multi_database_manager.py:125-137 | the database of the context answered for the path (the roots' context when the cache is consistent) |
| MultiDatabase.MultiDatabaseManager.TestConnection | src/stockshot_browser/database/multi_database_manager.py:162-175 | one context answers for itself; with none asked the answer is the general database's |
| MultiDatabase.MultiDatabaseManager.BackupTargets | src/stockshot_browser/database/multi_database_manager.py:177-200 | one context backs up alone; all contexts back up to `<stem>_<context><suffix>` beside the given path |
| MultiDatabase.MultiDatabaseManager.Close | src/stockshot_browser/database/multi_database_manager.py:215-223 | no manager is left |
| MultiDatabase.MultiDatabaseManager.ReloadConfiguration | src/stockshot_browser/database/multi_database_manager.py:225-249 | the path contexts re-read their roots and drop their cache, or hold empty root lists when a file cannot be read; missing contexts are then set up and registered ones kept |
| MultiDatabase.MultiDatabaseManager.ReloadMissing | src/stockshot_browser/database/multi_database_manager.py:231-249 | each of the three contexts without a manager gets one when its directory and database can be set up; registered managers stay |
| Thumbnails.Identifier | src/stockshot_browser/core/thumbnail_manager.py:287-299 | naming fails exactly for a video whose own file cannot be stat'ed; a failed stat of a sequence's first file is skipped |
| Thumbnails.CacheNamesArePlain | src/stockshot_browser/core/thumbnail_manager.py:301-303 | the cache names are single non-empty path components ending in `.jpg` / `.gif`, and the animated name is the static stem plus `.gif` |
| Thumbnails.ThumbnailPathIn | src/stockshot_browser/core/thumbnail_manager.py:287-305 | fails exactly when the identifier does; otherwise the path is the cache directory's components plus one `.jpg` name |
| Thumbnails.AnimatedPathIn | src/stockshot_browser/core/thumbnail_manager.py:432-433 | the `.gif` path fails exactly when the identifier does and lies in the cache directory |
| Thumbnails.AnimatedBesideStatic | src/stockshot_browser/core/thumbnail_manager.py:432-433 | the animated thumbnail sits in the static one's directory and differs only in its suffix |
| Thumbnails.NewestMtime | src/stockshot_browser/core/thumbnail_manager.py:273-277 | the newest source mtime exists exactly when every source can be stat'ed, bounds every source's mtime and is one of them |
| Thumbnails.NeedsThumbnailIff | src/stockshot_browser/core/thumbnail_manager.py:264-285 | a thumbnail is NOT needed exactly when it exists, can be stat'ed and is strictly newer than every source file |
| Thumbnails.TouchedSourceNeedsThumbnail | src/stockshot_browser/core/thumbnail_manager.py:279-285 | once any source is modified at or after the thumbnail, it is needed again |
| Thumbnails.NeedsThumbnailIn | src/stockshot_browser/core/thumbnail_manager.py:264-266 | the staleness test in a cache directory fails exactly when naming does, otherwise it is the staleness of the computed path |
| Thumbnails.PendingSnoc | src/stockshot_browser/core/thumbnail_manager.py:225-230 | the filter loop extends its result by one entity exactly when the test accepts it, and stops at the first error |
| Thumbnails.PendingErrSticks | src/stockshot_browser/core/thumbnail_manager.py:225-230 | once the filter has raised, the whole queueing raises the same error |
| Thumbnails.PendingErrIff | src/stockshot_browser/core/thumbnail_manager.py:225-230 | filtering raises exactly when the test raises on some entity |
| Thumbnails.PendingHas | src/stockshot_browser/core/thumbnail_manager.py:225-230 | otherwise the kept entities are exactly the inputs the test accepts |
| Thumbnails.QueueFailsOnUnnameable | src/stockshot_browser/core/thumbnail_manager.py:224-231 | queueing raises exactly when some entity is a video whose file cannot be stat'ed |
| Thumbnails.SeekTime | src/stockshot_browser/core/thumbnail_manager.py:89-93 | the still frame is taken strictly inside a known non-zero duration, else at one second |
| Thumbnails.RunWorker | src/stockshot_browser/core/thumbnail_manager.py:37-169 | a video succeeds iff the animation or the still frame succeeds, a sequence iff the animation or its middle frame succeeds, an image iff its one file converts; failure reports no info and no size; success reports the output paths, the animated path only when it was written |
| Thumbnails.Jobs | src/stockshot_browser/core/thumbnail_manager.py:240-262 | one job per pending entity, in order, with its static and animated output paths and animation asked for videos and sequences when enabled |
| Thumbnails.JobsFollowPending | src/stockshot_browser/core/thumbnail_manager.py:236-262 | the entities the workers run for are the filtered list, in order |
| Thumbnails.PendingAreNamed | src/stockshot_browser/core/thumbnail_manager.py:240-241 | every entity the filter keeps has a cache path, so starting its worker cannot fail |
| Thumbnails.ThumbnailRowFor | src/stockshot_browser/core/thumbnail_manager.py:371-401 | an existing row is updated and kept valid; a new row needs an allowed resolution; the stored fields are the falsy-to-None conversions; extra data is replaced only by a non-empty animated path |
| Thumbnails.PutThumbnail | src/stockshot_browser/core/thumbnail_manager.py:401-404 | writes exactly one thumbnail row and marks exactly one entity as having a thumbnail |
| Thumbnails.StoreThumbnailRow | src/stockshot_browser/core/thumbnail_manager.py:345-410 | storing keeps the tables well formed and leaves the metadata table unchanged |
| Thumbnails.StoreMarksEntity | src/stockshot_browser/core/thumbnail_manager.py:351-369 | the entity is found or added and marked as having a thumbnail; no other entity changes |
| Thumbnails.StoreWritesRow | src/stockshot_browser/core/thumbnail_manager.py:371-404 | the (entity, resolution) row holds the stored values; only that key is added and no other row changes |
| Thumbnails.StoreUnchanged | src/stockshot_browser/core/thumbnail_manager.py:345-410 | storing values the tables already hold changes nothing |
| Thumbnails.StoreTwiceIsOnce | src/stockshot_browser/core/thumbnail_manager.py:345-410 | storing the same thumbnail twice is storing it once |
| Thumbnails.StoreSucceeds | src/stockshot_browser/core/thumbnail_manager.py:357-401 | a valid entity name and an allowed resolution are all that storing needs |
| Thumbnails.Unlinked | src/stockshot_browser/core/thumbnail_manager.py:484-489 | the removed files are exactly the candidates whose unlink succeeds |
| Thumbnails.OldestPrefix | src/stockshot_browser/core/thumbnail_manager.py:479-484 | a prefix of the mtime-sorted list is a sub-multiset of the files and holds every file older than one of its own |
| Thumbnails.CleanupOldThumbnails | src/stockshot_browser/core/thumbnail_manager.py:474-494 | when every file can be stat'ed, a quarter of the files (rounded down), the oldest ones, are candidates; a failed stat removes nothing; removed = candidates whose unlink succeeds |
| Thumbnails.UnlinkEach | src/stockshot_browser/core/thumbnail_manager.py:484-489 | the deletion loop collects, in order, exactly the candidates whose unlink succeeds |
| Thumbnails.OverLimitInBytes | src/stockshot_browser/core/thumbnail_manager.py:464-467 | the cache is over the limit exactly when its byte size exceeds the megabyte limit times 1048576 |
| ThumbnailManagers.CacheDirectories | src/stockshot_browser/core/multi_thumbnail_manager.py:212-222 | a context gets a cache directory exactly when its configured directory is truthy; a non-string truthy entry or a non-dict configuration raises |
| ThumbnailManagers.CacheDirectoryFor | src/stockshot_browser/core/multi_thumbnail_manager.py:231-237 | a context's own directory when it has one, else the GENERAL one, else `.thumbnails` |
| ThumbnailManagers.EffectiveCacheDirectory | src/stockshot_browser/core/multi_thumbnail_manager.py:212-237 | the directory used is the context's configured one, else the general one, else `.thumbnails` |
| ThumbnailManagers.FilterPending | src/stockshot_browser/core/multi_thumbnail_manager.py:258-262 | the filter loop computes exactly the pending entities (and the first error) |
| ThumbnailManagers.QueuedJobs | src/stockshot_browser/core/multi_thumbnail_manager.py:258-294 | queueing raises exactly when an entity cannot be named; otherwise the jobs are for exactly the stale entities, in input order |
| ThumbnailManagers.QueueJobs | src/stockshot_browser/core/multi_thumbnail_manager.py:258-294 | the queueing loops compute exactly the queued jobs |
| ThumbnailManagers.AfterStore | src/stockshot_browser/core/multi_thumbnail_manager.py:379-395 | a failed session changes no database; a stored thumbnail touches only the session's database file |
| ThumbnailManagers.Committed | src/stockshot_browser/core/multi_thumbnail_manager.py:379-395 | committing one file leaves every other database file unchanged |
| ThumbnailManagers.StoreInSession | src/stockshot_browser/core/multi_thumbnail_manager.py:397-452 | the database files afterwards are the store's result for that session |
| ThumbnailManagers.AfterStoreTwiceIsOnce | src/stockshot_browser/core/multi_thumbnail_manager.py:379-452 | repeating a store call changes nothing more |
| ThumbnailManagers.StoredAgain | src/stockshot_browser/core/multi_thumbnail_manager.py:379-452 | storing into a file that already holds the values leaves the files unchanged |
| ThumbnailManagers.StoredAnimatedPath | src/stockshot_browser/core/multi_thumbnail_manager.py:504-522 | a recorded animated path is only returned when it is non-empty, exists and belongs to a recorded entity |
| ThumbnailManagers.RecordedAnimationFound | src/stockshot_browser/core/multi_thumbnail_manager.py:504-522 | an existing recorded animated path of the entity's row is found |
| ThumbnailManagers.StoredAnimatedPathFound | src/stockshot_browser/core/multi_thumbnail_manager.py:397-452 | after storing an existing animated path, the lookup returns it |
| ThumbnailManagers.AnimatedLookupIgnoresStored | src/stockshot_browser/core/multi_thumbnail_manager.py:469-489 | when the cached `.gif` exists (or the entity cannot be animated) the database is not consulted |
| ThumbnailManagers.ContextsOverLimit | src/stockshot_browser/core/multi_thumbnail_manager.py:524-536 | the contexts cleaned are exactly those whose cache directory exceeds the limit, in GENERAL, USER, PROJECT order |
| ThumbnailManagers.CachedThumbnail | src/stockshot_browser/core/thumbnail_manager.py:412-419 | a returned thumbnail exists under the entity's cache name; None means that path does not exist; naming errors propagate |
| ThumbnailManagers.UpToDateIsCached | src/stockshot_browser/core/thumbnail_manager.py:264-285 | an entity the staleness test does not queue has its cached thumbnail returned |
| ThumbnailManagers.AnimatedLookup | src/stockshot_browser/core/thumbnail_manager.py:422-459 | only videos and sequences have animated thumbnails; a returned path other than the recorded one is the existing cached `.gif` |
| ThumbnailManagers.MultiThumbnailManager.constructor | src/stockshot_browser/core/multi_thumbnail_manager.py:172-208 | starts with the configured cache directories, nothing processing, GENERAL context and no current path |
| ThumbnailManagers.MultiThumbnailManager.SetCurrentPath | src/stockshot_browser/core/multi_thumbnail_manager.py:224-228 | the context is recomputed only when the path changes |
| ThumbnailManagers.MultiThumbnailManager.QueueThumbnailGeneration | src/stockshot_browser/core/multi_thumbnail_manager.py:244-294 | nothing happens for an empty list or without ffmpeg; otherwise the jobs are those for the target path's context directory, and the processing state is reset only when some job starts |
| ThumbnailManagers.MultiThumbnailManager.StartProcessing | src/stockshot_browser/core/multi_thumbnail_manager.py:264-270 | processing is replaced and the count reset only when some job is started |
| ThumbnailManagers.MultiThumbnailManager.StoreThumbnailInfo | src/stockshot_browser/core/multi_thumbnail_manager.py:379-395 | stores into the entity path's database, else the current one; a failed session (pool timeout, locked database, failed commit) leaves every database file unchanged |
| ThumbnailManagers.Reported | src/stockshot_browser/core/thumbnail_manager.py:312-338 | a truthy error emits the failure signal with that error, otherwise present info emits the generated signal with the static path, and progress (completed count, number processing) is always emitted last |
| ThumbnailManagers.MultiThumbnailManager.OnThumbnailGenerated | src/stockshot_browser/core/multi_thumbnail_manager.py:341-377 | counts every completion, stores only successful ones into the database their entity path selects and nothing when the session fails, emits the reported signals (failure, or generated with the static path, then progress) and asks for a cache check every tenth completion |
| ThumbnailManagers.MultiThumbnailManager.GetThumbnailPath | src/stockshot_browser/core/multi_thumbnail_manager.py:454-467 | looks in the cache directory of the entity path's context, else of the current context |
| ThumbnailManagers.MultiThumbnailManager.GetAnimatedThumbnailPath | src/stockshot_browser/core/multi_thumbnail_manager.py:469-502 | the cached `.gif` of the context directory, else the path recorded in the selected database, none from a failed session |
| ThumbnailManagers.MultiThumbnailManager.AnimatedIn | src/stockshot_browser/core/multi_thumbnail_manager.py:485-498 | the lookup in one given cache directory |
| ThumbnailManagers.MultiThumbnailManager.LookupStored | src/stockshot_browser/core/multi_thumbnail_manager.py:491-499 | the recorded animated path of the selected database, None when the session cannot be selected or raises |
| ThumbnailManagers.MultiThumbnailManager.CheckCacheSizes | src/stockshot_browser/core/multi_thumbnail_manager.py:524-536 | exactly the contexts whose cache exceeds the size limit are cleaned |
| ThumbnailManagers.ThumbnailManager.constructor | src/stockshot_browser/core/thumbnail_manager.py:180-212 | starts with the given cache directory and resolution and nothing processing |
| ThumbnailManagers.ThumbnailManager.QueueThumbnailGeneration | src/stockshot_browser/core/thumbnail_manager.py:214-262 | nothing happens for an empty list or without ffmpeg; otherwise the jobs are the queued jobs of the one cache directory |
| ThumbnailManagers.ThumbnailManager.StoreThumbnailInfo | src/stockshot_browser/core/thumbnail_manager.py:344-410 | stores into the manager's one database file, and changes nothing when its session fails |
| ThumbnailManagers.ThumbnailManager.OnThumbnailGenerated | src/stockshot_browser/core/thumbnail_manager.py:307-342 | counts every completion, stores only successful ones and nothing when the session fails, emits the reported signals (failure, or generated with the static path, then progress) and asks for a cache check every tenth completion |
| ThumbnailManagers.ThumbnailManager.GetAnimatedThumbnailPath | src/stockshot_browser/core/thumbnail_manager.py:421-459 | only videos and sequences have one, a returned path exists, and with a failed session only the cached file is found |
| Metadata.WorkerOutput | src/stockshot_browser/core/multi_metadata_manager.py:35-65 | the worker fails exactly when the probe fails, with its message; otherwise it adds name, type and file count, sequence facts for multi-file non-videos, a non-zero total size, and the entity path key |
| Metadata.WorkerKeepsProbeKey | src/stockshot_browser/core/multi_metadata_manager.py:52-59 | every probe key the worker does not set itself passes through unchanged |
| Metadata.SafeConvert | src/stockshot_browser/core/multi_metadata_manager.py:235-250 | None stays None; a conversion that raises becomes None; `bool` gives truthiness, `str` keeps strings, `int` keeps ints, `float` keeps numbers; containers never become numbers |
| Metadata.NewStandard | src/stockshot_browser/core/multi_metadata_manager.py:253-270 | the new record's standard columns are exactly the listed fields whose conversion is not None, and `has_audio` is always present (False when absent) |
| Metadata.CustomFields | src/stockshot_browser/core/multi_metadata_manager.py:272-278 | the custom fields are exactly the non-None keys outside the excluded list, unchanged |
| Metadata.CustomColumn | src/stockshot_browser/core/multi_metadata_manager.py:282 | the stored column decodes back to the custom fields, and is NULL exactly when they are empty |
| Metadata.NewRecord | src/stockshot_browser/core/multi_metadata_manager.py:232-286 | a new record belongs to the given entity and its custom column decodes to the custom fields |
| Metadata.Overwritten | src/stockshot_browser/core/multi_metadata_manager.py:297-299 | a standard field is replaced exactly when the update carries a non-None value for it; every other field is kept |
| Metadata.OverwriteFields | src/stockshot_browser/core/multi_metadata_manager.py:297-299 | the `setattr` loop computes exactly the overwritten standard fields |
| Metadata.UpdatedRecord | src/stockshot_browser/core/multi_metadata_manager.py:288-308 | an update succeeds when the stored custom column decodes to a dict; the new custom fields are the old ones updated with the new ones |
| Metadata.UpdateMetadataRecord | src/stockshot_browser/core/multi_metadata_manager.py:288-308 | the in-place update computes exactly the updated record |
| Metadata.UpdateKeeps | src/stockshot_browser/core/multi_metadata_manager.py:288-308 | an update never loses a standard field or a custom key, keeps every field it does not overwrite and adds no None |
| Metadata.EntityFor | src/stockshot_browser/core/multi_metadata_manager.py:194-212 | the entity row is found or appended, and the other tables are untouched |
| Metadata.PutMetadata | src/stockshot_browser/core/multi_metadata_manager.py:219-228 | writes exactly one metadata row and marks exactly one entity as extracted |
| Metadata.RowFor | src/stockshot_browser/core/multi_metadata_manager.py:214-225 | an entity without a metadata row gets a new record |
| Metadata.StoreMetadataRow | src/stockshot_browser/core/multi_metadata_manager.py:192-230 | the entity is found or added and marked extracted, its metadata row is added or updated, no other entity or metadata row changes and thumbnails are untouched |
| Metadata.ReadDict | src/stockshot_browser/core/multi_metadata_manager.py:330-351 | the read dict holds the standard columns overlaid by the custom fields, without None values |
| Metadata.ReadMetadata | src/stockshot_browser/core/multi_metadata_manager.py:324-351 | an unknown path reads as None; a stored row reads as the standard columns updated by the custom column (a dict, or a list of key-value pairs as `dict.update` takes them), without None values, and fails exactly when that column cannot update a dict |
| Metadata.PairsOf | src/stockshot_browser/core/multi_metadata_manager.py:346-347 | a list updates a dict exactly when every item is a pair; the keys are the pairs' keys and the last pair with a key wins |
| Metadata.UpdateSource | src/stockshot_browser/core/multi_metadata_manager.py:346-347 | a dict updates with its own items, a list with its pairs, an empty string with nothing; other scalars fail |
| Metadata.ListColumnsRead | src/stockshot_browser/core/multi_metadata_manager.py:346-350 | an empty list column reads as the standard columns alone, and `[["k", 1]]` adds `k` |
| Metadata.FreshStore | src/stockshot_browser/core/multi_metadata_manager.py:200-225 | storing for a new path appends its entity and a new metadata record for it |
| Metadata.StoreThenRead | src/stockshot_browser/core/multi_metadata_manager.py:192-351 | reading a freshly stored entity back gives the new standard fields overlaid by the custom fields |
| Metadata.ReadBackFields | src/stockshot_browser/core/multi_metadata_manager.py:266-275 | the read-back dict always has `has_audio` and never the excluded `entity_path` |
| Metadata.EntitiesToProcess | src/stockshot_browser/core/multi_metadata_manager.py:132-139 | every entity is processed when auto-extraction is on, none otherwise |
| Metadata.StartWorkers | src/stockshot_browser/core/multi_metadata_manager.py:146-154 | one worker per entity, in order, each producing that entity's output |
| Metadata.WorkerPathPicksSession | src/stockshot_browser/core/multi_metadata_manager.py:56 | a successful worker's metadata selects the database of its target path |
| Metadata.AfterMetadataStore | src/stockshot_browser/core/multi_metadata_manager.py:178-190 | a failed session or a failed store changes nothing; a store touches only the session's database file |
| Metadata.StoreInSession | src/stockshot_browser/core/multi_metadata_manager.py:192-230 | the database files afterwards are the store's result for that session |
| Metadata.MetadataIn | src/stockshot_browser/core/multi_metadata_manager.py:310-322 | a failed session (none selected, pool timeout, locked database) or an unknown database file reads as None, and a read dict holds no None |
| Metadata.StoredIsReadBack | src/stockshot_browser/core/multi_metadata_manager.py:178-351 | what is stored for a new entity is read back from the same database |
| Metadata.Reported | src/stockshot_browser/core/multi_metadata_manager.py:156-176 | a non-empty error emits the failure signal, non-empty metadata the extracted signal, and progress is always emitted last |
| Metadata.MultiMetadataManager.constructor | src/stockshot_browser/core/multi_metadata_manager.py:76-106 | starts with nothing processing, GENERAL context and no current path |
| Metadata.MultiMetadataManager.SetCurrentPath | src/stockshot_browser/core/multi_metadata_manager.py:108-113 | the context is recomputed only when the path changes |
| Metadata.MultiMetadataManager.ProcessNewEntities | src/stockshot_browser/core/multi_metadata_manager.py:115-154 | nothing happens for an empty list, without ffmpeg or without auto-extraction; otherwise every entity is processing and gets a worker carrying the target path |
| Metadata.MultiMetadataManager.OpenSession | src/stockshot_browser/core/multi_metadata_manager.py:180-190 | the session is the entity path's database, else the current one |
| Metadata.MultiMetadataManager.StoreMetadata | src/stockshot_browser/core/multi_metadata_manager.py:178-190 | stores into the database the entity path selects; a failed session leaves every database file unchanged |
| Metadata.MultiMetadataManager.OnMetadataExtracted | src/stockshot_browser/core/multi_metadata_manager.py:156-176 | counts every completion, emits the reported signals and stores non-empty metadata in the database its path selects, nothing when the session fails |
| Metadata.MultiMetadataManager.GetEntityMetadata | src/stockshot_browser/core/multi_metadata_manager.py:310-322 | reads from the context path's database, else the current one, and answers None when the session fails |
| Metadata.MetadataManager.constructor | src/stockshot_browser/core/metadata_manager.py:70-93 | starts with nothing processing |
| Metadata.MetadataManager.ProcessNewEntities | src/stockshot_browser/core/metadata_manager.py:95-126 | nothing happens for an empty list, without ffmpeg or without auto-extraction; otherwise every entity is processing and gets a worker |
| Metadata.MetadataManager.OnMetadataExtracted | src/stockshot_browser/core/metadata_manager.py:128-192 | counts every completion, emits the reported signals and stores non-empty metadata in the one database, nothing when the session fails |
| Metadata.MetadataManager.GetEntityMetadata | src/stockshot_browser/core/metadata_manager.py:270-305 | an unknown path or a failed session reads as None, and a read dict holds no None |
| FFmpeg.Extension | src/stockshot_browser/utils/ffmpeg_utils.py:289 | the format is the lower-cased suffix without its dot, empty when there is no suffix |
| FFmpeg.BasicFileInfo | src/stockshot_browser/utils/ffmpeg_utils.py:283-294 | the fallback record always has the format; size and times exactly when `stat` succeeds |
| FFmpeg.BitDepth | src/stockshot_browser/utils/ffmpeg_utils.py:259-281 | a falsy pixel format gives None; a non-string one raises; otherwise the table entry of its lower-cased name, always one of 8, 10, 12, 16 |
| FFmpeg.BitDepthIgnoresCase | src/stockshot_browser/utils/ffmpeg_utils.py:281 | the bit depth lookup does not depend on letter case |
| FFmpeg.ParseFps | src/stockshot_browser/utils/ffmpeg_utils.py:248-257 | without a slash the rate is the float of the text; with one it needs exactly two parts and a non-zero denominator and is their rounded quotient; anything else is None |
| FFmpeg.FirstOfType | src/stockshot_browser/utils/ffmpeg_utils.py:170-174 | finds the first stream of the codec type, and no earlier stream has it |
| FFmpeg.ChosenAppend | src/stockshot_browser/utils/ffmpeg_utils.py:170-174 | a later stream never replaces an already chosen one |
| FFmpeg.SelectStreams | src/stockshot_browser/utils/ffmpeg_utils.py:166-174 | the stream loop picks the first video and the first audio stream |
| FFmpeg.Dicts | src/stockshot_browser/utils/ffmpeg_utils.py:170 | the stream list is usable exactly when every entry is a dict |
| FFmpeg.FormatName | src/stockshot_browser/utils/ffmpeg_utils.py:148 | the format is the part of `format_name` before its first comma |
| FFmpeg.FirstField | src/stockshot_browser/utils/ffmpeg_utils.py:148 | the first comma-separated field is a prefix without the separator |
| FFmpeg.TagFields | src/stockshot_browser/utils/ffmpeg_utils.py:155-163 | a tag dict contributes exactly title, artist, album, date and comment, None when absent |
| FFmpeg.WithTags | src/stockshot_browser/utils/ffmpeg_utils.py:157-163 | adding the tags keeps every other field |
| FFmpeg.VideoFormatFields | src/stockshot_browser/utils/ffmpeg_utils.py:145-152 | the format part sets format, a float duration, file size and a bitrate that is None exactly when `bit_rate` is falsy |
| FFmpeg.PictureFields | src/stockshot_browser/utils/ffmpeg_utils.py:178-187 | the picture fields are exactly codec, integer width and height, pixel format, colour space and range and bit depth |
| FFmpeg.AudioFields | src/stockshot_browser/utils/ffmpeg_utils.py:196-202 | an audio stream sets `has_audio` to True |
| FFmpeg.FrameCount | src/stockshot_browser/utils/ffmpeg_utils.py:189-193 | a frame count exists only for a non-zero duration and a non-zero fps |
| FFmpeg.WithAspect | src/stockshot_browser/utils/ffmpeg_utils.py:206-210 | the aspect ratio is added only for a non-zero width and a positive height; nothing else changes |
| FFmpeg.WithVideo | src/stockshot_browser/utils/ffmpeg_utils.py:177-193 | the video stream sets the picture fields and fps, and the frame count exactly when duration and fps allow it |
| FFmpeg.WithFrameCount | src/stockshot_browser/utils/ffmpeg_utils.py:189-193 | the frame count is added exactly when duration and fps are both non-zero |
| FFmpeg.WithAudio | src/stockshot_browser/utils/ffmpeg_utils.py:195-204 | `has_audio` is True exactly when there is an audio stream, and the other fields are kept |
| FFmpeg.VideoStreamFields | src/stockshot_browser/utils/ffmpeg_utils.py:165-204 | the stream part sets `has_audio` from the first audio stream and the codec from the first video stream |
| FFmpeg.VideoMetadata | src/stockshot_browser/utils/ffmpeg_utils.py:140-212 | a probe without format and streams gives empty metadata; a format part always carries format, duration (a float), bitrate and file size; a streams part always says whether there is audio |
| FFmpeg.VideoUsesFirstStreams | src/stockshot_browser/utils/ffmpeg_utils.py:140-212 | the parsed video metadata reports audio exactly when some stream is audio, and takes its codec from the first video stream |
| FFmpeg.ImageMetadata | src/stockshot_browser/utils/ffmpeg_utils.py:214-246 | an aspect ratio only appears next to a width and a height |
| FFmpeg.ImageFormatFields | src/stockshot_browser/utils/ffmpeg_utils.py:219-224 | an image's format part is exactly format and file size |
| FFmpeg.VideoInfo | src/stockshot_browser/utils/ffmpeg_utils.py:61-101 | a timeout or undecodable output raises; a failed probe or an unparseable record falls back to the basic file info; otherwise the parsed metadata |
| FFmpeg.ImageInfo | src/stockshot_browser/utils/ffmpeg_utils.py:103-138 | any failure falls back to the basic file info, otherwise the parsed image metadata; image probing never raises |
| FFmpeg.WorkerFailsOnlyOnVideoProbe | src/stockshot_browser/core/multi_metadata_manager.py:35-65 | a metadata worker fails exactly for a video whose probe times out or prints undecodable output |
| FFmpeg.VideoDuration | src/stockshot_browser/utils/ffmpeg_utils.py:510-544 | image suffixes and failed probes give None; otherwise the float of the format's duration |
| FFmpeg.DurationSkipsImages | src/stockshot_browser/utils/ffmpeg_utils.py:512-517 | an image path never runs the probe |
| FFmpeg.ImageThumbnail | src/stockshot_browser/utils/ffmpeg_utils.py:353-391 | the three methods are tried in order up to the first success, and the result is success exactly when one of them succeeds |
| FFmpeg.InputFormat | src/stockshot_browser/utils/ffmpeg_utils.py:480-481 | the explicit input format is `png_pipe` exactly for a `.png` suffix in any case, and `image2` for every other file |
| FFmpeg.SampleIndex | src/stockshot_browser/utils/ffmpeg_utils.py:710-713 | a sampled index is always inside the file list |
| FFmpeg.SampleIndexStep | src/stockshot_browser/utils/ffmpeg_utils.py:710-715 | successive sample indices strictly increase when there are more files than frames |
| FFmpeg.SampleIndicesIncrease | src/stockshot_browser/utils/ffmpeg_utils.py:710-715 | sampled indices are strictly increasing, so no frame is taken twice |
| FFmpeg.SequenceFrames | src/stockshot_browser/utils/ffmpeg_utils.py:696-715 | fewer than two files fail; no more files than requested frames take all files sorted; otherwise exactly `frame_count` evenly spaced files of the sorted list |
| FFmpeg.SampledFramesOrdered | src/stockshot_browser/utils/ffmpeg_utils.py:702-715 | the sample starts at the first sorted file, comes from the input and is in sorted order |
| Connection.FirstMatch | src/stockshot_browser/database/connection.py:85-91 | a pattern is found exactly when one of them occurs in the message, and it is the first such pattern in list order |
| Connection.MatchPattern | src/stockshot_browser/database/connection.py:85-91 | the pattern loop with `break` finds exactly that first matching pattern |
| Connection.Backoff | src/stockshot_browser/database/connection.py:100 | the delay is the smaller of the doubled base delay and the cap |
| Connection.BackoffDoubles | src/stockshot_browser/database/connection.py:100 | delays never shrink from one attempt to the next: each is the previous one doubled, capped at the maximum |
| Connection.SleepBounds | src/stockshot_browser/database/connection.py:100-104 | with jitter the sleep lies between the delay and 110% of it |
| Connection.SleepScheduleAt | src/stockshot_browser/database/connection.py:100-104 | the k-th sleep is attempt k's jittered delay |
| Connection.RetryFrom | src/stockshot_browser/database/connection.py:41-111 | from a given attempt on, calls are repeated only after retryable database errors, never more than the retry budget, and the answer is the last call's |
| Connection.Retry | src/stockshot_browser/database/connection.py:30-114 | the decorator makes between 1 and `max_retries` calls, retries only retryable database errors, returns or raises what the last call did, and stops early only on success or a non-retryable error; no budget raises `None` |
| Connection.NotRetryableRaisedAtOnce | src/stockshot_browser/database/connection.py:93-94 | a non-retryable error is raised after the first call |
| Connection.RetryStep | src/stockshot_browser/database/connection.py:96-104 | a retryable error before the last attempt moves on to the next attempt |
| Connection.ShouldRetry | src/stockshot_browser/database/connection.py:91-97 | another attempt is made exactly after a retryable database error that is not on the last attempt |
| Connection.TryOnce | src/stockshot_browser/database/connection.py:42-104 | one pass of the loop either settles the run or moves to the next attempt after recording its sleep |
| Connection.RetryLoop | src/stockshot_browser/database/connection.py:41-111 | the loop's outcome and call count are the retry run's, and it sleeps once between consecutive calls |
| Connection.DatabaseRetry | src/stockshot_browser/database/connection.py:30-114 | the decorated call behaves as the specified retry run with the listed patterns |
| Connection.CommitFrom | src/stockshot_browser/database/connection.py:320-385 | commits are repeated only after retryable failures whose rollback succeeded; a failing rollback raises its own error; at most `max_retries` commits |
| Connection.CommitRetry | src/stockshot_browser/database/connection.py:316-385 | between 1 and `max_retries` commits, one rollback before each retry, and the raised error is the last commit's or the failing rollback's |
| Connection.CommitStep | src/stockshot_browser/database/connection.py:362-382 | a retryable commit failure with a successful rollback moves on to the next attempt |
| Connection.ShouldRetryCommit | src/stockshot_browser/database/connection.py:362-368 | a commit is retried exactly after a retryable failure that is not on the last attempt |
| Connection.CommitOnce | src/stockshot_browser/database/connection.py:321-382 | one pass commits, and on a retryable failure rolls back, either settling the run or moving on |
| Connection.CommitLoop | src/stockshot_browser/database/connection.py:320-385 | the loop's commits, rollbacks and raised error are the commit run's, with one capped sleep between commits |
| Connection.CommitWithRetry | src/stockshot_browser/database/connection.py:316-385 | the commit helper behaves as the specified commit run with its own patterns |
| Connection.Swallowing | src/stockshot_browser/core/thumbnail_manager.py:349-410 | a body wrapped in a catch-all always returns normally |
| Connection.SwallowedStoreIsNotRetried | src/stockshot_browser/core/thumbnail_manager.py:344-410 | a store that meets a locked database once is called only once by the retry decorator, so the write is lost |
| Connection.PropagatedStoreIsRetried | src/stockshot_browser/database/connection.py:30-114 | a store that lets the lock error propagate is retried and succeeds on its second call |
| Connection.RetriedOnce | src/stockshot_browser/database/connection.py:41-104 | a call that fails retryably once and then returns is answered by its second call |
| Connection.LockedIsRetryable | src/stockshot_browser/database/connection.py:64-91 | "database is locked" is a retryable error |
| Connection.BackupName | src/stockshot_browser/database/connection.py:414-415 | a backup is named `stockshot_browser_<stamp>.db`, which the backup glob matches |
| Connection.LatestMtime | src/stockshot_browser/database/connection.py:425-434 | no backups give None; otherwise the newest backup's mtime, which bounds all of them |
| Connection.NewestFirst | src/stockshot_browser/database/connection.py:438-442 | the backups sorted newest first: a permutation of the listing in non-increasing mtime order |
| Connection.NewestFirstSameNames | src/stockshot_browser/database/connection.py:438-442 | sorting keeps the same names, and distinct names stay distinct |
| Connection.SliceStart | src/stockshot_browser/database/connection.py:445 | Python's slice start: clipped to the length, counted from the end when negative |
| Connection.NewestFirstSplit | src/stockshot_browser/database/connection.py:445 | the kept and the doomed backups together are the newest-first order |
| Connection.KeptCount | src/stockshot_browser/database/connection.py:445 | exactly `max_backups` backups are kept (all when fewer), with Python's slicing for a negative setting |
| Connection.KeptAreNewest | src/stockshot_browser/database/connection.py:438-445 | every kept backup is at least as new as every deleted one |
| Connection.KeptOrDoomed | src/stockshot_browser/database/connection.py:438-445 | every listed backup is either kept or deleted, never both |
| Connection.CleanupKeepsNewest | src/stockshot_browser/database/connection.py:436-449 | when deletions succeed the backups left are exactly the kept ones, and no other file is touched |
| Connection.UnlinkedStep | src/stockshot_browser/database/connection.py:445-448 | each loop step removes one more doomed file exactly when its deletion succeeds |
| Connection.CopiedMtimeRepeatsBackups | src/stockshot_browser/database/connection.py:405-417 | as written the copy keeps the database's old mtime, so a check one minute after a backup backs up again |
| Connection.FreshBackupIsRecent | src/stockshot_browser/database/connection.py:396-423 | when the backup carries its creation time, no further backup is due before the interval has passed |
| Connection.DatabaseManager.constructor | src/stockshot_browser/database/connection.py:120-134 | starts uninitialised with both pools free, backups off, every 24 hours, keeping 7 |
| Connection.DatabaseManager.InitializeDatabase | src/stockshot_browser/database/connection.py:137-183 | initialisation succeeds exactly when the connection and the migrations do |
| Connection.DatabaseManager.AcquireSession | src/stockshot_browser/database/connection.py:209-232 | an uninitialised manager or a full pool raises and takes no slot; otherwise one slot of the chosen pool is taken and the other pool is untouched |
| Connection.DatabaseManager.ReleaseSession | src/stockshot_browser/database/connection.py:300-314 | closing a session frees exactly one slot of its pool |
| Connection.DatabaseManager.CleanupOldBackups | src/stockshot_browser/database/connection.py:436-449 | the deletion loop leaves the directory the cleanup specifies |
| Connection.DatabaseManager.CheckAndBackup | src/stockshot_browser/database/connection.py:396-423 | nothing changes when backups are off, the database is missing, the newest backup is recent or the copy fails; otherwise a backup is added and old ones cleaned up |
| Connection.DatabaseManager.SetupAutoBackup | src/stockshot_browser/database/connection.py:387-394 | stores the settings and runs the backup check with them |
| Schemas.Then | src/stockshot_browser/config/schemas.py:19-31 | two checks in a row pass exactly when both pass, and the first failure is the one reported |
| Schemas.Optional | src/stockshot_browser/config/schemas.py:54-71 | an optional key passes when absent or valid, and a section that is not a container raises |
| Schemas.RequiredPath | src/stockshot_browser/config/schemas.py:37-53 | a required path must be present, a str, and exist or be creatable |
| Schemas.ValidatePaths | src/stockshot_browser/config/schemas.py:32-53 | the paths section passes exactly when both configuration paths pass |
| Schemas.ValidateFfmpeg | src/stockshot_browser/config/schemas.py:54-71 | passes exactly when a present executable is a str, a present timeout a positive number and a present process count an int from 1 to 16 |
| Schemas.DatabasePath | src/stockshot_browser/config/schemas.py:75-83 | a present database path must be a str whose parent directory can be created |
| Schemas.ValidateDatabase | src/stockshot_browser/config/schemas.py:72-91 | passes exactly when the path is usable and a present `max_backups` is a non-negative int |
| Schemas.GeometryFrom | src/stockshot_browser/config/schemas.py:113-119 | the geometry passes exactly when each required key is present and an int |
| Schemas.ValidateUi | src/stockshot_browser/config/schemas.py:92-120 | passes exactly when theme is light/dark/auto, view mode grid/list/advanced, thumbnail size an int from 32 to 512 and the geometry complete |
| Schemas.GeometryVerdict | src/stockshot_browser/config/schemas.py:113-119 | the geometry check passes exactly when a present geometry is complete |
| Schemas.PatternsFrom | src/stockshot_browser/config/schemas.py:126-134 | the pattern list passes exactly when every entry is a str that compiles, and never raises |
| Schemas.ValidateSequenceDetection | src/stockshot_browser/config/schemas.py:121-147 | passes exactly when the patterns compile, the minimum length is an int of at least 1 and the gap an int of at least 0 |
| Schemas.ValidateMetadata | src/stockshot_browser/config/schemas.py:148-165 | passes exactly when every export format is json/csv/xml/yaml and custom fields are a list |
| Schemas.ValidateExternalPlayers | src/stockshot_browser/config/schemas.py:166-178 | passes exactly when a present player table is a dict whose every command is a str |
| Schemas.ValidateColorManagement | src/stockshot_browser/config/schemas.py:179-189 | passes exactly when a present config path is a str that is empty or exists |
| Schemas.ValidateLogging | src/stockshot_browser/config/schemas.py:190-196 | passes exactly when a present level is one of the five logging levels |
| Schemas.RunChecks | src/stockshot_browser/config/schemas.py:19-31 | the section validators in sequence pass exactly when every one of them passes |
| Schemas.EverySectionPasses | src/stockshot_browser/config/schemas.py:19-31 | a configuration whose nine sections pass their validators passes as a whole |
| Schemas.UiSectionFailureFails | src/stockshot_browser/config/schemas.py:19-31 | a failing UI section fails the whole configuration |
| Schemas.ValidateProjectConfig | src/stockshot_browser/config/schemas.py:199-213 | passes exactly when a present project name is a non-blank str and the sequence patterns a list of str; it never raises |
| Schemas.ValidateUserConfig | src/stockshot_browser/config/schemas.py:216-228 | passes exactly when a present user id is a non-blank str and the favorites' `personal` entry, if any, is a list |
| Schemas.BlankProjectNameRejected | src/stockshot_browser/config/schemas.py:203-206 | a whitespace-only project name is rejected |
| ConfigTree.LookupConcat | src/stockshot_browser/config/manager.py:180-191 | looking up a dotted key part by part is looking up its prefix, then the rest inside the value found |
| ConfigTree.GetAfterSet | src/stockshot_browser/config/manager.py:165-226 | after a successful `set`, `get` of the same key returns the value set |
| ConfigTree.SetFailsIffBlocked | src/stockshot_browser/config/manager.py:208-216 | `set` raises exactly when some proper prefix of the key already holds a non-dict value |
| ConfigTree.SetWhereFound | src/stockshot_browser/config/manager.py:208-216 | setting a key that `get` can already find always succeeds |
| ConfigTree.SetLeavesOthers | src/stockshot_browser/config/manager.py:208-216 | `set` changes no key that diverges from the one set |
| ConfigTree.OverrideLeafWins | src/stockshot_browser/config/manager.py:131-145 | after a merge every non-dict value of the override is found at its key |
| ConfigTree.BaseKept | src/stockshot_browser/config/manager.py:131-145 | a base value whose key path the override never touches survives the merge |
| ConfigTree.SelfMerge | src/stockshot_browser/config/manager.py:131-145 | merging a configuration into itself changes nothing |
| ConfigTree.MergeIdempotent | src/stockshot_browser/config/manager.py:131-145 | merging the same override twice is merging it once |
| ConfigTree.MergeEmpty | src/stockshot_browser/config/manager.py:131-145 | merging an empty override changes nothing |
| ConfigTree.MergeConfig | src/stockshot_browser/config/manager.py:131-145 | the key-by-key recursive merge loop computes exactly the specified merge |
| ConfigTree.PartlyMergedStep | src/stockshot_browser/config/manager.py:139-145 | each loop step recurses where both sides hold dicts and replaces the value otherwise |
| ConfigTree.LeavesOverPick | src/stockshot_browser/config/manager.py:300-306 | the leaf count over a set of keys is one key's count plus the rest's |
| ConfigTree.AddLeaf | src/stockshot_browser/config/manager.py:300-306 | adding a non-dict value under a new key adds exactly one to the count |
| ConfigTree.LeavesOverSame | src/stockshot_browser/config/manager.py:300-306 | the count depends only on the values under the counted keys |
| ConfigTree.CountConfigKeys | src/stockshot_browser/config/manager.py:298-306 | the counting loop returns exactly the number of non-dict leaves |
| Config.KeyPath | src/stockshot_browser/config/manager.py:180 | a dotted key always splits into at least one part |
| Config.UserLayerWins | src/stockshot_browser/config/manager.py:53-92 | a non-dict value in the user file is the loaded value, whatever the other layers hold |
| Config.ProjectLayerNext | src/stockshot_browser/config/manager.py:74-92 | a project value is the loaded value unless the user file overrides its key path |
| Config.GeneralLayerNext | src/stockshot_browser/config/manager.py:65-92 | a general value is the loaded value unless the project or user file overrides its key path |
| Config.DefaultsLast | src/stockshot_browser/config/manager.py:53-92 | a default survives when no file touches its key path |
| Config.LoadLayer | src/stockshot_browser/config/manager.py:65-92 | a layer that loads and validates is merged in; a missing or failing one leaves the configuration unchanged |
| Config.RemoveFirst | src/stockshot_browser/config/manager.py:570 | `list.remove` deletes one occurrence when present and changes nothing otherwise; a list without duplicates keeps none and loses the value |
| Config.AppendNewKeepsDistinct | src/stockshot_browser/config/manager.py:551-552 | appending a value not yet in a duplicate-free list keeps it duplicate-free |
| Config.AddToProject | src/stockshot_browser/config/manager.py:593-601 | a new project gets the one-element list, an existing list gets the path appended, a path already there changes nothing, other projects are untouched |
| Config.RemoveFromProject | src/stockshot_browser/config/manager.py:617-627 | removing needs the path under the project; an emptied project entry is deleted; other projects are untouched |
| Config.ProjectListsStayDistinct | src/stockshot_browser/config/manager.py:590-638 | adding and removing project favorites never creates duplicates |
| Config.UserKeysDiverge | src/stockshot_browser/config/manager.py:263-271 | no listed user-specific key is a prefix of another |
| Config.UserKeyShape | src/stockshot_browser/config/manager.py:263-271 | the listed keys have one or two parts, and a two-part key's head is not itself listed |
| Config.ExtractUserSettings | src/stockshot_browser/config/manager.py:260-287 | the extracted settings hold, at each listed key, exactly the non-None configured value, and every top-level key is a listed key or a non-empty root of listed keys |
| Config.SetUserKey | src/stockshot_browser/config/manager.py:278-285 | writing one listed key always succeeds, sets it and leaves every other listed key as it was |
| Config.ConfigurationManager.constructor | src/stockshot_browser/config/manager.py:25-29 | starts unloaded, with no paths, and the corrected defaults (theme `"dark"`) to layer on |
| Config.ConfigurationManager.LoadConfiguration | src/stockshot_browser/config/manager.py:31-113 | the configuration is the defaults layered with the general, project and user files; loading succeeds exactly when the result validates, and only then is the manager marked loaded |
| Config.ConfigurationManager.Commit | src/stockshot_browser/config/manager.py:94-103 | the final validation decides success and the loaded flag |
| Config.ConfigurationManager.RecordPaths | src/stockshot_browser/config/manager.py:57-63 | every non-empty path given is recorded under its layer's name |
| Config.ConfigurationManager.Get | src/stockshot_browser/config/manager.py:165-191 | raises before loading; afterwards the value at the dotted key, else the default |
| Config.ConfigurationManager.Set | src/stockshot_browser/config/manager.py:193-226 | raises before loading; otherwise the configuration becomes the one with the key set, and `get` then returns the value |
| Config.ConfigurationManager.AddUserFavorite | src/stockshot_browser/config/manager.py:545-561 | adds exactly when the path is not yet a favorite, appending it; nothing else changes; otherwise nothing changes at all |
| Config.ConfigurationManager.RemoveUserFavorite | src/stockshot_browser/config/manager.py:563-579 | removes exactly when the path is a favorite, deleting its first occurrence; otherwise nothing changes |
| Config.ConfigurationManager.IsUserFavorite | src/stockshot_browser/config/manager.py:581-588 | true only for a loaded configuration, and then exactly when the path is in the user favorites list |
| Config.ConfigurationManager.AddProjectFavorite | src/stockshot_browser/config/manager.py:590-612 | adds exactly when the path is not yet a favorite of the project, after which it is one |
| Config.ConfigurationManager.RemoveProjectFavorite | src/stockshot_browser/config/manager.py:614-638 | removes exactly when the path is a favorite of the project; otherwise nothing changes |
| Config.ConfigurationManager.IsProjectFavorite | src/stockshot_browser/config/manager.py:640-648 | true only when the project has an entry, and for a list entry exactly when the path is in it |
| Config.SectionsOf | src/stockshot_browser/config/schemas.py:19-31 | validation reads each of the nine sections of the assembled defaults |
| Config.UiFailureFails | src/stockshot_browser/config/manager.py:94-100 | a default configuration whose UI section is rejected fails final validation |
| Config.SectionsPassingPass | src/stockshot_browser/config/schemas.py:19-31 | defaults whose sections all pass validate |
| Config.ThemeRejected | src/stockshot_browser/config/schemas.py:94-98 | any theme outside light/dark/auto fails the UI check |
| Config.ShippedDefaultsRejected | src/stockshot_browser/config/defaults.py:91 | the shipped defaults, with theme `dark_blue.xml`, fail validation, so loading without any file raises |
| Config.UiAccepted | src/stockshot_browser/config/schemas.py:92-120 | an allowed theme with a complete geometry passes the UI check |
| Config.GeometryPasses | src/stockshot_browser/config/defaults.py:97-102 | the default window geometry is complete |
| Config.PathsPass | src/stockshot_browser/config/schemas.py:32-53 | the default paths pass when their directories exist or can be made |
| Config.FfmpegPasses | src/stockshot_browser/config/schemas.py:54-71 | the default ffmpeg section passes |
| Config.DatabasePasses | src/stockshot_browser/config/schemas.py:72-91 | the default database section passes when its directory can be made |
| Config.SequenceDetectionPasses | src/stockshot_browser/config/schemas.py:121-147 | the default sequence section passes when its patterns compile |
| Config.MetadataPasses | src/stockshot_browser/config/schemas.py:148-165 | the default metadata section passes |
| Config.PlayersPass | src/stockshot_browser/config/schemas.py:166-178 | the default player table passes |
| Config.ColorManagementPasses | src/stockshot_browser/config/schemas.py:179-189 | the default colour section passes |
| Config.LoggingPasses | src/stockshot_browser/config/schemas.py:190-196 | the default logging level passes |
| Config.DefaultSectionsPass | src/stockshot_browser/config/schemas.py:19-31 | defaults with an allowed theme validate |
| Config.DefaultsPass | src/stockshot_browser/config/manager.py:31-113 | with the theme corrected to `dark`, the defaults alone validate and loading succeeds |
| Migrations.Highest | src/stockshot_browser/database/migrations.py:70-71 | the maximum of a non-empty version list is one of its rows and no row exceeds it |
| Migrations.CurrentVersion | src/stockshot_browser/database/migrations.py:70-73 | the current version is 0 for an empty version table, otherwise the largest recorded version |
| Migrations.SchemaVersion | src/stockshot_browser/database/migrations.py:43-73 | a missing version table is created holding only the initial version, which is returned; an existing one is left untouched and its maximum returned; no other table or index changes |
| Migrations.SchemaVersionStable | src/stockshot_browser/database/migrations.py:43-73 | checking the schema version a second time changes nothing and returns the same version |
| Migrations.AddColumn | src/stockshot_browser/database/migrations.py:31-34 | ALTER TABLE ADD COLUMN succeeds exactly when the table exists and lacks the column, adds only that column, and leaves the database unchanged when it fails |
| Migrations.TolerantAdd | src/stockshot_browser/database/migrations.py:108-118 | with "duplicate column name" swallowed, adding a column fails only for a missing table; afterwards the column is present, an already present column changes nothing, and other tables are untouched |
| Migrations.V2ToV3Adds | src/stockshot_browser/database/migrations.py:121-164 | the v2-to-v3 migration never raises, gives entities a last_accessed column and metadata a category column when those tables exist, creates the category index when it adds the column, and touches no other table |
| Migrations.MigratedDatabase | src/stockshot_browser/database/migrations.py:12-40 | migrate_database never raises, ensures thumbnails has extra_data when the table exists, and changes nothing else |
| Migrations.Migration | src/stockshot_browser/database/migrations.py:85-88 | each registered migration leaves the version rows alone and can only fail on a missing table |
| Migrations.Record | src/stockshot_browser/database/migrations.py:95-99 | recording a version appends it to the version table, and fails (primary key) exactly when it is already recorded |
| Migrations.Pending | src/stockshot_browser/database/migrations.py:90-91 | the pending migrations are exactly the registered keys greater than the current version |
| Migrations.RunKeysRecords | src/stockshot_browser/database/migrations.py:90-99 | running the pending migrations in key order records exactly the pending keys after the existing rows, keeps the version rows distinct, and can only fail on a missing table |
| Migrations.AppliedRecordsPending | src/stockshot_browser/database/migrations.py:76-99 | apply_migrations records exactly the migrations newer than the checked version and leaves a consistent database |
| Migrations.AppliedTwice | src/stockshot_browser/database/migrations.py:76-99 | applying migrations to an already migrated database changes nothing and raises nothing |
| Migrations.UntrackedSkipsFirstMigration | src/stockshot_browser/database/migrations.py:56-67 | as written: a database without a version table records version 1 first, so migration 1 is skipped and thumbnails never gets extra_data although versions 1 and 2 are recorded |
| Migrations.UntrackedRunsEveryMigration | src/stockshot_browser/database/migrations.py:56-99 | with the initial version at 0, a database without a version table runs every migration and ends with extra_data present and versions 0, 1, 2 recorded |
| Migrations.KeyUnrecorded | src/stockshot_browser/database/migrations.py:90-92 | a migration key newer than the current version is not yet recorded when the loop reaches it |
| Migrations.RunKeysStops | src/stockshot_browser/database/migrations.py:90-99 | once a migration raises, the remaining migrations do not run and the outcome is that of the failing prefix |
| Migrations.Engine.constructor | src/stockshot_browser/database/migrations.py:12-20 | the engine starts in the given database state |
| Migrations.Engine.AlterAddColumn | src/stockshot_browser/database/migrations.py:31-35 | the ALTER TABLE statement leaves the state and error of AddColumn |
| Migrations.Engine.MigrateV1ToV2 | src/stockshot_browser/database/migrations.py:103-118 | the v1-to-v2 migration leaves the state and error of its specification |
| Migrations.Engine.MigrateV2ToV3 | src/stockshot_browser/database/migrations.py:121-164 | the v2-to-v3 migration leaves the state and error of its specification |
| Migrations.Engine.MigrateDatabase | src/stockshot_browser/database/migrations.py:12-40 | migrate_database leaves the state of MigratedDatabase |
| Migrations.Engine.CheckSchemaVersion | src/stockshot_browser/database/migrations.py:43-73 | the version check creates the table when missing and returns the version SchemaVersion gives (with the corrected initial version) |
| Migrations.Engine.RecordVersion | src/stockshot_browser/database/migrations.py:95-99 | the INSERT leaves the state and error of Record |
| Migrations.Engine.ApplyMigrations | src/stockshot_browser/database/migrations.py:76-99 | the migration loop ends in the state and error of Applied and keeps the database consistent |
| SearchWidget.TypeKeyRoundTrip | src/stockshot_browser/ui/search_widget.py:537-613 | the lower-cased combo text of every search type maps back to the same search type on restore |
| SearchWidget.CheckedTypes | src/stockshot_browser/ui/search_widget.py:553-561 | the file-type list holds exactly the checked boxes, in video, sequence, image order, and is empty exactly when none is checked |
| SearchWidget.CriteriaOf | src/stockshot_browser/ui/search_widget.py:537-570 | criteria carry the stripped text and search type exactly when the text is not blank, file types exactly when one is checked, and favourites flags only as True when their boxes are checked |
| SearchWidget.EmptyCriteria | src/stockshot_browser/ui/search_widget.py:507-570 | the criteria are empty exactly when the text is blank and no type or favourites box is checked |
| SearchWidget.Reset | src/stockshot_browser/ui/search_widget.py:525-534 | resetting checks every type box, clears both favourites boxes and leaves text and search type alone |
| SearchWidget.StaleTextSurvivesRestore | src/stockshot_browser/ui/search_widget.py:594-605 | as written: restoring criteria without text keeps the text typed before, so the restored widget does not reproduce the saved criteria |
| SearchWidget.Restored | src/stockshot_browser/ui/search_widget.py:594-637 | the corrected restore clears the text box before applying the criteria |
| SearchWidget.RestoredControls | src/stockshot_browser/ui/search_widget.py:594-637 | after a restore the text is the saved text or empty, type boxes follow the saved file types (all checked when none were saved), favourites follow the saved flags and the legacy favorites_only key, and an unknown search type selects All Fields |
| SearchWidget.RestoreRoundTrip | src/stockshot_browser/ui/search_widget.py:537-637 | restoring the criteria a widget produced (with at least one type checked) yields a widget producing the same criteria, whatever the widget held before |
| SearchWidget.RestoreWithoutTypes | src/stockshot_browser/ui/search_widget.py:553-620 | criteria saved with no type checked restore with every type checked, so the round trip then reports all three types |
| SearchWidget.Widget.constructor | src/stockshot_browser/ui/search_widget.py:32-206 | a new widget has empty text, every type box checked and no favourites filter |
| SearchWidget.Widget.ResetFilters | src/stockshot_browser/ui/search_widget.py:525-534 | reset_filters leaves the Reset state |
| SearchWidget.Widget.ClearSearch | src/stockshot_browser/ui/search_widget.py:518-523 | clear_search empties the text and resets the filters, so the criteria carry no text |
| SearchWidget.Widget.PerformSearch | src/stockshot_browser/ui/search_widget.py:507-517 | a search emits the current criteria unchanged when they are non-empty, and otherwise emits nothing and clears the search |
| SearchWidget.Widget.RestoreSearchState | src/stockshot_browser/ui/search_widget.py:594-637 | restoring leaves the corrected Restored state |
| SearchWidget.Widget.RestoreText | src/stockshot_browser/ui/search_widget.py:601-613 | the text box takes the saved text (or stays cleared) and the search type follows a saved key, otherwise it is kept |
| SearchWidget.Widget.RestoreTypes | src/stockshot_browser/ui/search_widget.py:615-620 | each type box is checked exactly when its type is in the saved list; without a saved list the boxes are kept |
| SearchWidget.Widget.RestoreFavorites | src/stockshot_browser/ui/search_widget.py:622-631 | the favourites boxes take the saved flags, and the legacy favorites_only key turns the user box on |
| ContentView.Added | src/stockshot_browser/ui/multi_content_view.py:2200-2204 | adding an entity puts its path in the selection's path set, keeps earlier entries in place, grows the list by at most one and keeps paths distinct |
| ContentView.RemovedFirst | src/stockshot_browser/ui/multi_content_view.py:2206-2218 | removing by path leaves the list alone when the path is unselected, otherwise drops exactly one entry and adds none |
| ContentView.RemovedFirstPaths | src/stockshot_browser/ui/multi_content_view.py:2206-2218 | on a selection with distinct paths, removal takes away exactly that path and keeps the rest distinct |
| ContentView.RemovedFirstAt | src/stockshot_browser/ui/multi_content_view.py:2210-2216 | the removed entry is the first one whose path matches, and the others keep their order |
| ContentView.AddedAllPaths | src/stockshot_browser/ui/multi_content_view.py:2259-2260 | adding a run of entities one by one selects exactly the union of their paths, without duplicates |
| ContentView.LocateFindsBoth | src/stockshot_browser/ui/multi_content_view.py:2241-2250 | the scan finds both anchor and target indices exactly when both paths are shown |
| ContentView.RangeSelection | src/stockshot_browser/ui/multi_content_view.py:2226-2277 | a range selection has distinct paths and includes the target; with nothing selected, or an anchor or target not shown, it is the target alone |
| ContentView.RangeSelectionSpan | src/stockshot_browser/ui/multi_content_view.py:2252-2260 | when both ends are shown, the range selection holds exactly the paths between anchor and target inclusive |
| ContentView.FindRangeEnds | src/stockshot_browser/ui/multi_content_view.py:2241-2250 | the index scan returns indices holding the anchor and target paths, found exactly when both are shown |
| ContentView.BandPaths | src/stockshot_browser/ui/multi_content_view.py:2745-2774 | applying a rubber band over entities keeps the selection distinct and adds (append, replace) or removes (remove) exactly the paths of the hit entities |
| ContentView.RubberBandPaths | src/stockshot_browser/ui/multi_content_view.py:2714-2778 | shift appends the hit paths, ctrl removes them, and no modifier replaces the selection with exactly the hit paths |
| ContentView.ActualType | src/stockshot_browser/ui/multi_content_view.py:2902-2919 | a multi-file entity is a sequence, and every entity is classed as video, image or sequence |
| ContentView.EmptyCriteriaMatchAll | src/stockshot_browser/ui/multi_content_view.py:2861-2928 | empty criteria match every entity |
| ContentView.AllTypesLikeNoTypes | src/stockshot_browser/ui/multi_content_view.py:2901-2926 | asking for all three file types filters the same as asking for none |
| ContentView.LegacyFavoritesLikeUserFavorites | src/stockshot_browser/ui/multi_content_view.py:2885-2893 | the legacy favorites_only flag filters the same as user_favorites_only |
| ContentView.WidgetFilter | src/stockshot_browser/ui/multi_content_view.py:2861-2928 | an entity passes the search widget's criteria exactly when its text matches (or the text is blank), it satisfies each checked favourites box, and its actual type is checked |
| ContentView.Filter | src/stockshot_browser/ui/multi_content_view.py:2837-2844 | the filtered list holds exactly the current entities that match the criteria, never more than the current list |
| ContentView.FilterConcat | src/stockshot_browser/ui/multi_content_view.py:2841-2843 | filtering preserves order: filtering two lists joined is joining their filtered lists |
| ContentView.GridColumns | src/stockshot_browser/ui/multi_content_view.py:1614-1626 | the column count lies between 1 and 10 and is the largest count whose cells fit the width |
| ContentView.TagText | src/stockshot_browser/ui/multi_content_view.py:752-777 | tags display nothing when there are none, otherwise their sorted comma-joined text, cut to 37 characters plus an ellipsis when longer than 40 |
| ContentView.TagTextOrderFree | src/stockshot_browser/ui/multi_content_view.py:760 | the tag text does not depend on the order the tags come from the database |
| ContentView.Pad2 | src/stockshot_browser/ui/multi_content_view.py:1920-1926 | zero padding to two digits keeps the number's value |
| ContentView.ClockRoundTrip | src/stockshot_browser/ui/multi_content_view.py:1917-1926 | the HH:MM:SS or MM:SS text of a non-negative duration reads back as that number of seconds |
| ContentView.EntityDuration | src/stockshot_browser/ui/multi_content_view.py:1900-1930 | single-frame single-file entities show no duration; otherwise a duration shows exactly when metadata holds one, as a clock text reading back to it |
| ContentView.View.constructor | src/stockshot_browser/ui/multi_content_view.py:1187-1229 | a new view holds the given entities, no selection, no filter |
| ContentView.View.GetSelectedEntities | src/stockshot_browser/ui/multi_content_view.py:2097-2099 | the copy returned is the selection |
| ContentView.View.IsEntitySelected | src/stockshot_browser/ui/multi_content_view.py:2192-2198 | an entity counts as selected exactly when its path is in the selection |
| ContentView.View.AddToSelection | src/stockshot_browser/ui/multi_content_view.py:2200-2204 | the selection becomes Added of the old selection |
| ContentView.View.ClearSelection | src/stockshot_browser/ui/multi_content_view.py:2132-2138 | the selection becomes empty |
| ContentView.View.SelectEntity | src/stockshot_browser/ui/multi_content_view.py:2101-2113 | the entity is added to the old selection, or to an empty one when not adding |
| ContentView.View.DeselectEntity | src/stockshot_browser/ui/multi_content_view.py:2115-2130 | the first entry with the entity's path is removed, so the selected paths lose exactly that path |
| ContentView.View.SelectRangeTo | src/stockshot_browser/ui/multi_content_view.py:2226-2277 | the selection becomes the range selection over the shown entities (the filtered list when criteria are set and non-empty) |
| ContentView.View.SelectSlice | src/stockshot_browser/ui/multi_content_view.py:2256-2260 | the selection becomes the entities from the lower to the upper index, added one by one |
| ContentView.View.RubberBandSelect | src/stockshot_browser/ui/multi_content_view.py:2714-2778 | the selection becomes the rubber-band result for the modifier mode over the shown entities |
| ContentView.View.ApplySearchFilter | src/stockshot_browser/ui/multi_content_view.py:2837-2850 | the criteria are stored and the filtered list is the current entities that match |
| ContentView.View.ClearSearchFilter | src/stockshot_browser/ui/multi_content_view.py:2852-2859 | the criteria and filtered list are cleared, so every current entity is shown |
| ContentView.View.GridPositions | src/stockshot_browser/ui/multi_content_view.py:1571-1610 | each entity key is placed at row index div columns and column index mod columns (the last entity with a key wins), and the content size is the column count times the cell width by one more than the number of full rows times the cell height |
| TabbedNavigation.MultiplePath | src/stockshot_browser/ui/tabbed_navigation.py:94 | the path shown for a multiple selection always starts with "Multiple directories" |
| TabbedNavigation.NewTabPath | src/stockshot_browser/ui/tabbed_navigation.py:320-327 | a given path is kept; without one the new tab takes the current tab's path unless there is none or it is a multiple-selection text |
| TabbedNavigation.TitleOf | src/stockshot_browser/ui/tabbed_navigation.py:335-341 | the title is never empty: the path's last component, "Root" when that is empty, "New Tab" when there is no path |
| TabbedNavigation.NewTabAfterSelection | src/stockshot_browser/ui/tabbed_navigation.py:87-341 | after a multiple selection a new tab starts without a path and is titled "New Tab"; after a single selection it opens that directory |
| TabbedNavigation.TabStateRoundTrip | src/stockshot_browser/ui/tabbed_navigation.py:203-231 | restoring a saved tab state reproduces the saved path, filter, view mode and splitter sizes, whatever the tab held before |
| TabbedNavigation.RestoreLaws | src/stockshot_browser/ui/tabbed_navigation.py:217-231 | restoring an empty state changes nothing, and restoring the same state twice is the same as once |
| TabbedNavigation.RekeyedIsIndexMap | src/stockshot_browser/ui/tabbed_navigation.py:374-382 | rebuilding the index map after a close maps each position to the tab shown there |
| TabbedNavigation.RemovedAt | src/stockshot_browser/ui/tabbed_navigation.py:370-372 | removing a tab shifts the tabs after it down by one and keeps the ones before it |
| TabbedNavigation.CurrentAfterRemove | src/stockshot_browser/ui/tabbed_navigation.py:370-372 | after a close the current index stays in range, is kept when left of the closed tab and moves down by one when right of it |
| TabbedNavigation.NavigationTab.constructor | src/stockshot_browser/ui/tabbed_navigation.py:33-39 | a new tab holds its initial path, no filter, Grid view and the default splitter sizes |
| TabbedNavigation.NavigationTab.OnDirectoriesSelected | src/stockshot_browser/ui/tabbed_navigation.py:77-99 | the current path becomes the single selected path or the multiple-selection text, and the stored filter is reapplied exactly when it is non-empty |
| TabbedNavigation.NavigationTab.GetTabState | src/stockshot_browser/ui/tabbed_navigation.py:203-215 | the saved state is the snapshot of the tab's fields |
| TabbedNavigation.NavigationTab.RestoreTabState | src/stockshot_browser/ui/tabbed_navigation.py:217-231 | each key present in the state overwrites its field and the others are kept |
| TabbedNavigation.TabbedNavigationWidget.constructor | src/stockshot_browser/ui/tabbed_navigation.py:243-247 | a new widget has no tabs |
| TabbedNavigation.TabbedNavigationWidget.AddNewTab | src/stockshot_browser/ui/tabbed_navigation.py:318-359 | the new tab is appended with the path NewTabPath picks and the given title or TitleOf its path, and becomes the current tab |
| TabbedNavigation.TabbedNavigationWidget.CloseTab | src/stockshot_browser/ui/tabbed_navigation.py:360-391 | the last tab or an out-of-range index closes nothing; otherwise that tab and its title are removed and the current index follows CurrentAfterRemove |
| TabbedNavigation.TabbedNavigationWidget.RebuildTabs | src/stockshot_browser/ui/tabbed_navigation.py:374-382 | the index map is rebuilt from the tabs now shown |
| TabbedNavigation.TabbedNavigationWidget.CloseTabsToRight | src/stockshot_browser/ui/tabbed_navigation.py:498-501 | exactly the tabs up to and including the index remain |
| TabbedNavigation.TabbedNavigationWidget.CloseOtherTabs | src/stockshot_browser/ui/tabbed_navigation.py:491-496 | only the kept tab remains, and it is current |
| TagDialog.EntityId | src/stockshot_browser/ui/tag_dialog.py:160-163 | an entity is found by path and type, and the id found names an existing entity row |
| TagDialog.Common | src/stockshot_browser/ui/tag_dialog.py:178-181 | the common tags are exactly the tags in every found entity's set, and empty when no entity was found |
| TagDialog.FoundTagSetsNonEmpty | src/stockshot_browser/ui/tag_dialog.py:158-176 | a tag set is collected exactly when at least one selected entity is in the database |
| TagDialog.FoundTagSetsAll | src/stockshot_browser/ui/tag_dialog.py:158-176 | a tag is in every collected set exactly when every found entity carries it |
| TagDialog.LoadedTagsMeaning | src/stockshot_browser/ui/tag_dialog.py:149-204 | a tag is loaded exactly when some selected entity is in the database and every selected entity found there carries it |
| TagDialog.SingleLikeMulti | src/stockshot_browser/ui/tag_dialog.py:184-197 | the single-entity branch loads the same tags as the intersection over a one-entity list |
| TagDialog.ShowsUnique | src/stockshot_browser/ui/tag_dialog.py:206-211 | the tag list shows one order only: the sorted current tags |
| TagDialog.FindTag | src/stockshot_browser/ui/tag_dialog.py:259 | looking a tag up by name returns a row holding that name, or nothing when no row does |
| TagDialog.TagIdsAsWrittenShape | src/stockshot_browser/ui/tag_dialog.py:257-265 | as written: tags are looked up by raw name, existing rows are kept, and every saved name gets the id of a tag row |
| TagDialog.TagIdsOk | src/stockshot_browser/ui/tag_dialog.py:257-265 | the corrected tag pass succeeds exactly when no name is blank, which Tag.validate_name rejects |
| TagDialog.TagIdsKeyed | src/stockshot_browser/ui/tag_dialog.py:257-265 | the corrected tag pass looks tags up by their stored (stripped, lower-case) name, keeps existing rows and maps each name to the row holding its stored form |
| TagDialog.EntityIds | src/stockshot_browser/ui/tag_dialog.py:267-285 | finding or creating the entity rows yields one id per selected entity and keeps the tables well formed |
| TagDialog.EntityIdsOk | src/stockshot_browser/ui/tag_dialog.py:267-285 | entity rows are created without error when every entity name is non-blank |
| TagDialog.EntityIdsFound | src/stockshot_browser/ui/tag_dialog.py:267-285 | each id returned is the row found by that entity's path and type afterwards |
| TagDialog.EntityRowsKept | src/stockshot_browser/ui/tag_dialog.py:277-283 | appending a created entity row does not change which row an earlier entity is found at |
| TagDialog.SaveTagsParts | src/stockshot_browser/ui/tag_dialog.py:249-308 | a successful save consists of the tag pass, the entity pass and relinking the entities to exactly the saved tags |
| TagDialog.SaveTagsOk | src/stockshot_browser/ui/tag_dialog.py:249-322 | a save fails on a blank tag name; when no tag and no entity name is blank it succeeds exactly when there is no entity or no tag, or no two names share a stored form and no entity is selected twice (otherwise the same (entity, tag) link is inserted twice and the `entity_tags` primary key rejects it) |
| TagDialog.SaveTagsUnique | src/stockshot_browser/ui/tag_dialog.py:297-308 | once the tag and entity passes succeed, the link insert succeeds exactly when no (entity, tag) pair repeats: no entity or no tag, or distinct stored names and distinct entity keys |
| TagDialog.CrossPairsUnique | src/stockshot_browser/ui/tag_dialog.py:299-305 | the nested insert loop yields no pair twice exactly when there is no entity or no tag, or neither the entity ids nor the tag ids repeat |
| TagDialog.TagIdsDistinct | src/stockshot_browser/ui/tag_dialog.py:261-267 | two saved names get the same tag id exactly when they share a stored form |
| TagDialog.EntityIdsDistinct | src/stockshot_browser/ui/tag_dialog.py:271-289 | two selected entities get the same row id exactly when they share path and type |
| TagDialog.SaveListedOk | src/stockshot_browser/ui/tag_dialog.py:249-322 | saving the dialog's tag set fails on a blank tag; with no blank tag or entity name it succeeds exactly when there is no entity or no tag, or no two tags share a stored form and no entity is selected twice |
| TagDialog.SaveListedLinks | src/stockshot_browser/ui/tag_dialog.py:287-308 | a successful save of the dialog's tag set keeps the tables consistent and links every selected entity to exactly the tags' stored forms |
| TagDialog.SaveTagsKeepsTables | src/stockshot_browser/ui/tag_dialog.py:249-308 | a save keeps the tables consistent and only appends tag and entity rows |
| TagDialog.SaveTagsLinks | src/stockshot_browser/ui/tag_dialog.py:287-305 | after a save every selected entity is linked to exactly the stored forms of the saved tags |
| TagDialog.SaveTagsKeepsOthers | src/stockshot_browser/ui/tag_dialog.py:287-292 | a save does not change the tags of entities outside the selection |
| TagDialog.MixedCaseTagBreaksSave | src/stockshot_browser/ui/tag_dialog.py:257-263 | as written: saving "A" when a tag "a" exists creates a second row stored as "a" and breaks the unique constraint |
| TagDialog.MixedCaseTagSaved | src/stockshot_browser/ui/tag_dialog.py:257-263 | corrected: saving "A" reuses the existing "a" row and links the entity to it |
| TagDialog.Dialog.constructor | src/stockshot_browser/ui/tag_dialog.py:23-48 | one entity or a list sets the entity list and multi flag, the current tags are the loaded tags shown sorted (none when the session fails), the input is empty |
| TagDialog.Dialog.LoadEntityTags | src/stockshot_browser/ui/tag_dialog.py:149-204 | the current tags become LoadedTags of the selection and the list shows them; a failed session changes nothing |
| TagDialog.Dialog.UpdateTagsList | src/stockshot_browser/ui/tag_dialog.py:206-211 | the list shows the current tags sorted |
| TagDialog.Dialog.ListTags | src/stockshot_browser/ui/tag_dialog.py:295-301 | the emitted list holds each current tag once |
| TagDialog.Dialog.Save | src/stockshot_browser/ui/tag_dialog.py:249-322 | a failed session returns its error with nothing emitted and the dialog not accepted; otherwise, on success the dialog emits the current tags, is accepted and leaves the database of SaveTags with every entity linked to the stored tag names; a blank tag makes it fail with nothing emitted; with no blank name it succeeds exactly when no (entity, tag) link would be inserted twice (no entity, no tag, or tags with distinct stored forms and entities selected once) |
| TagDialog.Dialog.AddTag | src/stockshot_browser/ui/tag_dialog.py:213-230 | a blank input does nothing; an existing stripped name raises a notice; otherwise the stripped name is added and the input cleared |
| TagDialog.Dialog.RemoveSelectedTag | src/stockshot_browser/ui/tag_dialog.py:232-242 | the selected tag is discarded; with no selection nothing changes |
| TagDialog.AddedNameIsStripped | src/stockshot_browser/ui/tag_dialog.py:215-225 | a tag added from non-blank input is non-empty and already stripped |
| DirectoryTree.DefaultPathsAreShipped | src/stockshot_browser/config/defaults.py:229-234 | the default configured paths used by the tree are the two paths shipped in the defaults |
| DirectoryTree.LayerPaths | src/stockshot_browser/ui/directory_tree.py:136-152 | a layer whose directory_tree.configured_paths is a list of strings contributes exactly that list |
| DirectoryTree.StrListBack | src/stockshot_browser/ui/directory_tree.py:136-152 | a JSON list of strings reads back as the same list of paths |
| DirectoryTree.FirstIndex | src/stockshot_browser/ui/directory_tree.py:153-159 | the first index of a path holds it and no earlier entry does |
| DirectoryTree.DedupMembers | src/stockshot_browser/ui/directory_tree.py:153-159 | the unique list holds exactly the non-empty collected paths |
| DirectoryTree.DedupDistinct | src/stockshot_browser/ui/directory_tree.py:153-159 | the unique list has no repeated path |
| DirectoryTree.DedupFirstWins | src/stockshot_browser/ui/directory_tree.py:153-159 | the unique list keeps each path's first occurrence order |
| DirectoryTree.DedupPrefix | src/stockshot_browser/ui/directory_tree.py:153-159 | collecting more paths only appends to the unique list |
| DirectoryTree.CollectConfiguredPaths | src/stockshot_browser/ui/directory_tree.py:122-163 | the collected paths are the defaults, then project, then user paths, de-duplicated with empty paths dropped |
| DirectoryTree.RemoveDuplicates | src/stockshot_browser/ui/directory_tree.py:153-159 | the seen-set loop computes Dedup of the collected paths |
| DirectoryTree.DefaultsLead | src/stockshot_browser/ui/directory_tree.py:122-163 | whatever the project and user layers hold, the collected, de-duplicated list of configured paths starts with the two default paths |
| DirectoryTree.FriendlyName | src/stockshot_browser/ui/directory_tree.py:165-190 | every root gets a non-empty display name |
| DirectoryTree.HomeFoldersNamed | src/stockshot_browser/ui/directory_tree.py:167-176 | the Videos, Pictures, Desktop and Documents folders under home are shown by their own names |
| DirectoryTree.SlashDistinct | src/stockshot_browser/ui/directory_tree.py:167-176 | two folders under home are the same path exactly when their names are equal |
| DirectoryTree.FriendlyNameShowsName | src/stockshot_browser/ui/directory_tree.py:165-190 | a display name is one of the fixed labels, contains the folder's name, or is the full path when the name is empty |
| DirectoryTree.VisibleDirs | src/stockshot_browser/ui/directory_tree.py:206-209 | the gathered entries are exactly the listed directories whose names do not start with a dot |
| DirectoryTree.AccessibleNamesMembers | src/stockshot_browser/ui/directory_tree.py:214-233 | the added children are exactly the entries that can be listed |
| DirectoryTree.AccessibleNamesSorted | src/stockshot_browser/ui/directory_tree.py:211-233 | children added from a name-sorted listing keep the case-insensitive name order |
| DirectoryTree.ChildNamesMembers | src/stockshot_browser/ui/directory_tree.py:199-239 | the children of a directory item are exactly its accessible, visible subdirectories |
| DirectoryTree.ChildNamesSorted | src/stockshot_browser/ui/directory_tree.py:211-233 | children are added in case-insensitive name order |
| DirectoryTree.PopulateChildren | src/stockshot_browser/ui/directory_tree.py:199-239 | populating a directory adds exactly ChildNames of its listing |
| DirectoryTree.GatherSubdirs | src/stockshot_browser/ui/directory_tree.py:206-209 | the iterdir loop gathers VisibleDirs of the listing |
| DirectoryTree.AddAccessible | src/stockshot_browser/ui/directory_tree.py:214-233 | the add loop skips entries that cannot be listed and adds the rest in order |
| DirectoryTree.PathAtParts | src/stockshot_browser/ui/directory_tree.py:318-322 | joining relative parts onto a root gives the root's components followed by the parts |
| DirectoryTree.RelativePartsPlain | src/stockshot_browser/ui/directory_tree.py:314-315 | the parts of a path relative to a root that contains it are plain names |
| DirectoryTree.RootIsNotReached | src/stockshot_browser/ui/directory_tree.py:321-355 | expanding to the root itself selects nothing, because there is no part to walk |
| DirectoryTree.ExpandPath | src/stockshot_browser/ui/directory_tree.py:311-360 | the walk succeeds exactly when every part is found among the children along the way, and then the item selected is the target |
| DirectoryTree.FindChild | src/stockshot_browser/ui/directory_tree.py:325-330 | the child scan finds the part exactly when it is among the children |
| DirectoryTree.StepIsTarget | src/stockshot_browser/ui/directory_tree.py:340-346 | the walk reaches the target exactly at the last part |
| DirectoryTree.BestByMeaning | src/stockshot_browser/ui/directory_tree.py:285-296 | a best index is found exactly when some index qualifies, and it is the first among the longest |
| DirectoryTree.BestRootMeaning | src/stockshot_browser/ui/directory_tree.py:279-296 | the best root is the first of the longest roots containing the directory, and none exists exactly when no root contains it |
| DirectoryTree.JoinPrefixShorter | src/stockshot_browser/ui/directory_tree.py:292 | a root with fewer path components has a shorter text |
| DirectoryTree.BestRootIsDeepest | src/stockshot_browser/ui/directory_tree.py:279-296 | every root containing the directory also contains the best root |
| DirectoryTree.Tree.constructor | src/stockshot_browser/ui/directory_tree.py:26-34 | a new tree holds the given roots and no selection |
| DirectoryTree.Tree.BestRoot | src/stockshot_browser/ui/directory_tree.py:285-296 | the root loop returns BestRootOf the roots |
| DirectoryTree.Tree.ExpandToDirectory | src/stockshot_browser/ui/directory_tree.py:279-309 | the directory is reached exactly when a best root exists and the walk from it succeeds; then it is the only selected item, and otherwise the selection is unchanged |
| DirectoryTree.Tree.OnSelectionChanged | src/stockshot_browser/ui/directory_tree.py:250-267 | both signals are sent exactly when some selected item has a path: all such paths, and the first of them |
| DirectoryTree.NonEmptyMeaning | src/stockshot_browser/ui/directory_tree.py:255-258 | the emitted paths are exactly the non-empty item paths, and none exist only when every path is empty |
| DirectoryTree.NonEmptyHead | src/stockshot_browser/ui/directory_tree.py:262-265 | the single selection sent is the first non-empty item path |
| ContextMenu.Set | src/stockshot_browser/ui/context_menu.py:82-83 | setting a player's commands changes that name's entry only |
| ContextMenu.FromItemsOk | src/stockshot_browser/ui/context_menu.py:36-77 | a player table built from a literal list keeps its key list and its map in step |
| ContextMenu.DefaultCandidatesOk | src/stockshot_browser/ui/context_menu.py:35-77 | each platform's built-in player table is well formed |
| ContextMenu.LastListMeaning | src/stockshot_browser/ui/context_menu.py:79-85 | a configured player overrides the built-in commands exactly when some entry with its upper-cased name holds a list, and then the last such list wins |
| ContextMenu.MergedLookup | src/stockshot_browser/ui/context_menu.py:79-85 | after merging, a player's commands are the last configured list for it, otherwise the built-in ones |
| ContextMenu.MergedOk | src/stockshot_browser/ui/context_menu.py:79-85 | merging configured players keeps the player table well formed |
| ContextMenu.FirstExistingMeaning | src/stockshot_browser/ui/context_menu.py:88-96 | the command chosen is the first candidate that exists, and none is chosen exactly when no candidate exists |
| ContextMenu.AvailableOk | src/stockshot_browser/ui/context_menu.py:88-96 | the available-player table is well formed |
| ContextMenu.AvailableLookup | src/stockshot_browser/ui/context_menu.py:88-96 | a player is offered exactly when it has candidates and one of them exists, with that one command |
| ContextMenu.DetectedOk | src/stockshot_browser/ui/context_menu.py:26-117 | the detected player table is well formed |
| ContextMenu.UpperIsNotSystemDefault | src/stockshot_browser/ui/context_menu.py:81 | an upper-cased configured key never equals "System Default", so configuration cannot replace the system opener |
| ContextMenu.MergedKeepsSystemDefault | src/stockshot_browser/ui/context_menu.py:79-85 | merging configured players never adds or changes a "System Default" entry |
| ContextMenu.DetectedPlayer | src/stockshot_browser/ui/context_menu.py:79-96 | every named player other than the system opener is offered with the first existing command of its merged candidates |
| ContextMenu.DetectedSystemDefault | src/stockshot_browser/ui/context_menu.py:99-117 | the system opener entry is exactly the platform's opener command |
| ContextMenu.SystemDefaultOffered | src/stockshot_browser/ui/context_menu.py:99-116 | on Linux, Windows and macOS the system opener is always offered, with xdg-open, start or open |
| ContextMenu.NoSystemDefaultElsewhere | src/stockshot_browser/ui/context_menu.py:99-117 | on other systems no system opener is offered |
| ContextMenu.OpenerOffered | src/stockshot_browser/ui/context_menu.py:99-116 | a platform opener command is always in the detected table |
| ContextMenu.NoDefaultsElsewhere | src/stockshot_browser/ui/context_menu.py:74-75 | other systems have no built-in players |
| ContextMenu.DetectPlayers | src/stockshot_browser/ui/context_menu.py:26-117 | detection returns the Detected table for the platform, configuration and command checker |
| ContextMenu.DetectFrom | src/stockshot_browser/ui/context_menu.py:79-117 | the merge, availability and system-opener steps together give DetectedFrom |
| ContextMenu.MergeConfigured | src/stockshot_browser/ui/context_menu.py:79-85 | the merge loop gives Merged of the built-in table and the configuration |
| ContextMenu.ListAvailable | src/stockshot_browser/ui/context_menu.py:88-96 | the availability loop gives Available of the merged commands |
| ContextMenu.OpenCommandShape | src/stockshot_browser/ui/context_menu.py:141-162 | an unknown player yields no command; otherwise the command ends with the file path, after the player's command except for the Windows system opener |
| ContextMenu.PlayerManager.constructor | src/stockshot_browser/ui/context_menu.py:21-24 | a new player manager holds the players detected for its platform |
| ContextMenu.PlayerManager.OpenWithPlayer | src/stockshot_browser/ui/context_menu.py:141-162 | the launched command is OpenCommand, and success means a known player whose launch did not fail |
| ContextMenu.PlayerManager.AvailablePlayers | src/stockshot_browser/ui/context_menu.py:164-166 | the names returned are exactly the detected players |
| ContextMenu.RememberedOk | src/stockshot_browser/ui/context_menu.py:464-467 | the recent-player list stays at most five distinct names and never holds the system opener |
| ContextMenu.RememberedMeaning | src/stockshot_browser/ui/context_menu.py:464-467 | a newly used player goes to the front, a known one or the system opener leaves the list unchanged, nothing else enters, and nothing is dropped while under five |
| ContextMenu.RememberedIdempotent | src/stockshot_browser/ui/context_menu.py:464-467 | remembering the same player again changes nothing, so a multi-open remembers it once |
| ContextMenu.ContextMenuManager.constructor | src/stockshot_browser/ui/context_menu.py:175-180 | a new menu manager has detected players, no recent players and nothing being opened |
| ContextMenu.ContextMenuManager.OpenWithPlayer | src/stockshot_browser/ui/context_menu.py:441-479 | a duplicate open is ignored; otherwise the entity is marked as opening, its first file (or path) is launched, and on success the action is emitted and the player remembered |
| ContextMenu.ContextMenuManager.OpenAll | src/stockshot_browser/ui/context_menu.py:776-779 | opening several entities marks every one of them as being opened; an entity whose path is already being opened (before the call or earlier in the list) runs nothing, every other runs its open command; the recent list is the old one with the player remembered exactly when some such entity's process started |
| ContextMenu.ContextMenuManager.OpenStep | src/stockshot_browser/ui/context_menu.py:441-470 | one open of the loop: the entity's command unless its path is already being opened, and the player remembered exactly when that process starts |
| ContextMenu.ContextMenuManager.FinishOpening | src/stockshot_browser/ui/context_menu.py:476-478 | when the delay ends the entity is no longer marked as opening |
| ContextMenu.MultiSelectionMeaning | src/stockshot_browser/ui/context_menu.py:182-190 | a menu is a multi-selection menu exactly when a list of two or more entities was passed |
| ContextMenu.OfferedRecent | src/stockshot_browser/ui/context_menu.py:236-244 | the recent entries are recent players that are still available, never the system opener |
| ContextMenu.Others | src/stockshot_browser/ui/context_menu.py:246-253 | the remaining entries are every player except the system opener |
| ContextMenu.SortedMembers | src/stockshot_browser/ui/context_menu.py:246 | sorting the player names keeps exactly the same names |
| ContextMenu.OpenWithEntriesMeaning | src/stockshot_browser/ui/context_menu.py:212-297 | the Open With menu lists the system opener first exactly when it is available, lists only available players, lists every one of them, and never repeats the opener further down |

## Left out

Things the model takes as inputs rather than computing:

- **File system.** Listings, `stat` sizes and mtimes, `exists`, `mkdir`,
  `unlink` and `shutil` copies are parameters, or maps from paths to
  entries.
- **Configuration files.** Reading the files is a `disk` parameter.
- **Processes.** The outcome and output of every ffprobe/ffmpeg run is an
  input. So are the `which`/`where` probes (`has`) and whether `Popen`
  starts (`launches`).
- **Regular expressions.** The engine is an abstract matcher, and
  `re.compile` is a predicate parameter.
- **Clocks and randomness.** `datetime.now()`, the backup timestamp and the
  retry jitter are inputs.

Not modelled at all:

- **Threads and Qt.** QThreadPool workers, signals and slots, painting,
  menus and widget geometry are not modelled. Workers appear as the
  extractions they return. Signals appear as returned values. Whether a
  widget meets the rubber band is a parameter.
- **Writing files.** `ensure_config_files_exist`, the `_create_default_*`
  and `_save_*` writers, and the JSON file writes are not modelled.
- **`get_session` waits.** The semaphore's blocking wait with timeout is
  modelled as immediate failure when the pool is exhausted. The inner retry
  loop, which would yield twice from one context manager, is not modelled.
- **Database maintenance.** `restore_backup`, `vacuum_database`,
  `get_database_info`, `test_connection` and `init_database` in the
  connection layer are not modelled. Neither are the delegating
  `get_database_info`, `vacuum_database`, `setup_auto_backup` and
  `get_current_context` of the multi-database manager.
- **Thumbnail maintenance.** `clear_cache`, `get_cache_info` and `shutdown`
  of both thumbnail managers are not modelled: they are file deletion,
  reporting and thread-pool shutdown.
- **Metadata queries.** `search_by_metadata` and `get_metadata_summary` of
  the metadata managers are not modelled.
- **ffmpeg runs.** `extract_frame`, the animated generators and the bodies of
  the `_extract_image_thumbnail_*` methods are not modelled. Their results
  are inputs.
- **Floating point.**
  - `_parse_fps` rounding and float parsing are modelled as parameters.
  - Aspect-ratio rounding is not modelled.
  - The one-decimal text of `format_bytes` is not modelled.
  - Thumbnail resizing and colour lightening are not modelled.
- FFmpeg.SampleIndex: the sampled index is the exact integer quotient
  `i * n / count`, not the floating-point `int(i * interval)`.
- **Sequence detector.** The model groups files by the tuple (base,
  extension, width, pattern), not by the formatted string key (see
  Findings). `get_patterns` is a plain copy of the pattern list and is not
  modelled.
- **Entities.** Progress reporting is not modelled.
- **Tag dialog.** `_load_existing_tags`, which only fills the completer, is
  not modelled. Tag iteration order over the Python set is not modelled:
  tags are saved as a list with the set's members. Case folding is ASCII
  only.
- **Directory tree.**
  - Not modelled: `_populate_initial_tree`, `_on_item_clicked`, and the
    item lookup of `set_current_directory`.
  - Not modelled: the expanded or collapsed state of items, and stale
    items left from earlier listings.
  - Configured paths that are not strings are not modelled, nor are
    relative roots.
- **Context menu.**
  - A non-dict `common_players` value, which raises, is not modelled.
  - The configured players are an ordered list of items.
  - List-valued candidate commands are never found.
  - `Upper` changes ASCII letters only.
  - Menu construction and the file, metadata and favorites actions are not
    modelled.
  - The one-second QTimer release of an opening entity is the separate
    method `FinishOpening`.
- Config.ConfigurationManager.constructor: the manager layers the
  corrected defaults (theme `"dark"`), not the shipped `"dark_blue.xml"`,
  so loading with no file succeeds where the source's final validation
  (manager.py:95-100) raises; the shipped behaviour is stated separately
  (see Findings).
- Defaults: only the POSIX branch of `get_default_paths` is modelled. On
  Windows it returns no `user_dir` or `gen_dir`, so building the defaults
  (defaults.py:38) would raise `KeyError` when the module loads.
- FileUtils.IsHidden: only the leading-dot rule is modelled. The Windows
  branch, which reads `FILE_ATTRIBUTE_HIDDEN` from `stat`, is not.
- SequenceDetector.Detector.AddCustomPattern: writing the custom list back
  to the configuration with `persist=True` is not modelled.
- SequenceDetector.Detector.RemoveCustomPattern: writing the custom list
  back to the configuration with `persist=True` is not modelled.
- Text.Lower: changes ASCII letters only, unlike Python's `str.lower`. This
  reaches the search filter, the retry error patterns, the bit-depth table
  and the friendly names.
- Text.ParseInt: accepts surrounding whitespace, an optional sign and
  ASCII decimal digits. Python's
  `int` also accepts underscores between digits (`"1_000"`); those are
  rejected.
- Json.Json: `JInt(1)` and `JFloat(1.0)` are different values, while Python
  has `1 == 1.0`. Comparisons of configured values therefore tell an integer
  from an equal float.
- **Session failures.** Whether a `get_session` block raises (pool
  timeout, locked database, failed commit) is a `raised` input of the
  managers and the tag dialog, not derived from the connection layer.
- Metadata.ReadMetadata: a custom column that is a list updates the dict
  only when its pairs have string keys. Pairs with a number, bool or null
  key, and two-key dicts used as pairs, are read as errors, because the
  model's dicts are keyed by strings. The same holds for Metadata.MetadataIn
  and both GetEntityMetadata methods.
- SequenceDetector.TryPattern: a custom pattern whose frame group does not
  take part in the match yields `None` in Python, and `int(frame_str)`
  (sequence_detector.py:108) raises `TypeError`. The model's matcher always
  yields strings, so that case is not modelled.
- **Other files.** Colour management, the metadata exporter, application
  wiring, the themes and the dialogs outside the listed widgets are not
  part of this model.

## Findings

| source | as written | input that shows it | evidently intended | confidence | as-written member | corrected member |
|---|---|---|---|---|---|---|
| src/stockshot_browser/config/defaults.py:91 | the default `ui.theme` is `"dark_blue.xml"`, but the ui validator accepts only light, dark and auto, and final validation re-raises | loading with no configuration files | a theme name the validator accepts (`"dark"`), so the defaults alone load (used by `Config.ConfigurationManager`) | not executed | Config.ShippedDefaultsRejected | Config.DefaultsPass |
| src/stockshot_browser/database/migrations.py:56-67 | a database without `schema_version` records version 1 before the loop, so the migration keyed 1 is skipped | a database with a `thumbnails` table lacking `extra_data` and no version table: versions 1 and 2 are recorded, `extra_data` is never added | the initial version is 0, so every migration runs (used by `Migrations.Engine.CheckSchemaVersion`) | not executed | Migrations.UntrackedSkipsFirstMigration | Migrations.UntrackedRunsEveryMigration |
| src/stockshot_browser/core/thumbnail_manager.py:344-410 | the store catches every exception, so the `database_retry` decorator around it never sees one | a "database is locked" error on the first write: the store gives up after one call | the exception reaches the decorator, which retries, and the second write succeeds | not executed | Connection.SwallowedStoreIsNotRetried | Connection.PropagatedStoreIsRetried |
| src/stockshot_browser/database/connection.py:405-417 | `shutil.copy2` gives the backup the database's own mtime, and the backup age is measured from that mtime | a database last written two days before a backup: a check one minute later backs up again | the age is counted from when the backup was made (used by `Connection.DatabaseManager.CheckAndBackup`) | not executed | Connection.CopiedMtimeRepeatsBackups | Connection.FreshBackupIsRecent |
| src/stockshot_browser/ui/search_widget.py:594-605 | `restore_search_state` resets the filters but not the text, and sets the text only when the criteria have one | a widget holding "foo" restores criteria without text: "foo" stays, so the criteria differ | restoring clears the text first (used by `SearchWidget.Widget.RestoreSearchState`) | not executed | SearchWidget.StaleTextSurvivesRestore | SearchWidget.RestoreRoundTrip |
| src/stockshot_browser/ui/tag_dialog.py:257-263 | tags are looked up by the raw name, while `Tag.validate_name` stores the stripped lower-case name | saving the tag "A" when a tag "a" exists: a second row named "a" breaks the unique constraint and the save fails | look tags up by their stored name (used by `TagDialog.Dialog.Save`) | not executed | TagDialog.MixedCaseTagBreaksSave | TagDialog.MixedCaseTagSaved |
| src/stockshot_browser/database/models.py:277-286 | the color check accepts any 7-character string starting with `#` whose rest `int(_, 16)` parses | `#-fffff` is accepted | only `#RRGGBB` with six hex digits | not executed | Records.ValidateColorAcceptsSign | Records.ValidateColorStrict |
| src/stockshot_browser/utils/sequence_detector.py:111 | files are grouped by the string `f"{base}_{ext}_{padding}_{pattern}"` | only with a custom pattern whose extension group admits `_`, such as `(.+)\.(\d{4,})\.(\w+)$` (the default patterns' extensions never contain `_`): `a.0001.b_c` and `a_b.0002.c` both get the key `a_b_c_4_<pattern>` and land in one group | group by the tuple (base, extension, width, pattern) (used by the detector's grouping) | not executed | SequenceDetector.SourceKeyCollides | SequenceDetector.GroupAllCorrect |
