# Eddie print engine, modelled in Dafny

Eddie is a print engine for children's activity books and vocabulary
trainers. It builds KDP print books (a square 8.5 in trim with bleed) and
A4 worksheets from uploaded photos, from a table of time-of-day "quest"
missions and from vocabulary lists. This project models the engine's core
and proves what the code promises about it:

- **Preflight** (`KdpPreflight`): padding a page list with numbered
  reflection pages up to the minimum page count.
- **Page geometry** (`PdfEngine`): the two page specifications, and the
  fit-and-centre arithmetic of `embed_image`, including its silent
  failure path.
- **Quest database** (`QuestData`, `QuestZones`, `QuestSchedule`):
  - the hour-to-zone lookup, with the night range wrapping past midnight;
  - the mission pick with its difficulty pool and fallback;
  - the hour colour with its night darkening and clamp;
  - the validator.
  
  The generic operations work over any zone table. The facts about the
  shipped eight-zone table are proved separately.
- **Photo quest book interior** (`Interior`): intro, mission pages, outro
  and reflection padding, with:
  - uploads reused round-robin;
  - slot hours `(start + i) % 24`;
  - per-slot seeds `seed ^ i`;
  - running XP;
  - the progress bar;
  - the age-to-difficulty map.
- **Cover collage** (`CoverCollage`):
  - the index walk of `_pick_indices`;
  - the insertion-ordered thumbnail cache, a class with a 96-entry FIFO
    eviction;
  - the three collage templates;
  - the spine width with Python's round-half-even;
  - the back/spine/front cover geometry.
- **Trainer exporters**:
  - `TrainerVocab` reads the `trainer_v2` payload;
  - `TrainerKdp` is the square KDP word book;
  - `TrainerCards`, `CardsGrid` and `CardsText` are the A4 QR flash cards: the 2x3 grid, the batches, the front and back pages, the icon slug, the example sentence and the three-line wrap.
- **Export switch** (`ExportOrchestrator`): `run_export`, which routes a
  request by module and mode and bridges legacy `items` payloads into the
  `trainer_v2` schema.
- **Trainer app** (`AppTrainer`): `parse_vocab_lines` and the one-page-per-word `build_trainer_pdf`.
- **Activity page** (`EngineSketch`):
  - the randomised grid maze, with its cell-count reduction and its walls, each with one gap;
  - the two distinct seek targets and the icons inside the padded maze box;
  - the too-cramped guard.

Pages are modelled as values that describe what is drawn on them, not as
canvas operations. Python's dynamic payloads are modelled by `PyValue.Value`,
with `dict.get`, truthiness and `str()`. `PyStr` models `strip`, `split`,
`splitlines`, `rfind` and `replace`. `PyInt` models the int operations
the code relies on: `^` on ints, and decimal text. `random.Random` is
modelled by `RandomSource`: a draw is an uninterpreted function of the
seed and of how many draws came before, and the model knows only its
range.

Loops in the source are methods with loop invariants, each proved equal
to a specification function. The thumbnail cache and the random generator
are classes. Loop-free code is functions, and the properties are lemmas
about those functions.

## Model

| member | source | states |
|---|---|---|
| KdpPreflight.EnsureMinPages | kern/kdp_preflight.py:12-37 | the loop returns the input copied, followed by one filler per missing page, numbered after the existing pages |
| KdpPreflight.Fillers | kern/kdp_preflight.py:31-35 | the fillers are `count` pages numbered consecutively from `first` |
| KdpPreflight.PaddedLength | kern/kdp_preflight.py:23-35 | the result has exactly `min_pages` pages, or keeps a longer input's length; `None` counts as empty |
| KdpPreflight.PaddedKeepsPrefix | kern/kdp_preflight.py:23-35 | existing pages keep their positions, so nothing is truncated or reordered |
| KdpPreflight.PaddedUnchanged | kern/kdp_preflight.py:24-29 | `min_pages <= 0` or an input that is already long enough is returned as an element-wise copy |
| KdpPreflight.PaddedFillerNumbers | kern/kdp_preflight.py:31-35 | the k-th filler is built with page number n + 1 + k, so fillers are numbered n+1 .. min_pages |
| KdpPreflight.PaddedIdempotent | kern/kdp_preflight.py:12-37 | padding a padded list again with the same minimum changes nothing |
| KdpPreflight.TenPagesPaddedTo24 | kern/kdp_preflight.py:12-37 | ten pages padded to 24 keep p1..p10 in front and gain fillers numbered 11..24 |
| PdfEngine.GetPageSpec | kern/pdf_engine.py:22-31 | only the KDP page has bleed and it is square; the A4 page is taller than wide; the safe distance always exceeds the bleed |
| PdfEngine.PageSpecValues | kern/pdf_engine.py:22-31 | the page sizes, bleed and safe distance in points, with room left inside the safe zone on both formats |
| PdfEngine.EmbedImage | kern/pdf_engine.py:65-129 | a decodable image with a positive size is drawn fitted and centred in the box; otherwise nothing is drawn, and a note appears only with `debug_on_error` |
| PdfEngine.Prefix | kern/pdf_engine.py:126 | `s[:n]`: a prefix of s of at most n characters |
| PdfEngine.FitKeepsAspect | kern/pdf_engine.py:103-110 | with the aspect ratio kept, the drawn size fits the target both ways, fills it one way and keeps the image's proportions |
| PdfEngine.EmbedCentredInside | kern/pdf_engine.py:103-118 | the image is centred in the box, and inside it when `0 <= scale_to <= 1` |
| PdfEngine.FitNonNegative | kern/pdf_engine.py:103-112 | a non-negative target gives a non-negative drawn size |
| PdfEngine.EmbedFailureSilent | kern/pdf_engine.py:98-129 | a failure draws no image; the note is drawn exactly when `debug_on_error`, and its message is cut to at most 90 characters |
| QuestData.FirstCovering | quest_data.py:150-156 | the position of the first zone covering the hour, or the table's length when none covers it; every earlier zone does not cover it |
| QuestData.ZoneFor | quest_data.py:150-156 | the first zone covering `hour % 24`, with Python's non-negative remainder, or the first zone as the fallback |
| QuestData.GetZoneForHour | quest_data.py:150-156 | the nested scan with early return gives the same zone as `ZoneFor` |
| QuestData.ZoneForPeriodic | quest_data.py:151 | the lookup depends only on the hour modulo 24, negative hours included |
| QuestData.CoveredIsCounted | quest_data.py:152-155 | a zone covering the hour contributes at least one range that contains it |
| QuestData.TwoCoversCountTwice | quest_data.py:152-155 | two different covering zones mean at least two ranges contain the hour |
| QuestData.UniqueCoverLookup | quest_data.py:150-156 | when exactly one range contains the hour, the lookup takes no fallback and returns the only zone covering it |
| QuestData.PartitionOfShippedRanges | quest_data.py:41-147 | the shipped ranges, with `(21, 24), (0, 6)` wrapping past midnight, put every hour 0..23 in exactly one range |
| QuestData.LookupWithShippedRanges | quest_data.py:150-156 | with the shipped ranges the fallback is never taken, and the zone returned is the only one covering the hour |
| QuestData.CoveringZoneOf | quest_data.py:152-155 | a range containing the hour belongs to a zone that covers the hour |
| QuestData.NightZone | quest_data.py:140-178 | in a table shaped like the shipped one, exactly the night hours fall into the last zone |
| QuestData.AtMost | quest_data.py:163 | exactly the missions with difficulty at most `difficulty`, and no more missions than the zone has |
| QuestData.Pool | quest_data.py:163-165 | a sub-list of the zone's missions, non-empty exactly when the zone has missions; within the difficulty when any mission is, and all missions when none is |
| QuestData.FmtHour | quest_data.py:170-171 | "HH:00", five characters, with the two digits of `hour % 24` |
| QuestData.Clamp01 | quest_data.py:182-184 | the result lies in [0, 1] and equals x when x already does |
| QuestData.ValidateQuestDb | quest_data.py:188-200 | the appending loops produce the issue list: the zone-id message, the mission-id message, then one message per bad difficulty |
| QuestData.CheckAllDifficulties | quest_data.py:196-199 | the outer loop adds the difficulty messages of every zone, in order |
| QuestData.CheckDifficulties | quest_data.py:197-199 | the inner loop adds one message per mission whose difficulty is outside 1..5, in order |
| QuestData.MissionIssuesEmpty | quest_data.py:197-199 | a zone yields no message exactly when all its difficulties are in 1..5 |
| QuestData.DifficultyIssuesEmpty | quest_data.py:196-199 | no difficulty message for the table exactly when every mission's difficulty is in 1..5 |
| QuestData.IssuesEmptyIff | quest_data.py:188-200 | the validator reports nothing exactly when zone ids are unique, mission ids are unique across zones and every difficulty is in 1..5 |
| QuestData.ShippedMissionIdsDistinct | quest_data.py:41-147 | the 17 shipped mission ids are pairwise distinct |
| QuestData.ShippedZoneIdsDistinct | quest_data.py:41-147 | the eight shipped zone ids are pairwise distinct |
| QuestData.ValidWithShippedIds | quest_data.py:188-200 | a table with the shipped ids and valid difficulties passes validation |
| QuestSchedule.ShippedShapeHolds | quest_data.py:41-147 | the shipped table has the shape the lookup and colour lemmas rely on: eight zones, the listed ranges, "trauminsel" last |
| QuestSchedule.ShippedRangesAre | quest_data.py:41-147 | the hour ranges of the shipped zones, zone by zone |
| QuestSchedule.ShippedMissionIdsAre | quest_data.py:41-147 | the mission ids of the shipped zones, zone by zone |
| QuestSchedule.ShippedDifficulties | quest_data.py:41-147 | every shipped mission's difficulty is in 1..5 |
| QuestSchedule.ShippedZonesHaveMissions | quest_data.py:41-147 | every shipped zone has at least one mission to pick from |
| QuestSchedule.ShippedColorsInUnit | quest_data.py:41-147 | every shipped zone colour lies in the unit cube |
| QuestSchedule.ZoneForHour | quest_data.py:150-156 | `get_zone_for_hour` on the shipped table: a shipped zone that covers `hour % 24`, and the only one that does |
| QuestSchedule.ShippedLookup | quest_data.py:150-156 | every hour lies in exactly one shipped range, so the lookup never falls back and returns the only covering zone |
| QuestSchedule.ShippedPartition | quest_data.py:41-147 | every hour 0..23 lies in exactly one range of the shipped table |
| QuestSchedule.NightIsTrauminsel | quest_data.py:134-156 | the hours 21..23 and 0..5, and no others, map to the zone "trauminsel" |
| QuestSchedule.PickMissionForTime | quest_data.py:159-167 | the mission comes from the pool of the hour's zone and is within the difficulty whenever that zone has an easy enough mission |
| QuestSchedule.HourColor | quest_data.py:174-185 | every component of the hour colour lies in [0, 1] |
| QuestSchedule.HourColorScaling | quest_data.py:174-185 | with the shipped colours the clamp never changes anything: the colour is the zone colour, scaled by 0.55 exactly at night |
| QuestSchedule.NightColor | quest_data.py:174-185 | every night hour gets the darkened colour of "trauminsel" |
| QuestSchedule.ShippedDbValid | quest_data.py:188-200 | the shipped database passes its own validation: the issue list is empty |
| Interior.MissionTotal | app.py:378 | the number of mission pages is in 1..22, equal to the upload count when that is in range and 22 above it |
| Interior.SlotHour | app.py:389-397 | the slot hour lies in 0..23 and differs from `start_hour + i` by a multiple of 24 |
| Interior.SlotMissions | app.py:388-391 | one mission per slot, slot i holding the pick for its hour and seed |
| Interior.Xps | app.py:393 | the XP of each mission, in order |
| Interior.TotalXp | app.py:393 | never 0, and the XP sum whenever that sum is not 0 |
| Interior.MissionPages | app.py:394-410 | one mission page per slot, showing upload `i % len(files)`, the slot hour, its mission and the running XP |
| Interior.InteriorPages | app.py:352-433 | the error "Keine Bilder hochgeladen." exactly when there are no uploads |
| Interior.RepeatIndex | app.py:385 | element k of `files * t` is `files[k % len(files)]` |
| Interior.RepeatLongEnough | app.py:385 | `files * (total // len(files) + 1)` holds at least `total` elements |
| Interior.BuildInteriorPdf | app.py:352-433 | the method returns the error for no uploads and otherwise the pages of `InteriorPages` |
| Interior.PickSlotMissions | app.py:387-391 | the mission loop picks slot i's mission for hour `(start_hour + i) % 24` with seed `seed_base ^ i` |
| Interior.LayOutPages | app.py:393-419 | after the intro come the mission pages, then the outro with the XP sum, then padding to `min_pages` |
| Interior.AddMissionPages | app.py:394-410 | the page loop appends one mission page per slot, carrying the running XP |
| Interior.RepeatUploads | app.py:385 | exactly `total` uploads, taken round-robin |
| Interior.MissionPageStep | app.py:396-410 | one turn of the page loop adds the running sum of slot i and extends the pages by page i |
| Interior.BookLayout | app.py:381-419 | the order is intro, missions in slot order, outro, then reflection pages numbered after them; the length is `max(len(missions) + 2, min_pages)` |
| Interior.SlotMissionFits | app.py:388-391 | slot i's mission comes from the zone of its hour and is within the difficulty whenever that zone has an easy enough mission |
| Interior.SlotSeedsDistinct | app.py:390 | distinct slots get distinct seeds `seed_base ^ i` |
| Interior.CumulativeXp | app.py:393-412 | each mission page shows the running XP sum, which never decreases for non-negative XP; the outro shows the final sum |
| Interior.ProgressFillBounds | app.py:334-341 | the filled width of the XP bar is between 0 and the bar width |
| Interior.ProgressFillExact | app.py:334-341 | for 0 <= cum <= total the bar fills exactly the fraction cum/total |
| Interior.DifficultyForAge | app.py:470 | the difficulty is in 1..4; it is 1 exactly up to age 4 and 4 exactly beyond age 9 |
| Interior.DifficultyForAgeMonotone | app.py:470 | an older child never gets an easier difficulty |
| Interior.MinPagesForMode | app.py:478 | 24 exactly for "KDP Buch", and never below 1 |
| CoverCollage.Candidate | cover_collage.py:43 | the candidate index `(seed + i * 9973) % n_total` is below n_total |
| CoverCollage.PickRunValid | cover_collage.py:35-47 | every run holds distinct indices below n, starts with the hero when asked, contains every earlier candidate and grows by at most one per turn |
| CoverCollage.CandidatesDistinct | cover_collage.py:43 | with n coprime to 9973, the first n candidates are pairwise distinct |
| CoverCollage.PickRunCovers | cover_collage.py:41-45 | after n turns every index below n has been seen |
| CoverCollage.PickDiverges | cover_collage.py:41-45 | when `need > n_total`, no run ever reaches `need` indices, so the loop never ends |
| CoverCollage.PickIndices | cover_collage.py:35-47 | the loop returns `need` distinct indices below n_total, with the hero first when asked |
| CoverCollage.PickResult | cover_collage.py:46-47 | `out[:need]` holds exactly `need` distinct indices below n, none when need <= 0, with 0 first when the hero comes first |
| CoverCollage.InsertedFifo | cover_collage.py:62-65 | an insertion keeps keys distinct and at most 96, keeps the order in step with the map, keeps the new key, and evicts exactly the oldest key when full |
| CoverCollage.ThumbCache.constructor | cover_collage.py:50-66 | a new cache is empty |
| CoverCollage.ThumbCache.Get | cover_collage.py:50-66 | a hit returns the stored thumbnail and changes nothing; a miss fits a new thumbnail and inserts it first-in-first-out |
| CoverCollage.TemplateNeed | cover_collage.py:92-137 | a template picks as many uploads as it has tiles (9, 6 or 5) |
| CoverCollage.TilesLayout | cover_collage.py:92-137 | every template's tiles are numbered in paste order, lie inside the canvas and do not overlap |
| CoverCollage.GridLayout | cover_collage.py:92-104 | the 3x3 grid of 720 px tiles with 18 px gaps is well placed |
| CoverCollage.GridCellsApart | cover_collage.py:92-104 | two different grid cells differ in column or in row |
| CoverCollage.HeroStripLayout | cover_collage.py:106-121 | the hero over a strip of five tiles is well placed |
| CoverCollage.HeroColumnLayout | cover_collage.py:123-137 | the hero beside a column of four tiles is well placed |
| CoverCollage.RenderTemplate | cover_collage.py:69-138 | no uploads gives a blank canvas; otherwise the picked indices are `_pick_indices(len(uploads), need, seed, hero_first)` (a prefix of the seeded pick walk), distinct and in range with the hero first, and each tile is pasted at its corner with the thumbnail of its picked upload at the tile's size, fetched through a fresh cache |
| CoverCollage.PaperFactor | cover_collage.py:159 | the factor for a known paper, 0.002252 for any other |
| CoverCollage.RoundHalfEven | cover_collage.py:162 | Python's `round`: the nearest integer, ties to the even one |
| CoverCollage.RoundMonotone | cover_collage.py:162 | rounding never reverses the order of two numbers |
| CoverCollage.SpineUnits | cover_collage.py:159-162 | the spine width in thousandths of an inch is at least 1 |
| CoverCollage.SpineWidth | cover_collage.py:159-162 | the spine is never narrower than 0.001 in |
| CoverCollage.SpineUnitsInInches | cover_collage.py:160-162 | the thousandths are `round(1000 * max(pages * factor, 0.001))` |
| CoverCollage.SpineUnitsClose | cover_collage.py:160-162 | the rounded spine is within half a thousandth of an inch of `max(pages * factor, 0.001)` |
| CoverCollage.SpineMonotone | cover_collage.py:159-162 | more pages never give a thinner spine |
| CoverCollage.CoverRegions | cover_collage.py:164-188 | back, spine and front are contiguous, share the bleed on every side and fill the canvas; the spine text is drawn exactly when pages reach `spine_text_min_pages` |
| CoverCollage.CoverWidthMonotone | cover_collage.py:164 | a thicker spine never gives a narrower cover |
| CoverCollage.FrontBoxesInside | cover_collage.py:203-214 | the collage box ends where the title band starts, and both stay inside the front cover when the trim leaves room |
| TrainerVocab.FieldStripped | kern/exports/trainer_kdp.py:27-28 | a field read from an item has no outer whitespace |
| TrainerVocab.V2Members | kern/exports/trainer_kdp.py:21-31 | an entry comes out of a `vocab` list exactly when a dict item produced it and its word or translation is non-empty |
| TrainerVocab.LegacyMembers | kern/exports/trainer_kdp.py:33-41 | an entry comes out of a legacy list exactly when a dict item has it as its non-empty term, with an empty translation |
| TrainerVocab.TermEntriesKept | kern/exports/trainer_cards.py:75-80 | filtering blank words afterwards gives the same list as skipping blank terms while reading |
| TrainerVocab.CoercedVocabClean | kern/exports/trainer_kdp.py:19-43 | every coerced entry has a non-empty word or translation, and both are stripped |
| TrainerVocab.ImageMembers | kern/exports/trainer_kdp.py:45-56 | a byte string is among the images exactly when it is a non-empty bytes item of `assets.images` |
| TrainerKdp.CoerceVocab | kern/exports/trainer_kdp.py:19-43 | the loops give `CoercedVocab`: a non-empty `vocab` list alone decides, then a non-empty legacy `items` list, else nothing |
| TrainerKdp.ReadDictEntries | kern/exports/trainer_kdp.py:22-30 | one entry per dict item, in order |
| TrainerKdp.ReadLegacyEntries | kern/exports/trainer_kdp.py:35-41 | one entry per dict item with a non-empty stripped term, in order |
| TrainerKdp.KeepNonEmpty | kern/exports/trainer_kdp.py:31 | exactly the entries with a non-empty word or translation, in order |
| TrainerKdp.CoerceImages | kern/exports/trainer_kdp.py:45-56 | the non-empty bytes of `assets.images`, or nothing when `assets` is not a dict or `images` is not a list |
| TrainerKdp.BookVocab | kern/exports/trainer_kdp.py:94-95 | the book always has at least one entry |
| TrainerKdp.ExportTrainerKdp | kern/exports/trainer_kdp.py:69-184 | the method returns the error for a non-dict payload and otherwise the book of `KdpBookOf` |
| TrainerKdp.WordPages | kern/exports/trainer_kdp.py:117-165 | one word page per entry; the image counter advances only when there are images |
| TrainerKdp.PadWithWritingPages | kern/exports/trainer_kdp.py:167-180 | writing pages are appended until there are `min_pages` pages |
| TrainerKdp.KdpPagesPadded | kern/exports/trainer_kdp.py:117-180 | the book is its word pages followed by the writing pages |
| TrainerKdp.KdpPageCount | kern/exports/trainer_kdp.py:94-95 | the book has `max(len(vocab), min_pages)` pages, and at least one (also lines 117-180) |
| TrainerKdp.KdpPageLayout | kern/exports/trainer_kdp.py:117-180 | page k < len(vocab) shows entry k's word (the blank line when the word is empty) and its translation, with image `k % len(images)` or none; later pages are writing pages |
| TrainerKdp.KdpRejectsNonDict | kern/exports/trainer_kdp.py:83-111 | only a dict payload makes a book, and with neither subtitle nor subject the header reads "Trainer" |
| CardsText.IconSlugChoice | kern/exports/trainer_cards.py:98-115 | the slug is never empty; a usable legacy slug wins; otherwise keyword groups decide in order, with "briefcase" as the fallback |
| CardsText.SharpSubjectIsCraft | kern/exports/trainer_cards.py:104-113 | the subject "SCHWEIẞTECHNIK" lower-cases to "schweißtechnik", which holds "schweiß" and no medical or food keyword, so its icon is "tools" |
| CardsText.FirstNonEmpty | kern/exports/trainer_cards.py:124-127 | what is found is non-empty |
| CardsText.FirstNonEmptyNone | kern/exports/trainer_cards.py:124-127 | nothing is found exactly when every candidate is empty |
| CardsText.FirstNonEmptyFirst | kern/exports/trainer_cards.py:124-127 | what is found is the first non-empty candidate |
| CardsText.FirstNonBlankIs | kern/exports/trainer_cards.py:124-127 | nothing is found exactly when every element strips to nothing; otherwise the first that does not |
| CardsText.PickExample | kern/exports/trainer_cards.py:118-138 | the first non-blank example of the item, else of the legacy item, else the offline fallback sentence; never empty |
| CardsText.EntryHasNoExamples | kern/exports/trainer_cards.py:118-138 | a coerced entry carries no examples, so its sentence comes from the legacy item or the fallback |
| CardsText.Cut | kern/exports/trainer_cards.py:387-389 | the cut lies in 1..42 |
| CardsText.WrapSentence | kern/exports/trainer_cards.py:383-393 | the wrap loop gives `Wrapped(sentence)` |
| CardsText.WrapStep | kern/exports/trainer_cards.py:386-391 | one turn of the loop takes a line off a long text while fewer than three lines are written |
| CardsText.WrapLast | kern/exports/trainer_cards.py:392-393 | the remainder becomes the last line when it is non-empty and there is room |
| CardsText.WrappedBounds | kern/exports/trainer_cards.py:383-393 | at most three lines, each non-empty, stripped and at most 42 characters; a stripped sentence of at most 42 characters is one line, or none when empty |
| CardsText.WrapFromBounds | kern/exports/trainer_cards.py:386-393 | every line is good and there are no more than the room left |
| CardsText.CutSplitsWell | kern/exports/trainer_cards.py:387-391 | the loop's split gives a good line and a stripped rest |
| CardsText.CutSplitOfLoop | kern/exports/trainer_cards.py:387-391 | the loop body's cut and split are those of the split rule |
| CardsText.LineFromCut | kern/exports/trainer_cards.py:390 | the stripped head before a cut is a good line |
| CardsText.WrapDropsTail | kern/exports/trainer_cards.py:383-393 | a 130-letter sentence without blanks keeps three 42-letter lines and drops the last four letters |
| CardsText.NoBlankSplit | kern/exports/trainer_cards.py:387-391 | a long text without blanks is cut after 42 characters |
| CardsText.ShortLabelFits | kern/exports/trainer_cards.py:191-193 | the label is at most 40 characters: the stripped payload with " • " for line breaks, cut to 37 plus "..." when longer |
| CardsGrid.GridFillsPage | kern/exports/trainer_cards.py:265-276 | the columns and gaps fill the width inside the margins, the rows and gaps fill the height, and margin and gap are the policy's millimetres |
| CardsGrid.CardXYRowMajor | kern/exports/trainer_cards.py:281-286 | slot `r * cols + c` is column c of row r |
| CardsGrid.CardsApart | kern/exports/trainer_cards.py:281-286 | two different slots are at least a gap apart, across or down |
| CardsGrid.SlotOrder | kern/exports/trainer_cards.py:282-283 | a later slot is in a later row, or in a later column of the same row |
| CardsGrid.ColumnsApart | kern/exports/trainer_cards.py:284 | a later column starts at least a card and a gap to the right |
| CardsGrid.RowsApart | kern/exports/trainer_cards.py:285 | a later row ends at least a card and a gap lower |
| CardsGrid.CardsInsideMargins | kern/exports/trainer_cards.py:265-286 | with non-negative sizes, every slot of a full page lies inside the outer margins |
| CardsGrid.SlotInside | kern/exports/trainer_cards.py:281-286 | a slot of a grid that fills the page lies inside the margins |
| CardsGrid.RowOfSlot | kern/exports/trainer_cards.py:282-283 | slot i is in row `i // cols` and column `i % cols`, both in range |
| CardsGrid.ColumnInside | kern/exports/trainer_cards.py:284 | every column lies inside the side margins |
| CardsGrid.RowInside | kern/exports/trainer_cards.py:285 | every row lies inside the top and bottom margins |
| CardsGrid.DefaultGridFits | kern/exports/trainer_cards.py:29-33 | the shipped policy on A4 gives positive card sizes, gap and margin (also lines 265-276) |
| CardsGrid.BatchesConcat | kern/exports/trainer_cards.py:289-292 | the batches hold the vocabulary in order, each entry once (also line 433) |
| CardsGrid.BatchCount | kern/exports/trainer_cards.py:289-292 | there are `ceil(len / per)` batches (also line 433) |
| CardsGrid.BatchSizes | kern/exports/trainer_cards.py:292 | every batch holds 1 to `per` entries, and all but the last exactly `per` |
| CardsGrid.BatchSlot | kern/exports/trainer_cards.py:289-292 | entry i is slot `i % per` of batch `i // per` (also line 433) |
| TrainerCards.CoerceVocab | kern/exports/trainer_cards.py:59-81 | the loops give the same entries as `CoercedVocab`, the legacy filter included |
| TrainerCards.ReadTermEntries | kern/exports/trainer_cards.py:76-79 | one entry per dict item, in order |
| TrainerCards.BuildLegacyLookup | kern/exports/trainer_cards.py:84-95 | the loop builds the lookup: empty unless `items` is a list, each dict item stored under its non-empty term |
| TrainerCards.LastByKeyWins | kern/exports/trainer_cards.py:89-94 | a key is present exactly when some item has it, and it maps to the last such item |
| TrainerCards.LookupLastWins | kern/exports/trainer_cards.py:89-94 | a term is in the lookup exactly when a dict item has it as its stripped term, and it maps to the last such item |
| TrainerCards.SentenceIsPicked | kern/exports/trainer_cards.py:363-365 | the card's sentence is what `_pick_example_for_word` picks, and it is never empty |
| TrainerCards.SlotsAt | kern/exports/trainer_cards.py:310 | card k of a page shows entry k of its batch in slot k (also line 358) |
| TrainerCards.PagePairsAt | kern/exports/trainer_cards.py:291-433 | page 2b is the front and page 2b+1 the back of batch b; there are twice as many pages as batches |
| TrainerCards.DeckPagesAt | kern/exports/trainer_cards.py:291-433 | page 2b of the deck is batch b's front page and page 2b+1 its back page |
| TrainerCards.PagePairsSnoc | kern/exports/trainer_cards.py:342 | one more batch adds its front page and then its back page (also line 432) |
| TrainerCards.FrontAt | kern/exports/trainer_cards.py:310-340 | front card k shows entry k of the batch |
| TrainerCards.BackAt | kern/exports/trainer_cards.py:358-430 | back card k shows entry k of the batch |
| TrainerCards.RestIsSuffix | kern/exports/trainer_cards.py:292 | the remaining entries are the suffix from `start`, or nothing once past the end |
| TrainerCards.CardsLoopDiverges | kern/exports/trainer_cards.py:289-291 | with a negative `cols * rows`, `start` never rises above 0 and the vocabulary is never empty, so the batch loop never ends |
| TrainerCards.ExportTrainerCards | kern/exports/trainer_cards.py:232-437 | the method returns the error for a non-dict payload and otherwise the deck of `CardsDeckOf` |
| TrainerCards.DeckInputs | kern/exports/trainer_cards.py:258-263 | the subject, the coerced vocabulary (one blank entry when empty) and the legacy lookup |
| TrainerCards.ExportDeckIs | kern/exports/trainer_cards.py:232-437 | the pages of the batch loop are the export's deck |
| TrainerCards.DrawsOwnPages | kern/exports/trainer_cards.py:294-432 | the export's own page makers draw every batch's front and back page |
| TrainerCards.DeckLoop | kern/exports/trainer_cards.py:289-433 | the batch loop gives a front page and then a back page per batch of `per` entries |
| TrainerCards.AddBatchPages | kern/exports/trainer_cards.py:294-432 | the loop body appends the batch's front page and back page |
| TrainerCards.BatchStep | kern/exports/trainer_cards.py:291-292 | one turn of the loop takes the next batch off the remaining entries (also line 433) |
| TrainerCards.FrontCards | kern/exports/trainer_cards.py:310-340 | the front loop gives one front card per entry of the batch |
| TrainerCards.BackCards | kern/exports/trainer_cards.py:358-430 | the back loop gives one back card per entry of the batch |
| TrainerCards.BackCardAt | kern/exports/trainer_cards.py:363-424 | one back card: the sentence, its wrapped lines, and the QR zone for the payload |
| TrainerCards.PairsSlotAt | kern/exports/trainer_cards.py:289-433 | entry i is in batch `i / per`, whose front page is page `2 * (i / per)` and back page the next one |
| TrainerCards.PagesOfBatch | kern/exports/trainer_cards.py:342 | batch b's pages are page 2b and page 2b+1 (also line 432) |
| ExportOrchestrator.DecimalDigitsValue | kern/export_orchestrator.py:67-108 | the digits of a natural read back as that natural |
| ExportOrchestrator.DecimalTrimmed | kern/export_orchestrator.py:67-108 | the decimal text of an int has no outer whitespace |
| ExportOrchestrator.ParseUnsigned | kern/export_orchestrator.py:67-108 | a stripped run of digits parses as its value |
| ExportOrchestrator.ParseNegative | kern/export_orchestrator.py:67-108 | a minus sign before a stripped run of digits parses as the negated value |
| ExportOrchestrator.IntOfDecimal | kern/export_orchestrator.py:67-108 | `int(str(i)) == i` for every int, as a `min_pages` keyword argument |
| ExportOrchestrator.IntOfParsed | kern/export_orchestrator.py:67-108 | a string that parses as n converts to n |
| ExportOrchestrator.ItemsOfList | kern/export_orchestrator.py:118 | a list of items is iterated as itself |
| ExportOrchestrator.BridgeLegacy | kern/export_orchestrator.py:114-136 | the bridge loop gives the payload of `BridgedOf` |
| ExportOrchestrator.BridgedItemEntry | kern/export_orchestrator.py:119-123 | the vocabulary dict made for an item reads back as the entry of its non-empty term |
| ExportOrchestrator.BridgedEntries | kern/export_orchestrator.py:117-123 | the exporters read from the bridged vocabulary exactly the legacy entries |
| ExportOrchestrator.PayloadFields | kern/export_orchestrator.py:125-136 | what each key of the bridged payload holds |
| ExportOrchestrator.BridgedFields | kern/export_orchestrator.py:114-136 | the bridged payload's module, subject, vocab, images, options and items |
| ExportOrchestrator.BridgeKeepsSubject | kern/export_orchestrator.py:115-127 | the bridged payload keeps the subject, already stripped |
| ExportOrchestrator.BridgeVocab | kern/export_orchestrator.py:114-136 | the exporters read from the bridged payload the entries of the legacy items |
| ExportOrchestrator.BridgeKeepsLookup | kern/export_orchestrator.py:134-135 | the bridged payload keeps the items, so the cards find the same legacy examples and icon slugs |
| ExportOrchestrator.BridgeShape | kern/export_orchestrator.py:125-136 | the bridged payload is a "trainer_v2" dict with no images and the given `lines` option |
| ExportOrchestrator.BridgeKeepsVocab | kern/export_orchestrator.py:114-136 | without a non-empty `vocab` list of its own, the bridged payload gives the exporters the same vocabulary as the original |
| ExportOrchestrator.RunExport | kern/export_orchestrator.py:7-111 | a non-dict payload is rejected; a call is made exactly for a known mode with a "trainer_v2" module or a legacy items list, and for the KDP book only when `int(min_pages)` succeeds |
| ExportOrchestrator.RunExportTarget | kern/export_orchestrator.py:37-109 | a successful request reaches the exporter named by its stripped mode |
| ExportOrchestrator.V2PassesPayload | kern/export_orchestrator.py:37-70 | a "trainer_v2" module wins over legacy items, and its payload goes to the exporter unchanged, or an unsupported-mode error is raised |
| ExportOrchestrator.DispatchPayload | kern/export_orchestrator.py:38-68 | the call carries the payload it was given |
| ExportOrchestrator.LegacyRoute | kern/export_orchestrator.py:75-109 | the legacy route with a known mode dispatches the bridged payload |
| ExportOrchestrator.LegacyIsBridged | kern/export_orchestrator.py:75-109 | a legacy request is bridged with the mode's `lines` value before export: the kwarg for A4, False for cards, True for KDP |
| ExportOrchestrator.UnsupportedRequest | kern/export_orchestrator.py:111 | a request that is neither "trainer_v2" nor a legacy items list with a known mode is rejected with the unsupported-request message |
| ExportOrchestrator.RunExportDefaults | kern/export_orchestrator.py:40-108 | without keyword arguments the titles default by route and mode, and `min_pages` defaults to 24 |
| ExportOrchestrator.ModeStripped | kern/export_orchestrator.py:31 | surrounding whitespace in the mode never changes the outcome |
| AppTrainer.ParseVocabLines | app_trainer.py:13-31 | the function returns the items of `ParsedVocab`, with None read as the empty text |
| AppTrainer.ParseLines | app_trainer.py:21-30 | at most one item per line, in line order |
| AppTrainer.ParseOneLine | app_trainer.py:22-30 | nothing for a blank line; otherwise the parsed item |
| AppTrainer.SplitLinesBlank | app_trainer.py:21-24 | every line of an all-whitespace text is all whitespace |
| AppTrainer.ParseBlank | app_trainer.py:21-24 | no text, or only whitespace, gives no items |
| AppTrainer.ParsedInLineOrder | app_trainer.py:20-31 | the items come from the lines in order, at most one per line; a line gives an item exactly when it is not blank |
| AppTrainer.StrippedPartsNoSeparator | app_trainer.py:26 | no stripped part holds the separator |
| AppTrainer.ParseLineIs | app_trainer.py:22-30 | a non-blank line gives the stripped text before its first `;` and the stripped rest re-joined by `;`, or the whole line and ""; the word never holds `;` |
| AppTrainer.BuildTrainerPdf | app_trainer.py:34-105 | the page loop gives `TrainerPages`, with the image counter advancing only when there are uploads |
| AppTrainer.PagePerItem | app_trainer.py:57-72 | one page per item, headed "Vokabel i / n", with the word cut to 35 characters and the translation, when present, cut to 60 |
| AppTrainer.ImagesInTurn | app_trainer.py:76-93 | without uploads no page has an image; with uploads page k shows upload `k % len(uploads)`, so every upload appears once there are as many pages as uploads |
| AppTrainer.BoxesInsideSafeZone | app_trainer.py:40-97 | on both formats the word, image and notes boxes span the usable width inside the safe zone, below the header |
| RandomSource.FreshChoice | quest_data.py:161-167 | the first choice of a fresh generator is an element of the pool |
| RandomSource.Rng.constructor | engine_sketch.py:234-271 | a fresh generator has its seed and has made no draws |
| RandomSource.Rng.Random | engine_sketch.py:103 | a draw in [0, 1), advancing the generator by one (also lines 114, 185-186) |
| RandomSource.Rng.RandInt | engine_sketch.py:104-115 | `randint(a, b)` lies in a..b, advancing the generator by one |
| RandomSource.Rng.Choice | engine_sketch.py:187 | `choice(xs)` is an element of xs, advancing the generator by one |
| RandomSource.Rng.Sample | engine_sketch.py:164 | `sample(population, k)`: k elements taken from the population without replacement, distinct when the population is |
| EngineSketch.Clamp | engine_sketch.py:39-40 | the result lies in [lo, hi], is v inside the range, lo below it and hi above it |
| EngineSketch.ClampIdempotent | engine_sketch.py:39-40 | clamping twice to the same range changes nothing more |
| EngineSketch.ClampMonotone | engine_sketch.py:39-40 | clamping keeps order |
| EngineSketch.ReducedCount | engine_sketch.py:84-98 | the reduction stops at a count in 2..n, never below 4 when n > 4 and unchanged when n <= 4; more than 4 cells only when they are at least 4 mm; every larger count had too small cells |
| EngineSketch.ReducedCountKeeps | engine_sketch.py:93-98 | a count whose cells are already large enough is kept |
| EngineSketch.ReduceGrid | engine_sketch.py:85-98 | the reduction loop gives `ReducedCount` and the matching cell size |
| EngineSketch.CellsExcept | engine_sketch.py:106-121 | n - 1 cells in increasing order, all below n, none of them the gap |
| EngineSketch.CellsExceptCovers | engine_sketch.py:106-121 | every cell except the gap gets a segment |
| EngineSketch.WallCells | engine_sketch.py:106-110 | the segment loop gives `CellsExcept` |
| EngineSketch.WallsShape | engine_sketch.py:102-121 | at most one wall per line of the range, in increasing line order; each gap is a cell of the wall, and its cells are all the others |
| EngineSketch.WallsByDensity | engine_sketch.py:103-114 | at density 1 every line gets a wall; at density 0 none does |
| EngineSketch.DrawWalls | engine_sketch.py:102-121 | the wall loop gives `WallsFrom` and consumes its draws |
| EngineSketch.DrawMaze | engine_sketch.py:55-136 | `_draw_maze` gives `MazeOf` and consumes `MazeSteps` draws |
| EngineSketch.MazeGrid | engine_sketch.py:79-98 | at least two cells each way, more than four only with cells of at least 4 mm; the cells exactly divide the inner box; the start and end markers sit at the centres of the first and last cell (also lines 131-134) |
| EngineSketch.MazeWalls | engine_sketch.py:102-121 | each vertical or horizontal wall lies on an inner grid line and has a segment for every cell but its one gap |
| EngineSketch.Scaled | engine_sketch.py:185-186 | a draw in [0, 1) scaled by a positive span lies in [lo, lo + span) |
| EngineSketch.IconsFrom | engine_sketch.py:184-187 | exactly n icons |
| EngineSketch.PlaceIcons | engine_sketch.py:184-194 | the icon loop gives `IconsFrom` and consumes three draws per icon |
| EngineSketch.Span | engine_sketch.py:185-186 | `max(1.0, len - 2 * pad)`: always positive, and the padded length when that is at least 1 |
| EngineSketch.DrawSeekObjects | engine_sketch.py:152-194 | two distinct target shapes named in the instruction, then `max(1, icons_count)` icons in the padded box |
| EngineSketch.IconInBox | engine_sketch.py:185-187 | an icon has one of the three shapes and lies in its box |
| EngineSketch.IconsInside | engine_sketch.py:178-187 | every icon has one of the three shapes and lies in the padded maze box |
| EngineSketch.MazeBoxInside | engine_sketch.py:243-249 | in an area that is not too cramped, the maze and the instruction line below it lie inside the area, and the maze is at least 30 mm tall |
| EngineSketch.ActivityMaze | engine_sketch.py:234-267 | the maze is drawn by `random.Random(seed)` in the maze box, with the density clamped to [0, 1] |
| EngineSketch.ActivitySeek | engine_sketch.py:271-282 | the seek objects are drawn by `random.Random(seed ^ 0x9E3779B9)` in the same box: two distinct targets, then the icons |
| EngineSketch.RenderActivityPage | engine_sketch.py:200-282 | below 30 mm across or 50 mm up only the notice is drawn; otherwise the title, the maze and the seek objects, each from its own generator |

## Left out

- Drawing is not modelled: ReportLab canvas calls, fonts, colours, line widths, crop marks, watermarks, icons, wall segment coordinates and PDF bytes. Pages are values that describe what is drawn.
- The Streamlit UIs of app.py and app_trainer.py are not modelled. Of the UI, only the age-to-difficulty map and the `min_pages` choice are (app.py:470,478).
- Image decoding, resizing and sanitising (PIL, OpenCV, `_open_sanitized`) are not modelled. `EmbedImage` takes the decoded size or the failure as a parameter. In `ThumbCache.Get` a thumbnail is an abstract record of the upload's bytes and the target size, and decoding is assumed to succeed, although `_open_sanitized` can raise (cover_collage.py:60).
- `ThumbCache` takes the SHA-256 hex digest of the cache key (`hashlib.sha256(img_bytes).hexdigest()`, cover_collage.py:56) as its `hexOf` function parameter.
- QR generation is not modelled. A back card holds the payload, or the placeholder when `qrcode` is unavailable; that availability is a parameter.
- `_stable_seed` (SHA-256) is a parameter: a function returning a natural below 2^64.
- `random.Random` is not Python's Mersenne Twister. A draw is an uninterpreted function of the seed and the draw count, and only its range is known. `Rng.Sample` follows CPython's pool algorithm for small populations.
- Floating point is modelled as exact reals. The spine width is integer thousandths of an inch with round-half-even on exact values; float rounding is not reproduced.
- `PyValue.Repr`: the text of floats and other objects is given as data, and `repr` of bytes and strings covers the common cases only (no escapes beyond `\xNN`).
- `ExportOrchestrator.IntOf`: `int()` of a string accepts an optional sign and ASCII digits only. Underscores, other Unicode digits and the float/bytes conversions are not modelled.
- `ExportOrchestrator.BridgeLegacy` iterates only `items` lists (or a falsy `items`); iterating a dict or string `items` on the legacy route cannot arise, because that route requires a list.
- The export switch stops at the call it makes. `trainer_a4` (kern/export_orchestrator.py:39) is not part of this model.
- `CoverCollage.PickIndices` requires `need <= n_total` and `n_total` coprime to 9973, so the loop terminates. `PickDiverges` proves that for `need > n_total` the source's loop runs forever.
- `CoverCollage.RenderTemplate` inherits the requirement of `PickIndices`. A template that needs more tiles than there are uploads (the source never returns), or an upload count that is a multiple of 9973, is not modelled.
- `TrainerCards.ExportTrainerCards` (and `CardsDeckOf`) requires `cols * rows >= 0`. The policy comes from the caller (kern/export_orchestrator.py:46, merged at kern/exports/trainer_cards.py:252-253). With a negative product the batch loop never ends (kern/exports/trainer_cards.py:291,433), which `CardsLoopDiverges` proves. The policy's `int()` and `float()` conversions (kern/exports/trainer_cards.py:265-270) are taken as done: the model's policy already holds an int column and row count and real margin and gap.
- `CardsText.IconSlugChoice` uses `PyStr.Lower`, which lower-cases A-Z, the Latin-1 capitals, ẞ, the Kelvin sign, the Angstrom sign and İ as Python does. It leaves every other character unchanged, including the capitals of other scripts. No such capital lower-cases to a letter of the icon keywords, so the icon choice is not affected, but `Lower` is not Python's `str.lower()` in general.
- `EngineSketch`: `min_cell_mm` and `seek_text_gap_mm` of `ActivityLayout` are never read by the code; the 4 mm minimum cell is hard-coded (engine_sketch.py:92).
- A payload with an empty vocabulary still gives one blank entry (kern/exports/trainer_kdp.py:94-95, trainer_cards.py:262-263); the empty canvas of app_trainer.py with no items is an empty page list.
- `quest_data.pick_mission_for_time` takes the hour, the difficulty and the seed (quest_data.py:159), and the model takes exactly those.
- The thumbnail cache evicts its oldest insertion once it holds more than 96 keys (cover_collage.py:63-65, whose comment calls this "LRU-ish"). A hit does not refresh a key, in the code and in the model.
- The missing-module error of `build_interior_pdf` (app.py:361-362) depends on an import failing and is not modelled.
- Calls that do not match their callee are recorded here, not modelled:
  - app.py:390 passes `audience="kid"` to `pick_mission_for_time`, which has no such parameter (quest_data.py:159). The model calls it with hour, difficulty and seed.
  - app.py:364-366, kern/exports/trainer_cards.py:255-256 and kern/exports/trainer_kdp.py:86-88 call `get_page_spec` with a positional mode and read `["pagesize"]` and `["margin"]`. kern/pdf_engine.py:22 takes only the keyword `kdp_mode` and returns a dataclass. The model uses the page sizes of the named format.
  - kern/exports/trainer_kdp.py:129 and kern/exports/trainer_cards.py:312,360 pass `line_width=1` to `draw_box`, which has no such parameter (kern/pdf_engine.py:34-46).
  - kern/__init__.py:13-19 imports `draw_writing_area`, `draw_brand_mark` and `draw_icon`, which kern/pdf_engine.py does not define.
  - kern/exports/trainer_kdp.py:12-17 imports `draw_brand_mark` and `draw_writing_area`, and kern/exports/trainer_cards.py:12-17 imports `draw_brand_mark` and `draw_icon`, from kern/pdf_engine.py, which defines none of them (only `get_page_spec`, `draw_box` and `embed_image`).
